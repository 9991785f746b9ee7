/** Freezing and canonicalising JSON-like values, and the text an effect id is hashed from. */
module EffectId {
  import opened Kernel
  import opened Text
  import opened Json
  import opened JsonNumbers
  import JsonText
  import opened Sorting

  // ----- Values ------------------------------------------------------------------------

  datatype MapKey = Name(name: string) | OtherKey(identity: nat)

  datatype Entry = Entry(key: MapKey, value: Value)

  /** What callers pass in: mappings in insertion order, lists and tuples apart, floats by their text. */
  datatype Value =
    | NoneValue
    | BoolValue(flag: bool)
    | IntValue(n: int)
    | FloatValue(text: string)
    | NonFinite
    | StrValue(s: string)
    | ListValue(items: seq<Value>)
    | TupleValue(items: seq<Value>)
    | Mapping(entries: seq<Entry>)
    | Unsupported

  datatype EffectError = BlankOperation | KeyNotString | NotFinite | UnsupportedType

  /** The language's own guarantees: mapping keys are distinct and float text is float text. */
  ghost predicate IsValue(v: Value) {
    match v
    case FloatValue(text) => IsFloatText(text)
    case ListValue(items) => forall i :: 0 <= i < |items| ==> IsValue(items[i])
    case TupleValue(items) => forall i :: 0 <= i < |items| ==> IsValue(items[i])
    case Mapping(entries) =>
      && (forall i, j :: 0 <= i < j < |entries| ==> entries[i].key != entries[j].key)
      && forall i :: 0 <= i < |entries| ==> IsValue(entries[i].value)
    case _ => true
  }

  predicate Accepted(v: Value) {
    match v
    case NonFinite => false
    case Unsupported => false
    case ListValue(items) => forall i :: 0 <= i < |items| ==> Accepted(items[i])
    case TupleValue(items) => forall i :: 0 <= i < |items| ==> Accepted(items[i])
    case Mapping(entries) =>
      forall i :: 0 <= i < |entries| ==> entries[i].key.Name? && Accepted(entries[i].value)
    case _ => true
  }

  /** Freezing and canonicalising walk a value alike and rebuild sequences as tuples or as lists. */
  datatype Form = Frozen | Canonical

  function Rebuild(v: Value, form: Form): (r: Result<Value, EffectError>)
    ensures r.Ok? <==> Accepted(v)
    ensures r.Ok? ==> Accepted(r.value)
    decreases v, 0
  {
    match v
    case Mapping(entries) =>
      (match RebuildEntries(entries, form)
       case Ok(rebuilt) => Ok(Mapping(rebuilt))
       case Err(e) => Err(e))
    case ListValue(items) => RebuildSequence(items, form)
    case TupleValue(items) => RebuildSequence(items, form)
    case NonFinite => Err(NotFinite)
    case Unsupported => Err(UnsupportedType)
    case _ => Ok(v)
  }

  function RebuildSequence(items: seq<Value>, form: Form): (r: Result<Value, EffectError>)
    ensures r.Ok? <==> forall i :: 0 <= i < |items| ==> Accepted(items[i])
    ensures r.Ok? ==> Accepted(r.value)
    decreases items, 2
  {
    match RebuildItems(items, form)
    case Ok(rebuilt) => Ok(if form == Frozen then TupleValue(rebuilt) else ListValue(rebuilt))
    case Err(e) => Err(e)
  }

  function RebuildItems(items: seq<Value>, form: Form): (r: Result<seq<Value>, EffectError>)
    ensures r.Ok? <==> forall i :: 0 <= i < |items| ==> Accepted(items[i])
    ensures r.Ok? ==> |r.value| == |items| &&
                      forall i :: 0 <= i < |items| ==> Rebuild(items[i], form) == Ok(r.value[i])
    decreases items, 1
  {
    if items == [] then Ok([]) else
      assert items == [items[0]] + items[1..];
      match Rebuild(items[0], form)
      case Err(e) => Err(e)
      case Ok(first) =>
        match RebuildItems(items[1..], form)
        case Err(e) => Err(e)
        case Ok(rest) => Ok([first] + rest)
  }

  function RebuildEntry(entry: Entry, form: Form): (r: Result<Entry, EffectError>)
    ensures r.Ok? <==> entry.key.Name? && Accepted(entry.value)
    ensures r.Ok? ==> r.value.key == entry.key && Accepted(r.value.value)
    decreases entry, 0
  {
    match entry
    case Entry(OtherKey(_), _) => Err(KeyNotString)
    case Entry(key, value) =>
      match Rebuild(value, form)
      case Ok(rebuilt) => Ok(Entry(key, rebuilt))
      case Err(e) => Err(e)
  }

  function RebuildEntries(entries: seq<Entry>, form: Form): (r: Result<seq<Entry>, EffectError>)
    ensures r.Ok? <==> forall i :: 0 <= i < |entries| ==> entries[i].key.Name? && Accepted(entries[i].value)
    ensures r.Ok? ==> |r.value| == |entries| &&
                      forall i :: 0 <= i < |entries| ==> RebuildEntry(entries[i], form) == Ok(r.value[i])
    decreases entries, 1
  {
    if entries == [] then Ok([]) else
      assert entries == [entries[0]] + entries[1..];
      match RebuildEntry(entries[0], form)
      case Err(e) => Err(e)
      case Ok(first) =>
        match RebuildEntries(entries[1..], form)
        case Err(e) => Err(e)
        case Ok(rest) => Ok([first] + rest)
  }

  // ----- Printing with sorted keys -------------------------------------------------------

  function ToJson(v: Value): (j: Json)
    requires Accepted(v)
    decreases v, 0
  {
    match v
    case NoneValue => Null
    case BoolValue(flag) => Bool(flag)
    case IntValue(n) => Int(n)
    case FloatValue(text) => Float(text)
    case StrValue(s) => Str(s)
    case ListValue(items) => Arr(ItemsToJson(items))
    case TupleValue(items) => Arr(ItemsToJson(items))
    case Mapping(entries) => Obj(Unkey(Sort(KeyedMembers(entries))))
  }

  function ItemsToJson(items: seq<Value>): (js: seq<Json>)
    requires forall i :: 0 <= i < |items| ==> Accepted(items[i])
    ensures |js| == |items| && forall i :: 0 <= i < |items| ==> js[i] == ToJson(items[i])
    decreases items, 1
  {
    if items == [] then [] else [ToJson(items[0])] + ItemsToJson(items[1..])
  }

  function KeyedMember(entry: Entry): (k: Keyed<Member>)
    requires entry.key.Name? && Accepted(entry.value)
    ensures k.key == CodePoints(entry.key.name) && k.item.name == entry.key.name
    decreases entry, 0
  {
    match entry
    case Entry(Name(name), value) => Keyed(CodePoints(name), Member(name, ToJson(value)))
  }

  function KeyedMembers(entries: seq<Entry>): (ks: seq<Keyed<Member>>)
    requires forall i :: 0 <= i < |entries| ==> entries[i].key.Name? && Accepted(entries[i].value)
    ensures |ks| == |entries| && forall i :: 0 <= i < |entries| ==> ks[i] == KeyedMember(entries[i])
    decreases entries, 1
  {
    if entries == [] then [] else [KeyedMember(entries[0])] + KeyedMembers(entries[1..])
  }

  function Unkey(ks: seq<Keyed<Member>>): (ms: seq<Member>)
    ensures |ms| == |ks| && forall i :: 0 <= i < |ks| ==> ms[i] == ks[i].item
  {
    seq(|ks|, i requires 0 <= i < |ks| => ks[i].item)
  }

  // ----- When two values print alike --------------------------------------------------------

  /** Equal up to mapping order and list or tuple form; scalars agree in kind and printed text. */
  ghost predicate Same(a: Value, b: Value)
    decreases a
  {
    match a
    case ListValue(items) =>
      (b.ListValue? || b.TupleValue?) && |items| == |b.items| && forall i :: 0 <= i < |items| ==> Same(items[i], b.items[i])
    case TupleValue(items) =>
      (b.ListValue? || b.TupleValue?) && |items| == |b.items| && forall i :: 0 <= i < |items| ==> Same(items[i], b.items[i])
    case Mapping(entries) =>
      b.Mapping? && |entries| == |b.entries| && EntriesWithin(entries, b.entries)
    case _ => a == b
  }

  ghost predicate SameEntry(x: Entry, y: Entry)
    decreases x, 0
  {
    x.key == y.key && Same(x.value, y.value)
  }

  /** Every entry of `xs` has an equal one among `ys`. */
  ghost predicate EntriesWithin(xs: seq<Entry>, ys: seq<Entry>)
    decreases xs
  {
    forall i :: 0 <= i < |xs| ==> HasEntry(xs[i], ys)
  }

  ghost predicate HasEntry(x: Entry, ys: seq<Entry>)
    decreases x, 1
  {
    exists j :: 0 <= j < |ys| && SameEntry(x, ys[j])
  }

  lemma EntryThere(x: Entry, ys: seq<Entry>, j: nat)
    requires j < |ys| && SameEntry(x, ys[j])
    ensures HasEntry(x, ys)
  {
  }

  lemma KeyedMembersDistinct(v: Value)
    requires v.Mapping? && IsValue(v) && Accepted(v)
    ensures DistinctKeys(KeyedMembers(v.entries)) && Distinct(KeyedMembers(v.entries))
  {
    var ks := KeyedMembers(v.entries);
    forall i, j | 0 <= i < j < |ks| ensures ks[i].key != ks[j].key {
      assert v.entries[i].key != v.entries[j].key;
      if ks[i].key == ks[j].key {
        CodePointsInjective(v.entries[i].key.name, v.entries[j].key.name);
      }
    }
  }

  predicate KeyedByName(xs: seq<Keyed<Member>>) {
    forall i :: 0 <= i < |xs| ==> xs[i].key == CodePoints(xs[i].item.name)
  }

  lemma UnkeyInjective(xs: seq<Keyed<Member>>, ys: seq<Keyed<Member>>)
    requires KeyedByName(xs) && KeyedByName(ys) && Unkey(xs) == Unkey(ys)
    ensures xs == ys
  {
    assert |xs| == |Unkey(xs)| == |ys|;
    forall i | 0 <= i < |xs| ensures xs[i] == ys[i] {
      assert Unkey(xs)[i] == Unkey(ys)[i];
    }
  }

  lemma SortKeepsNames(xs: seq<Keyed<Member>>)
    requires KeyedByName(xs)
    ensures KeyedByName(Sort(xs))
  {
    forall i | 0 <= i < |Sort(xs)| ensures Sort(xs)[i].key == CodePoints(Sort(xs)[i].item.name) {
      SortMember(xs, i);
    }
  }

  ghost predicate Within(xs: seq<Keyed<Member>>, ys: seq<Keyed<Member>>) {
    forall x :: x in xs ==> x in ys
  }

  lemma SameSizeSubset(ka: seq<Keyed<Member>>, kb: seq<Keyed<Member>>)
    requires Distinct(ka) && Distinct(kb)
    ensures (forall x :: x in ka <==> x in kb) <==> |ka| == |kb| && Within(ka, kb)
  {
    DistinctSize(ka);
    DistinctSize(kb);
    assert forall x :: x in ka <==> x in Elements(ka);
    assert forall x :: x in kb <==> x in Elements(kb);
    if forall x :: x in ka <==> x in kb {
      assert Elements(ka) == Elements(kb);
    } else if |ka| == |kb| && Within(ka, kb) {
      SubsetOfSameSize(Elements(ka), Elements(kb));
    }
  }

  lemma SortedPrintsMembers(ka: seq<Keyed<Member>>, kb: seq<Keyed<Member>>)
    requires KeyedByName(ka) && KeyedByName(kb) && DistinctKeys(ka) && DistinctKeys(kb) && Distinct(ka) && Distinct(kb)
    ensures Unkey(Sort(ka)) == Unkey(Sort(kb)) <==> |ka| == |kb| && Within(ka, kb)
  {
    SortCanonical(ka, kb);
    SameSizeSubset(ka, kb);
    SortKeepsNames(ka);
    SortKeepsNames(kb);
    if Unkey(Sort(ka)) == Unkey(Sort(kb)) {
      UnkeyInjective(Sort(ka), Sort(kb));
    }
  }

  lemma EntriesWithinMembers(xs: seq<Entry>, ys: seq<Entry>)
    requires forall i :: 0 <= i < |xs| ==> xs[i].key.Name? && Accepted(xs[i].value)
    requires forall i :: 0 <= i < |ys| ==> ys[i].key.Name? && Accepted(ys[i].value)
    requires forall i, j :: 0 <= i < |xs| && 0 <= j < |ys| ==> (KeyedMember(xs[i]) == KeyedMember(ys[j]) <==> SameEntry(xs[i], ys[j]))
    ensures EntriesWithin(xs, ys) <==> Within(KeyedMembers(xs), KeyedMembers(ys))
  {
    var ka, kb := KeyedMembers(xs), KeyedMembers(ys);
    if EntriesWithin(xs, ys) {
      forall k | k in ka ensures k in kb {
        var i :| 0 <= i < |ka| && ka[i] == k;
        assert HasEntry(xs[i], ys);
        var j :| 0 <= j < |ys| && SameEntry(xs[i], ys[j]);
        assert kb[j] == k;
      }
    }
    if Within(ka, kb) {
      forall i | 0 <= i < |xs| ensures HasEntry(xs[i], ys) {
        assert ka[i] in kb;
        var j :| 0 <= j < |kb| && kb[j] == ka[i];
        EntryThere(xs[i], ys, j);
      }
    }
  }

  lemma {:induction false} MappingsAlike(a: Value, b: Value)
    requires a.Mapping? && b.Mapping? && IsValue(a) && IsValue(b) && Accepted(a) && Accepted(b)
    requires forall i, j :: 0 <= i < |a.entries| && 0 <= j < |b.entries| ==>
               (KeyedMember(a.entries[i]) == KeyedMember(b.entries[j]) <==> SameEntry(a.entries[i], b.entries[j]))
    ensures ToJson(a) == ToJson(b) <==> Same(a, b)
  {
    var ka, kb := KeyedMembers(a.entries), KeyedMembers(b.entries);
    KeyedMembersDistinct(a);
    KeyedMembersDistinct(b);
    SortedPrintsMembers(ka, kb);
    EntriesWithinMembers(a.entries, b.entries);
  }

  /** Two values have the same sorted JSON form exactly when they are equal up to order and list form. */
  lemma {:induction false} SameJson(a: Value, b: Value)
    requires IsValue(a) && IsValue(b) && Accepted(a) && Accepted(b)
    ensures ToJson(a) == ToJson(b) <==> Same(a, b)
    decreases a, 1
  {
    if a.Mapping? && b.Mapping? {
      forall i, j | 0 <= i < |a.entries| && 0 <= j < |b.entries|
        ensures KeyedMember(a.entries[i]) == KeyedMember(b.entries[j]) <==> SameEntry(a.entries[i], b.entries[j])
      {
        SameJsonEntry(a.entries[i], b.entries[j]);
      }
      MappingsAlike(a, b);
    } else if (a.ListValue? || a.TupleValue?) && (b.ListValue? || b.TupleValue?) && |a.items| == |b.items| {
      forall i | 0 <= i < |a.items|
        ensures ToJson(a.items[i]) == ToJson(b.items[i]) <==> Same(a.items[i], b.items[i])
      {
        SameJson(a.items[i], b.items[i]);
      }
      SequencesAlike(a, b);
    }
  }

  lemma {:induction false} SameJsonEntry(x: Entry, y: Entry)
    requires x.key.Name? && y.key.Name? && IsValue(x.value) && IsValue(y.value) && Accepted(x.value) && Accepted(y.value)
    ensures KeyedMember(x) == KeyedMember(y) <==> SameEntry(x, y)
    decreases x, 0
  {
    match (x, y)
    case (Entry(Name(_), v), Entry(Name(_), w)) => SameJson(v, w);
  }

  lemma SequencesAlike(a: Value, b: Value)
    requires Accepted(a) && Accepted(b)
    requires (a.ListValue? || a.TupleValue?) && (b.ListValue? || b.TupleValue?) && |a.items| == |b.items|
    requires forall i :: 0 <= i < |a.items| ==> (ToJson(a.items[i]) == ToJson(b.items[i]) <==> Same(a.items[i], b.items[i]))
    ensures ToJson(a) == ToJson(b) <==> Same(a, b)
  {
    var ja, jb := ItemsToJson(a.items), ItemsToJson(b.items);
    assert ja == jb <==> forall i :: 0 <= i < |a.items| ==> ja[i] == jb[i];
    assert ToJson(a) == Arr(ja) && ToJson(b) == Arr(jb);
  }

  lemma {:induction false} JsonWellFormed(v: Value)
    requires IsValue(v) && Accepted(v)
    ensures WellFormed(ToJson(v))
    decreases v, 1
  {
    match v
    case ListValue(items) => forall i | 0 <= i < |items| ensures WellFormed(ToJson(items[i])) { JsonWellFormed(items[i]); }
    case TupleValue(items) => forall i | 0 <= i < |items| ensures WellFormed(ToJson(items[i])) { JsonWellFormed(items[i]); }
    case Mapping(entries) =>
      var ks := KeyedMembers(entries);
      forall k | k in ks ensures WellFormed(k.item.value) {
        var i :| 0 <= i < |ks| && ks[i] == k;
        EntryWellFormed(entries[i]);
      }
      SortedWellFormed(ks);
    case _ =>
  }

  lemma {:induction false} EntryWellFormed(entry: Entry)
    requires entry.key.Name? && IsValue(entry.value) && Accepted(entry.value)
    ensures WellFormed(KeyedMember(entry).item.value)
    decreases entry, 0
  {
    match entry
    case Entry(Name(_), value) => JsonWellFormed(value);
  }

  lemma SortedWellFormed(ks: seq<Keyed<Member>>)
    requires forall k :: k in ks ==> WellFormed(k.item.value)
    ensures WellFormed(Obj(Unkey(Sort(ks))))
  {
    forall i | 0 <= i < |Sort(ks)| ensures WellFormed(Unkey(Sort(ks))[i].value) {
      SortMember(ks, i);
    }
  }

  // ----- Rebuilding does not show in the text --------------------------------------------------

  lemma {:induction false} RebuildKeeps(v: Value, form: Form)
    requires IsValue(v) && Accepted(v)
    ensures var w := Rebuild(v, form).value; IsValue(w) && Accepted(w) && ToJson(w) == ToJson(v)
    decreases v, 2
  {
    match v
    case ListValue(items) => RebuildKeepsItems(v, form);
    case TupleValue(items) => RebuildKeepsItems(v, form);
    case Mapping(entries) =>
      var rebuilt := RebuildEntries(entries, form).value;
      forall i | 0 <= i < |entries|
        ensures IsValue(rebuilt[i].value) && Accepted(rebuilt[i].value) && KeyedMember(rebuilt[i]) == KeyedMember(entries[i])
      {
        RebuildKeepsEntry(entries[i], form);
      }
      assert KeyedMembers(rebuilt) == KeyedMembers(entries);
    case _ =>
  }

  lemma {:induction false} RebuildKeepsEntry(entry: Entry, form: Form)
    requires entry.key.Name? && IsValue(entry.value) && Accepted(entry.value)
    ensures var w := RebuildEntry(entry, form).value;
            IsValue(w.value) && Accepted(w.value) && KeyedMember(w) == KeyedMember(entry)
    decreases entry, 0
  {
    match entry
    case Entry(Name(_), value) => RebuildKeeps(value, form);
  }

  lemma {:induction false} RebuildKeepsItems(v: Value, form: Form)
    requires (v.ListValue? || v.TupleValue?) && IsValue(v) && Accepted(v)
    ensures var w := Rebuild(v, form).value; IsValue(w) && Accepted(w) && ToJson(w) == ToJson(v)
    decreases v, 0
  {
    var rebuilt := RebuildItems(v.items, form).value;
    forall i | 0 <= i < |v.items|
      ensures IsValue(rebuilt[i]) && Accepted(rebuilt[i]) && ToJson(rebuilt[i]) == ToJson(v.items[i])
    {
      RebuildKeeps(v.items[i], form);
    }
    assert ItemsToJson(rebuilt) == ItemsToJson(v.items);
  }

  /** The first thing wrong with a value does not depend on which of the two walks finds it. */
  lemma {:induction false} SameRefusal(v: Value)
    ensures !Accepted(v) ==> Rebuild(v, Frozen).error == Rebuild(v, Canonical).error
    decreases v, 0
  {
    match v
    case ListValue(items) => SameItemsRefusal(items);
    case TupleValue(items) => SameItemsRefusal(items);
    case Mapping(entries) => SameEntriesRefusal(entries);
    case _ =>
  }

  lemma {:induction false} SameItemsRefusal(items: seq<Value>)
    ensures var f, c := RebuildItems(items, Frozen), RebuildItems(items, Canonical);
            f.Err? ==> c.Err? && f.error == c.error
    decreases items, 1
  {
    if items != [] {
      SameRefusal(items[0]);
      SameItemsRefusal(items[1..]);
    }
  }

  lemma {:induction false} SameEntriesRefusal(entries: seq<Entry>)
    ensures var f, c := RebuildEntries(entries, Frozen), RebuildEntries(entries, Canonical);
            f.Err? ==> c.Err? && f.error == c.error
    decreases entries, 1
  {
    if entries != [] {
      SameEntryRefusal(entries[0]);
      SameEntriesRefusal(entries[1..]);
    }
  }

  lemma {:induction false} SameEntryRefusal(entry: Entry)
    ensures var f, c := RebuildEntry(entry, Frozen), RebuildEntry(entry, Canonical);
            f.Err? ==> c.Err? && f.error == c.error
    decreases entry, 0
  {
    match entry
    case Entry(_, value) => SameRefusal(value);
  }

  // ----- The hashed text ------------------------------------------------------------------------

  /** The four member names, in printed order. */
  function ActionKey(i: nat): (key: MapKey)
    requires i < 4
    ensures key.Name? && key.name != "" && key.name[0] == "elnp"[i]
  {
    Name(if i == 0 then "execution_id" else if i == 1 then "logical_operation" else if i == 2 then "node_id" else "payload")
  }

  function Action(execution: string, node: string, operation: string, payload: Value): (v: Value)
    ensures Accepted(payload) ==> Accepted(v)
  {
    Mapping([Entry(ActionKey(0), StrValue(execution)),
             Entry(ActionKey(1), StrValue(operation)),
             Entry(ActionKey(2), StrValue(node)),
             Entry(ActionKey(3), payload)])
  }

  lemma ActionNames(e: string, n: string, op: string, p: Value)
    ensures var entries := Action(e, n, op, p).entries;
            && |entries| == 4 && (forall i :: 0 <= i < 4 ==> entries[i].key == ActionKey(i))
            && forall i, j :: 0 <= i < j < 4 ==> entries[i].key != entries[j].key
  {
    forall i, j | 0 <= i < j < 4 ensures ActionKey(i) != ActionKey(j) {
      assert ActionKey(i).name[0] != ActionKey(j).name[0];
    }
  }

  /** The text whose SHA-256 digest becomes the effect id. */
  function EffectText(execution: Uuid, node: Uuid, operation: string, payload: Value): (r: Result<string, EffectError>)
    ensures r.Ok? <==> !Blank(operation) && Accepted(payload)
  {
    if Blank(operation) then Err(BlankOperation) else
      match Rebuild(payload, Canonical)
      case Err(e) => Err(e)
      case Ok(canonical) =>
        Ok(Print(ToJson(Action(UuidText(execution), UuidText(node), operation, canonical))))
  }

  lemma ActionIsValue(execution: string, node: string, operation: string, payload: Value)
    requires IsValue(payload) && Accepted(payload)
    ensures IsValue(Action(execution, node, operation, payload)) && Accepted(Action(execution, node, operation, payload))
  {
    ActionNames(execution, node, operation, payload);
  }

  lemma SameAction(e: string, n: string, op: string, p: Value, e': string, n': string, op': string, p': Value)
    ensures Same(Action(e, n, op, p), Action(e', n', op', p')) <==> e == e' && n == n' && op == op' && Same(p, p')
  {
    var xs, ys := Action(e, n, op, p).entries, Action(e', n', op', p').entries;
    ActionNames(e, n, op, p);
    ActionNames(e', n', op', p');
    SameMapping(xs, ys);
    AlignedEntries(xs, ys);
    FourEntries(xs, ys);
    SameText(ActionKey(0), e, e');
    SameText(ActionKey(1), op, op');
    SameText(ActionKey(2), n, n');
  }

  lemma SameMapping(xs: seq<Entry>, ys: seq<Entry>)
    ensures Same(Mapping(xs), Mapping(ys)) <==> |xs| == |ys| && EntriesWithin(xs, ys)
  {
  }

  /** Mappings with the same keys in the same places are compared place by place. */
  lemma AlignedEntries(xs: seq<Entry>, ys: seq<Entry>)
    requires |xs| == |ys| && forall i :: 0 <= i < |xs| ==> xs[i].key == ys[i].key
    requires forall i, j :: 0 <= i < j < |ys| ==> ys[i].key != ys[j].key
    ensures EntriesWithin(xs, ys) <==> forall i :: 0 <= i < |xs| ==> SameEntry(xs[i], ys[i])
  {
    if EntriesWithin(xs, ys) {
      forall i | 0 <= i < |xs| ensures SameEntry(xs[i], ys[i]) {
        AlignedEntry(xs, ys, i);
      }
    }
    if forall i :: 0 <= i < |xs| ==> SameEntry(xs[i], ys[i]) {
      InPlace(xs, ys);
    }
  }

  lemma {:induction false} InPlace(xs: seq<Entry>, ys: seq<Entry>)
    requires |xs| == |ys| && forall i :: 0 <= i < |xs| ==> SameEntry(xs[i], ys[i])
    ensures EntriesWithin(xs, ys)
  {
    forall i | 0 <= i < |xs| ensures HasEntry(xs[i], ys) {
      EntryThere(xs[i], ys, i);
    }
  }

  lemma AlignedEntry(xs: seq<Entry>, ys: seq<Entry>, i: nat)
    requires i < |xs| == |ys| && xs[i].key == ys[i].key && EntriesWithin(xs, ys)
    requires forall i, j :: 0 <= i < j < |ys| ==> ys[i].key != ys[j].key
    ensures SameEntry(xs[i], ys[i])
  {
    assert HasEntry(xs[i], ys);
    var j :| 0 <= j < |ys| && SameEntry(xs[i], ys[j]);
    SameKey(xs[i], ys[j]);
  }

  lemma SameKey(x: Entry, y: Entry)
    requires SameEntry(x, y)
    ensures x.key == y.key
  {
  }

  lemma FourEntries(xs: seq<Entry>, ys: seq<Entry>)
    requires |xs| == |ys| == 4
    ensures (forall i :: 0 <= i < |xs| ==> SameEntry(xs[i], ys[i])) <==>
            SameEntry(xs[0], ys[0]) && SameEntry(xs[1], ys[1]) && SameEntry(xs[2], ys[2]) && SameEntry(xs[3], ys[3])
  {
  }

  lemma SameText(k: MapKey, s: string, s': string)
    ensures SameEntry(Entry(k, StrValue(s)), Entry(k, StrValue(s'))) <==> s == s'
  {
  }

  /** The hashed text identifies the logical action: it is equal for two inputs exactly when ids and
      operation are equal and the payloads are equal up to mapping order and list or tuple form. */
  lemma EffectTextDecides(e: Uuid, n: Uuid, op: string, p: Value, e': Uuid, n': Uuid, op': string, p': Value)
    requires IsValue(p) && IsValue(p') && EffectText(e, n, op, p).Ok? && EffectText(e', n', op', p').Ok?
    ensures EffectText(e, n, op, p) == EffectText(e', n', op', p') <==>
            e == e' && n == n' && op == op' && Same(p, p')
  {
    RebuildKeeps(p, Canonical);
    RebuildKeeps(p', Canonical);
    var c, c' := Rebuild(p, Canonical).value, Rebuild(p', Canonical).value;
    SameJson(c, c');
    SameJson(p, p');
    ActionTextDecides(UuidText(e), UuidText(n), op, c, UuidText(e'), UuidText(n'), op', c');
    UuidTextInjective(e, e');
    UuidTextInjective(n, n');
  }

  lemma ActionTextDecides(e: string, n: string, op: string, p: Value, e': string, n': string, op': string, p': Value)
    requires IsValue(p) && IsValue(p') && Accepted(p) && Accepted(p')
    ensures Print(ToJson(Action(e, n, op, p))) == Print(ToJson(Action(e', n', op', p'))) <==>
            e == e' && n == n' && op == op' && Same(p, p')
  {
    var a, a' := Action(e, n, op, p), Action(e', n', op', p');
    ActionIsValue(e, n, op, p);
    ActionIsValue(e', n', op', p');
    JsonWellFormed(a);
    JsonWellFormed(a');
    if Print(ToJson(a)) == Print(ToJson(a')) {
      JsonText.PrintInjective(ToJson(a), ToJson(a'));
    }
    SameJson(a, a');
    SameAction(e, n, op, p, e', n', op', p');
  }

  /** Freezing a payload first changes neither the text nor the error. */
  lemma FreezingFirstIsInvisible(e: Uuid, n: Uuid, op: string, p: Value)
    requires IsValue(p) && !Blank(op)
    ensures match Rebuild(p, Frozen)
            case Ok(frozen) => EffectText(e, n, op, frozen) == EffectText(e, n, op, p)
            case Err(error) => EffectText(e, n, op, p) == Err(error)
  {
    SameRefusal(p);
    if Accepted(p) {
      var f := Rebuild(p, Frozen).value;
      RebuildKeeps(p, Frozen);
      RebuildKeeps(p, Canonical);
      RebuildKeeps(f, Canonical);
      SameJson(f, p);
      EffectTextDecides(e, n, op, f, e, n, op, p);
    }
  }
}
