/** What the text an effect id is hashed from says: read back, it is the logical action, and a refusal names the
    first thing wrong with the payload. */
module EffectMeaning {
  import opened Kernel
  import opened Text
  import opened Json
  import opened JsonNumbers
  import opened JsonReader
  import opened Sorting
  import opened EffectId
  import JsonText

  // ----- What a JSON document denotes ------------------------------------------------------------

  /** Decimal digits without leading zeros that stand for `n`. */
  predicate Numeral(digits: string, n: nat) {
    digits != "" && (digits[0] == '0' ==> digits == "0") && FixedValue(10, digits) == Some(n)
  }

  predicate Decimal(text: string, n: int) {
    if n < 0 then text != "" && text[0] == '-' && Numeral(text[1..], -n) else Numeral(text, n)
  }

  /** Code-point order: at the first difference, or with the shorter name first. */
  ghost predicate Precedes(a: Points, b: Points) {
    exists k :: 0 <= k <= |a| && k < |b| && a[..k] == b[..k] && (k == |a| || a[k] < b[k])
  }

  /** A value of the language and what a document says: scalars by what they are, lists and tuples item by item, and a
      mapping by exactly its names and values, in the order of the names. */
  ghost predicate Denotes(v: Value, l: Loaded)
    decreases v
  {
    match v
    case NoneValue => l == Nothing
    case BoolValue(flag) => l == Truth(flag)
    case IntValue(n) => l.Number? && Decimal(l.text, n)
    case FloatValue(text) => l == Number(text)
    case StrValue(s) => l == Chars(CodePoints(s))
    case ListValue(items) => l.List? && |l.items| == |items| && forall i :: 0 <= i < |items| ==> Denotes(items[i], l.items[i])
    case TupleValue(items) => l.List? && |l.items| == |items| && forall i :: 0 <= i < |items| ==> Denotes(items[i], l.items[i])
    case Mapping(entries) => l.Dict? && |l.members| == |entries| && InNameOrder(l.members) && EntriesDenote(entries, l.members)
    case NonFinite => false
    case Unsupported => false
  }

  ghost predicate InNameOrder(members: seq<Named>) {
    forall j, k :: 0 <= j < k < |members| ==> Precedes(members[j].name, members[k].name)
  }

  ghost predicate EntriesDenote(entries: seq<EffectId.Entry>, members: seq<Named>)
    decreases entries
  {
    forall i :: 0 <= i < |entries| ==> EntryIn(entries[i], members)
  }

  ghost predicate EntryIn(entry: EffectId.Entry, members: seq<Named>)
    decreases entry, 1
  {
    exists k :: 0 <= k < |members| && EntryDenotes(entry, members[k])
  }

  ghost predicate EntryDenotes(entry: EffectId.Entry, member: Named)
    decreases entry, 0
  {
    entry.key.Name? && member.name == CodePoints(entry.key.name) && Denotes(entry.value, member.value)
  }

  lemma {:induction false} LessPrecedes(a: Key, b: Key)
    requires Less(a, b)
    ensures Precedes(a, b)
  {
    if a == [] || a[0] < b[0] {
      assert a[..0] == b[..0];
    } else {
      LessPrecedes(a[1..], b[1..]);
      var k :| 0 <= k <= |a[1..]| && k < |b[1..]| && a[1..][..k] == b[1..][..k] && (k == |a[1..]| || a[1..][k] < b[1..][k]);
      assert a[..k + 1] == [a[0]] + a[1..][..k] && b[..k + 1] == [b[0]] + b[1..][..k];
    }
  }

  lemma IntDenotes(n: int)
    ensures Decimal(IntText(n), n)
  {
    var size := if n < 0 then -n else n;
    NatStarts(size);
    NatRoundTrip(size);
    assert n < 0 ==> IntText(n)[1..] == NatText(-n);
    assert size == 0 ==> NatText(size) == "0" by {
      assert DIGITS[0] == '0';
    }
  }

  /** The sorted JSON form of every accepted value, read back, denotes the value. */
  lemma {:induction false} JsonDenotes(v: Value)
    requires IsValue(v) && Accepted(v)
    ensures Denotes(v, JsonText.LoadedOf(ToJson(v)))
    decreases v, 1
  {
    match v
    case IntValue(n) => IntDenotes(n);
    case ListValue(items) => forall i | 0 <= i < |items| ensures Denotes(items[i], JsonText.LoadedOf(ToJson(items[i]))) { JsonDenotes(items[i]); }
    case TupleValue(items) => forall i | 0 <= i < |items| ensures Denotes(items[i], JsonText.LoadedOf(ToJson(items[i]))) { JsonDenotes(items[i]); }
    case Mapping(entries) =>
      EntriesRead(v, entries, KeyedMembers(entries));
      var members := MappingLoads(entries);
    case _ =>
  }

  lemma {:induction false} EntriesRead(v: Value, entries: seq<EffectId.Entry>, ks: seq<Keyed<Member>>)
    requires v == Mapping(entries) && IsValue(v) && Accepted(v) && ks == KeyedMembers(entries)
    ensures var members := JsonText.MembersLoaded(Unkey(Sort(ks)));
            |members| == |entries| && InNameOrder(members) && EntriesDenote(entries, members)
    decreases v, 0
  {
    forall i | 0 <= i < |entries|
      ensures EntryDenotes(entries[i], Named(CodePoints(ks[i].item.name), JsonText.LoadedOf(ks[i].item.value)))
    {
      MemberDenotes(entries[i]);
    }
    KeyedMembersDistinct(v);
    MappingDenotes(entries, ks, JsonText.MembersLoaded(Unkey(Sort(ks))));
  }

  lemma {:induction false} MemberDenotes(entry: EffectId.Entry)
    requires entry.key.Name? && IsValue(entry.value) && Accepted(entry.value)
    ensures EntryDenotes(entry, Named(CodePoints(entry.key.name), JsonText.LoadedOf(KeyedMember(entry).item.value)))
    decreases entry, 0
  {
    match entry
    case Entry(Name(_), value) => JsonDenotes(value);
  }

  lemma {:induction false} MappingDenotes(entries: seq<EffectId.Entry>, ks: seq<Keyed<Member>>, members: seq<Named>)
    requires |ks| == |entries| && DistinctKeys(ks) && KeyedByName(ks)
    requires forall i :: 0 <= i < |entries| ==>
               EntryDenotes(entries[i], Named(CodePoints(ks[i].item.name), JsonText.LoadedOf(ks[i].item.value)))
    requires members == JsonText.MembersLoaded(Unkey(Sort(ks)))
    ensures |members| == |entries| && InNameOrder(members) && EntriesDenote(entries, members)
  {
    var sorted := Sort(ks);
    SortSorts(ks);
    SortKeepsNames(ks);
    SameMembers(sorted, ks);
    assert Reads(sorted, members);
    NamesAscend(sorted, members);
    EntriesFound(entries, ks, sorted, members);
  }

  predicate Reads(sorted: seq<Keyed<Member>>, members: seq<Named>) {
    && |members| == |sorted| && KeyedByName(sorted)
    && forall k :: 0 <= k < |sorted| ==> members[k] == Named(CodePoints(sorted[k].item.name), JsonText.LoadedOf(sorted[k].item.value))
  }

  lemma {:induction false} NamesAscend(sorted: seq<Keyed<Member>>, members: seq<Named>)
    requires StrictlySorted(sorted) && Reads(sorted, members)
    ensures InNameOrder(members)
  {
    forall j, k | 0 <= j < k < |members| ensures Precedes(members[j].name, members[k].name) {
      LessPrecedes(sorted[j].key, sorted[k].key);
    }
  }

  lemma {:induction false} EntriesFound(entries: seq<EffectId.Entry>, ks: seq<Keyed<Member>>, sorted: seq<Keyed<Member>>, members: seq<Named>)
    requires Reads(sorted, members) && |ks| == |entries| && forall x :: x in sorted <==> x in ks
    requires forall i :: 0 <= i < |entries| ==>
               EntryDenotes(entries[i], Named(CodePoints(ks[i].item.name), JsonText.LoadedOf(ks[i].item.value)))
    ensures EntriesDenote(entries, members)
  {
    forall i | 0 <= i < |entries| ensures EntryIn(entries[i], members) {
      assert ks[i] in sorted;
      var k :| 0 <= k < |sorted| && sorted[k] == ks[i];
      EntryAt(entries[i], members, k);
    }
  }

  lemma {:induction false} EntryAt(entry: EffectId.Entry, members: seq<Named>, k: nat)
    requires k < |members| && EntryDenotes(entry, members[k])
    ensures EntryIn(entry, members)
  {
  }

  // ----- The action ------------------------------------------------------------------------------

  lemma {:induction false} SortFixes<T>(xs: seq<Keyed<T>>)
    requires StrictlySorted(xs)
    ensures Sort(xs) == xs
  {
    if xs != [] {
      SortFixes(xs[1..]);
      assert xs == [xs[0]] + xs[1..];
      if |xs| > 1 {
        LessTotal(xs[0].key, xs[1].key);
      }
    }
  }

  /** The four members, in printed order. */
  lemma {:induction false} ActionLoads(e: string, n: string, op: string, p: Value)
    requires Accepted(p)
    ensures JsonText.LoadedOf(ToJson(Action(e, n, op, p))) == Dict([
              Named(CodePoints("execution_id"), Chars(CodePoints(e))),
              Named(CodePoints("logical_operation"), Chars(CodePoints(op))),
              Named(CodePoints("node_id"), Chars(CodePoints(n))),
              Named(CodePoints("payload"), JsonText.LoadedOf(ToJson(p)))])
  {
    ActionNames(e, n, op, p);
    EntriesLoad(Action(e, n, op, p).entries, e, n, op, p);
  }

  lemma {:induction false} EntriesLoad(entries: seq<EffectId.Entry>, e: string, n: string, op: string, p: Value)
    requires |entries| == 4
    requires forall i :: 0 <= i < |entries| ==> entries[i].key.Name? && entries[i].key == ActionKey(i) && Accepted(entries[i].value)
    requires entries[0] == EffectId.Entry(ActionKey(0), StrValue(e)) && entries[1] == EffectId.Entry(ActionKey(1), StrValue(op))
    requires entries[2] == EffectId.Entry(ActionKey(2), StrValue(n)) && entries[3] == EffectId.Entry(ActionKey(3), p)
    ensures JsonText.LoadedOf(ToJson(Mapping(entries))) == Dict([
              Named(CodePoints("execution_id"), Chars(CodePoints(e))),
              Named(CodePoints("logical_operation"), Chars(CodePoints(op))),
              Named(CodePoints("node_id"), Chars(CodePoints(n))),
              Named(CodePoints("payload"), JsonText.LoadedOf(ToJson(p)))])
  {
    var members := MappingLoads(entries);
    SortedAction(entries, e, n, op, p, members);
  }

  lemma {:induction false} SortedAction(entries: seq<EffectId.Entry>, e: string, n: string, op: string, p: Value, members: seq<Named>)
    requires |entries| == 4
    requires forall i :: 0 <= i < |entries| ==> entries[i].key.Name? && entries[i].key == ActionKey(i) && Accepted(entries[i].value)
    requires entries[0] == EffectId.Entry(ActionKey(0), StrValue(e)) && entries[1] == EffectId.Entry(ActionKey(1), StrValue(op))
    requires entries[2] == EffectId.Entry(ActionKey(2), StrValue(n)) && entries[3] == EffectId.Entry(ActionKey(3), p)
    requires members == JsonText.MembersLoaded(Unkey(Sort(KeyedMembers(entries))))
    ensures members == [
              Named(CodePoints("execution_id"), Chars(CodePoints(e))),
              Named(CodePoints("logical_operation"), Chars(CodePoints(op))),
              Named(CodePoints("node_id"), Chars(CodePoints(n))),
              Named(CodePoints("payload"), JsonText.LoadedOf(ToJson(p)))]
  {
    var ks := KeyedMembers(entries);
    ActionSorted(entries, ks);
    SortFixes(ks);
    ActionMembers(entries, ks, e, n, op, p, members);
  }

  /** A mapping is read back as an object of its sorted members. */
  lemma {:induction false} MappingLoads(entries: seq<EffectId.Entry>) returns (members: seq<Named>)
    requires forall i :: 0 <= i < |entries| ==> entries[i].key.Name? && Accepted(entries[i].value)
    ensures members == JsonText.MembersLoaded(Unkey(Sort(KeyedMembers(entries))))
    ensures JsonText.LoadedOf(ToJson(Mapping(entries))) == Dict(members)
  {
    var printed := MappingPrints(entries);
    members := ObjectLoads(printed, ToJson(Mapping(entries)));
  }

  lemma {:induction false} MappingPrints(entries: seq<EffectId.Entry>) returns (printed: seq<Member>)
    requires forall i :: 0 <= i < |entries| ==> entries[i].key.Name? && Accepted(entries[i].value)
    ensures printed == Unkey(Sort(KeyedMembers(entries))) && ToJson(Mapping(entries)) == Obj(printed)
  {
    printed := Unkey(Sort(KeyedMembers(entries)));
  }

  lemma {:induction false} ObjectLoads(printed: seq<Member>, j: Json) returns (members: seq<Named>)
    requires j == Obj(printed)
    ensures members == JsonText.MembersLoaded(printed) && JsonText.LoadedOf(j) == Dict(members)
  {
    members := JsonText.MembersLoaded(printed);
  }

  lemma {:induction false} ActionSorted(entries: seq<EffectId.Entry>, ks: seq<Keyed<Member>>)
    requires |entries| == 4 && forall i :: 0 <= i < |entries| ==> entries[i].key.Name? && entries[i].key == ActionKey(i) && Accepted(entries[i].value)
    requires ks == KeyedMembers(entries)
    ensures StrictlySorted(ks)
  {
    forall i, j | 0 <= i < j < |ks| ensures Less(ks[i].key, ks[j].key) {
      KeyOfAction(entries[i], i, ks[i].key);
      KeyOfAction(entries[j], j, ks[j].key);
    }
  }

  lemma {:induction false} KeyOfAction(entry: EffectId.Entry, i: nat, key: Key)
    requires i < 4 && entry.key == ActionKey(i) && key == CodePoints(entry.key.name)
    ensures key != [] && key[0] == [101, 108, 110, 112][i]
  {
    assert key[0] == entry.key.name[0] as int;
  }

  lemma {:induction false} ActionMembers(entries: seq<EffectId.Entry>, ks: seq<Keyed<Member>>, e: string, n: string, op: string, p: Value, members: seq<Named>)
    requires |entries| == 4 && (forall i :: 0 <= i < 4 ==> entries[i].key.Name? && Accepted(entries[i].value)) && ks == KeyedMembers(entries)
    requires entries[0] == EffectId.Entry(ActionKey(0), StrValue(e)) && entries[1] == EffectId.Entry(ActionKey(1), StrValue(op))
    requires entries[2] == EffectId.Entry(ActionKey(2), StrValue(n)) && entries[3] == EffectId.Entry(ActionKey(3), p)
    requires members == JsonText.MembersLoaded(Unkey(ks))
    ensures members == [
              Named(CodePoints("execution_id"), Chars(CodePoints(e))),
              Named(CodePoints("logical_operation"), Chars(CodePoints(op))),
              Named(CodePoints("node_id"), Chars(CodePoints(n))),
              Named(CodePoints("payload"), JsonText.LoadedOf(ToJson(p)))]
  {
    MemberLoads(ActionKey(0), StrValue(e));
    MemberLoads(ActionKey(1), StrValue(op));
    MemberLoads(ActionKey(2), StrValue(n));
    MemberLoads(ActionKey(3), p);
    assert members == [members[0], members[1], members[2], members[3]];
  }

  lemma {:induction false} MemberLoads(key: MapKey, v: Value)
    requires key.Name? && Accepted(v)
    ensures KeyedMember(EffectId.Entry(key, v)).item == Member(key.name, ToJson(v))
  {
  }

  /** The hashed text is read back, by every reader that allows its nesting and its digits, as an object of exactly
      four members: the execution, the operation, the node and what denotes the payload. */
  lemma EffectTextSays(e: Uuid, n: Uuid, op: string, p: Value) returns (least: Limits, payload: Loaded)
    requires IsValue(p) && EffectText(e, n, op, p).Ok?
    ensures Denotes(p, payload)
    ensures forall limits: Limits :: limits.depth >= least.depth && limits.digits >= least.digits ==>
              Loads(EffectText(e, n, op, p).value, limits) == Ok(Dict([
                Named(CodePoints("execution_id"), Chars(CodePoints(UuidText(e)))),
                Named(CodePoints("logical_operation"), Chars(CodePoints(op))),
                Named(CodePoints("node_id"), Chars(CodePoints(UuidText(n)))),
                Named(CodePoints("payload"), payload)]))
  {
    var canonical := Rebuild(p, Canonical).value;
    RebuildKeeps(p, Canonical);
    JsonDenotes(p);
    payload := JsonText.LoadedOf(ToJson(p));
    var action := Action(UuidText(e), UuidText(n), op, canonical);
    ActionIsValue(UuidText(e), UuidText(n), op, canonical);
    JsonWellFormed(action);
    ActionLoads(UuidText(e), UuidText(n), op, canonical);
    least := JsonText.SomeLimits(ToJson(action));
    forall limits: Limits | limits.depth >= least.depth && limits.digits >= least.digits
      ensures Loads(Print(ToJson(action)), limits) == Ok(JsonText.LoadedOf(ToJson(action)))
    {
      JsonText.FitsMore(ToJson(action), least, limits);
      JsonText.DocumentRoundTrip(ToJson(action), limits);
    }
  }

  // ----- Refusals --------------------------------------------------------------------------------

  /** Everything wrong with a value, in the order its parts stand in; a name that is no string before its value. */
  function Complaints(v: Value): seq<EffectError>
    decreases v, 0
  {
    match v
    case NonFinite => [NotFinite]
    case Unsupported => [UnsupportedType]
    case ListValue(items) => ItemComplaints(items)
    case TupleValue(items) => ItemComplaints(items)
    case Mapping(entries) => EntryComplaints(entries)
    case _ => []
  }

  function ItemComplaints(items: seq<Value>): seq<EffectError>
    decreases items, 1
  {
    if items == [] then [] else Complaints(items[0]) + ItemComplaints(items[1..])
  }

  function EntryComplaints(entries: seq<EffectId.Entry>): seq<EffectError>
    decreases entries, 1
  {
    if entries == [] then [] else OneEntryComplaints(entries[0]) + EntryComplaints(entries[1..])
  }

  function OneEntryComplaints(entry: EffectId.Entry): seq<EffectError>
    decreases entry, 0
  {
    (if entry.key.Name? then [] else [KeyNotString]) + Complaints(entry.value)
  }

  /** An error that is reported is the first complaint, and there is one exactly when something is wrong. */
  predicate Reports<T>(r: Result<T, EffectError>, complaints: seq<EffectError>) {
    if complaints == [] then r.Ok? else r == Err(complaints[0])
  }

  lemma {:induction false} FirstComplaint(v: Value, form: Form)
    ensures Reports(Rebuild(v, form), Complaints(v))
    decreases v, 0
  {
    match v
    case ListValue(items) => FirstItemComplaint(items, form);
    case TupleValue(items) => FirstItemComplaint(items, form);
    case Mapping(entries) => FirstEntryComplaint(entries, form);
    case _ =>
  }

  lemma {:induction false} FirstItemComplaint(items: seq<Value>, form: Form)
    ensures Reports(RebuildItems(items, form), ItemComplaints(items))
    decreases items, 1
  {
    if items != [] {
      FirstComplaint(items[0], form);
      FirstItemComplaint(items[1..], form);
    }
  }

  lemma {:induction false} FirstEntryComplaint(entries: seq<EffectId.Entry>, form: Form)
    ensures Reports(RebuildEntries(entries, form), EntryComplaints(entries))
    decreases entries, 1
  {
    if entries != [] {
      OneEntryComplaint(entries[0], form);
      FirstEntryComplaint(entries[1..], form);
    }
  }

  lemma {:induction false} OneEntryComplaint(entry: EffectId.Entry, form: Form)
    ensures Reports(RebuildEntry(entry, form), OneEntryComplaints(entry))
    decreases entry, 0
  {
    match entry
    case Entry(key, value) => FirstComplaint(value, form);
  }

  /** A blank operation is refused before anything else, then the first thing wrong with the payload. */
  lemma EffectRefusals(e: Uuid, n: Uuid, op: string, p: Value)
    ensures Reports(EffectText(e, n, op, p), (if Blank(op) then [BlankOperation] else []) + Complaints(p))
  {
    FirstComplaint(p, Canonical);
  }
}
