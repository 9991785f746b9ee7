/** Writing the difference of two dictionaries to a table: deletes, inserts and updates issued
    row by row, in whatever order a set is iterated. */
module RowDiff {
  import opened Kernel

  function Dropped<K(!new), V(!new)>(before: map<K, V>, after: map<K, V>): set<K> { before.Keys - after.Keys }

  function Added<K(!new), V(!new)>(before: map<K, V>, after: map<K, V>): set<K> { after.Keys - before.Keys }

  function Pick<K(!new), V(!new)>(m: map<K, V>, keys: set<K>): (r: map<K, V>)
    requires keys <= m.Keys
    ensures r.Keys == keys && forall k :: k in keys ==> r[k] == m[k]
  {
    m - (m.Keys - keys)
  }

  // ----- Rows addressed by the dictionary key -----------------------------------------------

  /** Keys on both sides whose value differs and whose row an UPDATE finds. */
  function Changed<K(!new), V(==,!new)>(t: map<K, V>, before: map<K, V>, after: map<K, V>): (r: set<K>)
    ensures r <= before.Keys * after.Keys
  {
    set k | k in after && k in before && k in t && before[k] != after[k]
  }

  /** The table when an insert met a row after the keys in `done` were inserted. */
  function Raced<K(!new), V(!new)>(t: map<K, V>, before: map<K, V>, after: map<K, V>, done: set<K>): map<K, V>
    requires done <= after.Keys
  {
    t - Dropped(before, after) + Pick(after, done)
  }

  /** The table when no insert meets a row. */
  function Diff<K(!new), V(==,!new)>(t: map<K, V>, before: map<K, V>, after: map<K, V>): map<K, V> {
    Raced(t, before, after, Added(before, after)) + Pick(after, Changed(t, before, after))
  }

  ghost predicate MeetsRow<K(!new), V(!new)>(t: map<K, V>, before: map<K, V>, after: map<K, V>) {
    Added(before, after) * t.Keys != {}
  }

  ghost predicate RaceOutcome<K(!new), V(!new)>(t: map<K, V>, before: map<K, V>, after: map<K, V>, t': map<K, V>) {
    exists done: set<K> :: done <= Added(before, after) - t.Keys && t' == Raced(t, before, after, done)
  }

  /** A lost race leaves the table alone whatever the iteration order exactly when there is nothing
      to delete and every key to insert is already taken. */
  lemma LostRaceIsClean<K(!new), V(!new)>(t: map<K, V>, before: map<K, V>, after: map<K, V>)
    requires MeetsRow(t, before, after)
    ensures (forall t' :: RaceOutcome(t, before, after, t') ==> t' == t) <==>
            Dropped(before, after) * t.Keys == {} && Added(before, after) <= t.Keys
  {
    var free := Added(before, after) - t.Keys;
    if forall t' :: RaceOutcome(t, before, after, t') ==> t' == t {
      var none := Raced(t, before, after, {});
      assert RaceOutcome(t, before, after, none);
      assert forall k :: k in Dropped(before, after) ==> k !in none;
      var all := Raced(t, before, after, free);
      assert RaceOutcome(t, before, after, all);
      assert forall k :: k in free ==> k in all;
    }
    if Dropped(before, after) * t.Keys == {} && Added(before, after) <= t.Keys {
      assert Raced(t, before, after, {}) == t;
    }
  }

  // ----- Iteration orders -----------------------------------------------------------------

  /** The insert loop in a given order: whether it met a row, and the table it leaves. */
  function InsertInOrder<K(!new), V(!new)>(t: map<K, V>, after: map<K, V>, order: seq<K>): (r: (bool, map<K, V>))
    requires forall k :: k in order ==> k in after
    decreases |order|
  {
    if order == [] then (false, t)
    else if order[0] in t then (true, t)
    else InsertInOrder(t[order[0] := after[order[0]]], after, order[1..])
  }

  /** An order in which a set may be iterated. */
  ghost predicate Orders<K(!new)>(order: seq<K>, keys: set<K>) {
    Distinct(order) && forall k :: k in order <==> k in keys
  }

  lemma {:induction false} SomeOrder<K(!new)>(keys: set<K>) returns (order: seq<K>)
    ensures Orders(order, keys)
  {
    if keys == {} {
      order := [];
    } else {
      var k :| k in keys;
      var rest := SomeOrder(keys - {k});
      order := [k] + rest;
      forall i, j | 0 <= i < j < |order| ensures order[i] != order[j] {
        assert order[j] == rest[j - 1] && rest[j - 1] in rest;
        if i > 0 {
          assert order[i] == rest[i - 1] && order[j] == rest[j - 1];
        }
      }
    }
  }

  /** Keys that are free are inserted, until one is taken. */
  lemma {:induction false} InsertsThenMeets<K(!new), V(!new)>(t: map<K, V>, after: map<K, V>, free: seq<K>, taken: K, rest: seq<K>)
    requires Distinct(free) && forall k :: k in free ==> k in after && k !in t
    requires taken in t && taken in after && forall k :: k in rest ==> k in after
    ensures InsertInOrder(t, after, free + ([taken] + rest)) == (true, t + Pick(after, Elements(free)))
    decreases |free|
  {
    var order := free + ([taken] + rest);
    if free == [] {
      assert order == [taken] + rest;
      assert t + Pick(after, {}) == t;
    } else {
      var k, t1 := free[0], t[free[0] := after[free[0]]];
      assert order[1..] == free[1..] + ([taken] + rest);
      forall j | j in free[1..] ensures j !in t1 {
        var i :| 0 <= i < |free[1..]| && free[1..][i] == j;
        assert free[0] != free[i + 1];
      }
      InsertsThenMeets(t1, after, free[1..], taken, rest);
      assert Elements(free) == Elements(free[1..]) + {k};
      PickGrows(after, Elements(free[1..]), k);
      assert t1 + Pick(after, Elements(free[1..])) == t + Pick(after, Elements(free));
    }
  }

  /** Every order that meets a row leaves a race outcome. */
  lemma {:induction false} OrderRaces<K(!new), V(!new)>(t: map<K, V>, after: map<K, V>, order: seq<K>) returns (done: set<K>)
    requires Distinct(order) && forall k :: k in order ==> k in after
    requires InsertInOrder(t, after, order).0
    ensures done <= after.Keys && forall k :: k in done ==> k in order && k !in t
    ensures InsertInOrder(t, after, order).1 == t + Pick(after, done)
    decreases |order|
  {
    if order[0] in t {
      done := {};
      assert t + Pick(after, {}) == t;
    } else {
      var k, rest := order[0], order[1..];
      var t1 := t[k := after[k]];
      DistinctTail(order);
      var others := OrderRaces(t1, after, rest);
      done := others + {k};
      PickGrows(after, others, k);
      MergeAfterWrite(t, Pick(after, others), k, after[k]);
    }
  }

  lemma DistinctTail<K(!new)>(order: seq<K>)
    requires Distinct(order) && order != []
    ensures Distinct(order[1..]) && order[0] !in order[1..] && forall k :: k in order[1..] ==> k in order
  {
    forall k | k in order[1..] ensures k in order && k != order[0] {
      var i :| 0 <= i < |order[1..]| && order[1..][i] == k;
      assert order[i + 1] == k;
    }
  }

  lemma MergeAfterWrite<K(!new), V(!new)>(t: map<K, V>, n: map<K, V>, k: K, v: V)
    requires k !in n
    ensures t[k := v] + n == t + n[k := v]
  {
  }

  /** The outcomes of a lost race are exactly what some order of iterating the new keys leaves. */
  lemma OutcomesAreOrders<K(!new), V(!new)>(t: map<K, V>, before: map<K, V>, after: map<K, V>, t': map<K, V>)
    requires MeetsRow(t, before, after)
    ensures RaceOutcome(t, before, after, t') <==>
            exists order :: Orders(order, Added(before, after))
                            && InsertInOrder(t - Dropped(before, after), after, order) == (true, t')
  {
    var deleted := t - Dropped(before, after);
    if RaceOutcome(t, before, after, t') {
      var done: set<K> :| done <= Added(before, after) - t.Keys && t' == Raced(t, before, after, done);
      var order := OrderFor(t, before, after, done);
    }
    if order :| Orders(order, Added(before, after)) && InsertInOrder(deleted, after, order) == (true, t') {
      var done := OrderRaces(deleted, after, order);
      assert done <= Added(before, after) - t.Keys;
    }
  }

  lemma OrderFor<K(!new), V(!new)>(t: map<K, V>, before: map<K, V>, after: map<K, V>, done: set<K>) returns (order: seq<K>)
    requires MeetsRow(t, before, after) && done <= Added(before, after) - t.Keys
    ensures Orders(order, Added(before, after))
    ensures InsertInOrder(t - Dropped(before, after), after, order) == (true, Raced(t, before, after, done))
  {
    var taken :| taken in Added(before, after) * t.Keys;
    var free := SomeOrder(done);
    var rest := SomeOrder(Added(before, after) - done - {taken});
    assert Elements(free) == done;
    InsertsThenMeets(t - Dropped(before, after), after, free, taken, rest);
    order := free + ([taken] + rest);
    InThreeParts(free, taken, rest, Added(before, after));
  }

  lemma InThreeParts<K(!new)>(free: seq<K>, taken: K, rest: seq<K>, keys: set<K>)
    requires Distinct(free) && Distinct(rest) && taken in keys && taken !in free && forall k :: k in free ==> k in keys
    requires forall k :: k in rest <==> k in keys && k !in free && k != taken
    ensures Orders(free + ([taken] + rest), keys)
  {
    var order := free + ([taken] + rest);
    forall i, j | 0 <= i < j < |order| ensures order[i] != order[j] {
      if i < |free| <= j {
        assert order[i] in free && (j > |free| ==> order[j] in rest);
      } else if i == |free| {
        assert order[j] in rest;
      } else if i > |free| {
        assert order[i] == rest[i - |free| - 1] && order[j] == rest[j - |free| - 1];
      }
    }
  }

  /** So a lost race is clean in every order exactly under that condition. */
  lemma LostRaceInEveryOrder<K(!new), V(!new)>(t: map<K, V>, before: map<K, V>, after: map<K, V>)
    requires MeetsRow(t, before, after)
    ensures (forall order :: Orders(order, Added(before, after)) && InsertInOrder(t - Dropped(before, after), after, order).0 ==>
               InsertInOrder(t - Dropped(before, after), after, order).1 == t) <==>
            Dropped(before, after) * t.Keys == {} && Added(before, after) <= t.Keys
  {
    LostRaceIsClean(t, before, after);
    var deleted := t - Dropped(before, after);
    if forall order :: Orders(order, Added(before, after)) && InsertInOrder(deleted, after, order).0 ==>
         InsertInOrder(deleted, after, order).1 == t {
      forall t' | RaceOutcome(t, before, after, t') ensures t' == t {
        OutcomesAreOrders(t, before, after, t');
      }
    }
    if Dropped(before, after) * t.Keys == {} && Added(before, after) <= t.Keys {
      forall order | Orders(order, Added(before, after)) && InsertInOrder(deleted, after, order).0
        ensures InsertInOrder(deleted, after, order).1 == t
      {
        OutcomesAreOrders(t, before, after, InsertInOrder(deleted, after, order).1);
      }
    }
  }

  /** Against the rows of `before` themselves, the difference gives the rows of `after`. */
  lemma DiffCorrect<K(!new), V(!new)>(before: map<K, V>, after: map<K, V>)
    ensures !MeetsRow(before, before, after) && Diff(before, before, after) == after
  {
    assert Diff(before, before, after).Keys == after.Keys;
  }

  lemma NoDiff<K(!new), V(!new)>(t: map<K, V>, st: map<K, V>)
    ensures !MeetsRow(t, st, st) && Diff(t, st, st) == t
  {
    assert Changed(t, st, st) == {};
  }

  method DeleteRows<K(!new), V(!new)>(t: map<K, V>, before: map<K, V>, after: map<K, V>) returns (r: map<K, V>)
    ensures r == t - Dropped(before, after)
  {
    r := t;
    var todo := Dropped(before, after);
    ghost var all := todo;
    while todo != {}
      invariant todo <= all && r == t - (all - todo)
      decreases todo
    {
      var k :| k in todo;
      r := r - {k};
      todo := todo - {k};
    }
  }

  /** INSERT ... ON CONFLICT DO NOTHING for every new key; the first conflict ends the loop. */
  method InsertRows<K(!new), V(!new)>(ghost t: map<K, V>, deleted: map<K, V>, before: map<K, V>, after: map<K, V>)
    returns (raced: bool, r: map<K, V>)
    requires deleted == t - Dropped(before, after)
    ensures raced <==> MeetsRow(t, before, after)
    ensures raced ==> RaceOutcome(t, before, after, r)
    ensures !raced ==> r == Raced(t, before, after, Added(before, after))
  {
    r := deleted;
    var todo := Added(before, after);
    ghost var all := todo;
    while todo != {}
      invariant todo <= all && forall j :: j in all - todo ==> j !in t
      invariant r == Raced(t, before, after, all - todo)
      decreases todo
    {
      var k :| k in todo;
      if k in r {
        assert k in Added(before, after) * t.Keys;
        assert all - todo <= all - t.Keys;
        return true, r;
      }
      PickGrows(after, all - todo, k);
      assert all - (todo - {k}) == all - todo + {k};
      r := r[k := after[k]];
      todo := todo - {k};
    }
    assert all - todo == all;
    raced := false;
  }

  method UpdateRows<K(!new), V(==,!new)>(ghost t: map<K, V>, inserted: map<K, V>, before: map<K, V>, after: map<K, V>)
    returns (r: map<K, V>)
    requires inserted == Raced(t, before, after, Added(before, after))
    ensures r == Diff(t, before, after)
  {
    r := inserted;
    var todo := before.Keys * after.Keys;
    ghost var changed := Changed(t, before, after);
    while todo != {}
      invariant todo <= before.Keys * after.Keys
      invariant r == inserted + Pick(after, changed - todo)
      decreases todo
    {
      var k :| k in todo;
      PickGrows(after, changed - todo, k);
      assert changed - (todo - {k}) == if k in changed then changed - todo + {k} else changed - todo;
      if before[k] != after[k] && k in r {
        r := r[k := after[k]];
      }
      todo := todo - {k};
    }
    assert changed - todo == changed;
  }

  lemma PickGrows<K(!new), V(!new)>(m: map<K, V>, keys: set<K>, k: K)
    requires keys <= m.Keys && k in m
    ensures Pick(m, keys + {k}) == Pick(m, keys)[k := m[k]]
  {
  }

  // ----- Rows addressed by an owner and the dictionary key ------------------------------------

  datatype Address<+K> = Address(owner: nat, key: K)

  datatype Owned<+V> = Owned(owner: nat, value: V)

  function AddressOf<K(!new), V(!new)>(m: map<K, Owned<V>>, k: K): Address<K>
    requires k in m
  {
    Address(m[k].owner, k)
  }

  ghost function Rows<K(!new), V(!new)>(m: map<K, Owned<V>>, keys: set<K>): (r: map<Address<K>, V>)
    requires keys <= m.Keys
    ensures forall a :: a in r <==> a.key in keys && a.owner == m[a.key].owner
    ensures forall a :: a in r ==> r[a] == m[a.key].value
  {
    if keys == {} then map[]
    else
      var k :| k in keys;
      Rows(m, keys - {k})[AddressOf(m, k) := m[k].value]
  }

  function ChangedOwned<K(!new), V(==,!new)>(t: map<Address<K>, V>, before: map<K, Owned<V>>, after: map<K, Owned<V>>): (r: set<K>)
    ensures r <= before.Keys * after.Keys
  {
    set k | k in after && k in before && before[k] != after[k] && AddressOf(after, k) in t
  }

  ghost function DiffOwned<K(!new), V(!new)>(t: map<Address<K>, V>, before: map<K, Owned<V>>, after: map<K, Owned<V>>): map<Address<K>, V> {
    t - Rows(before, Dropped(before, after)).Keys + Rows(after, Added(before, after))
      + Rows(after, ChangedOwned(t, before, after))
  }

  ghost predicate OwnedMeetsRow<K(!new), V(!new)>(t: map<Address<K>, V>, before: map<K, Owned<V>>, after: map<K, Owned<V>>) {
    Rows(after, Added(before, after)).Keys * (t.Keys - Rows(before, Dropped(before, after)).Keys) != {}
  }

  predicate SameOwners<K(!new), V(!new)>(before: map<K, Owned<V>>, after: map<K, Owned<V>>) {
    forall k :: k in before && k in after ==> before[k].owner == after[k].owner
  }

  /** The difference turns the rows of `before` into the rows of `after` exactly when no key changes
      owner: an UPDATE addresses the row by its new owner. */
  lemma DiffOwnedCorrect<K(!new), V(!new)>(before: map<K, Owned<V>>, after: map<K, Owned<V>>)
    ensures var t := Rows(before, before.Keys);
            !OwnedMeetsRow(t, before, after) && (DiffOwned(t, before, after) == Rows(after, after.Keys) <==> SameOwners(before, after))
  {
    var t := Rows(before, before.Keys);
    if SameOwners(before, after) {
      var kept := t - Rows(before, Dropped(before, after)).Keys;
      var added := Rows(after, Added(before, after));
      var changed := Rows(after, ChangedOwned(t, before, after));
      forall a ensures RowRight(kept, added, changed, Rows(after, after.Keys), a) {
        RowIsRight(before, after, a);
      }
      Overlay(kept, added, changed, Rows(after, after.Keys));
    } else {
      var k :| k in before && k in after && before[k].owner != after[k].owner;
      assert AddressOf(after, k) in Rows(after, after.Keys) && AddressOf(after, k) !in DiffOwned(t, before, after);
    }
  }

  ghost predicate RowRight<K, V>(kept: map<K, V>, added: map<K, V>, changed: map<K, V>, u: map<K, V>, a: K) {
    && (a in kept || a in added || a in changed <==> a in u)
    && (a in changed ==> changed[a] == u[a])
    && (a in added ==> added[a] == u[a])
    && (a in kept && a !in added && a !in changed ==> kept[a] == u[a])
  }

  lemma Overlay<K(!new), V>(kept: map<K, V>, added: map<K, V>, changed: map<K, V>, u: map<K, V>)
    requires forall a :: RowRight(kept, added, changed, u, a)
    ensures kept + added + changed == u
  {
    var d := kept + added + changed;
    forall a ensures (a in d <==> a in u) && (a in u ==> d[a] == u[a]) {
      assert RowRight(kept, added, changed, u, a);
    }
    assert d.Keys == u.Keys;
  }

  lemma RowIsRight<K(!new), V(!new)>(before: map<K, Owned<V>>, after: map<K, Owned<V>>, a: Address<K>)
    requires SameOwners(before, after)
    ensures var t := Rows(before, before.Keys);
            RowRight(t - Rows(before, Dropped(before, after)).Keys, Rows(after, Added(before, after)),
                     Rows(after, ChangedOwned(t, before, after)), Rows(after, after.Keys), a)
  {
    var t := Rows(before, before.Keys);
    var kept := t - Rows(before, Dropped(before, after)).Keys;
    assert a in kept <==> a.key in before && a.key in after && a.owner == after[a.key].owner;
    if a in kept && a.key !in ChangedOwned(t, before, after) {
      assert before[a.key] == after[a.key];
    }
  }

  lemma NoDiffOwned<K(!new), V(!new)>(t: map<Address<K>, V>, st: map<K, Owned<V>>)
    ensures !OwnedMeetsRow(t, st, st) && DiffOwned(t, st, st) == t
  {
    assert Dropped(st, st) == {} == Added(st, st);
    assert ChangedOwned(t, st, st) == {};
    assert Rows(st, {}) == map[];
  }

  /** One new key whose address is free adds one row. */
  lemma AddOneOwned<K(!new), V(!new)>(t: map<Address<K>, V>, before: map<K, Owned<V>>, k: K, v: Owned<V>)
    requires k !in before && Address(v.owner, k) !in t
    ensures !OwnedMeetsRow(t, before, before[k := v])
    ensures DiffOwned(t, before, before[k := v]) == t[Address(v.owner, k) := v.value]
  {
    var after := before[k := v];
    assert Dropped(before, after) == {} && Added(before, after) == {k} && ChangedOwned(t, before, after) == {};
    OnlyRow(after, k);
    NoRows(before);
    NoRows(after);
    OverlayOne(t, Rows(before, Dropped(before, after)), Rows(after, Added(before, after)),
               Rows(after, ChangedOwned(t, before, after)), Address(v.owner, k), v.value);
  }

  /** A new value under the same owner updates the row if it is there. */
  lemma ChangeOneOwned<K(!new), V(!new)>(t: map<Address<K>, V>, before: map<K, Owned<V>>, k: K, v: Owned<V>)
    requires k in before && before[k].owner == v.owner && before[k] != v
    ensures !OwnedMeetsRow(t, before, before[k := v])
    ensures DiffOwned(t, before, before[k := v]) == if Address(v.owner, k) in t then t[Address(v.owner, k) := v.value] else t
  {
    var after := before[k := v];
    assert Dropped(before, after) == {} == Added(before, after);
    assert ChangedOwned(t, before, after) == if AddressOf(after, k) in t then {k} else {};
    NoRows(before);
    NoRows(after);
    OnlyRow(after, k);
  }

  lemma OnlyRow<K(!new), V(!new)>(m: map<K, Owned<V>>, k: K)
    requires k in m
    ensures Rows(m, {k}) == map[AddressOf(m, k) := m[k].value]
  {
    assert Rows(m, {k}).Keys == {AddressOf(m, k)};
  }

  lemma OverlayOne<K, V>(t: map<K, V>, dropped: map<K, V>, added: map<K, V>, changed: map<K, V>, a: K, v: V)
    requires dropped == map[] == changed && added == map[a := v]
    ensures t - dropped.Keys + added + changed == t[a := v]
  {
  }

  lemma NoRows<K(!new), V(!new)>(m: map<K, Owned<V>>)
    ensures Rows(m, {}) == map[]
  {
  }

  /** One new key whose row is free, likewise. */
  lemma AddOne<K(!new), V(!new)>(t: map<K, V>, before: map<K, V>, k: K, v: V)
    requires k !in before
    ensures MeetsRow(t, before, before[k := v]) <==> k in t
    ensures k !in t ==> Diff(t, before, before[k := v]) == t[k := v]
    ensures var after := before[k := v];
            k in t ==> forall t' :: RaceOutcome(t, before, after, t') ==> t' == t
  {
    var after := before[k := v];
    assert Dropped(before, after) == {} && Added(before, after) == {k};
    assert Changed(t, before, after) == {};
    if k in t {
      assert k in Added(before, after) * t.Keys;
      LostRaceIsClean(t, before, after);
    }
  }

  method DeleteOwned<K(!new), V(!new)>(t: map<Address<K>, V>, before: map<K, Owned<V>>, after: map<K, Owned<V>>)
    returns (r: map<Address<K>, V>)
    ensures r == t - Rows(before, Dropped(before, after)).Keys
  {
    r := t;
    var todo := Dropped(before, after);
    ghost var all := todo;
    while todo != {}
      invariant todo <= all && r == t - Rows(before, all - todo).Keys
      decreases todo
    {
      var k :| k in todo;
      RowsGrow(before, all - todo, k);
      assert all - (todo - {k}) == all - todo + {k};
      r := r - {AddressOf(before, k)};
      todo := todo - {k};
    }
    assert all - todo == all;
  }

  /** Plain INSERTs: the first row already there is a unique violation. */
  method InsertOwned<K(!new), V(!new)>(t: map<Address<K>, V>, before: map<K, Owned<V>>, after: map<K, Owned<V>>)
    returns (refused: bool, r: map<Address<K>, V>)
    ensures refused <==> Rows(after, Added(before, after)).Keys * t.Keys != {}
    ensures !refused ==> r == t + Rows(after, Added(before, after))
  {
    r := t;
    var todo := Added(before, after);
    ghost var all := todo;
    NoRows(after);
    assert all - todo == {} && t + map[] == t;
    while todo != {}
      invariant todo <= all && Rows(after, all - todo).Keys * t.Keys == {}
      invariant r == t + Rows(after, all - todo)
      decreases todo
    {
      var k :| k in todo;
      InsertMeets(t, after, all, todo, k);
      if AddressOf(after, k) in r {
        return true, r;
      }
      r := r[AddressOf(after, k) := after[k].value];
      todo := todo - {k};
    }
    assert all - todo == all;
    refused := false;
  }

  /** An insert meets a row exactly when the table held one, whatever was inserted before. */
  lemma InsertMeets<K(!new), V(!new)>(t: map<Address<K>, V>, after: map<K, Owned<V>>, all: set<K>, todo: set<K>, k: K)
    requires todo <= all <= after.Keys && k in todo && Rows(after, all - todo).Keys * t.Keys == {}
    ensures var r := t + Rows(after, all - todo); var a := AddressOf(after, k);
            && (a in r ==> Rows(after, all).Keys * t.Keys != {})
            && (a !in r ==> Rows(after, all - (todo - {k})).Keys * t.Keys == {}
                            && t + Rows(after, all - (todo - {k})) == r[a := after[k].value])
  {
    var a := AddressOf(after, k);
    if a in t {
      assert a in Rows(after, all).Keys * t.Keys;
    }
    assert all - (todo - {k}) == all - todo + {k};
    RowsGrow(after, all - todo, k);
    OneMoreRow(t, after, all - todo, k);
  }

  method UpdateOwned<K(!new), V(==,!new)>(ghost t: map<Address<K>, V>, inserted: map<Address<K>, V>,
                               before: map<K, Owned<V>>, after: map<K, Owned<V>>) returns (r: map<Address<K>, V>)
    requires inserted == t - Rows(before, Dropped(before, after)).Keys + Rows(after, Added(before, after))
    ensures r == DiffOwned(t, before, after)
  {
    r := inserted;
    var todo := before.Keys * after.Keys;
    ghost var changed := ChangedOwned(t, before, after);
    assert changed - todo == {} && inserted + Rows(after, {}) == inserted;
    while todo != {}
      invariant todo <= before.Keys * after.Keys
      invariant r == inserted + Rows(after, changed - todo)
      decreases todo
    {
      var k :| k in todo;
      UpdateFinds(t, inserted, before, after, todo, k);
      if before[k] != after[k] && AddressOf(after, k) in r {
        r := r[AddressOf(after, k) := after[k].value];
      }
      todo := todo - {k};
    }
    assert changed - todo == changed;
  }

  /** An UPDATE of `k` finds a row exactly when the table held one, whatever was updated before. */
  lemma UpdateFinds<K(!new), V(!new)>(t: map<Address<K>, V>, inserted: map<Address<K>, V>,
                                      before: map<K, Owned<V>>, after: map<K, Owned<V>>, todo: set<K>, k: K)
    requires inserted == t - Rows(before, Dropped(before, after)).Keys + Rows(after, Added(before, after))
    requires k in todo && k in before && k in after
    ensures var changed := ChangedOwned(t, before, after);
            var r := inserted + Rows(after, changed - todo);
            && (AddressOf(after, k) in r <==> AddressOf(after, k) in t)
            && inserted + Rows(after, changed - (todo - {k}))
               == if k in changed then r[AddressOf(after, k) := after[k].value] else r
  {
    UpdateTouches(t, inserted, before, after, todo, k);
    var changed := ChangedOwned(t, before, after);
    if k in changed {
      assert changed - (todo - {k}) == changed - todo + {k};
      OneMoreRow(inserted, after, changed - todo, k);
    } else {
      assert changed - (todo - {k}) == changed - todo;
    }
  }

  lemma OneMoreRow<K(!new), V(!new)>(inserted: map<Address<K>, V>, after: map<K, Owned<V>>, keys: set<K>, k: K)
    requires keys <= after.Keys && k in after
    ensures inserted + Rows(after, keys + {k}) == (inserted + Rows(after, keys))[AddressOf(after, k) := after[k].value]
  {
    RowsGrow(after, keys, k);
    MergeThenWrite(inserted, Rows(after, keys), AddressOf(after, k), after[k].value);
  }

  lemma MergeThenWrite<A(!new), V(!new)>(m: map<A, V>, n: map<A, V>, a: A, v: V)
    ensures m + n[a := v] == (m + n)[a := v]
  {
  }

  lemma UpdateTouches<K(!new), V(!new)>(t: map<Address<K>, V>, inserted: map<Address<K>, V>,
                                        before: map<K, Owned<V>>, after: map<K, Owned<V>>, todo: set<K>, k: K)
    requires inserted == t - Rows(before, Dropped(before, after)).Keys + Rows(after, Added(before, after))
    requires k in todo && k in before && k in after
    ensures AddressOf(after, k) in inserted + Rows(after, ChangedOwned(t, before, after) - todo) <==> AddressOf(after, k) in t
  {
  }

  lemma RowsGrow<K(!new), V(!new)>(m: map<K, Owned<V>>, keys: set<K>, k: K)
    requires keys <= m.Keys && k in m
    ensures Rows(m, keys + {k}) == Rows(m, keys)[AddressOf(m, k) := m[k].value]
  {
    assert Rows(m, keys + {k}).Keys == Rows(m, keys).Keys + {AddressOf(m, k)};
  }
}
