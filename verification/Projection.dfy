/** The snapshot projection: writers that only move forward, in any order of delivery. */
module Projection {
  import opened Kernel
  import opened Text
  import opened RuntimeModel

  /** An upsert that keeps what is stored unless the new revision is higher. */
  function Upserted<K(!new)>(rows: map<K, Snapshot>, key: K, s: Snapshot): map<K, Snapshot> {
    if key in rows && rows[key].revision >= s.revision then rows else rows[key := s]
  }

  function UpsertAll(upserts: seq<Snapshot>): (rows: map<Uuid, Snapshot>) {
    if upserts == [] then map[]
    else
      var last := upserts[|upserts| - 1];
      Upserted(UpsertAll(upserts[..|upserts| - 1]), last.id, last)
  }

  ghost predicate IsHighest(upserts: seq<Snapshot>, s: Snapshot) {
    s in upserts && forall t :: t in upserts && t.id == s.id ==> t.revision <= s.revision
  }

  /** The projection holds, for every execution delivered, a snapshot of the highest revision delivered. */
  lemma {:induction false} HighestWins(upserts: seq<Snapshot>)
    ensures forall id :: id in UpsertAll(upserts) ==>
              UpsertAll(upserts)[id].id == id && IsHighest(upserts, UpsertAll(upserts)[id])
    ensures forall s :: s in upserts ==> s.id in UpsertAll(upserts)
  {
    if upserts != [] {
      var before, last := upserts[..|upserts| - 1], upserts[|upserts| - 1];
      HighestWins(before);
      assert upserts == before + [last];
      forall id | id in UpsertAll(upserts)
        ensures UpsertAll(upserts)[id].id == id && IsHighest(upserts, UpsertAll(upserts)[id])
      {
        if id == last.id && id in UpsertAll(before) {
          assert IsHighest(before, UpsertAll(before)[id]);
        } else if id == last.id {
          assert forall t :: t in before ==> t.id != id;
        } else {
          assert IsHighest(before, UpsertAll(before)[id]);
        }
      }
    }
  }

  /** No two snapshots of the highest revision of an execution differ. */
  ghost predicate TopsAgree(upserts: seq<Snapshot>) {
    forall s, t :: IsHighest(upserts, s) && IsHighest(upserts, t) && s.id == t.id ==> s == t
  }

  ghost predicate SameDeliveries(a: seq<Snapshot>, b: seq<Snapshot>) {
    forall s :: s in a <==> s in b
  }

  /** Every reordering and duplication of the deliveries gives the same projection. */
  ghost predicate OrderIrrelevant(upserts: seq<Snapshot>) {
    forall other :: SameDeliveries(upserts, other) ==> UpsertAll(other) == UpsertAll(upserts)
  }

  /** Order and duplication make no difference exactly when the highest revisions carry equal snapshots. */
  lemma Confluence(upserts: seq<Snapshot>)
    ensures OrderIrrelevant(upserts) <==> TopsAgree(upserts)
  {
    if TopsAgree(upserts) {
      forall other | SameDeliveries(upserts, other) ensures UpsertAll(other) == UpsertAll(upserts) {
        SameResult(upserts, other);
      }
    } else {
      var s, t :| IsHighest(upserts, s) && IsHighest(upserts, t) && s.id == t.id && s != t;
      TwoTops(upserts, s, t);
    }
  }

  lemma TwoTops(upserts: seq<Snapshot>, s: Snapshot, t: Snapshot)
    requires IsHighest(upserts, s) && IsHighest(upserts, t) && s.id == t.id && s != t
    ensures !OrderIrrelevant(upserts)
  {
    FirstStays(s, upserts);
    FirstStays(t, upserts);
    var one, two := [s] + upserts, [t] + upserts;
    assert UpsertAll(one)[s.id] != UpsertAll(two)[s.id];
    assert SameDeliveries(upserts, one) && SameDeliveries(upserts, two);
  }

  /** Equal revisions carrying equal snapshots is enough. */
  lemma EqualRevisionsSuffice(upserts: seq<Snapshot>)
    requires forall s, t :: s in upserts && t in upserts && s.id == t.id && s.revision == t.revision ==> s == t
    ensures TopsAgree(upserts)
  {
    forall s, t | IsHighest(upserts, s) && IsHighest(upserts, t) && s.id == t.id ensures s == t {
      assert s.revision == t.revision;
    }
  }

  lemma SameResult(a: seq<Snapshot>, b: seq<Snapshot>)
    requires TopsAgree(a) && SameDeliveries(a, b)
    ensures UpsertAll(a) == UpsertAll(b)
  {
    HighestWins(a);
    HighestWins(b);
    var ra, rb := UpsertAll(a), UpsertAll(b);
    forall id ensures id in ra <==> id in rb {
      if id in ra {
        assert ra[id] in b;
      }
      if id in rb {
        assert rb[id] in a;
      }
    }
    forall id | id in ra ensures ra[id] == rb[id] {
      assert IsHighest(b, rb[id]);
      assert IsHighest(a, rb[id]);
    }
  }

  lemma FirstStays(s: Snapshot, upserts: seq<Snapshot>)
    requires IsHighest(upserts, s)
    ensures SameDeliveries(upserts, [s] + upserts)
    ensures s.id in UpsertAll([s] + upserts) && UpsertAll([s] + upserts)[s.id] == s
  {
    NeverReplaced(s, upserts);
  }

  lemma {:induction false} NeverReplaced(s: Snapshot, upserts: seq<Snapshot>)
    requires forall t :: t in upserts && t.id == s.id ==> t.revision <= s.revision
    ensures s.id in UpsertAll([s] + upserts) && UpsertAll([s] + upserts)[s.id] == s
  {
    var all := [s] + upserts;
    if upserts == [] {
      assert all[..0] == [];
    } else {
      assert all[..|all| - 1] == [s] + upserts[..|upserts| - 1];
      NeverReplaced(s, upserts[..|upserts| - 1]);
    }
  }

  datatype RowKey = RowKey(tenant: Uuid, execution: Uuid)

  function UpsertRows(upserts: seq<Snapshot>): (rows: map<RowKey, Snapshot>) {
    if upserts == [] then map[]
    else
      var last := upserts[|upserts| - 1];
      Upserted(UpsertRows(upserts[..|upserts| - 1]), RowKey(last.scope.tenant, last.id), last)
  }

  ghost predicate Mirrors(rows: map<RowKey, Snapshot>, snapshots: map<Uuid, Snapshot>) {
    && (forall k :: k in rows ==> k.execution in snapshots && k.tenant == snapshots[k.execution].scope.tenant)
    && (forall id :: id in snapshots ==>
          RowKey(snapshots[id].scope.tenant, id) in rows && rows[RowKey(snapshots[id].scope.tenant, id)] == snapshots[id])
  }

  /** When every execution stays in one tenant, the table keyed by tenant and execution and the dictionary
      keyed by execution hold the same snapshots. */
  lemma {:induction false} WritersAgree(upserts: seq<Snapshot>)
    requires forall s, t :: s in upserts && t in upserts && s.id == t.id ==> s.scope.tenant == t.scope.tenant
    ensures Mirrors(UpsertRows(upserts), UpsertAll(upserts))
  {
    if upserts != [] {
      var before, last := upserts[..|upserts| - 1], upserts[|upserts| - 1];
      WritersAgree(before);
      assert upserts == before + [last];
      HighestWins(before);
      MirrorsOne(UpsertRows(before), UpsertAll(before), last);
    }
  }

  lemma MirrorsOne(rows: map<RowKey, Snapshot>, snapshots: map<Uuid, Snapshot>, s: Snapshot)
    requires Mirrors(rows, snapshots) && (s.id in snapshots ==> snapshots[s.id].scope.tenant == s.scope.tenant)
    ensures Mirrors(Upserted(rows, RowKey(s.scope.tenant, s.id), s), Upserted(snapshots, s.id, s))
  {
  }

  class InMemorySnapshotWriter {
    var snapshots: map<Uuid, Snapshot>
    var history: seq<Snapshot>
    ghost var delivered: seq<Snapshot>

    /** What is stored is what the deliveries make of an empty dictionary, and the history is those
        deliveries that were an advance. */
    ghost predicate Valid()
      reads this
    {
      snapshots == UpsertAll(delivered) && history == Advances(delivered)
    }

    constructor ()
      ensures Valid() && delivered == []
    {
      snapshots, history, delivered := map[], [], [];
    }

    method Upsert(s: Snapshot)
      requires Valid()
      modifies this
      ensures Valid() && delivered == old(delivered) + [s]
      ensures s.id in snapshots && snapshots[s.id].revision >= s.revision
      ensures forall id :: id in old(snapshots) ==> id in snapshots && snapshots[id].revision >= old(snapshots)[id].revision
    {
      ghost var longer := delivered + [s];
      assert longer[..|longer| - 1] == delivered;
      delivered := longer;
      if s.id in snapshots && snapshots[s.id].revision >= s.revision {
        return;
      }
      snapshots := snapshots[s.id := s];
      history := history + [s];
    }
  }

  function Advances(upserts: seq<Snapshot>): (history: seq<Snapshot>) {
    if upserts == [] then []
    else
      var before, last := upserts[..|upserts| - 1], upserts[|upserts| - 1];
      var rows := UpsertAll(before);
      if last.id in rows && rows[last.id].revision >= last.revision then Advances(before) else Advances(before) + [last]
  }

  ghost predicate Rises(history: seq<Snapshot>, rows: map<Uuid, Snapshot>) {
    && (forall i, j :: 0 <= i < j < |history| && history[i].id == history[j].id ==> history[i].revision < history[j].revision)
    && (forall s :: s in history ==> s.id in rows && s.revision <= rows[s.id].revision)
    && (forall id :: id in rows ==> rows[id].id == id && rows[id] in history)
  }

  /** The history of an execution strictly rises and ends with what is stored. */
  lemma {:induction false} HistoryRises(upserts: seq<Snapshot>)
    ensures Rises(Advances(upserts), UpsertAll(upserts))
  {
    if upserts != [] {
      var before, last := upserts[..|upserts| - 1], upserts[|upserts| - 1];
      HistoryRises(before);
      if last.id !in UpsertAll(before) || UpsertAll(before)[last.id].revision < last.revision {
        OneAdvance(Advances(before), UpsertAll(before), last);
      }
    }
  }

  lemma OneAdvance(history: seq<Snapshot>, rows: map<Uuid, Snapshot>, s: Snapshot)
    requires Rises(history, rows) && (s.id in rows ==> rows[s.id].revision < s.revision)
    ensures Rises(history + [s], rows[s.id := s])
  {
    var longer := history + [s];
    forall i, j | 0 <= i < j < |longer| && longer[i].id == longer[j].id ensures longer[i].revision < longer[j].revision {
      assert longer[i] in history;
    }
    forall t | t in longer ensures t.id in rows[s.id := s] && t.revision <= rows[s.id := s][t.id].revision {
      if t != s {
        assert t in history;
      }
    }
  }

  class PostgresSnapshotWriter {
    var rows: map<RowKey, Snapshot>
    ghost var delivered: seq<Snapshot>

    ghost predicate Valid()
      reads this
    {
      rows == UpsertRows(delivered)
    }

    constructor ()
      ensures Valid() && delivered == []
    {
      rows, delivered := map[], [];
    }

    /** INSERT ... ON CONFLICT DO UPDATE ... WHERE the stored revision is lower. */
    method Upsert(s: Snapshot)
      requires Valid()
      modifies this
      ensures Valid() && delivered == old(delivered) + [s]
      ensures forall k :: k in old(rows) ==> k in rows && rows[k].revision >= old(rows)[k].revision
    {
      ghost var longer := delivered + [s];
      assert longer[..|longer| - 1] == delivered;
      delivered := longer;
      var key := RowKey(s.scope.tenant, s.id);
      if key !in rows {
        rows := rows[key := s];
      } else if rows[key].revision < s.revision {
        rows := rows[key := s];
      }
    }
  }
}
