/** Sorting by a lexicographic key: JSON member names and keyset positions are both
    compared component by component. */
module Sorting {
  import opened Kernel

  /** A sort key: code points of a name, or the fields of a timestamp followed by an identifier. */
  type Key = seq<int>

  datatype Keyed<+T> = Keyed(key: Key, item: T)

  predicate Less(a: Key, b: Key) {
    b != [] && (a == [] || a[0] < b[0] || (a[0] == b[0] && Less(a[1..], b[1..])))
  }

  lemma {:induction false} LessTotal(a: Key, b: Key)
    ensures a == b || Less(a, b) || Less(b, a)
    ensures !(Less(a, b) && Less(b, a)) && !Less(a, a)
  {
    if a != [] && b != [] {
      LessTotal(a[1..], b[1..]);
      assert a == [a[0]] + a[1..] && b == [b[0]] + b[1..];
    }
    if a != [] {
      LessTotal(a[1..], a[1..]);
    }
  }

  lemma {:induction false} LessTransitive(a: Key, b: Key, c: Key)
    requires Less(a, b) && Less(b, c)
    ensures Less(a, c)
  {
    if a != [] && a[0] == b[0] == c[0] {
      LessTransitive(a[1..], b[1..], c[1..]);
    }
  }

  ghost predicate StrictlySorted<T>(xs: seq<Keyed<T>>) {
    forall i, j :: 0 <= i < j < |xs| ==> Less(xs[i].key, xs[j].key)
  }

  ghost predicate DistinctKeys<T>(xs: seq<Keyed<T>>) {
    forall i, j :: 0 <= i < j < |xs| ==> xs[i].key != xs[j].key
  }

  function Insert<T>(x: Keyed<T>, xs: seq<Keyed<T>>): (r: seq<Keyed<T>>)
    ensures multiset(r) == multiset(xs) + multiset{x}
  {
    if xs == [] then [x]
    else if Less(xs[0].key, x.key) then
      assert xs == [xs[0]] + xs[1..];
      [xs[0]] + Insert(x, xs[1..])
    else [x] + xs
  }

  function Sort<T>(xs: seq<Keyed<T>>): (r: seq<Keyed<T>>)
    ensures multiset(r) == multiset(xs)
  {
    if xs == [] then []
    else
      assert xs == [xs[0]] + xs[1..];
      Insert(xs[0], Sort(xs[1..]))
  }

  lemma SameMembers<T>(xs: seq<T>, ys: seq<T>)
    requires multiset(xs) == multiset(ys)
    ensures |xs| == |ys| && forall x :: x in xs <==> x in ys
  {
    assert |multiset(xs)| == |xs| && |multiset(ys)| == |ys|;
    forall x ensures x in xs <==> x in ys {
      assert x in xs <==> x in multiset(xs);
    }
  }

  lemma SortMember<T>(xs: seq<Keyed<T>>, i: nat)
    requires i < |Sort(xs)|
    ensures Sort(xs)[i] in xs
  {
    assert Sort(xs)[i] in multiset(Sort(xs));
    assert Sort(xs)[i] in multiset(xs);
  }

  lemma {:induction false} InsertSorts<T>(x: Keyed<T>, xs: seq<Keyed<T>>)
    requires StrictlySorted(xs) && forall y :: y in xs ==> y.key != x.key
    ensures StrictlySorted(Insert(x, xs))
  {
    if xs != [] {
      if Less(xs[0].key, x.key) {
        InsertSorts(x, xs[1..]);
        var rest := Insert(x, xs[1..]);
        forall y | y in rest ensures Less(xs[0].key, y.key) {
          assert y in multiset(rest);
          assert y == x || y in xs[1..];
        }
      } else {
        LessTotal(xs[0].key, x.key);
        forall y | y in xs ensures Less(x.key, y.key) {
          var i :| 0 <= i < |xs| && xs[i] == y;
          if i > 0 {
            LessTransitive(x.key, xs[0].key, y.key);
          }
        }
      }
    }
  }

  lemma {:induction false} SortSorts<T>(xs: seq<Keyed<T>>)
    requires DistinctKeys(xs)
    ensures StrictlySorted(Sort(xs))
  {
    if xs != [] {
      var rest := xs[1..];
      SortSorts(rest);
      forall y | y in Sort(rest) ensures y.key != xs[0].key {
        assert y in multiset(Sort(rest));
        assert y in rest;
        var i :| 0 <= i < |rest| && rest[i] == y;
        assert xs[0].key != xs[i + 1].key;
      }
      InsertSorts(xs[0], Sort(rest));
    }
  }

  lemma {:induction false} SortedUnique<T>(xs: seq<Keyed<T>>, ys: seq<Keyed<T>>)
    requires StrictlySorted(xs) && StrictlySorted(ys)
    requires forall x :: x in xs <==> x in ys
    ensures xs == ys
  {
    FirstIsMember(xs);
    FirstIsMember(ys);
    if xs != [] {
      assert xs[0] in ys && ys != [];
      assert ys[0] in xs;
      var i :| 0 <= i < |ys| && ys[i] == xs[0];
      var j :| 0 <= j < |xs| && xs[j] == ys[0];
      if i > 0 && j > 0 {
        LessTotal(xs[0].key, ys[0].key);
        assert false;
      }
      assert xs[0] == ys[0];
      TailMembers(xs, ys);
      SortedUnique(xs[1..], ys[1..]);
      assert xs == [xs[0]] + xs[1..] && ys == [ys[0]] + ys[1..];
    }
  }

  lemma FirstIsMember<T>(xs: seq<T>)
    ensures xs != [] ==> xs[0] in xs
  {
  }

  lemma TailMembers<T>(xs: seq<Keyed<T>>, ys: seq<Keyed<T>>)
    requires StrictlySorted(xs) && StrictlySorted(ys) && xs != [] && ys != [] && xs[0] == ys[0]
    requires forall x :: x in xs <==> x in ys
    ensures forall x :: x in xs[1..] <==> x in ys[1..]
  {
    LessTotal(xs[0].key, xs[0].key);
    forall x | x in xs[1..] ensures x in ys[1..] {
      assert x in xs && x in ys && x != ys[0];
    }
    forall y | y in ys[1..] ensures y in xs[1..] {
      assert y in ys && y in xs && y != xs[0];
    }
  }

  /** Sorting is canonical: two lists with distinct keys sort alike exactly when they hold the same members. */
  lemma SortCanonical<T>(xs: seq<Keyed<T>>, ys: seq<Keyed<T>>)
    requires DistinctKeys(xs) && DistinctKeys(ys)
    ensures Sort(xs) == Sort(ys) <==> forall x :: x in xs <==> x in ys
  {
    SameMembers(Sort(xs), xs);
    SameMembers(Sort(ys), ys);
    SortSorts(xs);
    SortSorts(ys);
    if forall x :: x in xs <==> x in ys {
      SortedUnique(Sort(xs), Sort(ys));
    }
  }
}
