/** Values shared by every component: optional values, results and sequences without repeats. */
module Kernel {

  datatype Option<+T> = None | Some(value: T)

  datatype Result<+T, +E> = Ok(value: T) | Err(error: E)

  predicate Distinct<T(==)>(s: seq<T>) {
    forall i, j :: 0 <= i < j < |s| ==> s[i] != s[j]
  }

  function Elements<T>(s: seq<T>): set<T> {
    set x | x in s
  }

  /** How a loop over `s` sees the part it has processed. */
  lemma Prefixes<T>(s: seq<T>, k: nat)
    requires k <= |s|
    ensures s[..0] == [] && s[..|s|] == s
    ensures k < |s| ==> s[..k + 1] == s[..k] + [s[k]] && s[k..] == [s[k]] + s[k + 1..]
  {
  }

  lemma {:induction false} DistinctSize<T>(s: seq<T>)
    ensures |Elements(s)| <= |s|
    ensures |Elements(s)| == |s| <==> Distinct(s)
  {
    if s != [] {
      var rest, last := s[..|s| - 1], s[|s| - 1];
      assert s == rest + [last];
      DistinctSize(rest);
      assert Elements(s) == Elements(rest) + {last};
      if last in rest {
        assert Elements(s) == Elements(rest);
        var i :| 0 <= i < |rest| && rest[i] == last;
        assert s[i] == s[|s| - 1];
      } else {
        assert forall i :: 0 <= i < |rest| ==> s[i] == rest[i] && s[i] != last;
      }
    }
  }

  lemma SubsetOfSameSize<T>(a: set<T>, b: set<T>)
    requires a <= b
    ensures |a| == |b| ==> a == b
    ensures |a| != |b| ==> b - a != {}
  {
    assert b == a + (b - a);
  }
}
