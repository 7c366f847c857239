/** Lists of numbers without repetition, and the sizes of sets. */
module Lists {

  /** No number occurs twice. */
  ghost predicate Distinct(s: seq<nat>) {
    |s| == 0 || (Distinct(s[..|s| - 1]) && s[|s| - 1] !in s[..|s| - 1])
  }

  lemma {:induction false} DistinctPairs(s: seq<nat>)
    ensures Distinct(s) <==> forall i, j :: 0 <= i < j < |s| ==> s[i] != s[j]
  {
    if |s| > 0 {
      var t := s[..|s| - 1];
      DistinctPairs(t);
      if Distinct(s) {
        forall i, j | 0 <= i < j < |s|
          ensures s[i] != s[j]
        {
          if j == |s| - 1 {
            assert t[i] in t;
          } else {
            assert t[i] != t[j];
          }
        }
      } else if Distinct(t) {
        var i :| 0 <= i < |t| && t[i] == s[|s| - 1];
        assert s[i] == s[|s| - 1];
      } else {
        var i, j :| 0 <= i < j < |t| && t[i] == t[j];
        assert s[i] == s[j];
      }
    }
  }

  lemma {:induction false} DistinctConcat(s: seq<nat>, t: seq<nat>)
    ensures Distinct(s + t) <==> Distinct(s) && Distinct(t) && forall x :: x in s ==> x !in t
  {
    if |t| == 0 {
      assert s + t == s;
    } else {
      var t', x := t[..|t| - 1], t[|t| - 1];
      DistinctConcat(s, t');
      assert (s + t)[..|s + t| - 1] == s + t';
      assert t == t' + [x];
    }
  }

  lemma SubsetSize<T>(a: set<T>, b: set<T>)
    requires a <= b
    ensures |a| <= |b|
  {
    assert b == a + (b - a);
  }

  /** The numbers below n. */
  function UpTo(n: nat): (s: set<int>)
    ensures |s| == n && forall i :: i in s <==> 0 <= i < n
  {
    if n == 0 then {} else UpTo(n - 1) + {n - 1}
  }
}
