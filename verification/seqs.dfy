/** Small facts about sequences shared by the rest of the model. */
module Seqs {

  /** No element occurs twice. */
  predicate Distinct<T(==)>(s: seq<T>) {
    forall a, b | 0 <= a < b < |s| :: s[a] != s[b]
  }

  function Sum(s: seq<nat>): nat {
    if s == [] then 0 else Sum(s[..|s| - 1]) + s[|s| - 1]
  }

  lemma {:induction false} DistinctTail<T>(s: seq<T>)
    requires s != []
    ensures Distinct(s) ==> Distinct(s[1..]) && s[0] !in s[1..]
  {
    if Distinct(s) {
      forall k | 0 <= k < |s[1..]|
        ensures s[1..][k] != s[0]
      {
        assert s[1..][k] == s[k + 1];
      }
    }
  }

  lemma DistinctAppend<T>(s: seq<T>, x: T)
    requires Distinct(s) && x !in s
    ensures Distinct(s + [x])
  {
    forall a, b | 0 <= a < b < |s + [x]|
      ensures (s + [x])[a] != (s + [x])[b]
    {
      if b == |s| {
        assert (s + [x])[a] == s[a];
      }
    }
  }

  lemma NotInPrefix<T>(s: seq<T>, k: nat)
    requires Distinct(s) && k < |s|
    ensures s[k] !in s[..k]
  {
    forall j | 0 <= j < k
      ensures s[..k][j] != s[k]
    {
      assert s[..k][j] == s[j];
    }
  }

  /** A list without repeats is as long as the set of its elements. */
  lemma {:induction false} DistinctCard<T>(s: seq<T>, x: set<T>)
    requires Distinct(s)
    requires forall t :: t in s <==> t in x
    ensures |s| == |x|
  {
    if s != [] {
      DistinctTail(s);
      DistinctCard(s[1..], x - {s[0]});
    }
  }

  /** An element occurs at least twice exactly when two different positions hold it. */
  lemma {:induction false} TwiceIn<T>(s: seq<T>, p: T)
    ensures multiset(s)[p] >= 2 <==> exists j1, j2 | 0 <= j1 < j2 < |s| :: s[j1] == p && s[j2] == p
  {
    if s != [] {
      var s', x := s[..|s| - 1], s[|s| - 1];
      assert s == s' + [x];
      TwiceIn(s', p);
      if x == p && multiset(s')[p] >= 1 {
        assert p in s';
        var j1 :| 0 <= j1 < |s'| && s'[j1] == p;
        assert s[j1] == p && s[|s| - 1] == p;
      }
      if exists j1, j2 | 0 <= j1 < j2 < |s| :: s[j1] == p && s[j2] == p {
        var j1, j2 :| 0 <= j1 < j2 < |s| && s[j1] == p && s[j2] == p;
        if j2 < |s'| {
          assert s'[j1] == p && s'[j2] == p;
        } else {
          assert s'[j1] == p;
        }
      }
    }
  }
}
