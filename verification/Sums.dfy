/** Sums of integer sequences and the few laws the models need. */
module Sums {

  function Sum(s: seq<int>): int {
    if s == [] then 0 else Sum(s[..|s| - 1]) + s[|s| - 1]
  }

  lemma SumSnoc(s: seq<int>, x: int)
    ensures Sum(s + [x]) == Sum(s) + x
  {
    assert (s + [x])[..|s|] == s;
  }

  lemma {:induction false} SumConcat(s: seq<int>, t: seq<int>)
    ensures Sum(s + t) == Sum(s) + Sum(t)
  {
    if t == [] {
      assert s + t == s;
    } else {
      var front := t[..|t| - 1];
      assert s + t == (s + front) + [t[|t| - 1]];
      assert t == front + [t[|t| - 1]];
      SumSnoc(s + front, t[|t| - 1]);
      SumConcat(s, front);
    }
  }

  /** Overwriting one position moves the sum by the difference. */
  lemma {:induction false} SumUpdate(s: seq<int>, i: nat, v: int)
    requires i < |s|
    ensures Sum(s[i := v]) == Sum(s) - s[i] + v
  {
    var n := |s| - 1;
    if i == n {
      assert s[i := v][..n] == s[..n];
    } else {
      assert s[i := v][..n] == s[..n][i := v];
      SumUpdate(s[..n], i, v);
    }
  }

  /** A sum does not depend on the order of its terms. */
  lemma {:induction false} SumOfMultiset(s: seq<int>, t: seq<int>)
    requires multiset(s) == multiset(t)
    ensures Sum(s) == Sum(t)
  {
    assert |multiset(s)| == |s| && |multiset(t)| == |t|;
    if s != [] {
      var last, front := s[|s| - 1], s[..|s| - 1];
      assert s == front + [last];
      assert last in multiset(s);
      var k :| 0 <= k < |t| && t[k] == last;
      RemoveAt(t, k);
      SumRemoveAt(t, k);
      SumOfMultiset(front, t[..k] + t[k + 1..]);
    }
  }

  lemma SplitAt(t: seq<int>, k: nat)
    requires k < |t|
    ensures t == (t[..k] + [t[k]]) + t[k + 1..]
  {
  }

  lemma RemoveAt(t: seq<int>, k: nat)
    requires k < |t|
    ensures multiset(t[..k] + t[k + 1..]) == multiset(t) - multiset{t[k]}
  {
    SplitAt(t, k);
    var left, right, x := t[..k], t[k + 1..], t[k];
    assert multiset(t) == multiset((left + [x]) + right) == multiset(left) + multiset{x} + multiset(right);
    assert multiset(left + right) == multiset(left) + multiset(right);
  }

  lemma SumRemoveAt(t: seq<int>, k: nat)
    requires k < |t|
    ensures Sum(t) == Sum(t[..k] + t[k + 1..]) + t[k]
  {
    SplitAt(t, k);
    SumConcat(t[..k], t[k + 1..]);
    SumConcat(t[..k] + [t[k]], t[k + 1..]);
    SumSnoc(t[..k], t[k]);
  }
}
