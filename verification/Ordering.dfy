/**
 Sorting of positions by a three-part integer key, ties kept in list order.
 It stands for the host language's stable sort with a tuple key, and for
 ORDER BY clauses whose last column is the primary key.
 */
module Ordering {
  import opened Sums

  datatype Key = Key(first: int, second: int, third: int)

  predicate KeyLess(a: Key, b: Key) {
    || a.first < b.first
    || (a.first == b.first && a.second < b.second)
    || (a.first == b.first && a.second == b.second && a.third < b.third)
  }

  /** Position i is listed before position j. */
  predicate Ahead(keys: seq<Key>, i: nat, j: nat)
    requires i < |keys| && j < |keys|
  {
    KeyLess(keys[i], keys[j]) || (keys[i] == keys[j] && i < j)
  }

  predicate InRange(keys: seq<Key>, order: seq<nat>) {
    forall a :: 0 <= a < |order| ==> order[a] < |keys|
  }

  /** Each listed position is ahead of all that follow it; so none repeats. */
  predicate Ranked(keys: seq<Key>, order: seq<nat>)
    requires InRange(keys, order)
  {
    forall a, b :: 0 <= a < b < |order| ==> Ahead(keys, order[a], order[b])
  }

  function Place(keys: seq<Key>, i: nat, order: seq<nat>): (r: seq<nat>)
    requires i < |keys| && InRange(keys, order)
    ensures |r| == |order| + 1 && InRange(keys, r)
    ensures forall p: nat :: p in r <==> p == i || p in order
  {
    if order == [] then [i]
    else if Ahead(keys, i, order[0]) then [i] + order
    else
      var tail := Place(keys, i, order[1..]);
      assert forall p: nat :: p in order <==> p == order[0] || p in order[1..];
      [order[0]] + tail
  }

  function OrderUpTo(keys: seq<Key>, n: nat): (r: seq<nat>)
    requires n <= |keys|
    ensures |r| == n && InRange(keys, r)
    ensures forall p: nat :: p in r <==> p < n
  {
    if n == 0 then [] else Place(keys, n - 1, OrderUpTo(keys, n - 1))
  }

  function Order(keys: seq<Key>): (r: seq<nat>)
    ensures |r| == |keys| && InRange(keys, r)
    ensures forall p: nat :: p in r <==> p < |keys|
  {
    OrderUpTo(keys, |keys|)
  }

  lemma {:induction false} PlaceRanked(keys: seq<Key>, i: nat, order: seq<nat>)
    requires i < |keys| && InRange(keys, order) && i !in order && Ranked(keys, order)
    ensures Ranked(keys, Place(keys, i, order))
  {
    if order != [] && !Ahead(keys, i, order[0]) {
      var tail := Place(keys, i, order[1..]);
      PlaceRanked(keys, i, order[1..]);
      forall b | 0 <= b < |tail| ensures Ahead(keys, order[0], tail[b]) {
        assert tail[b] in tail;
        if tail[b] != i {
          var c :| 0 <= c < |order[1..]| && order[1..][c] == tail[b];
          assert tail[b] == order[c + 1];
        }
      }
      RankedFrom(keys, order[0], tail);
    } else if order != [] {
      forall b | 0 <= b < |order| ensures Ahead(keys, i, order[b]) {
        assert b > 0 ==> Ahead(keys, order[0], order[b]);
      }
      RankedFrom(keys, i, order);
    }
  }

  lemma RankedFrom(keys: seq<Key>, i: nat, order: seq<nat>)
    requires i < |keys| && InRange(keys, order) && Ranked(keys, order)
    requires forall b :: 0 <= b < |order| ==> Ahead(keys, i, order[b])
    ensures InRange(keys, [i] + order) && Ranked(keys, [i] + order)
  {
  }

  lemma {:induction false} OrderUpToRanked(keys: seq<Key>, n: nat)
    requires n <= |keys|
    ensures Ranked(keys, OrderUpTo(keys, n))
  {
    if n > 0 {
      OrderUpToRanked(keys, n - 1);
      PlaceRanked(keys, n - 1, OrderUpTo(keys, n - 1));
    }
  }

  lemma OrderRanked(keys: seq<Key>)
    ensures Ranked(keys, Order(keys))
  {
    OrderUpToRanked(keys, |keys|);
  }

  /** In a ranking, coming earlier and being ahead are the same thing. */
  lemma RankCompare(keys: seq<Key>, order: seq<nat>, a: nat, b: nat)
    requires InRange(keys, order) && Ranked(keys, order) && a < |order| && b < |order|
    ensures a < b <==> Ahead(keys, order[a], order[b])
  {
    assert Ranked(keys, order);
  }

  /** Where a listed position stands. */
  lemma PositionOf(keys: seq<Key>, order: seq<nat>, i: nat) returns (p: nat)
    requires InRange(keys, order) && Ranked(keys, order) && i in order
    ensures p < |order| && order[p] == i
    ensures forall k :: 0 <= k <= |order| ==> (i in order[..k] <==> p < k)
  {
    p :| 0 <= p < |order| && order[p] == i;
    forall q | 0 <= q < |order| && order[q] == i ensures q == p {
      RankCompare(keys, order, p, q);
      RankCompare(keys, order, q, p);
    }
    forall k | 0 <= k <= |order| ensures i in order[..k] <==> p < k {
      assert p < k ==> order[..k][p] == i;
    }
  }

  /** The values at the listed positions. */
  function Picked(values: seq<int>, order: seq<nat>): seq<int>
    requires forall a :: 0 <= a < |order| ==> order[a] < |values|
  {
    seq(|order|, a requires 0 <= a < |order| => values[order[a]])
  }

  lemma {:induction false} SumPickedPlace(keys: seq<Key>, i: nat, order: seq<nat>, values: seq<int>)
    requires i < |keys| && InRange(keys, order) && |values| == |keys|
    ensures Sum(Picked(values, Place(keys, i, order))) == values[i] + Sum(Picked(values, order))
  {
    if order == [] || Ahead(keys, i, order[0]) {
      assert Picked(values, Place(keys, i, order)) == [values[i]] + Picked(values, order);
      SumConcat([values[i]], Picked(values, order));
    } else {
      var tail := Place(keys, i, order[1..]);
      SumPickedPlace(keys, i, order[1..], values);
      assert Picked(values, Place(keys, i, order)) == [values[order[0]]] + Picked(values, tail);
      assert Picked(values, order) == [values[order[0]]] + Picked(values, order[1..]);
      SumConcat([values[order[0]]], Picked(values, tail));
      SumConcat([values[order[0]]], Picked(values, order[1..]));
    }
  }

  lemma {:induction false} SumPickedUpTo(keys: seq<Key>, n: nat, values: seq<int>)
    requires n <= |keys| == |values|
    ensures Sum(Picked(values, OrderUpTo(keys, n))) == Sum(values[..n])
  {
    if n > 0 {
      SumPickedUpTo(keys, n - 1, values);
      SumPickedPlace(keys, n - 1, OrderUpTo(keys, n - 1), values);
      assert values[..n][..n - 1] == values[..n - 1];
    }
  }

  /** Reading values in ranked order does not change their sum. */
  lemma SumPicked(keys: seq<Key>, values: seq<int>)
    requires |keys| == |values|
    ensures Sum(Picked(values, Order(keys))) == Sum(values)
  {
    SumPickedUpTo(keys, |keys|, values);
    assert values[..|keys|] == values;
  }
}
