/**
 Splitting an amount of money among weighted shares by the largest-remainder
 method. Amounts are whole cents once quantized; weights are parts of 10000.
 */
module Distribution {
  import opened Wrappers
  import opened Sums
  import opened Ordering

  const FULL_WEIGHT := 10000

  datatype ShareInput = ShareInput(beneficiary: int, weight: int, fixed: Option<real>, sortOrder: int)

  datatype ShareError = NoShares | WeightsDoNotAddUp | WeightOutOfRange

  /** A decimal amount as cents, halves rounded away from zero. */
  function QuantizeMoney(amount: real): int {
    if amount >= 0.0 then (amount * 100.0 + 0.5).Floor else -((-amount * 100.0 + 0.5).Floor)
  }

  function Weights(shares: seq<ShareInput>): seq<int> {
    seq(|shares|, i requires 0 <= i < |shares| => shares[i].weight)
  }

  predicate WeightsValid(shares: seq<ShareInput>) {
    && shares != []
    && Sum(Weights(shares)) == FULL_WEIGHT
    && forall i :: 0 <= i < |shares| ==> 1 <= shares[i].weight <= FULL_WEIGHT
  }

  // ---- the pieces the method computes ----

  function Numerators(total: int, shares: seq<ShareInput>): seq<int> {
    seq(|shares|, i requires 0 <= i < |shares| => total * shares[i].weight)
  }

  function Floors(numerators: seq<int>): seq<int> {
    seq(|numerators|, i requires 0 <= i < |numerators| => numerators[i] / FULL_WEIGHT)
  }

  function Remainders(numerators: seq<int>): seq<int> {
    seq(|numerators|, i requires 0 <= i < |numerators| => numerators[i] % FULL_WEIGHT)
  }

  function LeftoverKeys(remainders: seq<int>, shares: seq<ShareInput>): seq<Key>
    requires |remainders| == |shares|
  {
    seq(|shares|, i requires 0 <= i < |shares| => Key(-remainders[i], shares[i].sortOrder, shares[i].beneficiary))
  }

  /** The positions in the order in which leftover cents are handed out. */
  function HandOut(total: int, shares: seq<ShareInput>): (order: seq<nat>)
    ensures |order| == |shares| && forall p: nat :: p in order <==> p < |shares|
  {
    Order(LeftoverKeys(Remainders(Numerators(total, shares)), shares))
  }

  function Leftover(total: int, shares: seq<ShareInput>): int {
    total - Sum(Floors(Numerators(total, shares)))
  }

  /** One extra cent for each of the first k listed positions. */
  function BumpFirst(cents: seq<int>, order: seq<nat>, k: nat): (r: seq<int>)
    requires k <= |order| && forall a :: 0 <= a < |order| ==> order[a] < |cents|
    ensures |r| == |cents|
  {
    if k == 0 then cents
    else
      var before := BumpFirst(cents, order, k - 1);
      before[order[k - 1] := before[order[k - 1]] + 1]
  }

  /** The cents of each share, in the order of the shares. */
  function Distributed(total: int, shares: seq<ShareInput>): (cents: seq<int>)
    requires WeightsValid(shares)
    ensures |cents| == |shares|
  {
    LeftoverInRange(total, shares);
    BumpFirst(Floors(Numerators(total, shares)), HandOut(total, shares), Leftover(total, shares))
  }

  method DistributeByWeight(total: real, shares: seq<ShareInput>) returns (r: Result<seq<int>, ShareError>)
    ensures r.Ok? <==> WeightsValid(shares)
    ensures r.Ok? ==> r.value == Distributed(QuantizeMoney(total), shares)
    ensures r.Err? ==> r.error == (if shares == [] then NoShares
                                   else if Sum(Weights(shares)) != FULL_WEIGHT then WeightsDoNotAddUp
                                   else WeightOutOfRange)
  {
    if shares == [] { return Err(NoShares); }
    if Sum(Weights(shares)) != FULL_WEIGHT { return Err(WeightsDoNotAddUp); }
    var totalCents := QuantizeMoney(total);
    ghost var numerators := Numerators(totalCents, shares);
    var floors: seq<int> := [];
    var remainders: seq<int> := [];
    for i := 0 to |shares|
      invariant floors == Floors(numerators)[..i]
      invariant remainders == Remainders(numerators)[..i]
      invariant forall j :: 0 <= j < i ==> 1 <= shares[j].weight <= FULL_WEIGHT
    {
      if !(1 <= shares[i].weight <= FULL_WEIGHT) { return Err(WeightOutOfRange); }
      var numerator := totalCents * shares[i].weight;
      floors := floors + [numerator / FULL_WEIGHT];
      remainders := remainders + [numerator % FULL_WEIGHT];
    }
    assert floors == Floors(numerators) && remainders == Remainders(numerators);
    var leftover := totalCents - Sum(floors);
    LeftoverInRange(totalCents, shares);
    var order := Order(LeftoverKeys(remainders, shares));
    ghost var base := floors;
    for k := 0 to leftover
      invariant |floors| == |shares|
      invariant floors == BumpFirst(base, order, k)
    {
      var index := order[k];
      floors := floors[index := floors[index] + 1];
    }
    r := Ok(floors);
  }

  // ---- conservation and quota ----

  lemma {:induction false} SumOfNumerators(total: int, shares: seq<ShareInput>)
    ensures Sum(Numerators(total, shares)) == total * Sum(Weights(shares))
  {
    if shares != [] {
      var n := |shares| - 1;
      SumOfNumerators(total, shares[..n]);
      assert Numerators(total, shares)[..n] == Numerators(total, shares[..n]);
      assert Weights(shares)[..n] == Weights(shares[..n]);
    }
  }

  lemma {:induction false} DivisionSums(numerators: seq<int>)
    ensures Sum(numerators) == FULL_WEIGHT * Sum(Floors(numerators)) + Sum(Remainders(numerators))
    ensures 0 <= Sum(Remainders(numerators)) <= (FULL_WEIGHT - 1) * |numerators|
  {
    if numerators != [] {
      var n := |numerators| - 1;
      DivisionSums(numerators[..n]);
      assert Floors(numerators)[..n] == Floors(numerators[..n]);
      assert Remainders(numerators)[..n] == Remainders(numerators[..n]);
    }
  }

  /** What the floors leave over is exactly the remainders' total, and is less than one cent a share. */
  lemma LeftoverInRange(total: int, shares: seq<ShareInput>)
    requires WeightsValid(shares)
    ensures 0 <= Leftover(total, shares) < |shares|
    ensures FULL_WEIGHT * Leftover(total, shares) == Sum(Remainders(Numerators(total, shares)))
  {
    SumOfNumerators(total, shares);
    DivisionSums(Numerators(total, shares));
  }

  lemma {:induction false} BumpFirstSum(cents: seq<int>, order: seq<nat>, k: nat)
    requires k <= |order| && forall a :: 0 <= a < |order| ==> order[a] < |cents|
    ensures Sum(BumpFirst(cents, order, k)) == Sum(cents) + k
  {
    if k > 0 {
      BumpFirstSum(cents, order, k - 1);
      var before := BumpFirst(cents, order, k - 1);
      SumUpdate(before, order[k - 1], before[order[k - 1]] + 1);
    }
  }

  /** The shares add up to the total, to the cent, whatever the sign of the total. */
  lemma ConservesTotal(total: int, shares: seq<ShareInput>)
    requires WeightsValid(shares)
    ensures Sum(Distributed(total, shares)) == total
  {
    LeftoverInRange(total, shares);
    BumpFirstSum(Floors(Numerators(total, shares)), HandOut(total, shares), Leftover(total, shares));
  }

  lemma {:induction false} BumpFirstAt(cents: seq<int>, order: seq<nat>, k: nat, i: nat)
    requires k <= |order| && forall a :: 0 <= a < |order| ==> order[a] < |cents|
    requires forall a, b :: 0 <= a < b < |order| ==> order[a] != order[b]
    requires i < |cents|
    ensures BumpFirst(cents, order, k)[i] == cents[i] + if i in order[..k] then 1 else 0
  {
    if k > 0 {
      BumpFirstAt(cents, order, k - 1, i);
      assert order[..k] == order[..k - 1] + [order[k - 1]];
      assert order[k - 1] !in order[..k - 1];
    }
  }

  lemma HandOutRanked(total: int, shares: seq<ShareInput>)
    ensures var keys := LeftoverKeys(Remainders(Numerators(total, shares)), shares);
            var order := HandOut(total, shares);
            && InRange(keys, order) && Ranked(keys, order)
            && (forall a, b :: 0 <= a < b < |order| ==> order[a] != order[b])
  {
    var keys := LeftoverKeys(Remainders(Numerators(total, shares)), shares);
    OrderRanked(keys);
    var order := HandOut(total, shares);
    forall a, b | 0 <= a < b < |order| ensures order[a] != order[b] {
      assert Ahead(keys, order[a], order[b]);
    }
  }

  /** The i-th share's cents: its floor, and one more when it is among the first listed. */
  lemma CentsOf(total: int, shares: seq<ShareInput>, i: nat)
    requires WeightsValid(shares) && i < |shares|
    ensures 0 <= Leftover(total, shares) <= |shares|
    ensures Distributed(total, shares)[i]
         == (total * shares[i].weight) / FULL_WEIGHT
             + if i in HandOut(total, shares)[..Leftover(total, shares)] then 1 else 0
  {
    LeftoverInRange(total, shares);
    HandOutRanked(total, shares);
    BumpFirstAt(Floors(Numerators(total, shares)), HandOut(total, shares), Leftover(total, shares), i);
  }

  lemma {:induction false} SumZero(values: seq<int>)
    requires forall i :: 0 <= i < |values| ==> values[i] == 0
    ensures Sum(values) == 0
  {
    if values != [] { SumZero(values[..|values| - 1]); }
  }

  /** If only the positions listed in `among` are non-zero, the sum is at most `cap` for each of them. */
  lemma {:induction false} SumAtMost(values: seq<int>, among: seq<nat>, cap: nat)
    requires forall a :: 0 <= a < |among| ==> among[a] < |values|
    requires forall i :: 0 <= i < |values| ==> values[i] <= cap && (i !in among ==> values[i] <= 0)
    ensures Sum(values) <= cap * |among|
    decreases |among|
  {
    if among == [] {
      SumNonPositive(values);
    } else {
      var rest := among[1..];
      SumUpdate(values, among[0], 0);
      assert forall i :: i in among <==> i == among[0] || i in rest;
      SumAtMost(values[among[0] := 0], rest, cap);
      assert cap * |among| == cap * |rest| + cap;
    }
  }

  lemma {:induction false} SumNonPositive(values: seq<int>)
    requires forall i :: 0 <= i < |values| ==> values[i] <= 0
    ensures Sum(values) <= 0
  {
    if values != [] { SumNonPositive(values[..|values| - 1]); }
  }

  /** A share whose exact part is a whole number of cents never gets an extra cent. */
  lemma NoExtraForWholeShare(total: int, shares: seq<ShareInput>, i: nat)
    requires WeightsValid(shares) && i < |shares|
    requires (total * shares[i].weight) % FULL_WEIGHT == 0
    ensures 0 <= Leftover(total, shares) <= |shares|
    ensures i !in HandOut(total, shares)[..Leftover(total, shares)]
  {
    LeftoverInRange(total, shares);
    HandOutRanked(total, shares);
    var order, rems, left := HandOut(total, shares), Remainders(Numerators(total, shares)), Leftover(total, shares);
    var keys := LeftoverKeys(rems, shares);
    assert i in order;
    var k := PositionOf(keys, order, i);
    forall j | 0 <= j < |rems| && j !in order[..k] ensures rems[j] <= 0 {
      assert j in order;
      var b := PositionOf(keys, order, j);
      RankCompare(keys, order, b, k);
    }
    SumAtMost(rems, order[..k], FULL_WEIGHT - 1);
  }

  /** Every share is its exact part rounded down or rounded up, never further away. */
  lemma WithinQuota(total: int, shares: seq<ShareInput>, i: nat)
    requires WeightsValid(shares) && i < |shares|
    ensures -FULL_WEIGHT < FULL_WEIGHT * Distributed(total, shares)[i] - total * shares[i].weight < FULL_WEIGHT
  {
    CentsOf(total, shares, i);
    if (total * shares[i].weight) % FULL_WEIGHT == 0 { NoExtraForWholeShare(total, shares, i); }
  }

  // ---- optimality ----

  /** Squared distance of a split from the exact parts, in ten-thousandths of a cent. */
  function Deviation(cents: seq<int>, numerators: seq<int>): seq<int>
    requires |cents| == |numerators|
  {
    seq(|cents|, i requires 0 <= i < |cents| =>
      (FULL_WEIGHT * cents[i] - numerators[i]) * (FULL_WEIGHT * cents[i] - numerators[i]))
  }

  function SquaredError(cents: seq<int>, total: int, shares: seq<ShareInput>): int
    requires |cents| == |shares|
  {
    Sum(Deviation(cents, Numerators(total, shares)))
  }

  /** Moving d cents costs at least 20000 * middle * d when the error is within 5000 of the middle. */
  lemma MoveCost(error: int, d: int, middle: int)
    requires -5000 <= error - middle <= 5000
    ensures (error + FULL_WEIGHT * d) * (error + FULL_WEIGHT * d) - error * error >= 20000 * middle * d
  {
    var gap := error - middle;
    assert d * gap + 5000 * (d * d) >= 0 by {
      if d >= 1 { assert d * gap >= d * -5000; assert d * d >= d; }
      else if d <= -1 { assert d * gap >= d * 5000; assert d * d >= -d; }
    }
    calc {
      (error + FULL_WEIGHT * d) * (error + FULL_WEIGHT * d) - error * error;
      20000 * (error * d) + 100000000 * (d * d);
      { assert error * d == gap * d + middle * d; }
      20000 * (middle * d) + 20000 * (d * gap + 5000 * (d * d));
    }
  }

  lemma {:induction false} MovesCost(a: seq<int>, b: seq<int>, numerators: seq<int>, middle: int)
    requires |a| == |b| == |numerators|
    requires forall i :: 0 <= i < |a| ==> -5000 <= FULL_WEIGHT * a[i] - numerators[i] - middle <= 5000
    ensures Sum(Deviation(b, numerators)) - Sum(Deviation(a, numerators)) >= 20000 * middle * (Sum(b) - Sum(a))
  {
    if a != [] {
      var n := |a| - 1;
      MovesCost(a[..n], b[..n], numerators[..n], middle);
      assert Deviation(a, numerators)[..n] == Deviation(a[..n], numerators[..n]);
      assert Deviation(b, numerators)[..n] == Deviation(b[..n], numerators[..n]);
      var error, d := FULL_WEIGHT * a[n] - numerators[n], b[n] - a[n];
      MoveCost(error, d, middle);
      assert FULL_WEIGHT * b[n] - numerators[n] == error + FULL_WEIGHT * d;
      var before := Sum(b[..n]) - Sum(a[..n]);
      assert 20000 * middle * (before + d) == 20000 * middle * before + 20000 * middle * d;
    }
  }

  /** The errors of the split lie in one window of width 10000. */
  lemma ErrorsSpanOneWeight(total: int, shares: seq<ShareInput>) returns (middle: int)
    requires WeightsValid(shares)
    ensures forall i :: 0 <= i < |shares| ==>
      -5000 <= FULL_WEIGHT * Distributed(total, shares)[i] - Numerators(total, shares)[i] - middle <= 5000
  {
    LeftoverInRange(total, shares);
    HandOutRanked(total, shares);
    var order, rems, left := HandOut(total, shares), Remainders(Numerators(total, shares)), Leftover(total, shares);
    var keys := LeftoverKeys(rems, shares);
    middle := 5000 - rems[order[left]];
    forall i | 0 <= i < |shares|
      ensures -5000 <= FULL_WEIGHT * Distributed(total, shares)[i] - Numerators(total, shares)[i] - middle <= 5000
    {
      CentsOf(total, shares, i);
      assert i in order;
      var p := PositionOf(keys, order, i);
      RankCompare(keys, order, p, left);
    }
  }

  /** No other split of the same total into whole cents is closer to the exact parts in squared error. */
  lemma LeastSquaredError(total: int, shares: seq<ShareInput>, other: seq<int>)
    requires WeightsValid(shares)
    requires |other| == |shares| && Sum(other) == total
    ensures SquaredError(Distributed(total, shares), total, shares) <= SquaredError(other, total, shares)
  {
    ConservesTotal(total, shares);
    var middle := ErrorsSpanOneWeight(total, shares);
    MovesCost(Distributed(total, shares), other, Numerators(total, shares), middle);
  }

  // ---- fairness and independence of the order of the shares ----

  /** Leftover cents go to larger remainders first. */
  lemma LargerRemainderFirst(total: int, shares: seq<ShareInput>, i: nat, j: nat)
    requires i < |shares| && j < |shares|
    requires (total * shares[i].weight) % FULL_WEIGHT > (total * shares[j].weight) % FULL_WEIGHT
    ensures forall k :: 0 <= k <= |shares| && j in HandOut(total, shares)[..k] ==> i in HandOut(total, shares)[..k]
  {
    HandOutRanked(total, shares);
    var order := HandOut(total, shares);
    var keys := LeftoverKeys(Remainders(Numerators(total, shares)), shares);
    assert i in order && j in order;
    var a := PositionOf(keys, order, i);
    var b := PositionOf(keys, order, j);
    RankCompare(keys, order, a, b);
  }

  /** A strictly larger weight never receives fewer cents. */
  lemma LargerWeightNotFewerCents(total: int, shares: seq<ShareInput>, i: nat, j: nat)
    requires WeightsValid(shares) && total >= 0
    requires i < |shares| && j < |shares| && shares[i].weight > shares[j].weight
    ensures Distributed(total, shares)[i] >= Distributed(total, shares)[j]
  {
    CentsOf(total, shares, i);
    CentsOf(total, shares, j);
    var x, y := total * shares[i].weight, total * shares[j].weight;
    if total == 0 {
      NoExtraForWholeShare(total, shares, j);
    } else {
      LargerProduct(total, shares[i].weight, shares[j].weight);
      if x % FULL_WEIGHT > y % FULL_WEIGHT {
        LargerRemainderFirst(total, shares, i, j);
        assert x / FULL_WEIGHT >= y / FULL_WEIGHT;
      } else {
        NextCent(x, y);
      }
    }
  }

  lemma LargerProduct(total: int, w: int, v: int)
    requires total > 0 && w > v
    ensures total * w > total * v
  {
  }

  lemma NextCent(x: int, y: int)
    requires x > y && x % FULL_WEIGHT <= y % FULL_WEIGHT
    ensures x / FULL_WEIGHT > y / FULL_WEIGHT
  {
  }

  predicate DistinctBeneficiaries(shares: seq<ShareInput>) {
    forall i, j :: 0 <= i < j < |shares| ==> shares[i].beneficiary != shares[j].beneficiary
  }

  function KeyOf(total: int, share: ShareInput): Key {
    Key(-((total * share.weight) % FULL_WEIGHT), share.sortOrder, share.beneficiary)
  }

  /** The shares that are served before a given one: a set, with no order of its own. */
  function ServedBefore(total: int, shares: seq<ShareInput>, share: ShareInput): set<ShareInput> {
    set s | s in shares && KeyLess(KeyOf(total, s), KeyOf(total, share))
  }

  lemma {:induction false} CountDistinct(shares: seq<ShareInput>, order: seq<nat>, k: nat)
    requires k <= |order| && forall a :: 0 <= a < |order| ==> order[a] < |shares|
    requires DistinctBeneficiaries(shares)
    requires forall a, b :: 0 <= a < b < |order| ==> order[a] != order[b]
    ensures |set a | 0 <= a < k :: shares[order[a]]| == k
  {
    var served := set a | 0 <= a < k :: shares[order[a]];
    if k > 0 {
      CountDistinct(shares, order, k - 1);
      var before := set a | 0 <= a < k - 1 :: shares[order[a]];
      var last := shares[order[k - 1]];
      forall a | 0 <= a < k - 1 ensures shares[order[a]] != last {
        assert order[a] != order[k - 1];
      }
      assert served == before + {last};
    }
  }

  /** A share gets an extra cent exactly when fewer shares than leftover cents are served before it. */
  lemma ExtraCentRule(total: int, shares: seq<ShareInput>, i: nat)
    requires WeightsValid(shares) && DistinctBeneficiaries(shares) && i < |shares|
    ensures 0 <= Leftover(total, shares) <= |shares|
    ensures i in HandOut(total, shares)[..Leftover(total, shares)]
       <==> |ServedBefore(total, shares, shares[i])| < Leftover(total, shares)
  {
    LeftoverInRange(total, shares);
    HandOutRanked(total, shares);
    var order, left := HandOut(total, shares), Leftover(total, shares);
    var keys := LeftoverKeys(Remainders(Numerators(total, shares)), shares);
    assert i in order;
    var p := PositionOf(keys, order, i);
    ServedFirst(total, shares, p);
  }

  /** The share listed at position p is preceded by exactly p shares. */
  lemma ServedFirst(total: int, shares: seq<ShareInput>, p: nat)
    requires WeightsValid(shares) && DistinctBeneficiaries(shares) && p < |shares|
    ensures HandOut(total, shares)[p] < |shares|
    ensures |ServedBefore(total, shares, shares[HandOut(total, shares)[p]])| == p
  {
    HandOutRanked(total, shares);
    var order := HandOut(total, shares);
    CountDistinct(shares, order, p);
    ServedAreListed(total, shares, p);
  }

  lemma ServedAreListed(total: int, shares: seq<ShareInput>, p: nat)
    requires WeightsValid(shares) && DistinctBeneficiaries(shares) && p < |shares|
    requires forall a :: 0 <= a < |shares| ==> HandOut(total, shares)[a] < |shares|
    ensures var order := HandOut(total, shares);
            ServedBefore(total, shares, shares[order[p]]) == set a | 0 <= a < p :: shares[order[a]]
  {
    HandOutRanked(total, shares);
    var order := HandOut(total, shares);
    var keys := LeftoverKeys(Remainders(Numerators(total, shares)), shares);
    var share := shares[order[p]];
    forall s | s in ServedBefore(total, shares, share) ensures exists a :: 0 <= a < p && shares[order[a]] == s {
      var j :| 0 <= j < |shares| && shares[j] == s;
      assert j in order;
      var b := PositionOf(keys, order, j);
      RankCompare(keys, order, b, p);
    }
    forall a | 0 <= a < p ensures shares[order[a]] in ServedBefore(total, shares, share) {
      RankCompare(keys, order, a, p);
    }
  }

  lemma FloorsOfMultiset(total: int, shares: seq<ShareInput>, others: seq<ShareInput>)
    requires multiset(shares) == multiset(others)
    ensures multiset(Floors(Numerators(total, shares))) == multiset(Floors(Numerators(total, others)))
    decreases |shares|
  {
    assert |multiset(shares)| == |shares| && |multiset(others)| == |others|;
    if shares != [] {
      var n := |shares| - 1;
      var last := shares[n];
      assert last in multiset(shares);
      var k :| 0 <= k < |others| && others[k] == last;
      DropShare(shares, n);
      DropShare(others, k);
      assert shares[..n] + shares[n + 1..] == shares[..n];
      FloorsOfMultiset(total, shares[..n], others[..k] + others[k + 1..]);
      DropFloor(total, shares, n);
      DropFloor(total, others, k);
    }
  }

  lemma DropShare(shares: seq<ShareInput>, k: nat)
    requires k < |shares|
    ensures multiset(shares[..k] + shares[k + 1..]) == multiset(shares) - multiset{shares[k]}
  {
    var left, right, x := shares[..k], shares[k + 1..], shares[k];
    assert shares == (left + [x]) + right;
    assert multiset(shares) == multiset((left + [x]) + right) == multiset(left) + multiset{x} + multiset(right);
  }

  lemma DropFloor(total: int, shares: seq<ShareInput>, k: nat)
    requires k < |shares|
    ensures multiset(Floors(Numerators(total, shares)))
         == multiset(Floors(Numerators(total, shares[..k] + shares[k + 1..])))
             + multiset{(total * shares[k].weight) / FULL_WEIGHT}
  {
    var all, rest := Floors(Numerators(total, shares)), Floors(Numerators(total, shares[..k] + shares[k + 1..]));
    assert rest == all[..k] + all[k + 1..];
    RemoveAt(all, k);
  }

  /**
   Listing the shares in another order changes nobody's cents: equal shares of
   two lists with the same members get the same amount.
   */
  lemma OrderOfSharesIrrelevant(total: int, shares: seq<ShareInput>, others: seq<ShareInput>, i: nat, j: nat)
    requires WeightsValid(shares) && WeightsValid(others)
    requires DistinctBeneficiaries(shares) && DistinctBeneficiaries(others)
    requires multiset(shares) == multiset(others)
    requires i < |shares| && j < |others| && shares[i] == others[j]
    ensures Distributed(total, shares)[i] == Distributed(total, others)[j]
  {
    FloorsOfMultiset(total, shares, others);
    SumOfMultiset(Floors(Numerators(total, shares)), Floors(Numerators(total, others)));
    assert forall s :: s in shares <==> s in multiset(shares);
    assert forall s :: s in others <==> s in multiset(others);
    assert ServedBefore(total, shares, shares[i]) == ServedBefore(total, others, others[j]);
    ExtraCentRule(total, shares, i);
    ExtraCentRule(total, others, j);
    CentsOf(total, shares, i);
    CentsOf(total, others, j);
  }
}
