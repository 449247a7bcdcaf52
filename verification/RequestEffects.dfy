/**
 What a submission is frozen into, field by field, and which check it fails
 first: amounts to the nearest cent, each share with what it was given.
 Nothing here is said through the functions that compute it, except for the
 split by weight, whose own laws are in Distribution.
 */
module RequestEffects {
  import opened Wrappers
  import opened Sums
  import opened Requests
  import Distribution

  /** The amount in cents, to the nearest, halves away from zero. */
  predicate IsCents(cents: int, amount: real) {
    && -0.5 <= cents as real - amount * 100.0 <= 0.5
    && (cents as real - amount * 100.0 == 0.5 ==> amount > 0.0)
    && (cents as real - amount * 100.0 == -0.5 ==> amount < 0.0)
  }

  lemma CentsUnique(a: int, b: int, amount: real)
    requires IsCents(a, amount) && IsCents(b, amount)
    ensures a == b
  {
  }

  // ---- basis and pool ----

  /** The cents of the items with this effect. */
  function EffectCents(items: seq<Item>, effect: Effect): seq<int> {
    seq(|items|, i requires 0 <= i < |items| => if items[i].effect == effect then items[i].cents else 0)
  }

  lemma {:induction false} SignedSplits(items: seq<Item>)
    requires forall i :: 0 <= i < |items| ==> items[i].effect != UnknownEffect
    ensures Sum(SignedItems(items)) == Sum(EffectCents(items, Increase)) - Sum(EffectCents(items, Decrease))
  {
    if items != [] {
      var front := items[..|items| - 1];
      SignedSplits(front);
      assert SignedItems(items)[..|front|] == SignedItems(front);
      assert EffectCents(items, Increase)[..|front|] == EffectCents(front, Increase);
      assert EffectCents(items, Decrease)[..|front|] == EffectCents(front, Decrease);
    }
  }

  /** The first item that no basis accepts: not a positive amount of cents, or an unknown effect. */
  predicate FirstBad(items: seq<ItemInput>, i: nat) {
    && i < |items| && (items[i].amount < 0.005 || items[i].effect.UnknownEffect?)
    && forall j :: 0 <= j < i ==> items[j].amount >= 0.005 && !items[j].effect.UnknownEffect?
  }

  lemma PositiveCents(amount: real)
    ensures Distribution.QuantizeMoney(amount) > 0 <==> amount >= 0.005
    ensures Distribution.QuantizeMoney(amount) < 0 <==> amount <= -0.005
    ensures IsCents(Distribution.QuantizeMoney(amount), amount)
  {
    QuantizeNearest(amount);
  }

  lemma {:induction false} FirstFaultIs(items: seq<ItemInput>, i: nat)
    requires FirstBad(items, i)
    ensures FirstFault(Quantized(items)) == Some(if items[i].amount < 0.005 then ItemNotPositive else UnknownItemEffect)
  {
    var rows := Quantized(items);
    forall j | 0 <= j <= i ensures ItemFine(rows[j]) <==> items[j].amount >= 0.005 && !items[j].effect.UnknownEffect? {
      PositiveCents(items[j].amount);
    }
    PositiveCents(items[i].amount);
    FaultAfterFine(rows, i);
  }

  lemma {:induction false} NoBadItem(items: seq<ItemInput>)
    ensures FirstFault(Quantized(items)).None? <==> !exists i: nat :: FirstBad(items, i)
    ensures FirstFault(Quantized(items)).None? <==>
              forall i :: 0 <= i < |items| ==> items[i].amount >= 0.005 && !items[i].effect.UnknownEffect?
  {
    var rows := Quantized(items);
    FaultFree(rows);
    forall j | 0 <= j < |items|
      ensures ItemFine(rows[j]) <==> items[j].amount >= 0.005 && !items[j].effect.UnknownEffect?
    {
      PositiveCents(items[j].amount);
    }
    if FirstFault(rows).None? {
      forall i: nat ensures !FirstBad(items, i) {
        if i < |items| { assert ItemFine(rows[i]); }
      }
    } else {
      var j :| 0 <= j < |rows| && !ItemFine(rows[j]);
      LeastBad(items, j);
    }
  }

  lemma {:induction false} LeastBad(items: seq<ItemInput>, j: nat)
    requires j < |items| && (items[j].amount < 0.005 || items[j].effect.UnknownEffect?)
    ensures exists i: nat :: FirstBad(items, i)
    decreases j
  {
    if k: nat :| k < j && (items[k].amount < 0.005 || items[k].effect.UnknownEffect?) {
      LeastBad(items, k);
    } else {
      assert FirstBad(items, j);
    }
  }

  /** Which error the items of a submission end in, and their basis otherwise. */
  lemma BasisExact(items: seq<ItemInput>)
    ensures var basis, rows := BasisOf(Quantized(items)), Quantized(items);
            && |rows| == |items|
            && (forall i :: 0 <= i < |items| ==>
                  rows[i].effect == items[i].effect && IsCents(rows[i].cents, items[i].amount))
            && (items == [] ==> basis == Err(NoItems))
            && (forall i: nat :: FirstBad(items, i) ==>
                  basis == Err(if items[i].amount < 0.005 then ItemNotPositive else UnknownItemEffect))
            && (items != [] && (forall i: nat :: !FirstBad(items, i)) ==>
                  var net := Sum(EffectCents(rows, Increase)) - Sum(EffectCents(rows, Decrease));
                  basis == if net < 0 then Err(NegativeBasis) else Ok(net))
  {
    var rows := Quantized(items);
    forall i | 0 <= i < |items| ensures rows[i].effect == items[i].effect && IsCents(rows[i].cents, items[i].amount) {
      PositiveCents(items[i].amount);
    }
    forall i: nat | FirstBad(items, i)
      ensures BasisOf(rows) == Err(if items[i].amount < 0.005 then ItemNotPositive else UnknownItemEffect)
    {
      FirstFaultIs(items, i);
    }
    NoBadItem(items);
    if forall i: nat :: !FirstBad(items, i) { SignedSplits(rows); }
  }

  /** Which pool a request distributes, or why none. */
  lemma PoolExact(basis: int, distribution: Method, rate: Option<int>, amount: Option<real>)
    requires basis >= 0
    ensures var pool := PoolOf(basis, distribution, rate, amount);
            match distribution
            case Percentage =>
              if rate.None? || rate.value < 0 || rate.value > 10000 then pool == Err(BadRate)
              else if amount.Some? then pool == Err(AmountWithRate)
              else pool.Ok? && IsCents(pool.value, (basis * rate.value) as real / 1000000.0)
            case FixedPool =>
              if rate.Some? then pool == Err(RateWithAmount)
              else if amount.None? || amount.value < 0.0 then pool == Err(BadFixedAmount)
              else pool.Ok? && IsCents(pool.value, amount.value)
            case UnknownMethod => pool == Err(UnknownDistribution)
  {
    if distribution == Percentage && rate.Some? && 0 <= rate.value <= 10000 && amount.None? {
      PercentOfBasis(basis, rate.value);
      PositiveCents(basis as real / 100.0 * rate.value as real / 10000.0);
      assert (basis * rate.value) as real / 1000000.0 == basis as real / 100.0 * rate.value as real / 10000.0;
    }
    if distribution == FixedPool && amount.Some? { PositiveCents(amount.value); }
  }

  // ---- the shares ----

  /** The first check that the shares of a submission fail, before anything is computed. */
  function SharesFailure(shares: seq<Distribution.ShareInput>): Option<AllocationError> {
    if |shares| == 0 then Some(NoBeneficiary)
    else if exists i, j :: 0 <= i < j < |shares| && shares[i].beneficiary == shares[j].beneficiary
    then Some(RepeatedBeneficiary)
    else if Sum(seq(|shares|, i requires 0 <= i < |shares| => shares[i].weight)) != 10000 then Some(WeightSum)
    else if && (exists i :: 0 <= i < |shares| && shares[i].fixed.Some?)
            && (exists i :: 0 <= i < |shares| && shares[i].fixed.None?)
    then Some(PartlyFixed)
    else None
  }

  lemma SharesExact(shares: seq<Distribution.ShareInput>)
    ensures ValidateShares(shares) == SharesFailure(shares)
  {
    assert Distribution.Weights(shares) == seq(|shares|, i requires 0 <= i < |shares| => shares[i].weight);
    if s :| s in shares && s.fixed.Some? {
      var i :| 0 <= i < |shares| && shares[i] == s;
      assert shares[i].fixed.Some?;
    }
    if i :| 0 <= i < |shares| && shares[i].fixed.Some? { assert shares[i] in shares; }
    if i :| 0 <= i < |shares| && shares[i].fixed.None? { assert shares[i] in shares; }
  }

  /** The first check that a submission fails, given the cents of the amounts its shares may name. */
  function CreationFailure(sub: Submission, directory: Directory, given: seq<int>): Option<AllocationError>
    requires |given| == |sub.shares|
  {
    if SharesFailure(sub.shares).Some? then SharesFailure(sub.shares)
    else if (sub.org, sub.submitter) !in directory.active then Some(NotAMember)
    else if sub.teamOrg.Some? && sub.teamOrg != Some(sub.org) then Some(ForeignTeam)
    else
      var basis := BasisOf(Quantized(sub.items));
      if basis.Err? then Some(basis.error)
      else
        var pool := PoolOf(basis.value, sub.distribution, sub.rate, sub.pool);
        if pool.Err? then Some(pool.error)
        else if exists i :: 0 <= i < |sub.shares| && (sub.org, sub.shares[i].beneficiary) !in directory.active
        then Some(NotAMember)
        else if exists i :: 0 <= i < |sub.shares| && !(0 < sub.shares[i].weight <= 10000) then Some(WeightRange)
        else if sub.shares[0].fixed.None? then None
        else if exists i :: 0 <= i < |given| && given[i] < 0 then Some(NegativeShare)
        else if Sum(given) > pool.value then Some(SharesExceedPool)
        else None
  }

  /** The frozen part of a new request, field by field. */
  predicate TermsFrozen(terms: Terms, sub: Submission, given: seq<int>)
    requires |given| == |sub.shares|
  {
    var basis, pool := BasisOf(Quantized(sub.items)), PoolOf(terms.basis, sub.distribution, sub.rate, sub.pool);
    && terms.org == sub.org && basis == Ok(terms.basis) && pool == Ok(terms.pool)
    && terms.distribution == sub.distribution && terms.rate == sub.rate && terms.items == Quantized(sub.items)
    && terms.submittedBy == sub.submitter && terms.submittedAt == sub.at && terms.expiresAt == sub.at + 604800
    && terms.submittedMonth == Date(sub.atMonth, 1) && terms.performanceMonth == sub.performanceMonth
    && |terms.shares| == |sub.shares| && Distribution.WeightsValid(sub.shares)
    && forall i :: 0 <= i < |sub.shares| ==>
         && terms.shares[i].beneficiary == sub.shares[i].beneficiary && terms.shares[i].weight == sub.shares[i].weight
         && terms.shares[i].sortOrder == sub.shares[i].sortOrder
         && terms.shares[i].attributed == Distribution.Distributed(terms.basis, sub.shares)[i]
         && terms.shares[i].cents == (if sub.shares[i].fixed.Some? then given[i]
                                      else Distribution.Distributed(terms.pool, sub.shares)[i])
  }

  /** The amounts that shares name are these cents. */
  predicate Given(shares: seq<Distribution.ShareInput>, given: seq<int>) {
    && |given| == |shares|
    && forall i :: 0 <= i < |shares| && shares[i].fixed.Some? ==> IsCents(given[i], shares[i].fixed.value)
  }

  lemma GivenCents(shares: seq<Distribution.ShareInput>, given: seq<int>)
    requires Given(shares, given) && forall i :: 0 <= i < |shares| ==> shares[i].fixed.Some?
    ensures FixedCents(shares) == given
  {
    forall i | 0 <= i < |shares| ensures FixedCents(shares)[i] == given[i] {
      PositiveCents(shares[i].fixed.value);
      CentsUnique(FixedCents(shares)[i], given[i], shares[i].fixed.value);
    }
  }

  lemma InputMembersMissing(directory: Directory, org: int, shares: seq<Distribution.ShareInput>)
    ensures MembersOf(directory, org, Beneficiaries(shares)) != Beneficiaries(shares) <==>
              exists i :: 0 <= i < |shares| && (org, shares[i].beneficiary) !in directory.active
  {
    if i :| 0 <= i < |shares| && (org, shares[i].beneficiary) !in directory.active {
      assert shares[i] in shares && shares[i].beneficiary in Beneficiaries(shares);
    }
  }

  /** When the shares pass their first check, they all name an amount or none does. */
  lemma AllOrNoneFixed(shares: seq<Distribution.ShareInput>)
    requires SharesFailure(shares).None?
    ensures if shares[0].fixed.Some? then forall i :: 0 <= i < |shares| ==> shares[i].fixed.Some?
            else forall s :: s in shares ==> s.fixed.None?
  {
  }

  /** The cents of the shares: split by weight, or as given. */
  lemma CentsExact(pool: int, shares: seq<Distribution.ShareInput>, given: seq<int>)
    requires Given(shares, given) && SharesFailure(shares).None? && Distribution.WeightsValid(shares)
    ensures var cents := ShareCents(pool, shares);
            if shares[0].fixed.None? then cents == Ok(Distribution.Distributed(pool, shares))
            else if exists i :: 0 <= i < |given| && given[i] < 0 then cents == Err(NegativeShare)
            else if Sum(given) > pool then cents == Err(SharesExceedPool)
            else cents == Ok(given)
  {
    AllOrNoneFixed(shares);
    if shares[0].fixed.Some? {
      GivenCents(shares, given);
      assert shares[0] in shares;
      assert FixedCents(shares) == given;
      assert (exists c :: c in FixedCents(shares) && c < 0) <==> exists i :: 0 <= i < |given| && given[i] < 0 by {
        if i :| 0 <= i < |given| && given[i] < 0 { assert given[i] in given; }
      }
    }
  }

  lemma TermsExact(sub: Submission, directory: Directory, given: seq<int>)
    requires Given(sub.shares, given)
    ensures var terms := TermsOf(sub, directory);
            match CreationFailure(sub, directory, given)
            case Some(e) => terms == Err(e)
            case None => terms.Ok? && TermsFrozen(terms.value, sub, given)
  {
    var shares := sub.shares;
    SharesExact(shares);
    if SharesFailure(shares).None? {
      InputMembersMissing(directory, sub.org, shares);
      WeightsExact(shares);
      if Distribution.WeightsValid(shares) { SharedExact(sub, directory, given); }
    }
  }

  /** What is left to check once the shares pass: the basis, the pool, the members, and the cents. */
  lemma SharedExact(sub: Submission, directory: Directory, given: seq<int>)
    requires Given(sub.shares, given) && SharesFailure(sub.shares).None? && Distribution.WeightsValid(sub.shares)
    ensures var terms := TermsOf(sub, directory);
            match CreationFailure(sub, directory, given)
            case Some(e) => terms == Err(e)
            case None => terms.Ok? && TermsFrozen(terms.value, sub, given)
  {
    WeightsExact(sub.shares);
    SharesExact(sub.shares);
    InputMembersMissing(directory, sub.org, sub.shares);
    if CreationFailure(sub, directory, given).None? {
      FrozenExact(sub, directory, given);
    } else {
      var basis := BasisOf(Quantized(sub.items));
      if basis.Ok? {
        var pool := PoolOf(basis.value, sub.distribution, sub.rate, sub.pool);
        if pool.Ok? { CentsExact(pool.value, sub.shares, given); }
      }
    }
  }

  lemma FrozenExact(sub: Submission, directory: Directory, given: seq<int>)
    requires Given(sub.shares, given) && CreationFailure(sub, directory, given).None?
    requires Distribution.WeightsValid(sub.shares)
    ensures TermsOf(sub, directory).Ok? && TermsFrozen(TermsOf(sub, directory).value, sub, given)
  {
    SharesExact(sub.shares);
    InputMembersMissing(directory, sub.org, sub.shares);
    var basis := BasisOf(Quantized(sub.items)).value;
    var pool := PoolOf(basis, sub.distribution, sub.rate, sub.pool).value;
    CentsExact(pool, sub.shares, given);
    AllOrNoneFixed(sub.shares);
    RowsFrozen(sub, given, basis, pool, ShareCents(pool, sub.shares).value);
  }

  lemma RowsFrozen(sub: Submission, given: seq<int>, basis: int, pool: int, cents: seq<int>)
    requires |given| == |sub.shares| == |cents| && Distribution.WeightsValid(sub.shares)
    requires BasisOf(Quantized(sub.items)) == Ok(basis)
    requires PoolOf(basis, sub.distribution, sub.rate, sub.pool) == Ok(pool)
    requires forall i :: 0 <= i < |cents| ==>
               cents[i] == if sub.shares[i].fixed.Some? then given[i]
                           else Distribution.Distributed(pool, sub.shares)[i]
    ensures TermsFrozen(Terms(sub.org, basis, sub.distribution, sub.rate, pool, Quantized(sub.items),
                              ShareRows(sub.shares, Distribution.Distributed(basis, sub.shares), cents),
                              sub.submitter, sub.at, Date(sub.atMonth, 1), sub.at + 604800, sub.performanceMonth),
                        sub, given)
  {
  }

  lemma WeightsExact(shares: seq<Distribution.ShareInput>)
    requires SharesFailure(shares).None?
    ensures Distribution.WeightsValid(shares) <==>
              !exists i :: 0 <= i < |shares| && !(0 < shares[i].weight <= 10000)
  {
    assert Distribution.Weights(shares) == seq(|shares|, i requires 0 <= i < |shares| => shares[i].weight);
  }

  // ---- constraints ----

  /** The rows of a request meet the database's constraints. */
  predicate RowsValid(terms: Terms) {
    && terms.basis >= 0 && terms.pool >= 0 && terms.expiresAt - terms.submittedAt == 604800
    && !terms.distribution.UnknownMethod?
    && (terms.rate.Some? <==> terms.distribution.Percentage?)
    && (terms.rate.Some? ==> 0 <= terms.rate.value <= 10000)
    && (forall item :: item in terms.items ==> item.cents >= 1 && (item.effect.Increase? || item.effect.Decrease?))
    && (forall s :: s in terms.shares ==> 0 < s.weight < 10001 && 0 <= s.attributed && 0 <= s.cents)
    && (forall i, j :: 0 <= i < |terms.shares| && 0 <= j < |terms.shares| && i != j ==>
          terms.shares[i].beneficiary != terms.shares[j].beneficiary)
  }

  lemma RowsShape(terms: Terms)
    ensures TermsShape(terms) <==> RowsValid(terms)
  {
    if RowsValid(terms) {
      forall i | 0 <= i < |terms.items| ensures ItemFine(terms.items[i]) { assert terms.items[i] in terms.items; }
    }
    if TermsShape(terms) {
      forall item | item in terms.items ensures item.cents >= 1 && (item.effect.Increase? || item.effect.Decrease?) {
        var i :| 0 <= i < |terms.items| && terms.items[i] == item;
        assert ItemFine(terms.items[i]);
      }
    }
  }
}
