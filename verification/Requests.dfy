/**
 What an allocation request is made of and how it is built: the basis from its
 items, the pool from the basis, and every share's cents from the weights.
 */
module Requests {
  import opened Wrappers
  import opened Sums
  import opened Distribution

  const REVIEW_SECONDS := 168 * 3600

  datatype Effect = Increase | Decrease | UnknownEffect
  datatype ItemInput = ItemInput(effect: Effect, amount: real)
  datatype Item = Item(effect: Effect, cents: int)

  datatype Method = Percentage | FixedPool | UnknownMethod

  datatype Share = Share(beneficiary: int, weight: int, attributed: int, cents: int, sortOrder: int)

  /** A calendar date: a running month number and the day in that month. */
  datatype Date = Date(month: int, day: int)

  /** An organization's members whose account is active, and all its members. */
  datatype Directory = Directory(active: set<(int, int)>, all: set<(int, int)>)

  datatype AllocationError =
    | NoItems | ItemNotPositive | UnknownItemEffect | NegativeBasis
    | BadRate | AmountWithRate | RateWithAmount | BadFixedAmount | UnknownDistribution
    | NoBeneficiary | RepeatedBeneficiary | WeightSum | WeightRange | PartlyFixed
    | NotAMember | ForeignTeam | NegativeShare | SharesExceedPool
    | UnknownRequest | NotPending | NotResubmittable | ReviewTooLate | NotApproved | ReasonMissing
    | BasisMismatch | NotManual | ZeroAmount | FutureMonth | GuardRejected

  /** The frozen part of a request: what was submitted and computed then. */
  datatype Terms = Terms(
    org: int, basis: int, distribution: Method, rate: Option<int>, pool: int,
    items: seq<Item>, shares: seq<Share>,
    submittedBy: int, submittedAt: int, submittedMonth: Date, expiresAt: int, performanceMonth: Option<Date>)

  datatype Submission = Submission(
    org: int, submitter: int, teamOrg: Option<int>, items: seq<ItemInput>, shares: seq<ShareInput>,
    distribution: Method, rate: Option<int>, pool: Option<real>,
    at: int, atMonth: int, performanceMonth: Option<Date>)

  // ---- basis ----

  function Signed(effect: Effect, cents: int): int {
    if effect == Increase then cents else -cents
  }

  function SignedItems(items: seq<Item>): seq<int> {
    seq(|items|, i requires 0 <= i < |items| => Signed(items[i].effect, items[i].cents))
  }

  function Quantized(items: seq<ItemInput>): seq<Item> {
    seq(|items|, i requires 0 <= i < |items| => Item(items[i].effect, QuantizeMoney(items[i].amount)))
  }

  predicate ItemFine(item: Item) {
    item.cents > 0 && item.effect != UnknownEffect
  }

  function ItemFault(item: Item): AllocationError {
    if item.cents <= 0 then ItemNotPositive else UnknownItemEffect
  }

  /** What is wrong with the first unacceptable item, if any. */
  function FirstFault(items: seq<Item>): Option<AllocationError> {
    if items == [] then None
    else if !ItemFine(items[0]) then Some(ItemFault(items[0]))
    else FirstFault(items[1..])
  }

  function BasisOf(items: seq<Item>): Result<int, AllocationError> {
    if items == [] then Err(NoItems)
    else if FirstFault(items).Some? then Err(FirstFault(items).value)
    else if Sum(SignedItems(items)) < 0 then Err(NegativeBasis)
    else Ok(Sum(SignedItems(items)))
  }

  lemma {:induction false} FaultAfterFine(items: seq<Item>, i: nat)
    requires i <= |items| && forall j :: 0 <= j < i ==> ItemFine(items[j])
    ensures FirstFault(items) == FirstFault(items[i..])
  {
    if i > 0 {
      FaultAfterFine(items[1..], i - 1);
      assert items[1..][i - 1..] == items[i..];
    } else {
      assert items[0..] == items;
    }
  }

  lemma {:induction false} FaultFree(items: seq<Item>)
    ensures FirstFault(items).None? <==> forall i :: 0 <= i < |items| ==> ItemFine(items[i])
  {
    if items != [] {
      FaultFree(items[1..]);
      assert forall i :: 0 < i < |items| ==> items[i] == items[1..][i - 1];
      assert (forall i :: 0 <= i < |items[1..]| ==> ItemFine(items[1..][i]))
        <==> (forall i :: 0 < i < |items| ==> ItemFine(items[i]));
    }
  }

  /** A basis is accepted exactly for non-empty lists of positive, known items that do not net below zero. */
  lemma BasisAccepted(items: seq<Item>)
    ensures BasisOf(items).Ok? <==>
      (items != [] && (forall i :: 0 <= i < |items| ==> ItemFine(items[i])) && Sum(SignedItems(items)) >= 0)
    ensures BasisOf(items).Ok? ==> BasisOf(items).value == Sum(SignedItems(items)) >= 0
  {
    FaultFree(items);
  }

  method CalculateBasisAmount(items: seq<ItemInput>) returns (r: Result<int, AllocationError>)
    ensures r == BasisOf(Quantized(items))
  {
    if items == [] { return Err(NoItems); }
    var total := 0;
    ghost var rows := Quantized(items);
    for i := 0 to |items|
      invariant forall j :: 0 <= j < i ==> ItemFine(rows[j])
      invariant total == Sum(SignedItems(rows)[..i])
    {
      FaultAfterFine(rows, i);
      var cents := QuantizeMoney(items[i].amount);
      assert rows[i] == Item(items[i].effect, cents);
      if cents <= 0 { return Err(ItemNotPositive); }
      assert SignedItems(rows)[..i + 1] == SignedItems(rows)[..i] + [Signed(items[i].effect, cents)];
      SumSnoc(SignedItems(rows)[..i], Signed(items[i].effect, cents));
      match items[i].effect {
        case Increase => total := total + cents;
        case Decrease => total := total - cents;
        case UnknownEffect => return Err(UnknownItemEffect);
      }
    }
    assert SignedItems(rows)[..|items|] == SignedItems(rows);
    BasisAccepted(rows);
    FaultFree(rows);
    if total < 0 { return Err(NegativeBasis); }
    r := Ok(total);
  }

  // ---- pool ----

  function PoolOf(basis: int, distribution: Method, rate: Option<int>,
                  amount: Option<real>): Result<int, AllocationError> {
    match distribution
    case Percentage =>
      if rate.None? || !(0 <= rate.value <= FULL_WEIGHT) then Err(BadRate)
      else if amount.Some? then Err(AmountWithRate)
      else Ok(QuantizeMoney(basis as real / 100.0 * rate.value as real / FULL_WEIGHT as real))
    case FixedPool =>
      if rate.Some? then Err(RateWithAmount)
      else if amount.None? || amount.value < 0.0 then Err(BadFixedAmount)
      else Ok(QuantizeMoney(amount.value))
    case UnknownMethod => Err(UnknownDistribution)
  }

  /** Quantizing moves an amount by at most half a cent, and a half moves away from zero. */
  lemma QuantizeNearest(amount: real)
    ensures -0.5 <= QuantizeMoney(amount) as real - amount * 100.0 <= 0.5
    ensures QuantizeMoney(amount) as real - amount * 100.0 == 0.5 ==> amount > 0.0
    ensures QuantizeMoney(amount) as real - amount * 100.0 == -0.5 ==> amount < 0.0
  {
  }

  lemma PercentOfBasis(basis: int, rate: int)
    requires 0 <= basis && 0 <= rate <= FULL_WEIGHT
    ensures 0.0 <= basis as real / 100.0 * rate as real / 10000.0
    ensures basis as real / 100.0 * rate as real / 10000.0 * 100.0 == (basis * rate) as real / 10000.0
    ensures 0 <= basis * rate <= basis * 10000
  {
    assert basis as real / 100.0 * rate as real == (basis as real * rate as real) / 100.0;
    assert basis as real * rate as real == (basis * rate) as real;
  }

  /** A percentage pool lies between nothing and the basis, half a cent at most from the exact percentage. */
  lemma PercentagePool(basis: int, rate: int)
    requires 0 <= basis && 0 <= rate <= FULL_WEIGHT
    ensures PoolOf(basis, Percentage, Some(rate), None).Ok?
    ensures var pool := PoolOf(basis, Percentage, Some(rate), None).value;
            0 <= pool <= basis && -5000 <= FULL_WEIGHT * pool - basis * rate <= 5000
  {
    var exact := basis as real / 100.0 * rate as real / 10000.0;
    PercentOfBasis(basis, rate);
    QuantizeNearest(exact);
    var pool := QuantizeMoney(exact);
    assert -0.5 <= pool as real - (basis * rate) as real / 10000.0 <= 0.5;
    assert -5000.0 <= (10000 * pool - basis * rate) as real <= 5000.0;
  }

  // ---- the whole request ----

  function Beneficiaries(shares: seq<ShareInput>): set<int> {
    set s | s in shares :: s.beneficiary
  }

  function FixedCents(shares: seq<ShareInput>): seq<int> {
    seq(|shares|, i requires 0 <= i < |shares| =>
           QuantizeMoney(if shares[i].fixed.Some? then shares[i].fixed.value else 0.0))
  }

  /** The cents of each share: by weight, or as given when every share gives an amount. */
  function ShareCents(pool: int, shares: seq<ShareInput>): (r: Result<seq<int>, AllocationError>)
    requires WeightsValid(shares)
    ensures r.Ok? ==> |r.value| == |shares|
  {
    if forall s :: s in shares ==> s.fixed.None? then Ok(Distributed(pool, shares))
    else if exists c :: c in FixedCents(shares) && c < 0 then Err(NegativeShare)
    else if Sum(FixedCents(shares)) > pool then Err(SharesExceedPool)
    else Ok(FixedCents(shares))
  }

  function ShareRows(shares: seq<ShareInput>, attributed: seq<int>, cents: seq<int>): (rows: seq<Share>)
    requires |shares| == |attributed| == |cents|
  {
    seq(|shares|, i requires 0 <= i < |shares| =>
      Share(shares[i].beneficiary, shares[i].weight, attributed[i], cents[i], shares[i].sortOrder))
  }

  function ValidateShares(shares: seq<ShareInput>): Option<AllocationError> {
    if shares == [] then Some(NoBeneficiary)
    else if !DistinctBeneficiaries(shares) then Some(RepeatedBeneficiary)
    else if Sum(Weights(shares)) != FULL_WEIGHT then Some(WeightSum)
    else if (exists s :: s in shares && s.fixed.Some?) && !(forall s :: s in shares ==> s.fixed.Some?)
    then Some(PartlyFixed)
    else None
  }

  function MembersOf(directory: Directory, org: int, users: set<int>): set<int> {
    set u | u in users && (org, u) in directory.active
  }

  /** The terms a submission is frozen into, or the first check it fails. */
  function TermsOf(sub: Submission, directory: Directory): Result<Terms, AllocationError> {
    if ValidateShares(sub.shares).Some? then Err(ValidateShares(sub.shares).value)
    else if (sub.org, sub.submitter) !in directory.active then Err(NotAMember)
    else if sub.teamOrg.Some? && sub.teamOrg.value != sub.org then Err(ForeignTeam)
    else match BasisOf(Quantized(sub.items))
      case Err(e) => Err(e)
      case Ok(basis) =>
        match PoolOf(basis, sub.distribution, sub.rate, sub.pool)
        case Err(e) => Err(e)
        case Ok(pool) =>
          if MembersOf(directory, sub.org, Beneficiaries(sub.shares)) != Beneficiaries(sub.shares) then Err(NotAMember)
          else if !WeightsValid(sub.shares) then Err(WeightRange)
          else match ShareCents(pool, sub.shares)
            case Err(e) => Err(e)
            case Ok(cents) =>
              Ok(Terms(sub.org, basis, sub.distribution, sub.rate, pool, Quantized(sub.items),
                       ShareRows(sub.shares, Distributed(basis, sub.shares), cents),
                       sub.submitter, sub.at, Date(sub.atMonth, 1), sub.at + REVIEW_SECONDS, sub.performanceMonth))
  }

  // ---- what every created request satisfies ----

  function ShareAmounts(shares: seq<Share>): seq<int> {
    seq(|shares|, i requires 0 <= i < |shares| => shares[i].cents)
  }

  function ShareWeights(shares: seq<Share>): seq<int> {
    seq(|shares|, i requires 0 <= i < |shares| => shares[i].weight)
  }

  function ShareUsers(shares: seq<Share>): set<int> {
    set s | s in shares :: s.beneficiary
  }

  /** The recheck made at approval. */
  function TotalsFault(terms: Terms, directory: Directory): Option<AllocationError> {
    if Sum(SignedItems(terms.items)) != terms.basis then Some(BasisMismatch)
    else if Sum(ShareWeights(terms.shares)) != FULL_WEIGHT then Some(WeightSum)
    else if Sum(ShareAmounts(terms.shares)) > terms.pool then Some(SharesExceedPool)
    else if MembersOf(directory, terms.org, ShareUsers(terms.shares)) != ShareUsers(terms.shares) then Some(NotAMember)
    else None
  }

  /** Database constraints on the frozen part and its rows. */
  predicate TermsShape(terms: Terms) {
    && terms.basis >= 0 && terms.pool >= 0
    && terms.expiresAt == terms.submittedAt + REVIEW_SECONDS
    && (match terms.distribution
        case Percentage => terms.rate.Some? && 0 <= terms.rate.value <= FULL_WEIGHT
        case FixedPool => terms.rate.None?
        case UnknownMethod => false)
    && (forall i :: 0 <= i < |terms.items| ==> ItemFine(terms.items[i]))
    && (forall s :: s in terms.shares ==> 1 <= s.weight <= FULL_WEIGHT && s.attributed >= 0 && s.cents >= 0)
    && (forall i, j :: 0 <= i < j < |terms.shares| ==> terms.shares[i].beneficiary != terms.shares[j].beneficiary)
  }

  lemma SplitNotNegative(total: int, shares: seq<ShareInput>, i: nat)
    requires WeightsValid(shares) && i < |shares| && total >= 0
    ensures Distributed(total, shares)[i] >= 0
  {
    CentsOf(total, shares, i);
    assert total * shares[i].weight >= 0;
  }

  lemma PoolNotNegative(basis: int, distribution: Method, rate: Option<int>, amount: Option<real>)
    requires basis >= 0 && PoolOf(basis, distribution, rate, amount).Ok?
    ensures PoolOf(basis, distribution, rate, amount).value >= 0
  {
    if distribution == Percentage { PercentagePool(basis, rate.value); }
  }

  lemma ShareCentsSound(pool: int, shares: seq<ShareInput>)
    requires WeightsValid(shares) && pool >= 0 && ShareCents(pool, shares).Ok?
    ensures var cents := ShareCents(pool, shares).value;
            Sum(cents) <= pool && forall i :: 0 <= i < |cents| ==> cents[i] >= 0
  {
    var cents := ShareCents(pool, shares).value;
    if forall s :: s in shares ==> s.fixed.None? {
      ConservesTotal(pool, shares);
      forall i | 0 <= i < |cents| ensures cents[i] >= 0 { SplitNotNegative(pool, shares, i); }
    } else {
      forall i | 0 <= i < |cents| ensures cents[i] >= 0 { assert cents[i] in FixedCents(shares); }
    }
  }

  /**
   A created request meets every constraint on its rows, and its basis, weights
   and pool pass the approval recheck at any later time: only a change of
   membership can make that recheck fail.
   */
  lemma CreatedTermsSound(sub: Submission, directory: Directory, later: Directory)
    requires TermsOf(sub, directory).Ok?
    ensures TermsShape(TermsOf(sub, directory).value)
    ensures var terms := TermsOf(sub, directory).value;
            TotalsFault(terms, later) ==
            if MembersOf(later, terms.org, ShareUsers(terms.shares)) != ShareUsers(terms.shares)
            then Some(NotAMember)
            else None
    ensures var terms := TermsOf(sub, directory).value;
            (forall s :: s in sub.shares ==> s.fixed.None?) ==> Sum(ShareAmounts(terms.shares)) == terms.pool
  {
    var terms := TermsOf(sub, directory).value;
    BasisAccepted(Quantized(sub.items));
    PoolNotNegative(terms.basis, sub.distribution, sub.rate, sub.pool);
    ShareCentsSound(terms.pool, sub.shares);
    var cents := ShareCents(terms.pool, sub.shares).value;
    assert ShareAmounts(terms.shares) == cents;
    assert ShareWeights(terms.shares) == Weights(sub.shares);
    if forall s :: s in sub.shares ==> s.fixed.None? { ConservesTotal(terms.pool, sub.shares); }
    forall s | s in terms.shares ensures 1 <= s.weight <= FULL_WEIGHT && s.attributed >= 0 && s.cents >= 0 {
      var i :| 0 <= i < |terms.shares| && terms.shares[i] == s;
      SplitNotNegative(terms.basis, sub.shares, i);
    }
  }
}
