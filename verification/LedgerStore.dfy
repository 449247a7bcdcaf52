/** The allocation tables as an object whose methods update them in place, each one transaction. */
module LedgerStore {
  import opened Wrappers
  import opened Sums
  import opened Ordering
  import opened Distribution
  import opened Requests
  import opened Ledger

  function ErrorOf(outcome: Outcome): Option<AllocationError> {
    match outcome
    case Ok(_) => None
    case Err(e) => Some(e)
  }

  class Store {
    var requests: seq<Request>
    var entries: seq<Entry>

    constructor ()
      ensures State() == EMPTY_BOOKS
    {
      requests, entries := [], [];
    }

    function State(): Books
      reads this
    {
      Books(requests, entries)
    }

    /** Writes all the rows, each checked against those before it, or none. */
    method BulkCreate(rows: seq<Entry>) returns (written: bool)
      modifies this`entries
      ensures written == AppendAll(old(entries), rows).Some?
      ensures entries == if written then old(entries) + rows else old(entries)
    {
      var all := entries;
      for i := 0 to |rows|
        invariant AppendAll(entries, rows[..i]) == Some(all)
      {
        assert rows[..i + 1][..i] == rows[..i];
        if !Admissible(all, |all|, rows[i]) {
          AppendStops(entries, rows, i);
          return false;
        }
        all := all + [rows[i]];
      }
      assert rows[..|rows|] == rows;
      entries := all;
      written := true;
    }

    method SaveRequest(id: nat, after: Request) returns (saved: bool)
      requires id < |requests|
      modifies this`requests
      ensures saved == SaveAllowed(old(requests[id]), after)
      ensures requests == if saved then old(requests)[id := after] else old(requests)
    {
      saved := SaveAllowed(requests[id], after);
      if saved { requests := requests[id := after]; }
    }

    /** The cents of every share; the weights were found valid when the basis was attributed. */
    method SplitPool(pool: int, shares: seq<ShareInput>) returns (r: Result<seq<int>, AllocationError>)
      requires WeightsValid(shares)
      ensures r == ShareCents(pool, shares)
    {
      if forall s :: s in shares ==> s.fixed.None? {
        CentsExact(pool);
        var split := DistributeByWeight(pool as real / 100.0, shares);
        return Ok(split.value);
      }
      var cents := FixedCents(shares);
      if exists c :: c in cents && c < 0 { return Err(NegativeShare); }
      if Sum(cents) > pool { return Err(SharesExceedPool); }
      r := Ok(cents);
    }

    /** Each share's part of the basis. */
    method Attribute(basis: int, shares: seq<ShareInput>) returns (r: Result<seq<int>, AllocationError>)
      ensures r == if WeightsValid(shares) then Ok(Distributed(basis, shares)) else Err(WeightRange)
    {
      CentsExact(basis);
      var split := DistributeByWeight(basis as real / 100.0, shares);
      r := if split.Ok? then Ok(split.value) else Err(WeightRange);
    }

    method ComputeTerms(sub: Submission, directory: Directory) returns (r: Result<Terms, AllocationError>)
      ensures r == TermsOf(sub, directory)
    {
      var fault := ValidateShares(sub.shares);
      if fault.Some? { return Err(fault.value); }
      if (sub.org, sub.submitter) !in directory.active { return Err(NotAMember); }
      if sub.teamOrg.Some? && sub.teamOrg.value != sub.org { return Err(ForeignTeam); }
      var basis := CalculateBasisAmount(sub.items);
      if basis.Err? { return Err(basis.error); }
      var pool := PoolOf(basis.value, sub.distribution, sub.rate, sub.pool);
      if pool.Err? { return Err(pool.error); }
      var users := Beneficiaries(sub.shares);
      if MembersOf(directory, sub.org, users) != users { return Err(NotAMember); }
      var attributed := Attribute(basis.value, sub.shares);
      if attributed.Err? { return Err(WeightRange); }
      var cents := SplitPool(pool.value, sub.shares);
      if cents.Err? { return Err(cents.error); }
      r := Ok(Terms(sub.org, basis.value, sub.distribution, sub.rate, pool.value, Quantized(sub.items),
                    ShareRows(sub.shares, attributed.value, cents.value),
                    sub.submitter, sub.at, Date(sub.atMonth, 1), sub.at + REVIEW_SECONDS, sub.performanceMonth));
    }

    method CreateAllocationRequest(sub: Submission, directory: Directory) returns (error: Option<AllocationError>)
      modifies this
      ensures State() == After(old(State()), DoCreate(sub, directory))
      ensures error == ErrorOf(Create(old(State()), sub, directory))
    {
      var terms := ComputeTerms(sub, directory);
      if terms.Err? { return Some(terms.error); }
      if !TermsShape(terms.value) { return Some(GuardRejected); }
      requests := requests + [NewRequest(terms.value)];
      error := None;
    }

    method ResubmitSnapshot(id: nat, actor: int, at: int, atMonth: int) returns (error: Option<AllocationError>)
      modifies this
      ensures State() == After(old(State()), DoResubmit(id, actor, at, atMonth))
      ensures error == ErrorOf(Resubmit(old(State()), id, actor, at, atMonth))
    {
      if id >= |requests| { return Some(UnknownRequest); }
      var previous := requests[id];
      if previous.status !in {Rejected, Expired, Withdrawn} { return Some(NotResubmittable); }
      var terms := previous.terms.(submittedBy := actor, submittedAt := at, submittedMonth := Date(atMonth, 1),
                                   expiresAt := at + 7 * 24 * 3600,
                                   performanceMonth := Some(AccrualMonth(previous.terms)));
      if !TermsShape(terms) { return Some(GuardRejected); }
      requests := requests + [NewRequest(terms)];
      error := None;
    }

    method ValidateTotals(terms: Terms, directory: Directory) returns (fault: Option<AllocationError>)
      ensures fault == TotalsFault(terms, directory)
    {
      var total := 0;
      for i := 0 to |terms.items|
        invariant total == Sum(SignedItems(terms.items)[..i])
      {
        var item := terms.items[i];
        assert SignedItems(terms.items)[..i + 1] == SignedItems(terms.items)[..i] + [Signed(item.effect, item.cents)];
        SumSnoc(SignedItems(terms.items)[..i], Signed(item.effect, item.cents));
        total := if item.effect == Increase then total + item.cents else total - item.cents;
      }
      assert SignedItems(terms.items)[..|terms.items|] == SignedItems(terms.items);
      if total != terms.basis { return Some(BasisMismatch); }
      if Sum(ShareWeights(terms.shares)) != FULL_WEIGHT { return Some(WeightSum); }
      if Sum(ShareAmounts(terms.shares)) > terms.pool { return Some(SharesExceedPool); }
      if MembersOf(directory, terms.org, ShareUsers(terms.shares)) != ShareUsers(terms.shares) {
        return Some(NotAMember);
      }
      fault := None;
    }

    method ApproveLocked(id: nat, reviewer: int, at: int, directory: Directory) returns (error: Option<AllocationError>)
      modifies this
      ensures State() == After(old(State()), DoApprove(id, reviewer, at, directory))
      ensures error == ErrorOf(Approve(old(State()), id, reviewer, at, directory))
    {
      if id >= |requests| { return Some(UnknownRequest); }
      var r := requests[id];
      if (r.terms.org, reviewer) !in directory.active { return Some(NotAMember); }
      if r.status == Approved { return None; }
      if r.status != Pending { return Some(NotPending); }
      if at >= r.terms.expiresAt { return Some(ReviewTooLate); }
      var fault := ValidateTotals(r.terms, directory);
      if fault.Some? { return fault; }
      var order := Order(ShareKeys(r.terms.shares));
      var rows: seq<Entry> := [];
      for i := 0 to |order|
        invariant rows == ShareEntries(r.terms, id, order[..i], reviewer)
      {
        assert order[..i + 1][..i] == order[..i];
        if r.terms.shares[order[i]].cents != 0 {
          rows := rows + [ShareEntry(r.terms, id, order[i], reviewer)];
        }
      }
      assert order[..|order|] == order;
      var before := entries;
      var written := BulkCreate(rows);
      if !written { return Some(GuardRejected); }
      var saved := SaveRequest(id, r.(status := Approved, reviewedBy := Some(reviewer), reviewedAt := Some(at),
                                      rejectionReason := ""));
      if !saved {
        entries := before;
        return Some(GuardRejected);
      }
      error := None;
    }

    method RejectLocked(id: nat, reviewer: int, reason: string, at: int, directory: Directory)
      returns (error: Option<AllocationError>)
      modifies this
      ensures State() == After(old(State()), DoReject(id, reviewer, reason, at, directory))
      ensures error == ErrorOf(Reject(old(State()), id, reviewer, reason, at, directory))
    {
      if id >= |requests| { return Some(UnknownRequest); }
      if reason == "" { return Some(ReasonMissing); }
      var r := requests[id];
      if (r.terms.org, reviewer) !in directory.active { return Some(NotAMember); }
      if r.status != Pending { return Some(NotPending); }
      if at >= r.terms.expiresAt { return Some(ReviewTooLate); }
      var saved := SaveRequest(id, r.(status := Rejected, reviewedBy := Some(reviewer), reviewedAt := Some(at),
                                      rejectionReason := reason));
      error := if saved then None else Some(GuardRejected);
    }

    method ExpireLocked(id: nat) returns (error: Option<AllocationError>)
      modifies this
      ensures State() == After(old(State()), DoExpire(id))
      ensures error == ErrorOf(Expire(old(State()), id))
    {
      if id >= |requests| { return Some(UnknownRequest); }
      if requests[id].status != Pending { return None; }
      var saved := SaveRequest(id, requests[id].(status := Expired));
      error := if saved then None else Some(GuardRejected);
    }

    method WithdrawLocked(id: nat, actor: int, reason: string, at: int) returns (error: Option<AllocationError>)
      modifies this
      ensures State() == After(old(State()), DoWithdraw(id, actor, reason, at))
      ensures error == ErrorOf(Withdraw(old(State()), id, actor, reason, at))
    {
      if id >= |requests| { return Some(UnknownRequest); }
      var r := requests[id];
      if r.status == Withdrawn { return None; }
      if r.status != Pending { return Some(NotPending); }
      if reason == "" { return Some(ReasonMissing); }
      var saved := SaveRequest(id, r.(status := Withdrawn, withdrawnBy := Some(actor), withdrawnAt := Some(at),
                                      withdrawReason := reason));
      error := if saved then None else Some(GuardRejected);
    }

    method VoidLocked(id: nat, actor: int, reason: string, at: int, directory: Directory)
      returns (error: Option<AllocationError>)
      modifies this
      ensures State() == After(old(State()), DoVoid(id, actor, reason, at, directory))
      ensures error == ErrorOf(Void(old(State()), id, actor, reason, at, directory))
    {
      if id >= |requests| { return Some(UnknownRequest); }
      if reason == "" { return Some(ReasonMissing); }
      var r := requests[id];
      if r.status == Voided { return None; }
      if r.status != Approved { return Some(NotApproved); }
      if (r.terms.org, actor) !in directory.active { return Some(NotAMember); }
      var rows: seq<Entry> := [];
      for k := 0 to |entries|
        invariant rows == Reversals(entries, k, id, r.terms.org, actor, reason, at)
        invariant unchanged(this)
      {
        if IsAllocationOf(entries[k], id) && !Reversed(entries, k) {
          rows := rows + [ReversalEntry(entries[k], k, r.terms.org, actor, reason, at)];
        }
      }
      var before := entries;
      var written := BulkCreate(rows);
      if !written { return Some(GuardRejected); }
      var saved :=
        SaveRequest(id, r.(status := Voided, voidedBy := Some(actor), voidedAt := Some(at), voidReason := reason));
      if !saved {
        entries := before;
        return Some(GuardRejected);
      }
      error := None;
    }

    method CreateManualEntry(input: ManualInput, directory: Directory) returns (error: Option<AllocationError>)
      modifies this
      ensures State() == After(old(State()), DoManual(input, directory))
      ensures error == ErrorOf(Manual(old(State()), input, directory))
    {
      if input.kind != ManualIncrease && input.kind != ManualDecrease { return Some(NotManual); }
      if (input.org, input.beneficiary) !in directory.all { return Some(NotAMember); }
      if (input.org, input.actor) !in directory.active { return Some(NotAMember); }
      if input.reason == "" { return Some(ReasonMissing); }
      var cents := QuantizeMoney(if input.amount < 0.0 then -input.amount else input.amount);
      if cents == 0 { return Some(ZeroAmount); }
      var month := Date(if input.month.Some? then input.month.value.month else input.atMonth, 1);
      if month.month > input.atMonth { return Some(FutureMonth); }
      var entry := Entry(input.org, input.beneficiary, input.kind,
                         if input.kind == ManualIncrease then cents else -cents,
                         input.at, month, None, None, input.reason, input.actor);
      var written := BulkCreate([entry]);
      error := if written then None else Some(GuardRejected);
    }
  }

  lemma {:induction false} AppendStops(entries: seq<Entry>, rows: seq<Entry>, i: nat)
    requires i < |rows| && AppendAll(entries, rows[..i + 1]).None?
    ensures AppendAll(entries, rows).None?
    decreases |rows|
  {
    if i + 1 == |rows| {
      assert rows[..i + 1] == rows;
    } else {
      var front := rows[..|rows| - 1];
      assert front[..i + 1] == rows[..i + 1];
      AppendStops(entries, front, i);
    }
  }

  lemma CentsExact(cents: int)
    ensures QuantizeMoney(cents as real / 100.0) == cents
  {
    assert cents as real / 100.0 * 100.0 == cents as real;
    QuantizeNearest(cents as real / 100.0);
  }
}
