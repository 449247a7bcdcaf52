/** The main results about the allocation ledger, over all runs. */
module LedgerTheorems {
  import opened Wrappers
  import opened Sums
  import opened Requests
  import opened Ledger
  import opened LedgerProofs

  /**
   After any sequence of steps, the allocation and reversal entries of a request
   net, for every beneficiary and month, to its approved shares if it is
   approved and to nothing in every other status.
   */
  lemma EntriesNetToLiveShares(steps: seq<Step>, id: nat, user: int, month: Date)
    requires id < |Run(EMPTY_BOOKS, steps).requests|
    ensures var books := Run(EMPTY_BOOKS, steps);
            Net(books.entries, |books.entries|, id, user, month) == Due(books.requests[id], user, month)
  {
    RunSound(steps);
    assert Nets(Run(EMPTY_BOOKS, steps), id);
  }

  // ---- monthly totals ----

  datatype MonthRow = MonthRow(allocation: int, manualIncrease: int, manualDecrease: int, reversal: int, total: int,
                               count: nat)

  predicate InMonth(e: Entry, org: int, user: int, month: Date) {
    e.org == org && e.beneficiary == user && e.month == month
  }

  function KindSum(entries: seq<Entry>, kind: Kind, org: int, user: int, month: Date): int {
    if entries == [] then 0
    else
      var e := entries[|entries| - 1];
      KindSum(entries[..|entries| - 1], kind, org, user, month)
      + if InMonth(e, org, user, month) && e.kind == kind then e.cents else 0
  }

  function MonthSum(entries: seq<Entry>, org: int, user: int, month: Date): int {
    if entries == [] then 0
    else
      var e := entries[|entries| - 1];
      MonthSum(entries[..|entries| - 1], org, user, month) + if InMonth(e, org, user, month) then e.cents else 0
  }

  function MonthCount(entries: seq<Entry>, org: int, user: int, month: Date): nat {
    if entries == [] then 0
    else
      var e := entries[|entries| - 1];
      MonthCount(entries[..|entries| - 1], org, user, month) + if InMonth(e, org, user, month) then 1 else 0
  }

  /** One row for each beneficiary and month with an entry in the organization. */
  function MonthlyTotals(entries: seq<Entry>, org: int): map<(int, Date), MonthRow> {
    map key | key in (set e | e in entries && e.org == org :: (e.beneficiary, e.month)) ::
      MonthRow(KindSum(entries, Allocation, org, key.0, key.1),
               KindSum(entries, ManualIncrease, org, key.0, key.1),
               KindSum(entries, ManualDecrease, org, key.0, key.1),
               KindSum(entries, Reversal, org, key.0, key.1),
               MonthSum(entries, org, key.0, key.1),
               MonthCount(entries, org, key.0, key.1))
  }

  lemma {:induction false} ColumnsAddUp(entries: seq<Entry>, org: int, user: int, month: Date)
    ensures MonthSum(entries, org, user, month)
         == KindSum(entries, Allocation, org, user, month) + KindSum(entries, ManualIncrease, org, user, month)
          + KindSum(entries, ManualDecrease, org, user, month) + KindSum(entries, Reversal, org, user, month)
  {
    if entries != [] { ColumnsAddUp(entries[..|entries| - 1], org, user, month); }
  }

  /** What the first `count` requests of the organization are worth to a beneficiary in a month. */
  function LiveShares(requests: seq<Request>, count: nat, org: int, user: int, month: Date): int
    requires count <= |requests|
  {
    if count == 0 then 0
    else
      LiveShares(requests, count - 1, org, user, month)
      + if requests[count - 1].terms.org == org then Due(requests[count - 1], user, month) else 0
  }

  /** What the first n entries net to over the first `count` requests of the organization. */
  function NetOfAll(books: Books, n: nat, count: nat, org: int, user: int, month: Date): int
    requires n <= |books.entries| && count <= |books.requests|
  {
    if count == 0 then 0
    else
      NetOfAll(books, n, count - 1, org, user, month)
      + if books.requests[count - 1].terms.org == org then Net(books.entries, n, count - 1, user, month) else 0
  }

  lemma {:induction false} NetOfAllStep(books: Books, n: nat, count: nat, org: int, user: int, month: Date)
    requires n < |books.entries| && count <= |books.requests|
    ensures NetOfAll(books, n + 1, count, org, user, month) == NetOfAll(books, n, count, org, user, month)
      + var owner := OwnerOf(books.entries, books.entries[n]);
        if owner.Some? && owner.value < count && books.requests[owner.value].terms.org == org
        then Part(books.entries, books.entries[n], owner.value, user, month) else 0
  {
    if count > 0 { NetOfAllStep(books, n, count - 1, org, user, month); }
  }

  lemma {:induction false} NetOfNone(books: Books, count: nat, org: int, user: int, month: Date)
    requires count <= |books.requests|
    ensures NetOfAll(books, 0, count, org, user, month) == 0
  {
    if count > 0 { NetOfNone(books, count - 1, org, user, month); }
  }

  lemma EntryCounted(books: Books, n: nat, org: int, user: int, month: Date)
    requires Sound(books) && n < |books.entries|
    ensures var e := books.entries[n];
            var owner := OwnerOf(books.entries, e);
            (if InMonth(e, org, user, month) then e.cents else 0)
            == (if owner.Some? && owner.value < |books.requests| && books.requests[owner.value].terms.org == org
                then Part(books.entries, e, owner.value, user, month) else 0)
             + (if InMonth(e, org, user, month) && (e.kind == ManualIncrease || e.kind == ManualDecrease)
                 then e.cents
                 else 0)
  {
    var e := books.entries[n];
    assert Admissible(books.entries, n, e);
    assert Linked(books, n);
    var owner := OwnerOf(books.entries, e);
    if owner.Some? { OwnerLinked(books, n, owner.value); }
  }

  lemma {:induction false} MonthSumSplits(books: Books, n: nat, org: int, user: int, month: Date)
    requires Sound(books) && n <= |books.entries|
    ensures MonthSum(books.entries[..n], org, user, month)
         == NetOfAll(books, n, |books.requests|, org, user, month)
          + KindSum(books.entries[..n], ManualIncrease, org, user, month)
          + KindSum(books.entries[..n], ManualDecrease, org, user, month)
  {
    if n == 0 {
      NetOfNone(books, |books.requests|, org, user, month);
    } else {
      MonthSumSplits(books, n - 1, org, user, month);
      assert books.entries[..n][..n - 1] == books.entries[..n - 1];
      NetOfAllStep(books, n - 1, |books.requests|, org, user, month);
      EntryCounted(books, n - 1, org, user, month);
    }
  }

  lemma {:induction false} NetOfAllIsLive(books: Books, count: nat, org: int, user: int, month: Date)
    requires Sound(books) && count <= |books.requests|
    ensures NetOfAll(books, |books.entries|, count, org, user, month)
              == LiveShares(books.requests, count, org, user, month)
  {
    if count > 0 {
      NetOfAllIsLive(books, count - 1, org, user, month);
      assert Nets(books, count - 1);
    }
  }

  /**
   In every reachable state each monthly row's total is the live approved shares
   plus the signed manual entries, its four columns add up to that total, and a
   beneficiary and month without a row are worth nothing.
   */
  lemma MonthlyTotalsAreLive(steps: seq<Step>, org: int, user: int, month: Date)
    ensures var books := Run(EMPTY_BOOKS, steps);
            var rows := MonthlyTotals(books.entries, org);
            var live := LiveShares(books.requests, |books.requests|, org, user, month);
            var manual := KindSum(books.entries, ManualIncrease, org, user, month)
                          + KindSum(books.entries, ManualDecrease, org, user, month);
            if (user, month) in rows
            then var row := rows[(user, month)];
                 && row.total == live + manual
                 && row.total == row.allocation + row.manualIncrease + row.manualDecrease + row.reversal
                 && row.count > 0
            else live + manual == 0
  {
    RunSound(steps);
    var books := Run(EMPTY_BOOKS, steps);
    assert books.entries[..|books.entries|] == books.entries;
    MonthSumSplits(books, |books.entries|, org, user, month);
    NetOfAllIsLive(books, |books.requests|, org, user, month);
    ColumnsAddUp(books.entries, org, user, month);
    CountPositive(books.entries, org, user, month);
  }

  lemma {:induction false} CountPositive(entries: seq<Entry>, org: int, user: int, month: Date)
    ensures MonthCount(entries, org, user, month) > 0 <==> exists e :: e in entries && InMonth(e, org, user, month)
    ensures MonthCount(entries, org, user, month) == 0 ==> MonthSum(entries, org, user, month) == 0
  {
    if entries != [] {
      var front, last := entries[..|entries| - 1], entries[|entries| - 1];
      assert entries == front + [last];
      CountPositive(front, org, user, month);
    }
  }

  // ---- lifecycle ----

  lemma SaveForward(books: Books, at: nat, after: Request, id: nat)
    requires at < |books.requests| && id < |books.requests| && Save(books, at, after).Ok?
    ensures var next := Save(books, at, after).value;
            id < |next.requests|
            && ChangeAllowed(books.requests[id], next.requests[id])
            && next.entries == books.entries
  {
  }

  /** No step rewrites history: requests change only as the guard allows, and entries are only appended. */
  lemma StepMovesForward(books: Books, step: Step, id: nat)
    requires id < |books.requests|
    ensures id < |After(books, step).requests|
    ensures ChangeAllowed(books.requests[id], After(books, step).requests[id])
    ensures books.entries <= After(books, step).entries
  {
    if step.DoApprove? || step.DoVoid? {
      WriteMovesForward(books, step, id);
    } else if step.DoReject? || step.DoExpire? || step.DoWithdraw? {
      CloseMovesForward(books, step, id);
    }
  }

  lemma CloseMovesForward(books: Books, step: Step, id: nat)
    requires id < |books.requests| && (step.DoReject? || step.DoExpire? || step.DoWithdraw?)
    ensures id < |After(books, step).requests| && ChangeAllowed(books.requests[id], After(books, step).requests[id])
    ensures books.entries == After(books, step).entries
  {
  }

  lemma WriteMovesForward(books: Books, step: Step, id: nat)
    requires id < |books.requests| && (step.DoApprove? || step.DoVoid?)
    ensures id < |After(books, step).requests| && ChangeAllowed(books.requests[id], After(books, step).requests[id])
    ensures books.entries <= After(books, step).entries
  {
    var next := After(books, step);
    if Attempt(books, step).Ok? && next != books {
      SaveForward(books.(entries := next.entries), step.id, next.requests[step.id], id);
    }
  }

  predicate Final(status: Status) {
    status in {Rejected, Expired, Voided, Withdrawn}
  }

  /**
   Across any further run a request keeps its frozen terms, a final request
   keeps everything, an approved one stays approved or is voided with its
   review unchanged, and the ledger only grows.
   */
  lemma {:induction false} RunMovesForward(books: Books, steps: seq<Step>, id: nat)
    requires id < |books.requests|
    ensures var before, later := books.requests[id], Run(books, steps);
            && id < |later.requests|
            && later.requests[id].terms == before.terms
            && (Final(before.status) ==> later.requests[id] == before)
            && (before.status == Approved ==>
                  later.requests[id].status in {Approved, Voided} && SameReview(before, later.requests[id]))
            && books.entries <= later.entries
  {
    if steps != [] {
      var front, last := steps[..|steps| - 1], steps[|steps| - 1];
      RunMovesForward(books, front, id);
      var middle := Run(books, front);
      StepMovesForward(middle, last, id);
    }
  }

  /** Every reachable request carries the audit facts of its status, and was reviewed, if at all, within 168 hours. */
  lemma AuditAndDeadline(steps: seq<Step>, id: nat)
    requires id < |Run(EMPTY_BOOKS, steps).requests|
    ensures var r := Run(EMPTY_BOOKS, steps).requests[id];
            && AuditShape(r) && WithdrawShape(r) && TermsShape(r.terms)
            && (r.status in {Approved, Rejected, Voided} ==>
                  r.reviewedAt.Some? && r.reviewedAt.value < r.terms.submittedAt + REVIEW_SECONDS)
  {
    RunSound(steps);
    assert RequestSound(Run(EMPTY_BOOKS, steps).requests[id]);
  }

  /**
   Every reachable entry has the sign and source of its kind, and an original
   has at most one reversal, of its opposite.
   */
  lemma ReversalsAreOppositeAndUnique(steps: seq<Step>, j: nat, k: nat)
    requires var entries := Run(EMPTY_BOOKS, steps).entries; j < |entries| && k < |entries|
    ensures var entries := Run(EMPTY_BOOKS, steps).entries;
            && SourceAndSign(entries[j])
            && (entries[j].reversalOf.Some? ==>
                  && entries[j].reversalOf.value < j
                  && var original := entries[entries[j].reversalOf.value];
                  && original.kind == Allocation && entries[j].cents == -original.cents
                  && original.beneficiary == entries[j].beneficiary && original.org == entries[j].org
                  && original.month == entries[j].month)
            && (j != k && entries[j].reversalOf.Some? ==> entries[j].reversalOf != entries[k].reversalOf)
            && (j != k && entries[j].share.Some? ==> entries[j].share != entries[k].share)
  {
    RunSound(steps);
    var books := Run(EMPTY_BOOKS, steps);
    assert Admissible(books.entries, j, books.entries[j]);
    assert Admissible(books.entries, k, books.entries[k]);
    assert Linked(books, j);
  }

  // ---- which calls succeed ----

  /**
   An approval of a reachable request goes through exactly when the reviewer is
   an active member and the request is already approved, or is pending, in
   time, has only current members as beneficiaries, and its accrual month is a
   first day or it has nothing to write.
   */
  lemma ApprovalSucceedsExactly(steps: seq<Step>, id: nat, reviewer: int, at: int, directory: Directory)
    requires id < |Run(EMPTY_BOOKS, steps).requests|
    ensures var books := Run(EMPTY_BOOKS, steps);
            var r := books.requests[id];
            Approve(books, id, reviewer, at, directory).Ok? <==>
            && (r.terms.org, reviewer) in directory.active
            && (r.status == Approved ||
                (r.status == Pending && ReviewPasses(r, reviewer, at, directory) && MonthWritable(r.terms)))
  {
    RunSound(steps);
    var books := Run(EMPTY_BOOKS, steps);
    assert RequestSound(books.requests[id]);
    if books.requests[id].status == Pending && ReviewPasses(books.requests[id], reviewer, at, directory) {
      ApprovalWrites(books, id, reviewer, at, directory);
    }
  }

  /**
   The guards inside a save are never what stops a step, with one exception: an
   approval that passed every check but whose accrual month is not a first day
   although some share is non-zero. Such a request can never be approved.
   */
  lemma GuardsStopOnlyUnwritableMonths(steps: seq<Step>, step: Step)
    ensures var books := Run(EMPTY_BOOKS, steps);
            Attempt(books, step) == Err(GuardRejected) <==>
            && step.DoApprove? && step.id < |books.requests|
            && books.requests[step.id].status == Pending
            && ReviewPasses(books.requests[step.id], step.reviewer, step.at, step.directory)
            && !MonthWritable(books.requests[step.id].terms)
  {
    RunSound(steps);
    var books := Run(EMPTY_BOOKS, steps);
    if !step.DoApprove? {
      NoGuardStops(books, step);
    } else if step.id < |books.requests| {
      assert RequestSound(books.requests[step.id]);
      if books.requests[step.id].status == Pending
         && ReviewPasses(books.requests[step.id], step.reviewer, step.at, step.directory)
      {
        ApprovalWrites(books, step.id, step.reviewer, step.at, step.directory);
      }
    }
  }

  lemma NoGuardStops(books: Books, step: Step)
    requires Sound(books) && !step.DoApprove?
    ensures Attempt(books, step) != Err(GuardRejected)
  {
    match step
    case DoCreate(sub, directory) => CreateSound(books, sub, directory);
    case DoResubmit(id, actor, at, atMonth) =>
      if id < |books.requests| && books.requests[id].status in {Rejected, Expired, Withdrawn} {
        ResubmitSound(books, id, actor, at, atMonth);
      }
    case DoVoid(id, actor, reason, at, directory) =>
      if id < |books.requests| && books.requests[id].status == Approved && reason != ""
         && (books.requests[id].terms.org, actor) in directory.active {
        VoidWrites(books, id, actor, reason, at, directory);
      }
    case DoManual(input, directory) => ManualAdmissible(books, input, directory);
    case DoReject(id, _, _, _, _) => if id < |books.requests| { assert RequestSound(books.requests[id]); }
    case DoExpire(id) => if id < |books.requests| { assert RequestSound(books.requests[id]); }
    case DoWithdraw(id, _, _, _) => if id < |books.requests| { assert RequestSound(books.requests[id]); }
  }

  /**
   A request submitted with an accrual date that is not a first day is created,
   and then no approval of it succeeds.
   */
  lemma UnapprovableRequest(directory: Directory, reviewer: int, at: int)
    requires (1, 7) in directory.active
    ensures var share := Distribution.ShareInput(7, 10000, None, 0);
            var sub := Submission(1, 7, None, [ItemInput(Increase, 1.0)], [share], Percentage, Some(10000), None,
                                  0, 0, Some(Date(0, 15)));
            var books := Create(EMPTY_BOOKS, sub, directory);
            && books.Ok? && |books.value.requests| == 1
            && Approve(books.value, 0, reviewer, at, directory).Err?
  {
    var share := Distribution.ShareInput(7, 10000, None, 0);
    var sub := Submission(1, 7, None, [ItemInput(Increase, 1.0)], [share], Percentage, Some(10000), None,
                          0, 0, Some(Date(0, 15)));
    OneShareTerms(sub, share, directory);
    var steps := [DoCreate(sub, directory)];
    assert steps[..0] == [];
    var books := Run(EMPTY_BOOKS, steps);
    assert Run(EMPTY_BOOKS, []) == EMPTY_BOOKS;
    assert books == After(EMPTY_BOOKS, steps[0]);
    assert !MonthWritable(books.requests[0].terms) by { assert books.requests[0].terms.shares[0].cents == 100; }
    ApprovalSucceedsExactly(steps, 0, reviewer, at, directory);
  }

  lemma OneShareTerms(sub: Submission, share: Distribution.ShareInput, directory: Directory)
    requires share == Distribution.ShareInput(7, 10000, None, 0) && (1, 7) in directory.active
    requires sub == Submission(1, 7, None, [ItemInput(Increase, 1.0)], [share], Percentage, Some(10000), None,
                               0, 0, Some(Date(0, 15)))
    ensures Create(EMPTY_BOOKS, sub, directory).Ok?
    ensures var terms := TermsOf(sub, directory).value; |terms.shares| == 1 && terms.shares[0].cents == 100
    ensures AccrualMonth(TermsOf(sub, directory).value) == Date(0, 15)
  {
    var rows := Quantized(sub.items);
    assert rows == [Item(Increase, 100)];
    assert SignedItems(rows) == [100] && Sum([100]) == 100;
    BasisAccepted(rows);
    PercentagePool(100, 10000);
    assert PoolOf(100, Percentage, Some(10000), None) == Ok(100);
    assert Distribution.Weights([share]) == [10000] && Sum([10000]) == 10000;
    var cents := Distribution.Distributed(100, [share]);
    Distribution.ConservesTotal(100, [share]);
    assert cents == [cents[0]] && Sum(cents) == cents[0];
    assert MembersOf(directory, 1, Beneficiaries([share])) == Beneficiaries([share]);
    CreateSound(EMPTY_BOOKS, sub, directory);
  }

  /**
   A closed request of a reachable state is submitted again with everything but
   its submitter and dates as it was, and its accrual month is as writable as
   before: one that no approval could accept stays so.
   */
  lemma ResubmissionKeepsTheTerms(steps: seq<Step>, id: nat, actor: int, at: int, atMonth: int)
    requires id < |Run(EMPTY_BOOKS, steps).requests|
    requires Run(EMPTY_BOOKS, steps).requests[id].status in {Rejected, Expired, Withdrawn}
    ensures var books, next := Run(EMPTY_BOOKS, steps), Run(EMPTY_BOOKS, steps + [DoResubmit(id, actor, at, atMonth)]);
            && |next.requests| == |books.requests| + 1
            && var before, after := books.requests[id].terms, next.requests[|books.requests|].terms;
            && next.requests[..|books.requests|] == books.requests
            && next.entries == books.entries
            && after.items == before.items && after.shares == before.shares && after.basis == before.basis
            && after.pool == before.pool
            && AccrualMonth(after) == AccrualMonth(before) && (MonthWritable(after) <==> MonthWritable(before))
            && after.submittedBy == actor && after.expiresAt == at + REVIEW_SECONDS
            && next.requests[|books.requests|].status == Pending
  {
    RunSound(steps);
    var last := DoResubmit(id, actor, at, atMonth);
    assert (steps + [last])[..|steps|] == steps;
    ResubmitSound(Run(EMPTY_BOOKS, steps), id, actor, at, atMonth);
  }
}
