/**
 The life of allocation requests and the append-only ledger of accrual entries:
 the guards every write passes and the effect of every step.
 */
module Ledger {
  import opened Wrappers
  import opened Ordering
  import opened Requests
  import Distribution

  datatype Status = Pending | Approved | Rejected | Expired | Voided | Withdrawn

  datatype Request = Request(
    terms: Terms, status: Status,
    reviewedBy: Option<int>, reviewedAt: Option<int>, rejectionReason: string,
    voidedBy: Option<int>, voidedAt: Option<int>, voidReason: string,
    withdrawnBy: Option<int>, withdrawnAt: Option<int>, withdrawReason: string)

  datatype ShareRef = ShareRef(request: nat, index: nat)

  datatype Kind = Allocation | ManualIncrease | ManualDecrease | Reversal

  datatype Entry = Entry(
    org: int, beneficiary: int, kind: Kind, cents: int, effectiveAt: int, month: Date,
    share: Option<ShareRef>, reversalOf: Option<nat>, reason: string, createdBy: int)

  /** Requests and entries in the order they were written; a position is a primary key. */
  datatype Books = Books(requests: seq<Request>, entries: seq<Entry>)

  // ---- guards on a request ----

  function Transitions(status: Status): set<Status> {
    match status
    case Pending => {Pending, Approved, Rejected, Expired, Withdrawn}
    case Approved => {Approved, Voided}
    case Rejected => {Rejected}
    case Expired => {Expired}
    case Voided => {Voided}
    case Withdrawn => {Withdrawn}
  }

  /** Which audit facts each status carries. */
  predicate AuditShape(r: Request) {
    match r.status
    case Pending => NotReviewed(r) && NotVoided(r) && r.rejectionReason == ""
    case Approved => Reviewed(r) && NotVoided(r) && r.rejectionReason == ""
    case Rejected => Reviewed(r) && NotVoided(r) && r.rejectionReason != ""
    case Expired => NotReviewed(r) && NotVoided(r) && r.rejectionReason == ""
    case Withdrawn => NotReviewed(r) && NotVoided(r) && r.rejectionReason == ""
    case Voided => Reviewed(r) && r.voidedBy.Some? && r.voidedAt.Some? && r.voidReason != "" && r.rejectionReason == ""
  }

  predicate Reviewed(r: Request) { r.reviewedBy.Some? && r.reviewedAt.Some? }
  predicate NotReviewed(r: Request) { r.reviewedBy.None? && r.reviewedAt.None? }
  predicate NotVoided(r: Request) { r.voidedBy.None? && r.voidedAt.None? && r.voidReason == "" }

  predicate WithdrawShape(r: Request) {
    if r.status == Withdrawn then r.withdrawnBy.Some? && r.withdrawnAt.Some? && r.withdrawReason != ""
    else r.withdrawnBy.None? && r.withdrawnAt.None? && r.withdrawReason == ""
  }

  /** The comparison with the stored row that every save makes. */
  predicate ChangeAllowed(before: Request, after: Request) {
    && after.terms == before.terms
    && after.status in Transitions(before.status)
    && (SameReview(before, after) || before.status == Pending)
    && (SameVoid(before, after) || before.status == Approved)
    && (SameWithdrawal(before, after) || before.status == Pending)
  }

  predicate SameReview(a: Request, b: Request) {
    a.reviewedBy == b.reviewedBy && a.reviewedAt == b.reviewedAt && a.rejectionReason == b.rejectionReason
  }

  predicate SameVoid(a: Request, b: Request) {
    a.voidedBy == b.voidedBy && a.voidedAt == b.voidedAt && a.voidReason == b.voidReason
  }

  predicate SameWithdrawal(a: Request, b: Request) {
    a.withdrawnBy == b.withdrawnBy && a.withdrawnAt == b.withdrawnAt && a.withdrawReason == b.withdrawReason
  }

  predicate SaveAllowed(before: Request, after: Request) {
    ChangeAllowed(before, after) && AuditShape(after) && WithdrawShape(after) && TermsShape(after.terms)
  }

  // ---- guards on an entry ----

  predicate SourceAndSign(e: Entry) {
    match e.kind
    case Allocation => e.share.Some? && e.reversalOf.None? && e.cents > 0
    case ManualIncrease => e.share.None? && e.reversalOf.None? && e.cents > 0 && e.reason != ""
    case ManualDecrease => e.share.None? && e.reversalOf.None? && e.cents < 0 && e.reason != ""
    case Reversal => e.share.None? && e.reversalOf.Some? && e.cents < 0 && e.reason != ""
  }

  predicate ReversalFits(entries: seq<Entry>, n: nat, e: Entry)
    requires n <= |entries|
  {
    e.reversalOf.Some? ==>
      && e.reversalOf.value < n
      && var original := entries[e.reversalOf.value];
      && original.kind == Allocation && original.org == e.org
      && original.beneficiary == e.beneficiary && e.cents == -original.cents
  }

  /** e may stand after the first n entries: its own shape, its original, and both one-to-one links. */
  predicate Admissible(entries: seq<Entry>, n: nat, e: Entry)
    requires n <= |entries|
  {
    && SourceAndSign(e)
    && e.month.day == 1
    && ReversalFits(entries, n, e)
    && (e.share.Some? ==> forall k :: 0 <= k < n ==> entries[k].share != e.share)
    && (e.reversalOf.Some? ==> forall k :: 0 <= k < n ==> entries[k].reversalOf != e.reversalOf)
  }

  /** Appends all the rows, or none when one of them breaks a guard. */
  function AppendAll(entries: seq<Entry>, rows: seq<Entry>): (r: Option<seq<Entry>>)
    ensures r.Some? ==> r.value == entries + rows
  {
    if rows == [] then
      assert entries + rows == entries;
      Some(entries)
    else
      var last := rows[|rows| - 1];
      match AppendAll(entries, rows[..|rows| - 1])
      case None => None
      case Some(front) =>
        assert entries + rows == front + [last];
        if Admissible(front, |front|, last) then Some(front + [last]) else None
  }

  // ---- steps ----

  type Outcome = Result<Books, AllocationError>

  function Save(books: Books, id: nat, after: Request): Outcome
    requires id < |books.requests|
  {
    if SaveAllowed(books.requests[id], after) then Ok(books.(requests := books.requests[id := after]))
    else Err(GuardRejected)
  }

  function NewRequest(terms: Terms): Request {
    Request(terms, Pending, None, None, "", None, None, "", None, None, "")
  }

  function Create(books: Books, sub: Submission, directory: Directory): Outcome {
    match TermsOf(sub, directory)
    case Err(e) => Err(e)
    case Ok(terms) =>
      if TermsShape(terms) then Ok(books.(requests := books.requests + [NewRequest(terms)])) else Err(GuardRejected)
  }

  /**
   The first day of the month that a submission without a performance month
   accrues to, or the performance month as given.
   */
  function AccrualMonth(terms: Terms): Date {
    if terms.performanceMonth.Some? then terms.performanceMonth.value else terms.submittedMonth
  }

  /** The terms of a closed request, submitted again by someone at some time; the accrual month is the earlier one. */
  function ResubmittedTerms(terms: Terms, actor: int, at: int, atMonth: int): Terms {
    terms.(submittedBy := actor, submittedAt := at, submittedMonth := Date(atMonth, 1),
           expiresAt := at + 7 * 24 * 3600, performanceMonth := Some(AccrualMonth(terms)))
  }

  function Resubmit(books: Books, id: nat, actor: int, at: int, atMonth: int): Outcome {
    if id >= |books.requests| then Err(UnknownRequest)
    else if books.requests[id].status !in {Rejected, Expired, Withdrawn} then Err(NotResubmittable)
    else
      var terms := ResubmittedTerms(books.requests[id].terms, actor, at, atMonth);
      if TermsShape(terms) then Ok(books.(requests := books.requests + [NewRequest(terms)])) else Err(GuardRejected)
  }

  function ShareEntry(terms: Terms, id: nat, index: nat, reviewer: int): Entry
    requires index < |terms.shares|
  {
    Entry(terms.org, terms.shares[index].beneficiary, Allocation, terms.shares[index].cents,
          terms.submittedAt, AccrualMonth(terms), Some(ShareRef(id, index)), None, "", reviewer)
  }

  function ShareKeys(shares: seq<Share>): seq<Key> {
    seq(|shares|, i requires 0 <= i < |shares| => Key(shares[i].sortOrder, 0, 0))
  }

  /** One entry for each listed share with a non-zero amount. */
  function ShareEntries(terms: Terms, id: nat, order: seq<nat>, reviewer: int): seq<Entry>
    requires forall a :: 0 <= a < |order| ==> order[a] < |terms.shares|
  {
    if order == [] then []
    else
      var index := order[|order| - 1];
      ShareEntries(terms, id, order[..|order| - 1], reviewer)
      + if terms.shares[index].cents != 0 then [ShareEntry(terms, id, index, reviewer)] else []
  }

  function Approve(books: Books, id: nat, reviewer: int, at: int, directory: Directory): Outcome {
    if id >= |books.requests| then Err(UnknownRequest)
    else
      var r := books.requests[id];
      if (r.terms.org, reviewer) !in directory.active then Err(NotAMember)
      else if r.status == Approved then Ok(books)
      else if r.status != Pending then Err(NotPending)
      else if at >= r.terms.expiresAt then Err(ReviewTooLate)
      else if TotalsFault(r.terms, directory).Some? then Err(TotalsFault(r.terms, directory).value)
      else match AppendAll(books.entries, ShareEntries(r.terms, id, Order(ShareKeys(r.terms.shares)), reviewer))
        case None => Err(GuardRejected)
        case Some(entries) =>
          Save(books.(entries := entries), id,
               r.(status := Approved, reviewedBy := Some(reviewer), reviewedAt := Some(at), rejectionReason := ""))
  }

  function Reject(books: Books, id: nat, reviewer: int, reason: string, at: int, directory: Directory): Outcome {
    if id >= |books.requests| then Err(UnknownRequest)
    else
      var r := books.requests[id];
      if reason == "" then Err(ReasonMissing)
      else if (r.terms.org, reviewer) !in directory.active then Err(NotAMember)
      else if r.status != Pending then Err(NotPending)
      else if at >= r.terms.expiresAt then Err(ReviewTooLate)
      else Save(books, id,
                r.(status := Rejected, reviewedBy := Some(reviewer), reviewedAt := Some(at), rejectionReason := reason))
  }

  function Expire(books: Books, id: nat): Outcome {
    if id >= |books.requests| then Err(UnknownRequest)
    else if books.requests[id].status != Pending then Ok(books)
    else Save(books, id, books.requests[id].(status := Expired))
  }

  function Withdraw(books: Books, id: nat, actor: int, reason: string, at: int): Outcome {
    if id >= |books.requests| then Err(UnknownRequest)
    else
      var r := books.requests[id];
      if r.status == Withdrawn then Ok(books)
      else if r.status != Pending then Err(NotPending)
      else if reason == "" then Err(ReasonMissing)
      else Save(books, id,
                r.(status := Withdrawn, withdrawnBy := Some(actor), withdrawnAt := Some(at), withdrawReason := reason))
  }

  predicate IsAllocationOf(e: Entry, id: nat) {
    e.kind == Allocation && e.share.Some? && e.share.value.request == id
  }

  predicate Reversed(entries: seq<Entry>, k: nat) {
    exists j :: 0 <= j < |entries| && entries[j].reversalOf == Some(k)
  }

  function ReversalEntry(original: Entry, k: nat, org: int, actor: int, reason: string, at: int): Entry {
    Entry(org, original.beneficiary, Reversal, -original.cents, at, original.month, None, Some(k), reason, actor)
  }

  /** A reversal for every not yet reversed allocation entry of the request among the first n. */
  function Reversals(entries: seq<Entry>, n: nat, id: nat, org: int, actor: int, reason: string, at: int): seq<Entry>
    requires n <= |entries|
  {
    if n == 0 then []
    else
      Reversals(entries, n - 1, id, org, actor, reason, at)
      + if IsAllocationOf(entries[n - 1], id) && !Reversed(entries, n - 1)
        then [ReversalEntry(entries[n - 1], n - 1, org, actor, reason, at)] else []
  }

  function Void(books: Books, id: nat, actor: int, reason: string, at: int, directory: Directory): Outcome {
    if id >= |books.requests| then Err(UnknownRequest)
    else
      var r := books.requests[id];
      if reason == "" then Err(ReasonMissing)
      else if r.status == Voided then Ok(books)
      else if r.status != Approved then Err(NotApproved)
      else if (r.terms.org, actor) !in directory.active then Err(NotAMember)
      else match AppendAll(books.entries, Reversals(books.entries, |books.entries|, id, r.terms.org, actor, reason, at))
        case None => Err(GuardRejected)
        case Some(entries) =>
          Save(books.(entries := entries), id,
               r.(status := Voided, voidedBy := Some(actor), voidedAt := Some(at), voidReason := reason))
  }

  datatype ManualInput = ManualInput(
    org: int, beneficiary: int, kind: Kind, amount: real, reason: string, actor: int,
    at: int, atMonth: int, month: Option<Date>)

  function ManualCents(input: ManualInput): int {
    Distribution.QuantizeMoney(if input.amount < 0.0 then -input.amount else input.amount)
  }

  function ManualMonth(input: ManualInput): Date {
    Date(if input.month.Some? then input.month.value.month else input.atMonth, 1)
  }

  function ManualEntry(input: ManualInput): Entry {
    Entry(input.org, input.beneficiary, input.kind,
          if input.kind == ManualIncrease then ManualCents(input) else -ManualCents(input),
          input.at, ManualMonth(input), None, None, input.reason, input.actor)
  }

  function Manual(books: Books, input: ManualInput, directory: Directory): Outcome {
    if input.kind != ManualIncrease && input.kind != ManualDecrease then Err(NotManual)
    else if (input.org, input.beneficiary) !in directory.all then Err(NotAMember)
    else if (input.org, input.actor) !in directory.active then Err(NotAMember)
    else if input.reason == "" then Err(ReasonMissing)
    else if ManualCents(input) == 0 then Err(ZeroAmount)
    else if ManualMonth(input).month > input.atMonth then Err(FutureMonth)
    else match AppendAll(books.entries, [ManualEntry(input)])
      case None => Err(GuardRejected)
      case Some(entries) => Ok(books.(entries := entries))
  }

  /** One call, with the clock, the membership and the arguments it ran under. */
  datatype Step =
    | DoCreate(sub: Submission, directory: Directory)
    | DoResubmit(id: nat, actor: int, at: int, atMonth: int)
    | DoApprove(id: nat, reviewer: int, at: int, directory: Directory)
    | DoReject(id: nat, reviewer: int, reason: string, at: int, directory: Directory)
    | DoExpire(id: nat)
    | DoWithdraw(id: nat, actor: int, reason: string, at: int)
    | DoVoid(id: nat, actor: int, reason: string, at: int, directory: Directory)
    | DoManual(input: ManualInput, directory: Directory)

  function Attempt(books: Books, step: Step): Outcome {
    match step
    case DoCreate(sub, directory) => Create(books, sub, directory)
    case DoResubmit(id, actor, at, atMonth) => Resubmit(books, id, actor, at, atMonth)
    case DoApprove(id, reviewer, at, directory) => Approve(books, id, reviewer, at, directory)
    case DoReject(id, reviewer, reason, at, directory) => Reject(books, id, reviewer, reason, at, directory)
    case DoExpire(id) => Expire(books, id)
    case DoWithdraw(id, actor, reason, at) => Withdraw(books, id, actor, reason, at)
    case DoVoid(id, actor, reason, at, directory) => Void(books, id, actor, reason, at, directory)
    case DoManual(input, directory) => Manual(books, input, directory)
  }

  /** A failed step leaves the books as they were. */
  function After(books: Books, step: Step): Books {
    match Attempt(books, step)
    case Ok(next) => next
    case Err(_) => books
  }

  function Run(books: Books, steps: seq<Step>): Books {
    if steps == [] then books else After(Run(books, steps[..|steps| - 1]), steps[|steps| - 1])
  }

  const EMPTY_BOOKS := Books([], [])
}
