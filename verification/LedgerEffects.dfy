/**
 What each call on the allocation ledger does, field by field: when it goes
 through, which error it ends in otherwise, and everything it leaves behind.
 Nothing here is said through the functions that compute it.
 */
module LedgerEffects {
  import opened Wrappers
  import opened Sums
  import opened Ordering
  import opened Requests
  import opened Ledger
  import opened LedgerProofs
  import opened LedgerTheorems
  import opened RequestEffects

  /** The error of a call, if it ends in one. */
  function Failure(outcome: Outcome): Option<AllocationError> {
    match outcome
    case Ok(_) => None
    case Err(e) => Some(e)
  }

  /** Request id became r; other requests and the entries up to here are as they were. */
  predicate OnlyRequest(books: Books, next: Books, id: nat, r: Request) {
    && id < |books.requests| && |next.requests| == |books.requests| && next.requests[id] == r
    && (forall k :: 0 <= k < |books.requests| && k != id ==> next.requests[k] == books.requests[k])
    && books.entries <= next.entries
  }

  // ---- closing a request ----

  /** What a rejection ends in. */
  function RejectionFailure(books: Books, id: nat, reviewer: int, reason: string, at: int,
                            directory: Directory): Option<AllocationError> {
    if id >= |books.requests| then Some(UnknownRequest)
    else if reason == [] then Some(ReasonMissing)
    else if (books.requests[id].terms.org, reviewer) !in directory.active then Some(NotAMember)
    else if !books.requests[id].status.Pending? then Some(NotPending)
    else if at - books.requests[id].terms.submittedAt >= 604800 then Some(ReviewTooLate)
    else None
  }

  /**
   A rejection of a reachable request goes through exactly when the request is
   pending, the reason is given, the reviewer is an active member, and less than
   seven days have passed; then the request is rejected by that reviewer, at that
   time, for that reason, and nothing else changes.
   */
  lemma RejectionExact(steps: seq<Step>, id: nat, reviewer: int, reason: string, at: int, directory: Directory)
    ensures var books := Run(EMPTY_BOOKS, steps);
            var step := DoReject(id, reviewer, reason, at, directory);
            var (failure, next) := (Failure(Attempt(books, step)), After(books, step));
            && failure == RejectionFailure(books, id, reviewer, reason, at, directory)
            && (failure.Some? ==> next == books)
            && (failure.None? ==>
                  && OnlyRequest(books, next, id, Request(books.requests[id].terms, Rejected, Some(reviewer), Some(at),
                                                          reason, None, None, "", None, None, ""))
                  && next.entries == books.entries)
  {
    RunSound(steps);
    var books := Run(EMPTY_BOOKS, steps);
    if id < |books.requests| { assert RequestSound(books.requests[id]); }
  }

  /** A pending request expires; any other stays as it is. */
  lemma ExpiryExact(steps: seq<Step>, id: nat)
    ensures var books := Run(EMPTY_BOOKS, steps);
            var (failure, next) := (Failure(Attempt(books, DoExpire(id))), After(books, DoExpire(id)));
            && failure == (if id >= |books.requests| then Some(UnknownRequest) else None)
            && (if id < |books.requests| && books.requests[id].status.Pending?
                then && OnlyRequest(books, next, id, Request(books.requests[id].terms, Expired, None, None, "",
                                                             None, None, "", None, None, ""))
                     && next.entries == books.entries
                else next == books)
  {
    RunSound(steps);
    var books := Run(EMPTY_BOOKS, steps);
    if id < |books.requests| { assert RequestSound(books.requests[id]); }
  }

  function WithdrawalFailure(books: Books, id: nat, reason: string): Option<AllocationError> {
    if id >= |books.requests| then Some(UnknownRequest)
    else match books.requests[id].status
      case Withdrawn => None
      case Pending => if reason == [] then Some(ReasonMissing) else None
      case _ => Some(NotPending)
  }

  /** A pending request is withdrawn with its reason; a withdrawn one is left as it is; any other call fails. */
  lemma WithdrawalExact(steps: seq<Step>, id: nat, actor: int, reason: string, at: int)
    ensures var books := Run(EMPTY_BOOKS, steps);
            var step := DoWithdraw(id, actor, reason, at);
            var (failure, next) := (Failure(Attempt(books, step)), After(books, step));
            && failure == WithdrawalFailure(books, id, reason)
            && (if failure.None? && books.requests[id].status.Pending?
                then && OnlyRequest(books, next, id, Request(books.requests[id].terms, Withdrawn, None, None, "",
                                                             None, None, "", Some(actor), Some(at), reason))
                     && next.entries == books.entries
                else next == books)
  {
    RunSound(steps);
    var books := Run(EMPTY_BOOKS, steps);
    if id < |books.requests| { assert RequestSound(books.requests[id]); }
  }

  // ---- approving ----

  /** The performance month as given, else the month of the submission. */
  function BookedMonth(terms: Terms): Date {
    match terms.performanceMonth
    case Some(month) => month
    case None => terms.submittedMonth
  }

  function ApprovalFailure(books: Books, id: nat, reviewer: int, at: int,
                           directory: Directory): Option<AllocationError> {
    if id >= |books.requests| then Some(UnknownRequest)
    else
      var (terms, status) := (books.requests[id].terms, books.requests[id].status);
      if (terms.org, reviewer) !in directory.active then Some(NotAMember)
      else if status.Approved? then None
      else if !status.Pending? then Some(NotPending)
      else if at - terms.submittedAt >= 604800 then Some(ReviewTooLate)
      else if exists s :: s in terms.shares && (terms.org, s.beneficiary) !in directory.active then Some(NotAMember)
      else if BookedMonth(terms).day != 1 && exists s :: s in terms.shares && s.cents != 0 then Some(GuardRejected)
      else None
  }

  /** The entry stands for this share of the request. */
  predicate ShareBooked(e: Entry, terms: Terms, id: nat, i: nat, reviewer: int) {
    && i < |terms.shares| && terms.shares[i].cents != 0
    && e == Entry(terms.org, terms.shares[i].beneficiary, Allocation, terms.shares[i].cents, terms.submittedAt,
                  BookedMonth(terms), Some(ShareRef(id, i)), None, "", reviewer)
  }

  predicate Booked(rows: seq<Entry>, ref: ShareRef) {
    exists a :: 0 <= a < |rows| && rows[a].share == Some(ref)
  }

  /** The new entries stand for the non-zero shares, each once, by sort order and then in the order of the shares. */
  predicate SharesBooked(rows: seq<Entry>, terms: Terms, id: nat, reviewer: int) {
    && (forall a :: 0 <= a < |rows| ==>
          rows[a].share.Some? && ShareBooked(rows[a], terms, id, rows[a].share.value.index, reviewer))
    && (forall i: nat :: i < |terms.shares| && terms.shares[i].cents != 0 ==> Booked(rows, ShareRef(id, i)))
    && (forall a, c :: 0 <= a < c < |rows| ==>
          var (i, j) := (rows[a].share.value.index, rows[c].share.value.index);
          || terms.shares[i].sortOrder < terms.shares[j].sortOrder
          || (terms.shares[i].sortOrder == terms.shares[j].sortOrder && i < j))
  }

  predicate EachBooked(rows: seq<Entry>, terms: Terms, id: nat, order: seq<nat>, reviewer: int) {
    forall a :: 0 <= a < |rows| ==>
      && rows[a].share.Some? && rows[a].share.value.index in order
      && ShareBooked(rows[a], terms, id, rows[a].share.value.index, reviewer)
  }

  lemma {:induction false} EachBooks(terms: Terms, id: nat, order: seq<nat>, reviewer: int)
    requires forall a :: 0 <= a < |order| ==> order[a] < |terms.shares|
    ensures EachBooked(ShareEntries(terms, id, order, reviewer), terms, id, order, reviewer)
  {
    if order != [] {
      var n := |order| - 1;
      EachBooks(terms, id, order[..n], reviewer);
      assert order == order[..n] + [order[n]];
    }
  }

  lemma {:induction false} AllBook(terms: Terms, id: nat, order: seq<nat>, reviewer: int, i: nat)
    requires forall a :: 0 <= a < |order| ==> order[a] < |terms.shares|
    requires i in order && terms.shares[i].cents != 0
    ensures Booked(ShareEntries(terms, id, order, reviewer), ShareRef(id, i))
  {
    var n := |order| - 1;
    assert order == order[..n] + [order[n]];
    var earlier, rows := ShareEntries(terms, id, order[..n], reviewer), ShareEntries(terms, id, order, reviewer);
    if i == order[n] {
      assert rows[|rows| - 1].share == Some(ShareRef(id, i));
    } else {
      AllBook(terms, id, order[..n], reviewer, i);
      var a :| 0 <= a < |earlier| && earlier[a].share == Some(ShareRef(id, i));
      assert rows[a] == earlier[a];
    }
  }

  /** Of two rows the share of the first stands ahead. */
  predicate RowsInOrder(rows: seq<Entry>, keys: seq<Key>) {
    && (forall a :: 0 <= a < |rows| ==> rows[a].share.Some? && rows[a].share.value.index < |keys|)
    && (forall a, c :: 0 <= a < c < |rows| ==> Ahead(keys, rows[a].share.value.index, rows[c].share.value.index))
  }

  lemma {:induction false} OrderBooks(terms: Terms, id: nat, order: seq<nat>, reviewer: int)
    requires forall a :: 0 <= a < |order| ==> order[a] < |terms.shares|
    requires Ranked(ShareKeys(terms.shares), order)
    ensures RowsInOrder(ShareEntries(terms, id, order, reviewer), ShareKeys(terms.shares))
  {
    if order != [] {
      var n := |order| - 1;
      OrderBooks(terms, id, order[..n], reviewer);
      EachBooks(terms, id, order[..n], reviewer);
      var earlier := ShareEntries(terms, id, order[..n], reviewer);
      forall a | 0 <= a < |earlier| ensures Ahead(ShareKeys(terms.shares), earlier[a].share.value.index, order[n]) {
        var p :| 0 <= p < n && order[..n][p] == earlier[a].share.value.index;
        assert order[p] == order[..n][p];
      }
    }
  }

  lemma ApprovalBooks(terms: Terms, id: nat, reviewer: int)
    ensures SharesBooked(ShareEntries(terms, id, Order(ShareKeys(terms.shares)), reviewer), terms, id, reviewer)
  {
    var keys := ShareKeys(terms.shares);
    OrderRanked(keys);
    EachBooks(terms, id, Order(keys), reviewer);
    OrderBooks(terms, id, Order(keys), reviewer);
    forall i: nat | i < |terms.shares| && terms.shares[i].cents != 0
      ensures Booked(ShareEntries(terms, id, Order(keys), reviewer), ShareRef(id, i))
    {
      AllBook(terms, id, Order(keys), reviewer, i);
    }
  }

  lemma MembersMissing(directory: Directory, org: int, shares: seq<Share>)
    ensures MembersOf(directory, org, ShareUsers(shares)) != ShareUsers(shares) <==>
              exists s :: s in shares && (org, s.beneficiary) !in directory.active
  {
    if s :| s in shares && (org, s.beneficiary) !in directory.active {
      assert s.beneficiary in ShareUsers(shares);
    }
  }

  /**
   An approval of a reachable request ends in exactly this error or in none. One
   that goes through on a pending request writes who approved it when, and one
   entry for each non-zero share; on an approved one it changes nothing.
   */
  lemma ApprovalExact(steps: seq<Step>, id: nat, reviewer: int, at: int, directory: Directory)
    ensures var books := Run(EMPTY_BOOKS, steps);
            var step := DoApprove(id, reviewer, at, directory);
            var (failure, next) := (Failure(Attempt(books, step)), After(books, step));
            && failure == ApprovalFailure(books, id, reviewer, at, directory)
            && (if failure.None? && books.requests[id].status.Pending?
                then && OnlyRequest(books, next, id, Request(books.requests[id].terms, Approved, Some(reviewer),
                                                             Some(at), "", None, None, "", None, None, ""))
                     && SharesBooked(next.entries[|books.entries|..], books.requests[id].terms, id, reviewer)
                else next == books)
  {
    RunSound(steps);
    var books := Run(EMPTY_BOOKS, steps);
    if id < |books.requests| {
      var r := books.requests[id];
      assert RequestSound(r);
      MembersMissing(directory, r.terms.org, r.terms.shares);
      if r.status == Pending && ReviewPasses(r, reviewer, at, directory) {
        ApprovalWritesShares(books, id, reviewer, at, directory);
      }
    }
  }

  lemma ApprovalWritesShares(books: Books, id: nat, reviewer: int, at: int, directory: Directory)
    requires Sound(books) && id < |books.requests| && books.requests[id].status == Pending
    requires ReviewPasses(books.requests[id], reviewer, at, directory)
    ensures var outcome, r := Approve(books, id, reviewer, at, directory), books.requests[id];
            if BookedMonth(r.terms).day != 1 && exists s :: s in r.terms.shares && s.cents != 0
            then outcome == Err(GuardRejected)
            else && outcome.Ok?
                 && OnlyRequest(books, outcome.value, id, Request(r.terms, Approved, Some(reviewer), Some(at), "",
                                                                  None, None, "", None, None, ""))
                 && SharesBooked(outcome.value.entries[|books.entries|..], r.terms, id, reviewer)
  {
    var r := books.requests[id];
    assert RequestSound(r);
    ApprovalWrites(books, id, reviewer, at, directory);
    ApprovalBooks(r.terms, id, reviewer);
    var rows := ApprovalEntries(r, id, reviewer);
    assert (books.entries + rows)[|books.entries|..] == rows;
  }

  // ---- voiding ----

  function VoidingFailure(books: Books, id: nat, actor: int, reason: string,
                          directory: Directory): Option<AllocationError> {
    if id >= |books.requests| then Some(UnknownRequest)
    else if reason == [] then Some(ReasonMissing)
    else match books.requests[id].status
      case Voided => None
      case Approved => if (books.requests[id].terms.org, actor) in directory.active then None else Some(NotAMember)
      case _ => Some(NotApproved)
  }

  /** The entry was written for a share of the request. */
  predicate WrittenFor(e: Entry, id: nat) {
    e.share.Some? && e.share.value.request == id
  }

  predicate TakenBack(rows: seq<Entry>, k: nat) {
    exists a :: 0 <= a < |rows| && rows[a].reversalOf == Some(k)
  }

  /** The entry takes back an entry of the request among the first n. */
  predicate TakesBack(e: Entry, before: seq<Entry>, n: nat, id: nat, org: int, actor: int, reason: string, at: int)
    requires n <= |before|
  {
    && e.reversalOf.Some? && e.reversalOf.value < n
    && var original := before[e.reversalOf.value];
    && WrittenFor(original, id)
    && e == Entry(org, original.beneficiary, Reversal, 0 - original.cents, at, original.month, None, e.reversalOf,
                  reason, actor)
  }

  predicate EachBack(rows: seq<Entry>, before: seq<Entry>, n: nat, id: nat, org: int, actor: int, reason: string,
                     at: int)
    requires n <= |before|
  {
    forall a :: 0 <= a < |rows| ==> TakesBack(rows[a], before, n, id, org, actor, reason, at)
  }

  predicate Ascending(rows: seq<Entry>) {
    && (forall a :: 0 <= a < |rows| ==> rows[a].reversalOf.Some?)
    && (forall a, c :: 0 <= a < c < |rows| ==> rows[a].reversalOf.value < rows[c].reversalOf.value)
  }

  /** The new entries take back the request's entries, each once, in their order. */
  predicate AllTakenBack(before: seq<Entry>, rows: seq<Entry>, id: nat, org: int, actor: int, reason: string, at: int) {
    && EachBack(rows, before, |before|, id, org, actor, reason, at) && Ascending(rows)
    && (forall k: nat :: k < |before| && WrittenFor(before[k], id) ==> TakenBack(rows, k))
  }

  lemma {:induction false} EachTakesBack(entries: seq<Entry>, n: nat, id: nat, org: int, actor: int, reason: string,
                                         at: int)
    requires WellFormed(entries) && n <= |entries|
    ensures EachBack(Reversals(entries, n, id, org, actor, reason, at), entries, n, id, org, actor, reason, at)
    ensures Ascending(Reversals(entries, n, id, org, actor, reason, at))
  {
    if n > 0 {
      EachTakesBack(entries, n - 1, id, org, actor, reason, at);
      var earlier := Reversals(entries, n - 1, id, org, actor, reason, at);
      assert forall a :: 0 <= a < |earlier| ==> TakesBack(earlier[a], entries, n - 1, id, org, actor, reason, at);
    }
  }

  lemma {:induction false} AllTakeBack(entries: seq<Entry>, n: nat, id: nat, org: int, actor: int, reason: string,
                                       at: int, k: nat)
    requires WellFormed(entries) && Untouched(entries, id, org) && k < n <= |entries| && WrittenFor(entries[k], id)
    ensures TakenBack(Reversals(entries, n, id, org, actor, reason, at), k)
  {
    var earlier, rows := Reversals(entries, n - 1, id, org, actor, reason, at),
                         Reversals(entries, n, id, org, actor, reason, at);
    if k == n - 1 {
      assert Admissible(entries, k, entries[k]);
      UntouchedNotReversed(entries, id, org, k);
      assert rows[|rows| - 1].reversalOf == Some(k);
    } else {
      AllTakeBack(entries, n - 1, id, org, actor, reason, at, k);
      var a :| 0 <= a < |earlier| && earlier[a].reversalOf == Some(k);
      assert rows[a] == earlier[a];
    }
  }

  lemma VoidingTakesBack(entries: seq<Entry>, id: nat, org: int, actor: int, reason: string, at: int)
    requires WellFormed(entries) && Untouched(entries, id, org)
    ensures AllTakenBack(entries, Reversals(entries, |entries|, id, org, actor, reason, at), id, org, actor, reason, at)
  {
    EachTakesBack(entries, |entries|, id, org, actor, reason, at);
    forall k: nat | k < |entries| && WrittenFor(entries[k], id)
      ensures TakenBack(Reversals(entries, |entries|, id, org, actor, reason, at), k)
    {
      AllTakeBack(entries, |entries|, id, org, actor, reason, at, k);
    }
  }

  /**
   Voiding an approved request writes who voided it, when and why, and takes back
   every entry of its shares; voiding a voided one changes nothing, and any other
   call fails.
   */
  lemma VoidingExact(steps: seq<Step>, id: nat, actor: int, reason: string, at: int, directory: Directory)
    ensures var books := Run(EMPTY_BOOKS, steps);
            var step := DoVoid(id, actor, reason, at, directory);
            var (failure, next) := (Failure(Attempt(books, step)), After(books, step));
            && failure == VoidingFailure(books, id, actor, reason, directory)
            && (if failure.None? && books.requests[id].status.Approved?
                then var r := books.requests[id];
                     && OnlyRequest(books, next, id, Request(r.terms, Voided, r.reviewedBy, r.reviewedAt, "",
                                                             Some(actor), Some(at), reason, None, None, ""))
                     && AllTakenBack(books.entries, next.entries[|books.entries|..], id, r.terms.org, actor, reason, at)
                else next == books)
  {
    RunSound(steps);
    var books := Run(EMPTY_BOOKS, steps);
    if id < |books.requests| && books.requests[id].status == Approved
       && VoidingFailure(books, id, actor, reason, directory).None?
    {
      VoidingWrites(books, id, actor, reason, at, directory);
    }
  }

  lemma VoidingWrites(books: Books, id: nat, actor: int, reason: string, at: int, directory: Directory)
    requires Sound(books) && id < |books.requests| && books.requests[id].status == Approved
    requires VoidingFailure(books, id, actor, reason, directory).None?
    ensures var outcome, r := Void(books, id, actor, reason, at, directory), books.requests[id];
            && outcome.Ok?
            && OnlyRequest(books, outcome.value, id, Request(r.terms, Voided, r.reviewedBy, r.reviewedAt, "",
                                                             Some(actor), Some(at), reason, None, None, ""))
            && AllTakenBack(books.entries, outcome.value.entries[|books.entries|..], id, r.terms.org, actor, reason, at)
  {
    var r := books.requests[id];
    assert RequestSound(r);
    ApprovedUntouched(books, id);
    VoidWrites(books, id, actor, reason, at, directory);
    VoidingTakesBack(books.entries, id, r.terms.org, actor, reason, at);
    var rows := VoidEntries(books, id, actor, reason, at);
    assert (books.entries + rows)[|books.entries|..] == rows;
  }

  // ---- monthly rows ----

  /** The amounts of a beneficiary in a month with one of these kinds, and 0 for every other entry. */
  function Amounts(entries: seq<Entry>, org: int, user: int, month: Date, kinds: set<Kind>): seq<int> {
    seq(|entries|, i requires 0 <= i < |entries| =>
          if entries[i].org == org && entries[i].beneficiary == user && entries[i].month == month
             && entries[i].kind in kinds
          then entries[i].cents
          else 0)
  }

  lemma {:induction false} KindAmounts(entries: seq<Entry>, kind: Kind, org: int, user: int, month: Date)
    ensures KindSum(entries, kind, org, user, month) == Sum(Amounts(entries, org, user, month, {kind}))
  {
    if entries != [] {
      var n := |entries| - 1;
      KindAmounts(entries[..n], kind, org, user, month);
      assert Amounts(entries, org, user, month, {kind})[..n] == Amounts(entries[..n], org, user, month, {kind});
    }
  }

  const EVERY_KIND := {Allocation, ManualIncrease, ManualDecrease, Reversal}

  lemma {:induction false} AllAmounts(entries: seq<Entry>, org: int, user: int, month: Date)
    ensures MonthSum(entries, org, user, month) == Sum(Amounts(entries, org, user, month, EVERY_KIND))
  {
    if entries != [] {
      var n := |entries| - 1;
      AllAmounts(entries[..n], org, user, month);
      assert entries[n].kind in EVERY_KIND by {
        match entries[n].kind case Allocation => case ManualIncrease => case ManualDecrease => case Reversal =>
      }
      assert Amounts(entries, org, user, month, EVERY_KIND)[..n] == Amounts(entries[..n], org, user, month, EVERY_KIND);
    }
  }

  lemma {:induction false} AllEntries(entries: seq<Entry>, org: int, user: int, month: Date)
    ensures MonthCount(entries, org, user, month)
            == |set i: nat | i < |entries| && InMonth(entries[i], org, user, month)|
  {
    if entries != [] {
      var n := |entries| - 1;
      AllEntries(entries[..n], org, user, month);
      assert (set i: nat | i < |entries| && InMonth(entries[i], org, user, month))
          == (set i: nat | i < n && InMonth(entries[..n][i], org, user, month))
             + (if InMonth(entries[n], org, user, month) then {n} else {});
    }
  }

  /** A monthly row is there exactly when somebody has an entry in that month, and its columns are sums of entries. */
  lemma MonthlyRowExact(entries: seq<Entry>, org: int, user: int, month: Date)
    ensures (user, month) in MonthlyTotals(entries, org) <==>
              exists i :: 0 <= i < |entries| && entries[i].org == org && entries[i].beneficiary == user
                          && entries[i].month == month
    ensures (user, month) in MonthlyTotals(entries, org) ==>
              MonthlyTotals(entries, org)[(user, month)]
              == MonthRow(Sum(Amounts(entries, org, user, month, {Allocation})),
                          Sum(Amounts(entries, org, user, month, {ManualIncrease})),
                          Sum(Amounts(entries, org, user, month, {ManualDecrease})),
                          Sum(Amounts(entries, org, user, month, {Reversal})),
                          Sum(Amounts(entries, org, user, month, EVERY_KIND)),
                          |set i: nat | i < |entries| && entries[i].org == org && entries[i].beneficiary == user
                                        && entries[i].month == month|)
  {
    KindAmounts(entries, Allocation, org, user, month);
    KindAmounts(entries, ManualIncrease, org, user, month);
    KindAmounts(entries, ManualDecrease, org, user, month);
    KindAmounts(entries, Reversal, org, user, month);
    AllAmounts(entries, org, user, month);
    AllEntries(entries, org, user, month);
    assert (set i: nat | i < |entries| && InMonth(entries[i], org, user, month))
        == (set i: nat | i < |entries| && entries[i].org == org && entries[i].beneficiary == user
                         && entries[i].month == month);
    if i :| 0 <= i < |entries| && entries[i].org == org && entries[i].beneficiary == user && entries[i].month == month {
      assert entries[i] in entries;
    }
  }

  // ---- manual entries ----

  function ManualFailure(input: ManualInput, directory: Directory): Option<AllocationError> {
    if !input.kind.ManualIncrease? && !input.kind.ManualDecrease? then Some(NotManual)
    else if (input.org, input.beneficiary) !in directory.all then Some(NotAMember)
    else if (input.org, input.actor) !in directory.active then Some(NotAMember)
    else if input.reason == [] then Some(ReasonMissing)
    else if -0.005 < input.amount < 0.005 then Some(ZeroAmount)
    else if input.month.Some? && input.month.value.month > input.atMonth then Some(FutureMonth)
    else None
  }

  /** The first day of the given month, else of the current one. */
  function MonthStart(input: ManualInput): Date {
    match input.month
    case Some(given) => Date(given.month, 1)
    case None => Date(input.atMonth, 1)
  }

  /**
   A manual entry is refused in exactly these cases. One that goes through is
   written with the beneficiary, the month, and the cents of the amount's magnitude
   under the sign of its kind, by the operator, at that time and for that reason.
   */
  lemma ManualExact(books: Books, input: ManualInput, directory: Directory)
    ensures var step := DoManual(input, directory);
            var (failure, next) := (Failure(Attempt(books, step)), After(books, step));
            && failure == ManualFailure(input, directory)
            && (failure.Some? ==> next == books)
            && (failure.None? ==>
                  && next.requests == books.requests && |next.entries| == |books.entries| + 1
                  && next.entries[..|books.entries|] == books.entries
                  && var e := next.entries[|books.entries|];
                  && e == Entry(input.org, input.beneficiary, input.kind, e.cents, input.at, MonthStart(input),
                                None, None, input.reason, input.actor)
                  && IsCents(if input.kind.ManualIncrease? then e.cents else 0 - e.cents,
                             if input.amount < 0.0 then 0.0 - input.amount else input.amount))
  {
    QuantizeNearest(if input.amount < 0.0 then -input.amount else input.amount);
    ManualAdmissible(books, input, directory);
  }

  function RowOf(books: Books, org: int, user: int, month: Date): MonthRow {
    var rows := MonthlyTotals(books.entries, org);
    if (user, month) in rows then rows[(user, month)] else MonthRow(0, 0, 0, 0, 0, 0)
  }

  lemma RowMoves(entries: seq<Entry>, e: Entry, org: int, user: int, month: Date)
    ensures var here := e.org == org && e.beneficiary == user && e.month == month;
            var (before, after) := (RowOf(Books([], entries), org, user, month),
                                    RowOf(Books([], entries + [e]), org, user, month));
            && after.total == before.total + (if here then e.cents else 0)
            && after.count == before.count + (if here then 1 else 0)
            && after.allocation == before.allocation + (if here && e.kind == Allocation then e.cents else 0)
            && after.manualIncrease == before.manualIncrease + (if here && e.kind == ManualIncrease then e.cents else 0)
            && after.manualDecrease == before.manualDecrease + (if here && e.kind == ManualDecrease then e.cents else 0)
            && after.reversal == before.reversal + (if here && e.kind == Reversal then e.cents else 0)
  {
    assert (entries + [e])[..|entries|] == entries;
    RowIsSums(entries, org, user, month);
    RowIsSums(entries + [e], org, user, month);
  }

  /** A missing row is worth what an empty one is. */
  lemma RowIsSums(entries: seq<Entry>, org: int, user: int, month: Date)
    ensures RowOf(Books([], entries), org, user, month)
            == MonthRow(KindSum(entries, Allocation, org, user, month),
                        KindSum(entries, ManualIncrease, org, user, month),
                        KindSum(entries, ManualDecrease, org, user, month),
                        KindSum(entries, Reversal, org, user, month),
                        MonthSum(entries, org, user, month), MonthCount(entries, org, user, month))
  {
    NoRow(entries, org, user, month);
  }

  /** Without entries in the month every sum is zero. */
  lemma {:induction false} NoRow(entries: seq<Entry>, org: int, user: int, month: Date)
    ensures (user, month) !in MonthlyTotals(entries, org) ==>
              && MonthSum(entries, org, user, month) == 0 && MonthCount(entries, org, user, month) == 0
              && forall kind :: KindSum(entries, kind, org, user, month) == 0
  {
    if entries != [] {
      assert entries == entries[..|entries| - 1] + [entries[|entries| - 1]];
      NoRow(entries[..|entries| - 1], org, user, month);
    }
  }

  /**
   What a manual entry does to the monthly totals: its cents, with the sign of
   their kind, go to the beneficiary's row of the month, and no other row changes.
   */
  lemma ManualMovesOneRow(books: Books, input: ManualInput, directory: Directory, cents: int, org: int, user: int,
                          month: Date)
    requires ManualFailure(input, directory).None?
    requires IsCents(cents, if input.amount < 0.0 then 0.0 - input.amount else input.amount)
    ensures var next := After(books, DoManual(input, directory));
            var (before, after) := (RowOf(books, org, user, month), RowOf(next, org, user, month));
            if org == input.org && user == input.beneficiary && month == MonthStart(input)
            then if input.kind.ManualIncrease?
                 then after == before.(manualIncrease := before.manualIncrease + cents, total := before.total + cents,
                                       count := before.count + 1)
                 else after == before.(manualDecrease := before.manualDecrease - cents, total := before.total - cents,
                                       count := before.count + 1)
            else after == before
  {
    ManualExact(books, input, directory);
    var next := After(books, DoManual(input, directory));
    var e := next.entries[|books.entries|];
    assert next.entries == books.entries + [e];
    CentsUnique(cents, if input.kind.ManualIncrease? then e.cents else -e.cents,
                if input.amount < 0.0 then 0.0 - input.amount else input.amount);
    RowMoves(books.entries, e, org, user, month);
  }

  // ---- creating a request ----

  /**
   A submission is refused with exactly the first check it fails. One that passes
   becomes the last request, pending, with its terms frozen as submitted and computed.
   */
  lemma CreationExact(books: Books, sub: Submission, directory: Directory, given: seq<int>)
    requires Given(sub.shares, given)
    ensures var step := DoCreate(sub, directory);
            var (failure, next) := (Failure(Attempt(books, step)), After(books, step));
            && failure == CreationFailure(sub, directory, given)
            && (failure.Some? ==> next == books)
            && (failure.None? ==>
                  && next.entries == books.entries && |next.requests| == |books.requests| + 1
                  && next.requests[..|books.requests|] == books.requests
                  && var r := next.requests[|books.requests|];
                  && r == Request(r.terms, Pending, None, None, "", None, None, "", None, None, "")
                  && TermsFrozen(r.terms, sub, given))
  {
    TermsExact(sub, directory, given);
    if CreationFailure(sub, directory, given).None? { CreatedTermsSound(sub, directory, directory); }
  }

  /** A closed request is submitted again with all it froze but its submitter and dates; other calls fail. */
  lemma ResubmissionExact(steps: seq<Step>, id: nat, actor: int, at: int, atMonth: int)
    ensures var books := Run(EMPTY_BOOKS, steps);
            var step := DoResubmit(id, actor, at, atMonth);
            var (failure, next) := (Failure(Attempt(books, step)), After(books, step));
            && failure == (if id >= |books.requests| then Some(UnknownRequest)
                           else match books.requests[id].status
                             case Rejected => None
                             case Expired => None
                             case Withdrawn => None
                             case _ => Some(NotResubmittable))
            && (failure.Some? ==> next == books)
            && (failure.None? ==>
                  && next.entries == books.entries && |next.requests| == |books.requests| + 1
                  && next.requests[..|books.requests|] == books.requests
                  && var t := books.requests[id].terms;
                  && next.requests[|books.requests|]
                     == Request(Terms(t.org, t.basis, t.distribution, t.rate, t.pool, t.items, t.shares, actor, at,
                                      Date(atMonth, 1), at + 604800, Some(BookedMonth(t))),
                                Pending, None, None, "", None, None, "", None, None, ""))
  {
    RunSound(steps);
    var books := Run(EMPTY_BOOKS, steps);
    if id < |books.requests| && books.requests[id].status in {Rejected, Expired, Withdrawn} {
      ResubmitSound(books, id, actor, at, atMonth);
    }
  }

  // ---- the guards of a save ----

  /** Each audit fact belongs to the statuses it can have come with, and to no other. */
  lemma AuditFacts(r: Request)
    ensures AuditShape(r) && WithdrawShape(r) <==>
            && (r.reviewedBy.Some? <==> r.status in {Approved, Rejected, Voided})
            && (r.reviewedAt.Some? <==> r.status in {Approved, Rejected, Voided})
            && (r.rejectionReason != [] <==> r.status == Rejected)
            && (r.voidedBy.Some? <==> r.status == Voided) && (r.voidedAt.Some? <==> r.status == Voided)
            && (r.voidReason != [] <==> r.status == Voided)
            && (r.withdrawnBy.Some? <==> r.status == Withdrawn) && (r.withdrawnAt.Some? <==> r.status == Withdrawn)
            && (r.withdrawReason != [] <==> r.status == Withdrawn)
  {
  }

  /** The five moves of a request. */
  predicate Moves(a: Status, b: Status) {
    || (a.Pending? && (b.Approved? || b.Rejected? || b.Expired? || b.Withdrawn?))
    || (a.Approved? && b.Voided?)
  }

  /**
   A save is let through exactly when the terms are those stored and valid, the
   status stays or makes one of the five moves, each audit fact fits the new
   status, and facts change only where they can come about: the review and the
   withdrawal of a pending request, the voiding of an approved one.
   */
  lemma SaveExact(books: Books, id: nat, after: Request)
    requires id < |books.requests|
    ensures var before := books.requests[id];
            var saved := Save(books, id, after);
            && (saved.Ok? <==>
                  && after.terms == before.terms && RowsValid(after.terms)
                  && (after.status == before.status || Moves(before.status, after.status))
                  && AuditShape(after) && WithdrawShape(after)
                  && (before.status != Pending ==>
                        && after.reviewedBy == before.reviewedBy && after.reviewedAt == before.reviewedAt
                        && after.rejectionReason == before.rejectionReason
                        && after.withdrawnBy == before.withdrawnBy && after.withdrawnAt == before.withdrawnAt
                        && after.withdrawReason == before.withdrawReason)
                  && (before.status != Approved ==>
                        && after.voidedBy == before.voidedBy && after.voidedAt == before.voidedAt
                        && after.voidReason == before.voidReason))
            && (saved.Err? ==> saved.error == GuardRejected)
            && (saved.Ok? ==> OnlyRequest(books, saved.value, id, after) && saved.value.entries == books.entries)
  {
    RowsShape(after.terms);
  }

  // ---- the guards on entries ----

  /** Source, sign and reason of an entry, by its kind. */
  lemma EntryFacts(e: Entry)
    ensures SourceAndSign(e) <==>
            && (e.share.Some? <==> e.kind == Allocation) && (e.reversalOf.Some? <==> e.kind == Reversal)
            && e.cents != 0 && (e.cents > 0 <==> e.kind == Allocation || e.kind == ManualIncrease)
            && (e.reason == [] ==> e.kind == Allocation)
  {
  }

  /** An entry that may stand at position n of a ledger. */
  predicate StandsAt(entries: seq<Entry>, n: nat)
    requires n < |entries|
  {
    var e := entries[n];
    && SourceAndSign(e) && e.month.day == 1
    && (forall k :: 0 <= k < n && e.share.Some? ==> entries[k].share != e.share)
    && (forall k :: 0 <= k < n && e.reversalOf.Some? ==> entries[k].reversalOf != e.reversalOf)
    && (e.reversalOf.Some? ==>
          && e.reversalOf.value < n
          && var original := entries[e.reversalOf.value];
          && original.kind == Allocation && original.org == e.org && original.beneficiary == e.beneficiary
          && original.cents + e.cents == 0)
  }

  /** Rows are written all, when each may stand where it comes to stand, and none otherwise. */
  lemma {:induction false} AppendExact(entries: seq<Entry>, rows: seq<Entry>)
    ensures AppendAll(entries, rows).Some? <==>
              forall k :: |entries| <= k < |entries + rows| ==> StandsAt(entries + rows, k)
    ensures AppendAll(entries, rows).Some? ==> AppendAll(entries, rows).value == entries + rows
    decreases |rows|
  {
    if rows != [] {
      var n := |rows| - 1;
      AppendExact(entries, rows[..n]);
      assert entries + rows == (entries + rows[..n]) + [rows[n]];
      forall k | |entries| <= k < |entries + rows[..n]|
        ensures StandsAt(entries + rows, k) <==> StandsAt(entries + rows[..n], k)
      {
        StandsFrame(entries + rows[..n], rows[n], k);
      }
      StandsLast(entries + rows[..n], rows[n]);
    }
  }

  lemma StandsFrame(entries: seq<Entry>, last: Entry, k: nat)
    requires k < |entries|
    ensures StandsAt(entries + [last], k) <==> StandsAt(entries, k)
  {
    var all := entries + [last];
    assert forall j :: 0 <= j <= k ==> all[j] == entries[j];
  }

  lemma StandsLast(entries: seq<Entry>, last: Entry)
    ensures StandsAt(entries + [last], |entries|) <==> Admissible(entries, |entries|, last)
  {
    var all := entries + [last];
    assert forall j :: 0 <= j < |entries| ==> all[j] == entries[j];
  }
}
