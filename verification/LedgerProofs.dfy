/** What every run of the allocation steps keeps. */
module LedgerProofs {
  import opened Wrappers
  import opened Sums
  import opened Ordering
  import opened Distribution
  import opened Requests
  import opened Ledger

  // ---- ownership and netting ----

  /** The request an entry belongs to: through its share, or through the entry it reverses. */
  function OwnerOf(entries: seq<Entry>, e: Entry): Option<nat> {
    if e.share.Some? then Some(e.share.value.request)
    else if e.reversalOf.Some? && e.reversalOf.value < |entries| && entries[e.reversalOf.value].share.Some?
    then Some(entries[e.reversalOf.value].share.value.request)
    else None
  }

  function Part(entries: seq<Entry>, e: Entry, id: nat, user: int, month: Date): int {
    if OwnerOf(entries, e) == Some(id) && e.beneficiary == user && e.month == month then e.cents else 0
  }

  /** What the first n entries net to for one request, beneficiary and month. */
  function Net(entries: seq<Entry>, n: nat, id: nat, user: int, month: Date): int
    requires n <= |entries|
  {
    if n == 0 then 0 else Net(entries, n - 1, id, user, month) + Part(entries, entries[n - 1], id, user, month)
  }

  function SharesOf(shares: seq<Share>, user: int): seq<int> {
    seq(|shares|, i requires 0 <= i < |shares| => if shares[i].beneficiary == user then shares[i].cents else 0)
  }

  /** What a request is worth to a beneficiary in a month: its shares while it is approved, nothing otherwise. */
  function Due(r: Request, user: int, month: Date): int {
    if r.status == Approved && AccrualMonth(r.terms) == month then Sum(SharesOf(r.terms.shares, user)) else 0
  }

  // ---- the invariant ----

  predicate TotalsAgree(terms: Terms) {
    && Sum(SignedItems(terms.items)) == terms.basis
    && Sum(ShareWeights(terms.shares)) == FULL_WEIGHT
    && Sum(ShareAmounts(terms.shares)) <= terms.pool
  }

  predicate RequestSound(r: Request) {
    && TermsShape(r.terms) && TotalsAgree(r.terms)
    && AuditShape(r) && WithdrawShape(r)
    && (r.reviewedAt.Some? ==> r.reviewedAt.value < r.terms.submittedAt + REVIEW_SECONDS)
  }

  /** Every entry passed its guards when it was written. */
  predicate WellFormed(entries: seq<Entry>) {
    forall k :: 0 <= k < |entries| ==> Admissible(entries, k, entries[k])
  }

  /** An allocation entry repeats a share of a decided request; a reversal belongs to a voided one. */
  predicate Linked(books: Books, k: nat)
    requires k < |books.entries|
  {
    var e := books.entries[k];
    && (e.share.Some? ==>
      var ref := e.share.value;
      && ref.request < |books.requests|
      && var r := books.requests[ref.request];
      && ref.index < |r.terms.shares|
      && r.status in {Approved, Voided}
      && e.org == r.terms.org && e.month == AccrualMonth(r.terms)
      && e.beneficiary == r.terms.shares[ref.index].beneficiary
      && e.cents == r.terms.shares[ref.index].cents)
    && (e.reversalOf.Some? ==>
      && e.reversalOf.value < k
      && var original := books.entries[e.reversalOf.value];
      && original.share.Some? && original.month == e.month
      && original.share.value.request < |books.requests|
      && books.requests[original.share.value.request].status == Voided)
  }

  ghost predicate Nets(books: Books, id: nat)
    requires id < |books.requests|
  {
    forall user, month ::
      Net(books.entries, |books.entries|, id, user, month) == Due(books.requests[id], user, month)
  }

  ghost predicate Sound(books: Books) {
    && (forall id :: 0 <= id < |books.requests| ==> RequestSound(books.requests[id]))
    && WellFormed(books.entries)
    && (forall k :: 0 <= k < |books.entries| ==> Linked(books, k))
    && (forall id :: 0 <= id < |books.requests| ==> Nets(books, id))
  }

  // ---- appending entries ----

  lemma AdmissibleFrame(entries: seq<Entry>, rows: seq<Entry>, n: nat, e: Entry)
    requires n <= |entries|
    ensures Admissible(entries + rows, n, e) <==> Admissible(entries, n, e)
  {
    var all := entries + rows;
    assert forall k :: 0 <= k < n ==> all[k] == entries[k];
  }

  lemma WellFormedSnoc(entries: seq<Entry>, e: Entry)
    requires WellFormed(entries) && Admissible(entries, |entries|, e)
    ensures WellFormed(entries + [e])
  {
    var all := entries + [e];
    forall k | 0 <= k < |all| ensures Admissible(all, k, all[k]) {
      AdmissibleFrame(entries, [e], k, all[k]);
    }
  }

  lemma {:induction false} NetFrame(entries: seq<Entry>, rows: seq<Entry>, n: nat, id: nat, user: int, month: Date)
    requires WellFormed(entries) && n <= |entries|
    ensures Net(entries + rows, n, id, user, month) == Net(entries, n, id, user, month)
  {
    if n > 0 {
      NetFrame(entries, rows, n - 1, id, user, month);
      assert Admissible(entries, n - 1, entries[n - 1]);
    }
  }

  lemma NetSnoc(entries: seq<Entry>, e: Entry, id: nat, user: int, month: Date)
    requires WellFormed(entries) && Admissible(entries, |entries|, e)
    ensures Net(entries + [e], |entries| + 1, id, user, month)
         == Net(entries, |entries|, id, user, month) + Part(entries, e, id, user, month)
  {
    NetFrame(entries, [e], |entries|, id, user, month);
  }

  lemma {:induction false} NetNone(entries: seq<Entry>, n: nat, id: nat, user: int, month: Date)
    requires n <= |entries|
    requires forall k :: 0 <= k < n ==> OwnerOf(entries, entries[k]) != Some(id)
    ensures Net(entries, n, id, user, month) == 0
  {
    if n > 0 { NetNone(entries, n - 1, id, user, month); }
  }

  lemma OwnerLinked(books: Books, k: nat, id: nat)
    requires Sound(books) && k < |books.entries|
    requires OwnerOf(books.entries, books.entries[k]) == Some(id)
    ensures id < |books.requests| && books.requests[id].status in {Approved, Voided}
    ensures books.requests[id].status == Approved ==> IsAllocationOf(books.entries[k], id)
    ensures books.entries[k].org == books.requests[id].terms.org
  {
    assert Linked(books, k);
    assert Admissible(books.entries, k, books.entries[k]);
    var e := books.entries[k];
    if e.reversalOf.Some? { assert Linked(books, e.reversalOf.value); }
  }

  // ---- steps that write no entries ----

  lemma SaveFrame(books: Books, id: nat, after: Request, k: nat)
    requires Sound(books) && id < |books.requests| && k < |books.entries|
    requires books.requests[id].status == Pending
    ensures Linked(books.(requests := books.requests[id := after]), k)
  {
    var e := books.entries[k];
    assert Linked(books, k);
    if e.reversalOf.Some? { assert Linked(books, e.reversalOf.value); }
  }

  lemma CloseSound(books: Books, id: nat, after: Request)
    requires Sound(books) && id < |books.requests|
    requires books.requests[id].status == Pending && after.status in {Rejected, Expired, Withdrawn}
    requires RequestSound(after)
    ensures Sound(books.(requests := books.requests[id := after]))
  {
    var next := books.(requests := books.requests[id := after]);
    forall k | 0 <= k < |next.entries| ensures Linked(next, k) { SaveFrame(books, id, after, k); }
    forall i | 0 <= i < |next.requests| ensures Nets(next, i) {
      assert Nets(books, i);
    }
  }

  lemma CreateSound(books: Books, sub: Submission, directory: Directory)
    requires Sound(books)
    ensures Create(books, sub, directory) != Err(GuardRejected)
    ensures Create(books, sub, directory).Ok? ==> Sound(Create(books, sub, directory).value)
  {
    var made := TermsOf(sub, directory);
    if made.Ok? {
      CreatedTermsSound(sub, directory, directory);
      NewSound(books, NewRequest(made.value));
    } else {
      TermsOfNoGuard(sub, directory);
    }
  }

  /** Submitting a closed request again always goes through, and its accrual month is as writable as before. */
  lemma ResubmitSound(books: Books, id: nat, actor: int, at: int, atMonth: int)
    requires Sound(books) && id < |books.requests| && books.requests[id].status in {Rejected, Expired, Withdrawn}
    ensures var terms := ResubmittedTerms(books.requests[id].terms, actor, at, atMonth);
            && Resubmit(books, id, actor, at, atMonth) == Ok(books.(requests := books.requests + [NewRequest(terms)]))
            && Sound(Resubmit(books, id, actor, at, atMonth).value)
            && (MonthWritable(terms) <==> MonthWritable(books.requests[id].terms))
  {
    assert RequestSound(books.requests[id]);
    NewSound(books, NewRequest(ResubmittedTerms(books.requests[id].terms, actor, at, atMonth)));
  }

  /** A new pending request has no entries and is owed nothing. */
  lemma NewSound(books: Books, r: Request)
    requires Sound(books) && RequestSound(r) && r.status == Pending
    ensures Sound(books.(requests := books.requests + [r]))
  {
    var next := books.(requests := books.requests + [r]);
    forall k | 0 <= k < |next.entries| ensures Linked(next, k) { assert Linked(books, k); }
    forall i | 0 <= i < |next.requests| ensures Nets(next, i) { NewNets(books, r, i); }
  }

  lemma TermsOfNoGuard(sub: Submission, directory: Directory)
    ensures TermsOf(sub, directory) != Err(GuardRejected)
  {
    FaultNotGuard(Quantized(sub.items));
  }

  lemma {:induction false} FaultNotGuard(items: seq<Item>)
    ensures FirstFault(items) != Some(GuardRejected)
  {
    if items != [] { FaultNotGuard(items[1..]); }
  }

  lemma NewNets(books: Books, r: Request, i: nat)
    requires Sound(books) && r.status == Pending && i <= |books.requests|
    ensures Nets(books.(requests := books.requests + [r]), i)
  {
    var next := books.(requests := books.requests + [r]);
    if i < |books.requests| {
      assert Nets(books, i);
    } else {
      forall user, month
        ensures Net(next.entries, |next.entries|, i, user, month) == Due(next.requests[i], user, month)
      {
        forall k | 0 <= k < |next.entries| ensures OwnerOf(next.entries, next.entries[k]) != Some(i) {
          assert Linked(books, k);
        }
        NetNone(next.entries, |next.entries|, i, user, month);
      }
    }
  }

  // ---- approval ----

  /** Every row is one of the listed shares. */
  predicate RowsListed(rows: seq<Entry>, terms: Terms, id: nat, order: seq<nat>, reviewer: int) {
    forall a :: 0 <= a < |rows| ==>
      && rows[a].share.Some? && rows[a].share.value.index in order
      && rows[a].share.value.index < |terms.shares|
      && rows[a] == ShareEntry(terms, id, rows[a].share.value.index, reviewer)
  }

  lemma {:induction false} ShareRowsListed(terms: Terms, id: nat, order: seq<nat>, reviewer: int)
    requires forall a :: 0 <= a < |order| ==> order[a] < |terms.shares|
    ensures RowsListed(ShareEntries(terms, id, order, reviewer), terms, id, order, reviewer)
  {
    if order != [] {
      var front, last := order[..|order| - 1], order[|order| - 1];
      ShareRowsListed(terms, id, front, reviewer);
      assert order == front + [last];
    }
  }

  /** A share that was not written yet can be written next. */
  lemma ShareAdmissible(entries: seq<Entry>, terms: Terms, id: nat, front: seq<nat>, index: nat, reviewer: int)
    requires forall k :: 0 <= k < |entries| && entries[k].share.Some? ==> entries[k].share.value.request != id
    requires forall a :: 0 <= a < |front| ==> front[a] < |terms.shares|
    requires index < |terms.shares| && index !in front && terms.shares[index].cents > 0 && AccrualMonth(terms).day == 1
    ensures var before := entries + ShareEntries(terms, id, front, reviewer);
            Admissible(before, |before|, ShareEntry(terms, id, index, reviewer))
  {
    ShareRowsListed(terms, id, front, reviewer);
    var earlier, e := ShareEntries(terms, id, front, reviewer), ShareEntry(terms, id, index, reviewer);
    var before := entries + earlier;
    forall k | 0 <= k < |before| ensures before[k].share != e.share {
      if k >= |entries| { assert before[k] == earlier[k - |entries|]; } else { assert before[k] == entries[k]; }
    }
  }

  lemma AppendOneMore(entries: seq<Entry>, rows: seq<Entry>, e: Entry)
    requires AppendAll(entries, rows) == Some(entries + rows) && WellFormed(entries + rows)
    requires Admissible(entries + rows, |entries + rows|, e)
    ensures AppendAll(entries, rows + [e]) == Some(entries + (rows + [e])) && WellFormed(entries + (rows + [e]))
  {
    assert (rows + [e])[..|rows|] == rows;
    assert entries + (rows + [e]) == (entries + rows) + [e];
    WellFormedSnoc(entries + rows, e);
  }

  /** The listed shares can be written, and every row written is one of them. */
  lemma {:induction false} ApprovalRows(entries: seq<Entry>, terms: Terms, id: nat, order: seq<nat>, reviewer: int)
    requires WellFormed(entries)
    requires forall k :: 0 <= k < |entries| && entries[k].share.Some? ==> entries[k].share.value.request != id
    requires forall a :: 0 <= a < |order| ==> order[a] < |terms.shares| && terms.shares[order[a]].cents >= 0
    requires forall a, b :: 0 <= a < b < |order| ==> order[a] != order[b]
    requires AccrualMonth(terms).day == 1
    ensures var rows := ShareEntries(terms, id, order, reviewer);
            && AppendAll(entries, rows) == Some(entries + rows)
            && WellFormed(entries + rows)
            && RowsListed(rows, terms, id, order, reviewer)
  {
    ShareRowsListed(terms, id, order, reviewer);
    if order == [] {
      assert entries + [] == entries;
    } else {
      var front, index := order[..|order| - 1], order[|order| - 1];
      assert index !in front;
      ApprovalRows(entries, terms, id, front, reviewer);
      var earlier := ShareEntries(terms, id, front, reviewer);
      if terms.shares[index].cents != 0 {
        ShareAdmissible(entries, terms, id, front, index, reviewer);
        AppendOneMore(entries, earlier, ShareEntry(terms, id, index, reviewer));
      } else {
        assert ShareEntries(terms, id, order, reviewer) == earlier;
      }
    }
  }

  lemma NetOneMore(entries: seq<Entry>, e: Entry, id: nat, user: int, month: Date)
    requires WellFormed(entries) && WellFormed(entries + [e])
    ensures Net(entries + [e], |entries + [e]|, id, user, month)
         == Net(entries, |entries|, id, user, month) + Part(entries, e, id, user, month)
  {
    var all := entries + [e];
    assert Admissible(all, |entries|, all[|entries|]);
    AdmissibleFrame(entries, [e], |entries|, e);
    NetSnoc(entries, e, id, user, month);
  }

  /** Writing one more share adds its cents, for its own request, beneficiary and month. */
  lemma OneMoreShare(entries: seq<Entry>, terms: Terms, id: nat, order: seq<nat>, reviewer: int, other: nat, user: int,
                     month: Date)
    requires WellFormed(entries) && order != []
    requires forall k :: 0 <= k < |entries| && entries[k].share.Some? ==> entries[k].share.value.request != id
    requires forall a :: 0 <= a < |order| ==> order[a] < |terms.shares| && terms.shares[order[a]].cents >= 0
    requires forall a, b :: 0 <= a < b < |order| ==> order[a] != order[b]
    requires AccrualMonth(terms).day == 1
    ensures var before := entries + ShareEntries(terms, id, order[..|order| - 1], reviewer);
            var after := entries + ShareEntries(terms, id, order, reviewer);
            Net(after, |after|, other, user, month)
            == Net(before, |before|, other, user, month)
               + if other == id && AccrualMonth(terms) == month
                  then SharesOf(terms.shares, user)[order[|order| - 1]]
                  else 0
  {
    var front, index := order[..|order| - 1], order[|order| - 1];
    var earlier, rows := ShareEntries(terms, id, front, reviewer), ShareEntries(terms, id, order, reviewer);
    if terms.shares[index].cents != 0 {
      var e := ShareEntry(terms, id, index, reviewer);
      ApprovalRows(entries, terms, id, front, reviewer);
      ApprovalRows(entries, terms, id, order, reviewer);
      assert entries + rows == (entries + earlier) + [e];
      NetOneMore(entries + earlier, e, other, user, month);
    } else {
      assert rows == earlier;
    }
  }

  lemma {:induction false} ApprovalNet(entries: seq<Entry>, terms: Terms, id: nat, order: seq<nat>, reviewer: int,
                                       other: nat, user: int, month: Date)
    requires WellFormed(entries)
    requires forall k :: 0 <= k < |entries| && entries[k].share.Some? ==> entries[k].share.value.request != id
    requires forall a :: 0 <= a < |order| ==> order[a] < |terms.shares| && terms.shares[order[a]].cents >= 0
    requires forall a, b :: 0 <= a < b < |order| ==> order[a] != order[b]
    requires AccrualMonth(terms).day == 1
    ensures var rows := ShareEntries(terms, id, order, reviewer);
            Net(entries + rows, |entries + rows|, other, user, month)
            == Net(entries, |entries|, other, user, month)
               + if other == id && AccrualMonth(terms) == month
                  then Sum(Picked(SharesOf(terms.shares, user), order))
                  else 0
  {
    var values := SharesOf(terms.shares, user);
    if order == [] {
      assert entries + [] == entries;
    } else {
      var front, index := order[..|order| - 1], order[|order| - 1];
      ApprovalNet(entries, terms, id, front, reviewer, other, user, month);
      OneMoreShare(entries, terms, id, order, reviewer, other, user, month);
      assert Picked(values, order) == Picked(values, front) + [values[index]];
      SumSnoc(Picked(values, front), values[index]);
    }
  }

  lemma ShareOrder(shares: seq<Share>)
    ensures var order := Order(ShareKeys(shares));
            && |order| == |shares|
            && (forall a :: 0 <= a < |order| ==> order[a] < |shares|)
            && (forall a, b :: 0 <= a < b < |order| ==> order[a] != order[b])
  {
    var keys := ShareKeys(shares);
    OrderRanked(keys);
    var order := Order(keys);
    forall a, b | 0 <= a < b < |order| ensures order[a] != order[b] {
      RankCompare(keys, order, a, b);
    }
  }

  /** Every check an approval makes on a pending request, apart from the guard on its new entries. */
  predicate ReviewPasses(r: Request, reviewer: int, at: int, directory: Directory) {
    && (r.terms.org, reviewer) in directory.active
    && at < r.terms.submittedAt + REVIEW_SECONDS
    && MembersOf(directory, r.terms.org, ShareUsers(r.terms.shares)) == ShareUsers(r.terms.shares)
  }

  /** The accrual month can be written: it is a first day, or there is nothing to write. */
  predicate MonthWritable(terms: Terms) {
    AccrualMonth(terms).day == 1 || forall s :: s in terms.shares ==> s.cents == 0
  }

  lemma {:induction false} NothingToWrite(terms: Terms, id: nat, order: seq<nat>, reviewer: int)
    requires forall a :: 0 <= a < |order| ==> order[a] < |terms.shares| && terms.shares[order[a]].cents == 0
    ensures ShareEntries(terms, id, order, reviewer) == []
  {
    if order != [] { NothingToWrite(terms, id, order[..|order| - 1], reviewer); }
  }

  lemma {:induction false} UnwritableMonth(entries: seq<Entry>, terms: Terms, id: nat, order: seq<nat>, reviewer: int)
    requires forall a :: 0 <= a < |order| ==> order[a] < |terms.shares|
    requires AccrualMonth(terms).day != 1
    requires exists a :: 0 <= a < |order| && terms.shares[order[a]].cents != 0
    ensures AppendAll(entries, ShareEntries(terms, id, order, reviewer)).None?
  {
    var front, index := order[..|order| - 1], order[|order| - 1];
    var rows, earlier := ShareEntries(terms, id, order, reviewer), ShareEntries(terms, id, front, reviewer);
    if terms.shares[index].cents != 0 {
      assert rows[|rows| - 1] == ShareEntry(terms, id, index, reviewer);
    } else {
      assert rows == earlier;
      var a :| 0 <= a < |order| && terms.shares[order[a]].cents != 0;
      assert front[a] == order[a];
      UnwritableMonth(entries, terms, id, front, reviewer);
    }
  }

  lemma PendingOwnsNothing(books: Books, id: nat)
    requires Sound(books) && id < |books.requests| && books.requests[id].status == Pending
    ensures forall k :: 0 <= k < |books.entries| && books.entries[k].share.Some?
              ==> books.entries[k].share.value.request != id
  {
    forall k | 0 <= k < |books.entries| && books.entries[k].share.Some?
      ensures books.entries[k].share.value.request != id
    {
      assert Linked(books, k);
    }
  }

  function ApprovedRequest(r: Request, reviewer: int, at: int): Request {
    r.(status := Approved, reviewedBy := Some(reviewer), reviewedAt := Some(at), rejectionReason := "")
  }

  function ApprovalEntries(r: Request, id: nat, reviewer: int): seq<Entry> {
    ShareEntries(r.terms, id, Order(ShareKeys(r.terms.shares)), reviewer)
  }

  /**
   A pending request that passes its review is approved, and its entries
   written, exactly when its month is writable.
   */
  lemma ApprovalWrites(books: Books, id: nat, reviewer: int, at: int, directory: Directory)
    requires Sound(books) && id < |books.requests| && books.requests[id].status == Pending
    requires ReviewPasses(books.requests[id], reviewer, at, directory)
    ensures var r := books.requests[id];
            Approve(books, id, reviewer, at, directory) ==
            if MonthWritable(r.terms)
            then Ok(Books(books.requests[id := ApprovedRequest(r, reviewer, at)],
                          books.entries + ApprovalEntries(r, id, reviewer)))
            else Err(GuardRejected)
  {
    var r := books.requests[id];
    var order := Order(ShareKeys(r.terms.shares));
    ShareOrder(r.terms.shares);
    PendingOwnsNothing(books, id);
    assert RequestSound(r);
    assert TotalsFault(r.terms, directory).None?;
    if forall s :: s in r.terms.shares ==> s.cents == 0 {
      NothingToWrite(r.terms, id, order, reviewer);
    } else if AccrualMonth(r.terms).day == 1 {
      ApprovalRows(books.entries, r.terms, id, order, reviewer);
    } else {
      var s :| s in r.terms.shares && s.cents != 0;
      var i :| 0 <= i < |r.terms.shares| && r.terms.shares[i] == s;
      assert i in order;
      UnwritableMonth(books.entries, r.terms, id, order, reviewer);
    }
  }

  lemma ApprovalKeepsEntries(books: Books, id: nat, reviewer: int)
    requires Sound(books) && id < |books.requests| && books.requests[id].status == Pending
    requires MonthWritable(books.requests[id].terms)
    ensures WellFormed(books.entries + ApprovalEntries(books.requests[id], id, reviewer))
    ensures forall a :: 0 <= a < |ApprovalEntries(books.requests[id], id, reviewer)| ==>
      var row := ApprovalEntries(books.requests[id], id, reviewer)[a];
      && row.share.Some? && row.share.value.index < |books.requests[id].terms.shares|
      && row == ShareEntry(books.requests[id].terms, id, row.share.value.index, reviewer)
    ensures forall other: nat, user, month
              {:trigger Net(books.entries + ApprovalEntries(books.requests[id], id, reviewer),
              |books.entries + ApprovalEntries(books.requests[id], id, reviewer)|, other, user, month)} ::
      Net(books.entries + ApprovalEntries(books.requests[id], id, reviewer),
          |books.entries + ApprovalEntries(books.requests[id], id, reviewer)|, other, user, month)
      == Net(books.entries, |books.entries|, other, user, month)
         + if other == id && AccrualMonth(books.requests[id].terms) == month
           then Sum(SharesOf(books.requests[id].terms.shares, user)) else 0
  {
    var r := books.requests[id];
    var order := Order(ShareKeys(r.terms.shares));
    ShareOrder(r.terms.shares);
    PendingOwnsNothing(books, id);
    assert RequestSound(r);
    var rows := ApprovalEntries(r, id, reviewer);
    if forall s :: s in r.terms.shares ==> s.cents == 0 {
      NothingToWrite(r.terms, id, order, reviewer);
      assert books.entries + rows == books.entries;
      forall user ensures Sum(SharesOf(r.terms.shares, user)) == 0 { SumZero(SharesOf(r.terms.shares, user)); }
    } else {
      ApprovalRows(books.entries, r.terms, id, order, reviewer);
      forall other: nat, user, month
        ensures Net(books.entries + rows, |books.entries + rows|, other, user, month)
          == Net(books.entries, |books.entries|, other, user, month)
             + if other == id && AccrualMonth(r.terms) == month then Sum(SharesOf(r.terms.shares, user)) else 0
      {
        ApprovalNet(books.entries, r.terms, id, order, reviewer, other, user, month);
        SumPicked(ShareKeys(r.terms.shares), SharesOf(r.terms.shares, user));
      }
    }
  }

  lemma ApprovalLinks(books: Books, id: nat, reviewer: int, at: int, k: nat)
    requires Sound(books) && id < |books.requests| && books.requests[id].status == Pending
    requires MonthWritable(books.requests[id].terms)
    requires k < |books.entries + ApprovalEntries(books.requests[id], id, reviewer)|
    ensures var r := books.requests[id];
            Linked(Books(books.requests[id := ApprovedRequest(r, reviewer, at)],
                         books.entries + ApprovalEntries(r, id, reviewer)), k)
  {
    var rows := ApprovalEntries(books.requests[id], id, reviewer);
    if k < |books.entries| {
      assert Linked(books, k);
      var e := books.entries[k];
      if e.reversalOf.Some? { assert Linked(books, e.reversalOf.value); }
    } else {
      ApprovalKeepsEntries(books, id, reviewer);
      assert rows[k - |books.entries|] == (books.entries + rows)[k];
    }
  }

  lemma ApproveSound(books: Books, id: nat, reviewer: int, at: int, directory: Directory)
    requires Sound(books)
    requires Approve(books, id, reviewer, at, directory).Ok?
    ensures Sound(Approve(books, id, reviewer, at, directory).value)
  {
    if books.requests[id].status == Pending {
      var r := books.requests[id];
      ApprovalWrites(books, id, reviewer, at, directory);
      var next := Approve(books, id, reviewer, at, directory).value;
      ApprovalKeepsEntries(books, id, reviewer);
      forall k | 0 <= k < |next.entries| ensures Linked(next, k) { ApprovalLinks(books, id, reviewer, at, k); }
      forall i | 0 <= i < |next.requests| ensures Nets(next, i) {
        assert Nets(books, i);
      }
    }
  }

  // ---- voiding ----

  /** No entry of the request has been reversed, and all its entries are allocations of its organization. */
  predicate Untouched(entries: seq<Entry>, id: nat, org: int) {
    forall k :: 0 <= k < |entries| && OwnerOf(entries, entries[k]) == Some(id)
      ==> IsAllocationOf(entries[k], id) && entries[k].org == org
  }

  lemma ApprovedUntouched(books: Books, id: nat)
    requires Sound(books) && id < |books.requests| && books.requests[id].status == Approved
    ensures Untouched(books.entries, id, books.requests[id].terms.org)
  {
    forall k | 0 <= k < |books.entries| && OwnerOf(books.entries, books.entries[k]) == Some(id)
      ensures IsAllocationOf(books.entries[k], id) && books.entries[k].org == books.requests[id].terms.org
    {
      OwnerLinked(books, k, id);
    }
  }

  lemma UntouchedNotReversed(entries: seq<Entry>, id: nat, org: int, k: nat)
    requires WellFormed(entries) && Untouched(entries, id, org)
    requires k < |entries| && IsAllocationOf(entries[k], id)
    ensures !Reversed(entries, k)
  {
    forall j | 0 <= j < |entries| ensures entries[j].reversalOf != Some(k) {
      assert Admissible(entries, j, entries[j]);
      assert OwnerOf(entries, entries[j]) == Some(id) ==> IsAllocationOf(entries[j], id);
    }
  }

  /** Every row reverses one of the request's allocations. */
  predicate RowsReverse(rows: seq<Entry>, entries: seq<Entry>, n: nat, id: nat, org: int, actor: int, reason: string,
                        at: int)
    requires n <= |entries|
  {
    forall a :: 0 <= a < |rows| ==>
      && rows[a].reversalOf.Some? && rows[a].reversalOf.value < n
      && IsAllocationOf(entries[rows[a].reversalOf.value], id)
      && rows[a] == ReversalEntry(entries[rows[a].reversalOf.value], rows[a].reversalOf.value, org, actor, reason, at)
  }

  /** The reversals of an untouched request can be written; each reverses one of its allocations. */
  lemma {:induction false} VoidRows(entries: seq<Entry>, n: nat, id: nat, org: int, actor: int, reason: string, at: int)
    requires WellFormed(entries) && Untouched(entries, id, org) && n <= |entries| && reason != ""
    ensures var rows := Reversals(entries, n, id, org, actor, reason, at);
            && AppendAll(entries, rows) == Some(entries + rows)
            && WellFormed(entries + rows)
            && RowsReverse(rows, entries, n, id, org, actor, reason, at)
  {
    var rows := Reversals(entries, n, id, org, actor, reason, at);
    if n == 0 {
      assert entries + rows == entries;
    } else {
      VoidRows(entries, n - 1, id, org, actor, reason, at);
      var earlier, k := Reversals(entries, n - 1, id, org, actor, reason, at), n - 1;
      if IsAllocationOf(entries[k], id) {
        UntouchedNotReversed(entries, id, org, k);
        var e := ReversalEntry(entries[k], k, org, actor, reason, at);
        assert rows == earlier + [e];
        ReversalAdmissible(entries, earlier, k, id, org, e);
        AppendOneMore(entries, earlier, e);
      } else {
        assert rows == earlier;
      }
    }
  }

  lemma ReversalAdmissible(entries: seq<Entry>, earlier: seq<Entry>, k: nat, id: nat, org: int, e: Entry)
    requires WellFormed(entries) && k < |entries| && IsAllocationOf(entries[k], id) && !Reversed(entries, k)
    requires entries[k].org == org
    requires forall a :: 0 <= a < |earlier| ==> earlier[a].reversalOf.Some? && earlier[a].reversalOf.value < k
    requires e.reason != "" && e == ReversalEntry(entries[k], k, org, e.createdBy, e.reason, e.effectiveAt)
    ensures Admissible(entries + earlier, |entries + earlier|, e)
  {
    var before := entries + earlier;
    assert Admissible(entries, k, entries[k]);
    forall j | 0 <= j < |before| ensures before[j].reversalOf != e.reversalOf {
      if j >= |entries| { assert before[j] == earlier[j - |entries|]; }
    }
  }

  /** A reversal weighs exactly against its original. */
  lemma ReversalPart(entries: seq<Entry>, earlier: seq<Entry>, k: nat, id: nat, e: Entry, other: nat, user: int,
                     month: Date)
    requires k < |entries| && IsAllocationOf(entries[k], id)
    requires e == ReversalEntry(entries[k], k, e.org, e.createdBy, e.reason, e.effectiveAt)
    ensures Part(entries + earlier, e, other, user, month)
         == if other == id then -Part(entries, entries[k], id, user, month) else 0
  {
    assert (entries + earlier)[k] == entries[k];
  }

  lemma VoidWellFormed(entries: seq<Entry>, n: nat, id: nat, org: int, actor: int, reason: string, at: int)
    requires WellFormed(entries) && Untouched(entries, id, org) && n <= |entries| && reason != ""
    ensures WellFormed(entries + Reversals(entries, n, id, org, actor, reason, at))
  {
    VoidRows(entries, n, id, org, actor, reason, at);
  }

  lemma ReversalNet(entries: seq<Entry>, earlier: seq<Entry>, rows: seq<Entry>, k: nat, id: nat, e: Entry, other: nat,
                    user: int, month: Date)
    requires k < |entries| && IsAllocationOf(entries[k], id) && rows == earlier + [e]
    requires e == ReversalEntry(entries[k], k, e.org, e.createdBy, e.reason, e.effectiveAt)
    requires WellFormed(entries + earlier) && WellFormed(entries + rows)
    ensures Net(entries + rows, |entries + rows|, other, user, month)
         == Net(entries + earlier, |entries + earlier|, other, user, month)
            - if other == id then Part(entries, entries[k], id, user, month) else 0
  {
    assert entries + rows == (entries + earlier) + [e];
    NetOneMore(entries + earlier, e, other, user, month);
    ReversalPart(entries, earlier, k, id, e, other, user, month);
  }

  /** The reversal of one more allocation takes its part away. */
  lemma OneMoreReversal(entries: seq<Entry>, n: nat, id: nat, org: int, actor: int, reason: string, at: int,
                        other: nat, user: int, month: Date)
    requires WellFormed(entries) && Untouched(entries, id, org) && 0 < n <= |entries| && reason != ""
    ensures var before, after
            := entries + Reversals(entries, n - 1, id, org, actor, reason, at),
               entries + Reversals(entries, n, id, org, actor, reason, at);
            Net(after, |after|, other, user, month)
            == Net(before, |before|, other, user, month)
               - if other == id then Part(entries, entries[n - 1], id, user, month) else 0
  {
    var k := n - 1;
    var earlier, rows :=
      Reversals(entries, k, id, org, actor, reason, at), Reversals(entries, n, id, org, actor, reason, at);
    if IsAllocationOf(entries[k], id) {
      UntouchedNotReversed(entries, id, org, k);
      VoidWellFormed(entries, k, id, org, actor, reason, at);
      VoidWellFormed(entries, n, id, org, actor, reason, at);
      ReversalNet(entries, earlier, rows, k, id, ReversalEntry(entries[k], k, org, actor, reason, at), other, user,
                  month);
    } else {
      assert rows == earlier;
    }
  }

  lemma {:induction false} VoidNet(entries: seq<Entry>, n: nat, id: nat, org: int, actor: int, reason: string, at: int,
                                   other: nat, user: int, month: Date)
    requires WellFormed(entries) && Untouched(entries, id, org) && n <= |entries| && reason != ""
    ensures var rows := Reversals(entries, n, id, org, actor, reason, at);
            Net(entries + rows, |entries + rows|, other, user, month)
            == Net(entries, |entries|, other, user, month) - if other == id then Net(entries, n, id, user, month) else 0
  {
    if n == 0 {
      assert entries + Reversals(entries, 0, id, org, actor, reason, at) == entries;
    } else {
      VoidNet(entries, n - 1, id, org, actor, reason, at, other, user, month);
      OneMoreReversal(entries, n, id, org, actor, reason, at, other, user, month);
      assert Net(entries, n, id, user, month)
             == Net(entries, n - 1, id, user, month) + Part(entries, entries[n - 1], id, user, month);
    }
  }

  function VoidedRequest(r: Request, actor: int, reason: string, at: int): Request {
    r.(status := Voided, voidedBy := Some(actor), voidedAt := Some(at), voidReason := reason)
  }

  function VoidEntries(books: Books, id: nat, actor: int, reason: string, at: int): seq<Entry>
    requires id < |books.requests|
  {
    Reversals(books.entries, |books.entries|, id, books.requests[id].terms.org, actor, reason, at)
  }

  lemma VoidSave(r: Request, actor: int, reason: string, at: int)
    requires RequestSound(r) && r.status == Approved && reason != ""
    ensures SaveAllowed(r, VoidedRequest(r, actor, reason, at)) && RequestSound(VoidedRequest(r, actor, reason, at))
  {
  }

  /** Voiding an approved request with a reason, by a member, always succeeds. */
  lemma VoidWrites(books: Books, id: nat, actor: int, reason: string, at: int, directory: Directory)
    requires Sound(books) && id < |books.requests| && books.requests[id].status == Approved
    requires reason != "" && (books.requests[id].terms.org, actor) in directory.active
    ensures var r := books.requests[id];
            Void(books, id, actor, reason, at, directory)
            == Ok(Books(books.requests[id := VoidedRequest(r, actor, reason, at)],
                        books.entries + VoidEntries(books, id, actor, reason, at)))
  {
    var r := books.requests[id];
    VoidSave(r, actor, reason, at);
    ApprovedUntouched(books, id);
    VoidRows(books.entries, |books.entries|, id, r.terms.org, actor, reason, at);
    assert books.(entries := books.entries + VoidEntries(books, id, actor, reason, at)).requests[id] == r;
  }

  lemma VoidLinks(books: Books, id: nat, actor: int, reason: string, at: int, k: nat)
    requires Sound(books) && id < |books.requests| && books.requests[id].status == Approved && reason != ""
    requires k < |books.entries + VoidEntries(books, id, actor, reason, at)|
    ensures var r := books.requests[id];
            Linked(Books(books.requests[id := VoidedRequest(r, actor, reason, at)],
                         books.entries + VoidEntries(books, id, actor, reason, at)), k)
  {
    if k < |books.entries| {
      OldLinks(books, id, actor, reason, at, k);
    } else {
      ApprovedUntouched(books, id);
      VoidRows(books.entries, |books.entries|, id, books.requests[id].terms.org, actor, reason, at);
      var rows := VoidEntries(books, id, actor, reason, at);
      assert (books.entries + rows)[k] == rows[k - |books.entries|];
    }
  }

  lemma OldLinks(books: Books, id: nat, actor: int, reason: string, at: int, k: nat)
    requires Sound(books) && id < |books.requests| && books.requests[id].status == Approved && k < |books.entries|
    ensures Linked(Books(books.requests[id := VoidedRequest(books.requests[id], actor, reason, at)],
                         books.entries + VoidEntries(books, id, actor, reason, at)), k)
  {
    assert Linked(books, k);
    var e := books.entries[k];
    if e.reversalOf.Some? { assert Linked(books, e.reversalOf.value); }
  }

  lemma VoidNets(books: Books, id: nat, actor: int, reason: string, at: int, i: nat)
    requires Sound(books) && id < |books.requests| && books.requests[id].status == Approved && reason != ""
    requires i < |books.requests|
    ensures var r := books.requests[id];
            Nets(Books(books.requests[id := VoidedRequest(r, actor, reason, at)],
                       books.entries + VoidEntries(books, id, actor, reason, at)), i)
  {
    ApprovedUntouched(books, id);
    assert Nets(books, i);
    var next := Books(books.requests[id := VoidedRequest(books.requests[id], actor, reason, at)],
                      books.entries + VoidEntries(books, id, actor, reason, at));
    forall user, month ensures Net(next.entries, |next.entries|, i, user, month) == Due(next.requests[i], user, month) {
      VoidNet(books.entries, |books.entries|, id, books.requests[id].terms.org, actor, reason, at, i, user, month);
    }
  }

  lemma VoidSound(books: Books, id: nat, actor: int, reason: string, at: int, directory: Directory)
    requires Sound(books)
    requires Void(books, id, actor, reason, at, directory).Ok?
    ensures Sound(Void(books, id, actor, reason, at, directory).value)
  {
    if books.requests[id].status == Approved {
      VoidWrites(books, id, actor, reason, at, directory);
      var next := Void(books, id, actor, reason, at, directory).value;
      ApprovedUntouched(books, id);
      VoidRows(books.entries, |books.entries|, id, books.requests[id].terms.org, actor, reason, at);
      VoidSave(books.requests[id], actor, reason, at);
      forall k | 0 <= k < |next.entries| ensures Linked(next, k) { VoidLinks(books, id, actor, reason, at, k); }
      forall i | 0 <= i < |next.requests| ensures Nets(next, i) { VoidNets(books, id, actor, reason, at, i); }
    }
  }

  // ---- manual entries ----

  lemma ManualAdmissible(books: Books, input: ManualInput, directory: Directory)
    ensures Manual(books, input, directory) != Err(GuardRejected)
    ensures Manual(books, input, directory).Ok? ==>
      && Admissible(books.entries, |books.entries|, ManualEntry(input))
      && Manual(books, input, directory).value == books.(entries := books.entries + [ManualEntry(input)])
  {
    QuantizeNearest(if input.amount < 0.0 then -input.amount else input.amount);
    var rows := [ManualEntry(input)];
    assert rows[..|rows| - 1] == [];
    assert AppendAll(books.entries, []) == Some(books.entries);
  }

  lemma ManualSound(books: Books, input: ManualInput, directory: Directory)
    requires Sound(books) && Manual(books, input, directory).Ok?
    ensures Sound(Manual(books, input, directory).value)
  {
    ManualAdmissible(books, input, directory);
    var e := ManualEntry(input);
    var next := Manual(books, input, directory).value;
    WellFormedSnoc(books.entries, e);
    forall k | 0 <= k < |next.entries| ensures Linked(next, k) {
      if k < |books.entries| { assert Linked(books, k); }
    }
    forall i | 0 <= i < |next.requests| ensures Nets(next, i) {
      assert Nets(books, i);
      forall user, month
        ensures Net(next.entries, |next.entries|, i, user, month) == Due(next.requests[i], user, month)
      {
        NetSnoc(books.entries, e, i, user, month);
      }
    }
  }

  // ---- every step, every run ----

  lemma StepSound(books: Books, step: Step)
    requires Sound(books)
    ensures Sound(After(books, step))
  {
    if Attempt(books, step).Ok? {
      match step
      case DoCreate(sub, directory) => CreateSound(books, sub, directory);
      case DoResubmit(id, actor, at, atMonth) => ResubmitSound(books, id, actor, at, atMonth);
      case DoApprove(id, reviewer, at, directory) => ApproveSound(books, id, reviewer, at, directory);
      case DoReject(id, reviewer, reason, at, directory) =>
        CloseSound(books, id, After(books, step).requests[id]);
      case DoExpire(id) =>
        if books.requests[id].status == Pending { CloseSound(books, id, After(books, step).requests[id]); }
      case DoWithdraw(id, actor, reason, at) =>
        if books.requests[id].status == Pending { CloseSound(books, id, After(books, step).requests[id]); }
      case DoVoid(id, actor, reason, at, directory) => VoidSound(books, id, actor, reason, at, directory);
      case DoManual(input, directory) => ManualSound(books, input, directory);
    }
  }

  lemma {:induction false} RunSound(steps: seq<Step>)
    ensures Sound(Run(EMPTY_BOOKS, steps))
  {
    if steps != [] {
      RunSound(steps[..|steps| - 1]);
      StepSound(Run(EMPTY_BOOKS, steps[..|steps| - 1]), steps[|steps| - 1]);
    }
  }
}
