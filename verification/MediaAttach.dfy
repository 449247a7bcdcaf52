/** Merging migrated media into one field of one imported record. */
module MediaAttach {
  import opened Wrappers

  datatype FieldKind = Logo | Videos | Images

  function LimitOf(kind: FieldKind): nat {
    match kind case Logo => 1 case Videos => 3 case Images => 9
  }

  /** Field contents hold bare ids or ids with a media type. */
  datatype Ref = Bare(media: int) | Typed(media: int, mediaType: int)

  datatype BindingState = Waiting | Attached | Overflow | Detached
  datatype Binding = Binding(asset: nat, active: bool, state: BindingState)

  /**
   The field with what the import remembers of it: whether its record was executed,
   is deleted at the source and still has its target; the bindings in order of
   position and id; and per asset the reference to its media once it has succeeded.
   */
  datatype Desk = Desk(
    kind: FieldKind, executed: bool, sourceDeleted: bool, present: bool,
    content: seq<Ref>, originals: seq<Ref>, expected: Option<seq<Ref>>,
    bindings: seq<Binding>, assets: seq<Option<Ref>>)

  // ---- the merged content, in closed form ----

  function MediaIn(refs: seq<Ref>): set<int> {
    set r | r in refs :: r.media
  }

  /** The reference an active binding adds, if its asset has succeeded. */
  function ReadyRef(binding: Binding, assets: seq<Option<Ref>>): Option<Ref> {
    if binding.active && binding.asset < |assets| then assets[binding.asset] else None
  }

  function Candidates(bindings: seq<Binding>, assets: seq<Option<Ref>>): seq<Ref> {
    if bindings == [] then []
    else
      var front, last := Candidates(bindings[..|bindings| - 1], assets), ReadyRef(bindings[|bindings| - 1], assets);
      if last.Some? then front + [last.value] else front
  }

  /** The first reference to each media not seen before. */
  function Fresh(seen: set<int>, refs: seq<Ref>): seq<Ref> {
    if refs == [] then []
    else
      var front, last := Fresh(seen, refs[..|refs| - 1]), refs[|refs| - 1];
      if last.media in seen || last.media in MediaIn(front) then front else front + [last]
  }

  function Room(d: Desk): nat {
    if LimitOf(d.kind) < |d.originals| then 0 else LimitOf(d.kind) - |d.originals|
  }

  function FirstOf(n: nat, refs: seq<Ref>): seq<Ref> {
    if |refs| <= n then refs else refs[..n]
  }

  /** The originals followed by the first distinct new media that fit. */
  function Merged(d: Desk): seq<Ref> {
    d.originals + FirstOf(Room(d), Fresh(MediaIn(d.originals), Candidates(d.bindings, d.assets)))
  }

  function MarkedState(binding: Binding, assets: seq<Option<Ref>>, content: seq<Ref>): BindingState {
    var ready := ReadyRef(binding, assets);
    if ready.None? then binding.state else if ready.value.media in MediaIn(content) then Attached else Overflow
  }

  function Marked(bindings: seq<Binding>, assets: seq<Option<Ref>>, content: seq<Ref>): seq<Binding> {
    seq(|bindings|, i requires 0 <= i < |bindings| => bindings[i].(state := MarkedState(bindings[i], assets, content)))
  }

  function AllDetached(bindings: seq<Binding>): seq<Binding> {
    seq(|bindings|, i requires 0 <= i < |bindings| =>
          if bindings[i].active
          then bindings[i].(state := Detached, active := false)
          else bindings[i])
  }

  // ---- steps ----

  predicate Bound(d: Desk, asset: nat) {
    exists i :: 0 <= i < |d.bindings| && d.bindings[i].active && d.bindings[i].asset == asset
  }

  /** An attach of the asset gets as far as the field. */
  predicate Reaches(d: Desk, asset: nat) {
    d.executed && !d.sourceDeleted && d.present && Bound(d, asset)
  }

  /** Attaching the media of one asset: the whole field is merged again, unless someone else wrote it. */
  function AfterAttach(d: Desk, asset: nat, force: bool): Desk {
    if !Reaches(d, asset) then d
    else
      var base := if force then d.(originals := d.content, expected := Some(d.content)) else d;
      if base.expected != Some(base.content) then base.(bindings := AllDetached(base.bindings))
      else
        var merged := Merged(base);
        base.(content := merged, expected := Some(merged), bindings := Marked(base.bindings, base.assets, merged))
  }

  function Reactivated(bindings: seq<Binding>, asset: nat): seq<Binding> {
    seq(|bindings|, i requires 0 <= i < |bindings| =>
      if bindings[i].asset == asset && bindings[i].state == Detached then bindings[i].(active := true) else bindings[i])
  }

  datatype Step =
    | Execute
    | AssetChange(asset: nat, ready: Option<Ref>)
    | Attach(asset: nat)
    | Edit(content: seq<Ref>)
    | RemoveTarget
    | Retry(asset: nat)

  function After(d: Desk, step: Step): Desk {
    match step
    case Execute => if d.executed then d else d.(executed := true, originals := d.content, expected := Some(d.content))
    case AssetChange(asset, ready) => if asset < |d.assets| then d.(assets := d.assets[asset := ready]) else d
    case Attach(asset) => AfterAttach(d, asset, false)
    case Edit(content) => d.(content := content)
    case RemoveTarget => d.(present := false)
    case Retry(asset) =>
      if asset < |d.assets| && d.assets[asset].Some?
      then AfterAttach(d.(bindings := Reactivated(d.bindings, asset)), asset, true)
      else d
  }

  function Run(d: Desk, steps: seq<Step>): Desk {
    if steps == [] then d else After(Run(d, steps[..|steps| - 1]), steps[|steps| - 1])
  }

  // ---- the merged content ----

  lemma {:induction false} FreshMeaning(seen: set<int>, refs: seq<Ref>)
    ensures var novel := Fresh(seen, refs);
            && (forall r :: r in novel ==> r in refs && r.media !in seen)
            && (forall i, j :: 0 <= i < j < |novel| ==> novel[i].media != novel[j].media)
            && (forall r :: r in refs && r.media !in seen ==> r.media in MediaIn(novel))
  {
    if refs != [] {
      var front := refs[..|refs| - 1];
      FreshMeaning(seen, front);
      var before, novel := Fresh(seen, front), Fresh(seen, refs);
      assert MediaIn(before) <= MediaIn(novel) by { forall r | r in before ensures r in novel {} }
      forall r | r in refs && r.media !in seen ensures r.media in MediaIn(novel) {
        if r in front { assert r.media in MediaIn(before); }
      }
    }
  }

  /** Fresh media keep the order of their first references. */
  lemma {:induction false} FreshPrefix(seen: set<int>, refs: seq<Ref>, n: nat)
    requires n <= |refs|
    ensures Fresh(seen, refs[..n]) <= Fresh(seen, refs)
  {
    if n == |refs| {
      assert refs[..n] == refs;
    } else {
      assert refs[..|refs| - 1][..n] == refs[..n];
      FreshPrefix(seen, refs[..|refs| - 1], n);
    }
  }

  lemma {:induction false} CandidatesMeaning(bindings: seq<Binding>, assets: seq<Option<Ref>>, r: Ref)
    ensures r in Candidates(bindings, assets) <==>
              exists i :: 0 <= i < |bindings| && ReadyRef(bindings[i], assets) == Some(r)
  {
    if bindings != [] {
      var n := |bindings| - 1;
      CandidatesMeaning(bindings[..n], assets, r);
      if i :| 0 <= i < n && ReadyRef(bindings[..n][i], assets) == Some(r) {
        assert ReadyRef(bindings[i], assets) == Some(r);
      }
      if i :| 0 <= i < |bindings| && ReadyRef(bindings[i], assets) == Some(r) && i < n {
        assert ReadyRef(bindings[..n][i], assets) == Some(r);
      }
    }
  }

  /** The content keeps the originals in front, adds only ready media and none twice, and overfills nothing. */
  lemma MergedMeaning(d: Desk)
    ensures var merged, n := Merged(d), |d.originals|;
            && d.originals <= merged && (|merged| <= LimitOf(d.kind) || merged == d.originals)
            && (forall i, j :: n <= i < |merged| && 0 <= j < i ==> merged[i].media != merged[j].media)
            && (forall i :: n <= i < |merged| ==>
                  exists k :: 0 <= k < |d.bindings| && ReadyRef(d.bindings[k], d.assets) == Some(merged[i]))
  {
    var seen, refs := MediaIn(d.originals), Candidates(d.bindings, d.assets);
    var novel, merged, n := Fresh(seen, refs), Merged(d), |d.originals|;
    FreshMeaning(seen, refs);
    forall i | n <= i < |merged|
      ensures merged[i].media !in seen
              && exists k :: 0 <= k < |d.bindings| && ReadyRef(d.bindings[k], d.assets) == Some(merged[i])
    {
      assert merged[i] == novel[i - n];
      CandidatesMeaning(d.bindings, d.assets, merged[i]);
    }
    assert forall j :: 0 <= j < n ==> merged[j] == d.originals[j] && merged[j].media in seen;
  }

  /** A ready media is left out only when the field is full. */
  lemma MergedLeavesNoRoomUnused(d: Desk, k: nat)
    requires k < |d.bindings| && ReadyRef(d.bindings[k], d.assets).Some? && |Merged(d)| < LimitOf(d.kind)
    ensures ReadyRef(d.bindings[k], d.assets).value.media in MediaIn(Merged(d))
  {
    var seen, refs := MediaIn(d.originals), Candidates(d.bindings, d.assets);
    var novel, r := Fresh(seen, refs), ReadyRef(d.bindings[k], d.assets).value;
    FreshMeaning(seen, refs);
    CandidatesMeaning(d.bindings, d.assets, r);
    assert Merged(d) == d.originals + novel;
    assert MediaIn(Merged(d)) == seen + MediaIn(novel);
  }

  // ---- attaching is confluent ----

  /** Nobody but the import writes the field. */
  predicate Undisturbed(steps: seq<Step>) {
    forall s :: s in steps ==> s.Execute? || s.AssetChange? || s.Attach?
  }

  predicate InSync(d: Desk) {
    d.executed ==> d.expected == Some(d.content)
  }

  /** The content the record had when it was executed, or has until then. */
  function Base(d: Desk): seq<Ref> {
    if d.executed then d.originals else d.content
  }

  /** The same bindings up to their states. */
  predicate SameBindings(a: seq<Binding>, b: seq<Binding>) {
    |a| == |b| && forall i :: 0 <= i < |a| ==> a[i].asset == b[i].asset && a[i].active == b[i].active
  }

  predicate SameDesk(a: Desk, b: Desk) {
    a.kind == b.kind && a.sourceDeleted == b.sourceDeleted && a.present == b.present
    && Base(a) == Base(b) && SameBindings(a.bindings, b.bindings)
    && |a.assets| == |b.assets| && InSync(b)
  }

  lemma QuietStep(d: Desk, step: Step)
    requires InSync(d) && (step.Execute? || step.AssetChange? || step.Attach?)
    ensures SameDesk(d, After(d, step)) && (d.executed ==> After(d, step).executed)
  {
  }

  lemma {:induction false} QuietRun(d: Desk, steps: seq<Step>)
    requires InSync(d) && Undisturbed(steps)
    ensures SameDesk(d, Run(d, steps))
  {
    if steps != [] {
      QuietRun(d, steps[..|steps| - 1]);
      QuietStep(Run(d, steps[..|steps| - 1]), steps[|steps| - 1]);
    }
  }

  /**
   The last attach that reached the field came after the record was executed and
   after the last change of an asset.
   */
  predicate EndsAttached(d: Desk, steps: seq<Step>) {
    && steps != [] && steps[|steps| - 1].Attach?
    && var front := steps[..|steps| - 1];
    && (Reaches(Run(d, front), steps[|steps| - 1].asset) || EndsAttached(d, front))
  }

  lemma {:induction false} SameCandidates(a: seq<Binding>, b: seq<Binding>, assets: seq<Option<Ref>>)
    requires SameBindings(a, b)
    ensures Candidates(a, assets) == Candidates(b, assets)
  {
    if a != [] { SameCandidates(a[..|a| - 1], b[..|b| - 1], assets); }
  }

  /** The merge of the original content with the media that are ready now. */
  function FinalContent(d: Desk, assets: seq<Option<Ref>>): seq<Ref> {
    Merged(d.(originals := Base(d), assets := assets))
  }

  predicate Converged(start: Desk, d: Desk) {
    && d.executed && d.content == FinalContent(start, d.assets)
    && forall k :: 0 <= k < |d.bindings| && ReadyRef(d.bindings[k], d.assets).Some?
                   ==> d.bindings[k].state
                       == if ReadyRef(d.bindings[k], d.assets).value.media in MediaIn(d.content)
                          then Attached
                          else Overflow
  }

  lemma AttachConverges(start: Desk, d: Desk, asset: nat)
    requires SameDesk(start, d) && (Reaches(d, asset) || Converged(start, d))
    ensures Converged(start, AfterAttach(d, asset, false))
  {
    if Reaches(d, asset) {
      SameCandidates(start.bindings, d.bindings, d.assets);
      assert Merged(d) == FinalContent(start, d.assets);
    }
  }

  /**
   Whatever the order and repetition, the field ends as the originals and the
   first new media that fit, and each ready binding knows whether its media is there.
   */
  lemma {:induction false} AttachingConverges(start: Desk, steps: seq<Step>)
    requires InSync(start) && Undisturbed(steps) && EndsAttached(start, steps)
    ensures Converged(start, Run(start, steps))
  {
    var front, asset := steps[..|steps| - 1], steps[|steps| - 1].asset;
    QuietRun(start, front);
    if !Reaches(Run(start, front), asset) { AttachingConverges(start, front); }
    AttachConverges(start, Run(start, front), asset);
  }

  /** So two histories that end with the same ready media end with the same field. */
  lemma AttachingIsConfluent(start: Desk, one: seq<Step>, other: seq<Step>)
    requires InSync(start) && Undisturbed(one) && Undisturbed(other) && EndsAttached(start, one)
    requires EndsAttached(start, other)
    requires Run(start, one).assets == Run(start, other).assets
    ensures Run(start, one).content == Run(start, other).content
  {
    AttachingConverges(start, one);
    AttachingConverges(start, other);
  }

  // ---- edits by others are kept ----

  predicate NoneActive(d: Desk) {
    forall i :: 0 <= i < |d.bindings| ==> !d.bindings[i].active
  }

  /** What the steps leave of the content when only edits write it. */
  function LastEdit(content: seq<Ref>, steps: seq<Step>): seq<Ref> {
    if steps == [] then content
    else if steps[|steps| - 1].Edit? then steps[|steps| - 1].content
    else LastEdit(content, steps[..|steps| - 1])
  }

  lemma DetachedStep(d: Desk, step: Step)
    requires NoneActive(d) && !step.Retry?
    ensures var next := After(d, step);
            next.bindings == d.bindings && next.content == if step.Edit? then step.content else d.content
  {
  }

  /** Once detached, a field is written by edits only, until someone forces a retry. */
  lemma {:induction false} DetachedFieldIsLeftAlone(d: Desk, steps: seq<Step>)
    requires NoneActive(d) && forall s :: s in steps ==> !s.Retry?
    ensures Run(d, steps).content == LastEdit(d.content, steps) && Run(d, steps).bindings == d.bindings
  {
    if steps != [] {
      DetachedFieldIsLeftAlone(d, steps[..|steps| - 1]);
      DetachedStep(Run(d, steps[..|steps| - 1]), steps[|steps| - 1]);
    }
  }

  /**
   An edit that the import did not expect wins: the next attach that reaches the
   field detaches it, and no later one writes it.
   */
  lemma UnexpectedEditWins(d: Desk, content: seq<Ref>, asset: nat, steps: seq<Step>)
    requires Reaches(d, asset) && d.expected != Some(content) && forall s :: s in steps ==> !s.Retry?
    ensures var detached := After(After(d, Edit(content)), Attach(asset));
            && NoneActive(detached) && detached.content == content
            && (forall i :: 0 <= i < |d.bindings| && d.bindings[i].active ==> detached.bindings[i].state == Detached)
            && Run(detached, steps).content == LastEdit(content, steps)
  {
    var edited := After(d, Edit(content));
    assert exists i :: 0 <= i < |edited.bindings| && edited.bindings[i].active && edited.bindings[i].asset == asset by {
      var i :| 0 <= i < |d.bindings| && d.bindings[i].active && d.bindings[i].asset == asset;
      assert edited.bindings[i].active;
    }
    DetachedFieldIsLeftAlone(After(edited, Attach(asset)), steps);
  }

  /** A forced retry takes the field as it is for the new originals: nothing in it is lost or moved. */
  lemma RetryKeepsContent(d: Desk, asset: nat)
    ensures var next := After(d, Retry(asset));
            && d.content <= next.content && (|next.content| <= LimitOf(d.kind) || next.content == d.content)
            && (next.content != d.content ==> next.originals == d.content && next.expected == Some(next.content))
  {
    var reactivated := d.(bindings := Reactivated(d.bindings, asset));
    MergedMeaning(reactivated.(originals := d.content, expected := Some(d.content)));
  }

  // ---- in place ----

  /** The content after the first bindings have been gone through. */
  function MergedUpTo(d: Desk, k: nat): seq<Ref>
    requires k <= |d.bindings|
  {
    Merged(d.(bindings := d.bindings[..k]))
  }

  /** The content after one more ready reference. */
  function Appended(d: Desk, refs: seq<Ref>, ready: Option<Ref>): seq<Ref> {
    if ready.Some? && ready.value.media !in MediaIn(refs) && |refs| < LimitOf(d.kind)
    then refs + [ready.value]
    else refs
  }

  lemma MergeOne(d: Desk, k: nat)
    requires k < |d.bindings|
    ensures var refs, ready := MergedUpTo(d, k), ReadyRef(d.bindings[k], d.assets);
            MergedUpTo(d, k + 1) == Appended(d, refs, ready)
  {
    assert d.bindings[..k + 1][..k] == d.bindings[..k];
    var seen, before := MediaIn(d.originals), Candidates(d.bindings[..k], d.assets);
    var novel, ready := Fresh(seen, before), ReadyRef(d.bindings[k], d.assets);
    if ready.Some? {
      assert (before + [ready.value])[..|before|] == before;
      if |novel| <= Room(d) { assert MediaIn(MergedUpTo(d, k)) == seen + MediaIn(novel); }
    }
  }

  /** Marks of earlier bindings stand when a reference is appended: what overflowed had found the field full. */
  predicate MarkedUpTo(d: Desk, marked: seq<Binding>, refs: seq<Ref>, k: nat) {
    && |marked| == |d.bindings| && k <= |marked| && marked[k..] == d.bindings[k..]
    && forall i :: 0 <= i < k ==>
         && marked[i] == d.bindings[i].(state := MarkedState(d.bindings[i], d.assets, refs))
         && (ReadyRef(d.bindings[i], d.assets).Some? && marked[i].state == Overflow ==> |refs| >= LimitOf(d.kind))
  }

  lemma AppendedMedia(d: Desk, refs: seq<Ref>, ready: Option<Ref>)
    ensures var more := Appended(d, refs, ready);
            && MediaIn(refs) <= MediaIn(more) && (|refs| >= LimitOf(d.kind) ==> more == refs)
            && (more != refs ==> MediaIn(more) == MediaIn(refs) + {ready.value.media})
  {
    var more := Appended(d, refs, ready);
    assert forall r :: r in refs ==> r in more;
    if more != refs { assert more[|refs|] in more; }
  }

  lemma MarkOne(d: Desk, marked: seq<Binding>, refs: seq<Ref>, k: nat)
    requires k < |d.bindings| && MarkedUpTo(d, marked, refs, k)
    ensures var ready := ReadyRef(d.bindings[k], d.assets);
            var more := Appended(d, refs, ready);
            MarkedUpTo(d, marked[k := d.bindings[k].(state := MarkedState(d.bindings[k], d.assets, more))], more, k + 1)
  {
    var more := Appended(d, refs, ReadyRef(d.bindings[k], d.assets));
    AppendedMedia(d, refs, ReadyRef(d.bindings[k], d.assets));
    var next := marked[k := d.bindings[k].(state := MarkedState(d.bindings[k], d.assets, more))];
    assert next[k + 1..] == marked[k..][1..];
    forall i | 0 <= i < k
      ensures MarkedState(d.bindings[i], d.assets, more) == MarkedState(d.bindings[i], d.assets, refs)
    {
    }
  }

  class Field {
    const kind: FieldKind
    var executed: bool
    const sourceDeleted: bool
    var present: bool
    var content: seq<Ref>
    var originals: seq<Ref>
    var expected: Option<seq<Ref>>
    var bindings: seq<Binding>
    var assets: seq<Option<Ref>>

    function State(): Desk
      reads this
    {
      Desk(kind, executed, sourceDeleted, present, content, originals, expected, bindings, assets)
    }

    constructor (kind: FieldKind, sourceDeleted: bool, content: seq<Ref>, bindings: seq<Binding>,
                 assets: seq<Option<Ref>>)
      ensures State() == Desk(kind, false, sourceDeleted, true, content, [], None, bindings, assets)
    {
      this.kind, this.sourceDeleted, this.content, this.bindings, this.assets
        := kind, sourceDeleted, content, bindings, assets;
      executed, present, originals, expected := false, true, [], None;
    }

    method AttachAsset(asset: nat, force: bool)
      modifies this
      ensures State() == AfterAttach(old(State()), asset, force)
    {
      if !executed || sourceDeleted || !present || !Bound(State(), asset) { return; }
      if force { originals, expected := content, Some(content); }
      if expected != Some(content) {
        bindings := AllDetached(bindings);
        return;
      }
      AddReady();
    }

    /** Goes through the ready bindings in order, appending what is new while there is room. */
    method AddReady()
      modifies this
      ensures var merged := Merged(old(State()));
              State() == old(State()).(content := merged, expected := Some(merged),
                                       bindings := Marked(old(bindings), assets, merged))
    {
      ghost var d := State();
      var refs, seen, marked := originals, MediaIn(originals), bindings;
      for k := 0 to |bindings|
        invariant State() == d
        invariant refs == MergedUpTo(d, k) && seen == MediaIn(refs)
        invariant MarkedUpTo(d, marked, refs, k)
      {
        MergeOne(d, k);
        MarkOne(d, marked, refs, k);
        var ready := ReadyRef(bindings[k], assets);
        AppendedMedia(d, refs, ready);
        if ready.Some? {
          var state := Attached;
          if ready.value.media !in seen {
            if |refs| < LimitOf(kind) {
              refs, seen := refs + [ready.value], seen + {ready.value.media};
            } else {
              state := Overflow;
            }
          }
          marked := marked[k := bindings[k].(state := state)];
        }
      }
      assert bindings[..|bindings|] == bindings;
      bindings := marked;
      content, expected := refs, Some(refs);
    }
  }
}
