/**
 What attaching, executing and retrying do to a field, said through its references
 and bindings themselves, with the limits written out.
 */
module MediaEffects {
  import opened Wrappers
  import opened MediaAttach

  /** One logo, three videos, nine images. */
  predicate HasRoom(kind: FieldKind, count: nat) {
    match kind case Logo => count == 0 case Videos => count <= 2 case Images => count <= 8
  }

  predicate Holds(refs: seq<Ref>, media: int) {
    exists i :: 0 <= i < |refs| && refs[i].media == media
  }

  predicate Ready(d: Desk, i: nat) {
    i < |d.bindings| && d.bindings[i].active && d.bindings[i].asset < |d.assets|
    && d.assets[d.bindings[i].asset].Some?
  }

  /** The originals, then binding by binding each ready media that is not there yet, while there is room. */
  function Filled(d: Desk, n: nat): seq<Ref>
    requires n <= |d.bindings|
  {
    if n == 0 then d.originals
    else
      var refs := Filled(d, n - 1);
      if Ready(d, n - 1) && !Holds(refs, d.assets[d.bindings[n - 1].asset].value.media) && HasRoom(d.kind, |refs|)
      then refs + [d.assets[d.bindings[n - 1].asset].value]
      else refs
  }

  lemma HoldsExact(refs: seq<Ref>, media: int)
    ensures Holds(refs, media) <==> media in MediaIn(refs)
  {
    if media in MediaIn(refs) { var r :| r in refs && r.media == media; }
  }

  lemma FilledStep(d: Desk, n: nat)
    requires n < |d.bindings| && MergedUpTo(d, n) == Filled(d, n)
    ensures MergedUpTo(d, n + 1) == Filled(d, n + 1)
  {
    MergeOne(d, n);
    if Ready(d, n) { HoldsExact(Filled(d, n), d.assets[d.bindings[n].asset].value.media); }
  }

  lemma {:induction false} FilledExact(d: Desk, n: nat)
    requires n <= |d.bindings|
    ensures MergedUpTo(d, n) == Filled(d, n)
  {
    if n > 0 {
      FilledExact(d, n - 1);
      FilledStep(d, n - 1);
    }
  }

  /** The field was merged from these originals; each ready binding says whether its media is there. */
  predicate Merges(d: Desk, next: Desk, originals: seq<Ref>) {
    && next.originals == originals && next.content == Filled(d.(originals := originals), |d.bindings|)
    && next.expected == Some(next.content) && |next.bindings| == |d.bindings|
    && (forall i :: 0 <= i < |d.bindings| ==>
          next.bindings[i] == Binding(d.bindings[i].asset, d.bindings[i].active,
            if !Ready(d, i) then d.bindings[i].state
            else if Holds(next.content, d.assets[d.bindings[i].asset].value.media) then Attached else Overflow))
    && SameRecord(d, next)
  }

  predicate SameRecord(d: Desk, next: Desk) {
    && next.kind == d.kind && next.executed == d.executed && next.sourceDeleted == d.sourceDeleted
    && next.present == d.present && next.assets == d.assets
  }

  /** Somebody else wrote the field: every active binding is detached, and the field is left alone. */
  predicate Detaches(d: Desk, next: Desk) {
    && next.content == d.content && next.originals == d.originals && next.expected == d.expected
    && |next.bindings| == |d.bindings| && SameRecord(d, next)
    && forall i :: 0 <= i < |d.bindings| ==>
         next.bindings[i]
         == if d.bindings[i].active then Binding(d.bindings[i].asset, false, Detached) else d.bindings[i]
  }

  /** The record was executed, is there on both sides, and has an active binding of the asset. */
  predicate Concerns(d: Desk, asset: nat) {
    && d.executed && !d.sourceDeleted && d.present
    && exists i :: 0 <= i < |d.bindings| && d.bindings[i].active && d.bindings[i].asset == asset
  }

  lemma AttachExact(d: Desk, asset: nat, force: bool)
    ensures var next := AfterAttach(d, asset, force);
            if !Concerns(d, asset) then next == d
            else if force then Merges(d, next, d.content)
            else if d.expected == Some(d.content) then Merges(d, next, d.originals)
            else Detaches(d, next)
  {
    if Concerns(d, asset) && (force || d.expected == Some(d.content)) {
      var base := if force then d.(originals := d.content, expected := Some(d.content)) else d;
      var n := |d.bindings|;
      FilledExact(base, n);
      assert base.bindings[..n] == base.bindings && base.(bindings := base.bindings[..n]) == base;
      var merged := Merged(base);
      forall i | 0 <= i < n && Ready(d, i)
        ensures Holds(merged, d.assets[d.bindings[i].asset].value.media) <==>
                  d.assets[d.bindings[i].asset].value.media in MediaIn(merged)
      {
        HoldsExact(merged, d.assets[d.bindings[i].asset].value.media);
      }
      SameFill(d.(originals := base.originals), base, n);
    }
  }

  lemma {:induction false} SameFill(d: Desk, e: Desk, n: nat)
    requires d.kind == e.kind && d.originals == e.originals && d.bindings == e.bindings && d.assets == e.assets
    requires n <= |d.bindings|
    ensures Filled(d, n) == Filled(e, n)
  {
    if n > 0 { SameFill(d, e, n - 1); }
  }

  /** The first execution remembers the content; a later one, and what others do, write only what is said. */
  lemma OthersExact(d: Desk, step: Step)
    requires !step.Attach? && !step.Retry?
    ensures var next := After(d, step);
            && next.kind == d.kind && next.sourceDeleted == d.sourceDeleted && next.bindings == d.bindings
            && next.executed == (d.executed || step.Execute?)
            && (if step.Execute? && !d.executed then next.originals == d.content && next.expected == Some(d.content)
                else next.originals == d.originals && next.expected == d.expected)
            && next.content == (if step.Edit? then step.content else d.content)
            && next.present == (d.present && !step.RemoveTarget?)
            && |next.assets| == |d.assets|
            && forall a :: 0 <= a < |d.assets| ==>
                 next.assets[a] == if step.AssetChange? && step.asset == a then step.ready else d.assets[a]
  {
  }

  /** A retry of an asset that has succeeded takes its detached bindings back, and merges onto the field as it is. */
  lemma RetryExact(d: Desk, asset: nat, again: seq<Binding>)
    requires |again| == |d.bindings|
    requires forall i :: 0 <= i < |again| ==>
               again[i] == if d.bindings[i].asset == asset && d.bindings[i].state.Detached?
                           then Binding(asset, true, Detached) else d.bindings[i]
    ensures After(d, Attach(asset)) == AfterAttach(d, asset, false)
    ensures var (next, taken) := (After(d, Retry(asset)), d.(bindings := again));
            if asset >= |d.assets| || d.assets[asset].None? then next == d
            else if Concerns(taken, asset) then Merges(taken, next, d.content)
            else next == taken
  {
    assert again == Reactivated(d.bindings, asset);
    AttachExact(d.(bindings := again), asset, true);
  }
}
