/** Which function a tracker has registered on its target, against the function it was last given. */
module MetaCallbacks {
  import opened Base
  import opened M = PairSpaceModel
  import opened MetaText
  import opened MetaTracker

  /** The function registered for `k` under handle `h`. */
  function FnUnder(space: Space, h: nat, k: PairKey): Option<Callback> {
    if k.key == WILDCARD_KEY then (if h in space.universal then Some(space.universal[h]) else None)
    else if h in CallbacksOn(space, k) then Some(CallbacksOn(space, k)[h]) else None
  }

  /** What runs on the target's changes on behalf of the tracker of `mk`. */
  function Runs(s: State, mk: PairKey): Option<Callback>
    requires mk in s.trackers
  {
    var t := s.trackers[mk];
    if t.target.None? || t.targetCb == 0 then None else FnUnder(s.space, t.targetCb, t.target.value)
  }

  /** The tracker runs on its target what it was last given: nothing, if that was nothing. */
  predicate Serves(s: State, mk: PairKey) {
    mk in s.trackers && s.trackers[mk].target.Some? ==>
      Runs(s, mk) == s.trackers[mk].fn && (s.trackers[mk].targetCb != 0 <==> s.trackers[mk].fn.Some?)
  }

  /** The step gives a tracker a different function while it holds a target. */
  predicate Regives(s: State, step: Step) {
    step.TrackMeta? && step.mk in s.trackers && s.trackers[step.mk].target.Some? && step.fn != s.trackers[step.mk].fn
  }

  // ---------------------------------------------------------------- one registered function

  /** Nothing but its own cancel takes a registered function away or changes it. */
  lemma FnKept(space: Space, op: M.Op, h: nat, k: PairKey)
    requires IndicesAgree(space) && On(space, h, k) && op != Unwatch(h)
    ensures FnUnder(Apply(space, op), h, k) == FnUnder(space, h, k) && On(Apply(space, op), h, k)
  {
    CallbacksStep(space, op, k);
    HandlesStep(space, op);
    assert h <= space.lastHandle;
  }

  lemma FnRegistered(space: Space, k: PairKey, cb: Callback)
    requires IndicesAgree(space)
    ensures FnUnder(Apply(space, WatchOp(k, cb)), space.lastHandle + 1, k) == Some(cb)
  {
    CallbacksStep(space, WatchOp(k, cb), k);
  }

  /** The pair space after each part of a tracker operation. */
  lemma SpaceAfter(s: State, m: PairKey, k: PairKey)
    requires m in s.trackers
    ensures ReleaseTarget(s, m).space ==
              if s.trackers[m].targetCb != 0 then Apply(s.space, Unwatch(s.trackers[m].targetCb)) else s.space
    ensures AcquireTarget(s, m, k).space ==
              if s.trackers[m].fn.Some? then Apply(s.space, WatchOp(k, s.trackers[m].fn.value)) else s.space
    ensures Forget(s, m).space == Apply(s.space, Unwatch(s.trackers[m].metaCb))
  {
  }

  // ---------------------------------------------------------------- one step

  /** The handle `h` of `mk`'s target is live, and nobody else's. */
  lemma OwnHandle(s: State, mk: PairKey, m: PairKey)
    requires Inv(s) && mk in s.trackers && s.trackers[mk].targetCb != 0
    ensures var t := s.trackers[mk];
            && t.target.Some? && IndicesAgree(s.space) && On(s.space, t.targetCb, t.target.value)
            && t.targetCb in s.cbClaims && s.cbClaims[t.targetCb].role == ForTarget(mk)
    ensures m in s.trackers ==> s.trackers[m].metaCb != s.trackers[mk].targetCb
    ensures m in s.trackers && m != mk ==> s.trackers[m].targetCb != s.trackers[mk].targetCb
  {
    assert ShapeOk(s.trackers[mk]);
    assert Claimed(mk, CbEnds(s.trackers)[mk], s.cbClaims);
    if m in s.trackers { assert Claimed(m, CbEnds(s.trackers)[m], s.cbClaims); }
  }

  /** The function that runs depends only on the tracker and on what is registered under its handle. */
  lemma SameRuns(s: State, r: State, mk: PairKey)
    requires mk in s.trackers && mk in r.trackers && r.trackers[mk] == s.trackers[mk]
    requires var t := s.trackers[mk];
             t.targetCb != 0 && t.target.Some? ==>
               FnUnder(r.space, t.targetCb, t.target.value) == FnUnder(s.space, t.targetCb, t.target.value)
    ensures Runs(r, mk) == Runs(s, mk)
  {
  }

  /** Releasing another tracker's target leaves this one's function alone. */
  lemma ReleaseKeeps(s: State, mk: PairKey, m: PairKey)
    requires Inv(s) && mk in s.trackers && m in s.trackers && m != mk
    ensures var r := ReleaseTarget(s, m);
            mk in r.trackers && r.trackers[mk] == s.trackers[mk] && Runs(r, mk) == Runs(s, mk)
  {
    var t := s.trackers[mk];
    OneTracker(s, m, m);
    SpaceAfter(s, m, m);
    if t.targetCb != 0 {
      OwnHandle(s, mk, m);
      if s.trackers[m].targetCb != 0 { FnKept(s.space, Unwatch(s.trackers[m].targetCb), t.targetCb, t.target.value); }
    }
    SameRuns(s, ReleaseTarget(s, m), mk);
  }

  lemma AcquireKeeps(s: State, mk: PairKey, m: PairKey, k: PairKey)
    requires Inv(s) && mk in s.trackers && m in s.trackers && m != mk
    ensures var r := AcquireTarget(s, m, k);
            mk in r.trackers && r.trackers[mk] == s.trackers[mk] && Runs(r, mk) == Runs(s, mk)
  {
    var t := s.trackers[mk];
    OneTracker(s, m, k);
    SpaceAfter(s, m, k);
    if t.targetCb != 0 {
      OwnHandle(s, mk, m);
      if s.trackers[m].fn.Some? { FnKept(s.space, WatchOp(k, s.trackers[m].fn.value), t.targetCb, t.target.value); }
    }
    SameRuns(s, AcquireTarget(s, m, k), mk);
  }

  lemma ForgetKeeps(s: State, mk: PairKey, m: PairKey)
    requires Inv(s) && mk in s.trackers && m in s.trackers && m != mk
    ensures var r := Forget(s, m); mk in r.trackers && r.trackers[mk] == s.trackers[mk] && Runs(r, mk) == Runs(s, mk)
  {
    var t := s.trackers[mk];
    SpaceAfter(s, m, m);
    if t.targetCb != 0 {
      OwnHandle(s, mk, m);
      FnKept(s.space, Unwatch(s.trackers[m].metaCb), t.targetCb, t.target.value);
    }
    SameRuns(s, Forget(s, m), mk);
  }

  /** A target just acquired runs the tracker's function. */
  lemma AcquiredRuns(s: State, mk: PairKey, k: PairKey)
    requires mk in s.trackers && s.trackers[mk].targetCb == 0 && IndicesAgree(s.space)
    ensures var r := AcquireTarget(s, mk, k);
            mk in r.trackers && r.trackers[mk].fn == s.trackers[mk].fn && Runs(r, mk) == s.trackers[mk].fn
  {
    SpaceAfter(s, mk, k);
    AcquiredTracker(s, mk, k);
    if s.trackers[mk].fn.Some? { FnRegistered(s.space, k, s.trackers[mk].fn.value); }
  }

  lemma AcquiredTracker(s: State, mk: PairKey, k: PairKey)
    requires mk in s.trackers && s.trackers[mk].targetCb == 0
    ensures var r := AcquireTarget(s, mk, k);
            && mk in r.trackers && r.trackers[mk].fn == s.trackers[mk].fn && r.trackers[mk].target == Some(k)
            && r.trackers[mk].targetCb == if s.trackers[mk].fn.Some? then s.space.lastHandle + 1 else 0
  {
  }

  /** A pointer that moves takes the function in force with it. */
  lemma MovedRuns(s: State, mk: PairKey, v: string)
    requires Inv(s) && mk in s.trackers && ParseTracked(v) != s.trackers[mk].target
    ensures var r := MetaChanged(s, mk, v);
            && mk in r.trackers && r.trackers[mk].fn == s.trackers[mk].fn
            && Runs(r, mk) == if ParseTracked(v).Some? then s.trackers[mk].fn else None
  {
    ReleaseInv(s, mk);
    if ParseTracked(v).Some? { AcquiredRuns(ReleaseTarget(s, mk), mk, ParseTracked(v).value); }
  }

  lemma ChangedRuns(s: State, m: PairKey, v: string, mk: PairKey)
    requires Inv(s) && NoSharing(s, Changed(m, v)) && mk in s.trackers
    ensures var r := MetaChanged(s, m, v);
            && mk in r.trackers && r.trackers[mk].fn == s.trackers[mk].fn
            && Runs(r, mk) == if m == mk && ParseTracked(v) != s.trackers[mk].target
                              then (if ParseTracked(v).Some? then s.trackers[mk].fn else None) else Runs(s, mk)
  {
    if m == mk && ParseTracked(v) != s.trackers[mk].target {
      MovedRuns(s, mk, v);
    } else if m != mk && m in s.trackers && ParseTracked(v) != s.trackers[m].target {
      ReleaseKeeps(s, mk, m);
      ReleaseInv(s, m);
      if ParseTracked(v).Some? { AcquireKeeps(ReleaseTarget(s, m), mk, m, ParseTracked(v).value); }
    }
  }

  lemma UntrackRuns(s: State, m: PairKey, mk: PairKey)
    requires Inv(s) && mk in s.trackers && m != mk
    ensures var r := Untrack(s, m); mk in r.trackers && r.trackers[mk] == s.trackers[mk] && Runs(r, mk) == Runs(s, mk)
  {
    if m in s.trackers {
      ReleaseKeeps(s, mk, m);
      ReleaseInv(s, m);
      ForgetKeeps(ReleaseTarget(s, m), mk, m);
      assert Untrack(s, m) == Forget(ReleaseTarget(s, m), m);
    }
  }

  /** Steps of anybody else: at most one operation on the pair space, and not the cancel of this handle. */
  function OtherOp(s: State, step: Step): Option<M.Op> {
    match step
    case TrackMeta(m, _) => if m in s.trackers then None else Some(WatchOp(m, ON_META_CHANGED))
    case UserWatch(k, cb) => Some(WatchOp(k, cb))
    case UserUnwatch(h) => Some(Unwatch(h))
    case PairOp(op) => Some(op)
    case _ => None
  }

  lemma OtherFields(s: State, step: Step, mk: PairKey)
    requires mk in s.trackers && !step.Changed? && !step.UntrackMeta?
    ensures var r := Next(s, step);
            && mk in r.trackers && r.trackers[mk].target == s.trackers[mk].target
            && r.trackers[mk].targetCb == s.trackers[mk].targetCb
            && r.trackers[mk].fn == (if step.TrackMeta? && step.mk == mk then step.fn else s.trackers[mk].fn)
            && r.space == if OtherOp(s, step).Some? then Apply(s.space, OtherOp(s, step).value) else s.space
  {
  }

  lemma OtherRuns(s: State, step: Step, mk: PairKey)
    requires Inv(s) && Enabled(s, step) && mk in s.trackers && !step.Changed? && !step.UntrackMeta?
    ensures var r := Next(s, step);
            && mk in r.trackers && r.trackers[mk].target == s.trackers[mk].target
            && r.trackers[mk].targetCb == s.trackers[mk].targetCb && Runs(r, mk) == Runs(s, mk)
            && r.trackers[mk].fn == if step.TrackMeta? && step.mk == mk then step.fn else s.trackers[mk].fn
  {
    var t := s.trackers[mk];
    OtherFields(s, step, mk);
    if t.targetCb != 0 && OtherOp(s, step).Some? {
      OwnHandle(s, mk, mk);
      FnKept(s.space, OtherOp(s, step).value, t.targetCb, t.target.value);
    }
  }

  /** The callback handle is held exactly when there is a function under it. */
  lemma HandleMeansFn(s: State, mk: PairKey)
    requires Inv(s) && mk in s.trackers
    ensures s.trackers[mk].targetCb != 0 <==> Runs(s, mk).Some?
  {
    var t := s.trackers[mk];
    if t.targetCb != 0 {
      OwnHandle(s, mk, mk);
      var k := t.target.value;
      if k.key != WILDCARD_KEY { assert t.targetCb in CallbacksOn(s.space, k); }
      assert FnUnder(s.space, t.targetCb, k).Some?;
    }
  }

  /** What one step does to the function a tracker runs. */
  lemma StepRuns(s: State, step: Step, mk: PairKey)
    requires Inv(s) && Enabled(s, step) && NoSharing(s, step) && mk in s.trackers && step != UntrackMeta(mk)
    ensures var r := Next(s, step);
            && mk in r.trackers
            && r.trackers[mk].fn == (if step.TrackMeta? && step.mk == mk then step.fn else s.trackers[mk].fn)
            && Runs(r, mk) ==
                 if step.Changed? && step.mk == mk && ParseTracked(step.value) != s.trackers[mk].target
                 then (if ParseTracked(step.value).Some? then s.trackers[mk].fn else None) else Runs(s, mk)
  {
    match step
    case Changed(m, v) => ChangedRuns(s, m, v, mk);
    case UntrackMeta(m) => UntrackRuns(s, m, mk);
    case _ => OtherRuns(s, step, mk);
  }

  /** A step leaves every tracker running what it was last given exactly if it regives none that holds a target. */
  lemma ServesIff(s: State, step: Step)
    requires Inv(s) && Enabled(s, step) && NoSharing(s, step) && forall mk :: Serves(s, mk)
    ensures (forall mk :: Serves(Next(s, step), mk)) <==> !Regives(s, step)
  {
    StepInv(s, step);
    forall mk ensures Serves(Next(s, step), mk) <==> !(Regives(s, step) && step.mk == mk) { ServesOneIff(s, step, mk); }
    if Regives(s, step) { assert !Serves(Next(s, step), step.mk); }
  }

  lemma ServesOneIff(s: State, step: Step, mk: PairKey)
    requires Inv(s) && Enabled(s, step) && NoSharing(s, step) && Serves(s, mk)
    ensures Serves(Next(s, step), mk) <==> !(Regives(s, step) && step.mk == mk)
  {
    var r := Next(s, step);
    StepInv(s, step);
    TargetStep(s, step, mk);
    if mk in s.trackers && mk in r.trackers {
      StepRuns(s, step, mk);
      HandleMeansFn(r, mk);
    }
  }

  // ---------------------------------------------------------------- theorems over every run

  /** The function `mk`'s tracker was last given. */
  function LastGiven(steps: seq<Step>, mk: PairKey): Option<Callback> {
    if steps == [] then None
    else
      match steps[|steps| - 1]
      case TrackMeta(m, fn) => if m == mk then fn else LastGiven(steps[..|steps| - 1], mk)
      case UntrackMeta(m) => if m == mk then None else LastGiven(steps[..|steps| - 1], mk)
      case _ => LastGiven(steps[..|steps| - 1], mk)
  }

  /** The function it had been given when its pointer last moved. */
  function GivenAtMove(steps: seq<Step>, mk: PairKey): Option<Callback> {
    if steps == [] then None
    else
      var before := steps[..|steps| - 1];
      match steps[|steps| - 1]
      case Changed(m, v) =>
        if m == mk && Tracked(before, mk) && ParseTracked(v) != LastDelivered(before, mk)
        then (if ParseTracked(v).Some? then LastGiven(before, mk) else None) else GivenAtMove(before, mk)
      case UntrackMeta(m) => if m == mk then None else GivenAtMove(before, mk)
      case _ => GivenAtMove(before, mk)
  }

  lemma {:induction false} RunRuns(states: seq<State>, steps: seq<Step>, i: nat, mk: PairKey)
    requires IsRun(states, steps) && i < |states|
    ensures mk in states[i].trackers ==>
              states[i].trackers[mk].fn == LastGiven(steps[..i], mk)
                  && Runs(states[i], mk) == GivenAtMove(steps[..i], mk)
    ensures mk !in states[i].trackers ==> LastGiven(steps[..i], mk) == None && GivenAtMove(steps[..i], mk) == None
  {
    if i > 0 {
      var s, step := states[i - 1], steps[i - 1];
      RunRuns(states, steps, i - 1, mk);
      RunInv(states, steps, i - 1);
      TrackersFollow(states, steps, i - 1, mk);
      TargetStep(s, step, mk);
      assert steps[..i][..i - 1] == steps[..i - 1];
      if mk in s.trackers && step != UntrackMeta(mk) { StepRuns(s, step, mk); }
    }
  }

  /**
   * In every run, what a tracker has registered on its target is the function it had when the pointer moved
   * there, under a live handle exactly if there was one. So it is what the tracker was last given if and only
   * if that is the same function.
   */
  lemma TrackerRuns(states: seq<State>, steps: seq<Step>, i: nat, mk: PairKey)
    requires IsRun(states, steps) && i < |states| && mk in states[i].trackers && states[i].trackers[mk].target.Some?
    ensures var s, t := states[i], states[i].trackers[mk];
            && Runs(s, mk) == GivenAtMove(steps[..i], mk)
            && (t.targetCb != 0 <==> GivenAtMove(steps[..i], mk).Some?)
            && t.fn == LastGiven(steps[..i], mk)
            && (Serves(s, mk) <==> LastGiven(steps[..i], mk) == GivenAtMove(steps[..i], mk))
  {
    RunRuns(states, steps, i, mk);
    RunInv(states, steps, i);
    HandleMeansFn(states[i], mk);
  }

  // ---------------------------------------------------------------- the condition can fail

  lemma Extend(states: seq<State>, steps: seq<Step>, step: Step) returns (states': seq<State>, steps': seq<Step>)
    requires IsRun(states, steps) && Enabled(states[|steps|], step) && NoSharing(states[|steps|], step)
    ensures IsRun(states', steps') && steps' == steps + [step] && states'[|steps'|] == Next(states[|steps|], step)
  {
    states', steps' := states + [Next(states[|steps|], step)], steps + [step];
  }

  lemma FirstTracked(mk: PairKey, f: Option<Callback>)
    ensures var s := Track(INIT, mk, f); s.subs == map[1 := mk] && mk in s.trackers && s.trackers[mk].target == None
  {
  }

  function GiveMoveGive(mk: PairKey, v: string, f: Option<Callback>, g: Option<Callback>): seq<Step> {
    [TrackMeta(mk, f), Changed(mk, v), TrackMeta(mk, g)]
  }

  lemma GiveMoveGiveHistory(mk: PairKey, k: PairKey, v: string, f: Option<Callback>, g: Option<Callback>)
    requires ParseTracked(v) == Some(k)
    ensures var steps := GiveMoveGive(mk, v, f, g);
            && Tracked(steps, mk) && LastDelivered(steps, mk) == Some(k)
            && LastGiven(steps, mk) == g && GivenAtMove(steps, mk) == f
  {
    var steps := GiveMoveGive(mk, v, f, g);
    var one, two := [TrackMeta(mk, f)], [TrackMeta(mk, f), Changed(mk, v)];
    assert steps[..2] == two && two[..1] == one && one[..0] == [];
    assert Tracked(one, mk) && LastGiven(one, mk) == f && LastDelivered(one, mk) == None;
    assert Tracked(two, mk) && GivenAtMove(two, mk) == f && LastDelivered(two, mk) == Some(k);
  }

  /** A tracker given its function after the pointer was followed keeps running the old one, or nothing at all. */
  lemma RegivenIsIgnored(mk: PairKey, k: PairKey, v: string, f: Option<Callback>, g: Option<Callback>)
    returns (states: seq<State>, steps: seq<Step>)
    requires mk != k && ParseTracked(v) == Some(k) && f != g
    ensures IsRun(states, steps)
    ensures var s := states[|steps|];
            && mk in s.trackers && s.trackers[mk].target == Some(k) && s.trackers[mk].fn == g && Runs(s, mk) == f
            && (f == None ==> s.trackers[mk].targetCb == 0)
  {
    FirstTracked(mk, f);
    states, steps := Extend([INIT], [], TrackMeta(mk, f));
    states, steps := Extend(states, steps, Changed(mk, v));
    ChangedTracker(Track(INIT, mk, f), mk, v);
    states, steps := Extend(states, steps, TrackMeta(mk, g));
    assert steps == GiveMoveGive(mk, v, f, g) && steps[..3] == steps;
    GiveMoveGiveHistory(mk, k, v, f, g);
    TrackersFollow(states, steps, 3, mk);
    RunRuns(states, steps, 3, mk);
    RunInv(states, steps, 3);
    HandleMeansFn(states[3], mk);
  }
}
