/**
 * The meta-pair trackers: each follows one meta-pair and keeps a subscription and a callback on
 * whatever that meta-pair points at. All of it runs under one mutex, so each call is one step.
 */
module MetaTracker {
  import opened Base
  import opened M = PairSpaceModel
  import opened MetaText

  /** Handles are zero when nothing is held. */
  datatype Tracker = Tracker(
    fn: Option<Callback>, metaSub: nat, metaCb: nat,
    target: Option<PairKey>, targetSub: nat, targetCb: nat)

  /** Who asked for a registration: the application, or the tracker of a meta-pair, for either end. */
  datatype Role = User | ForMeta(mk: PairKey) | ForTarget(mk: PairKey)

  /** What was asked for under a handle, and by whom. */
  datatype Claim = Claim(key: PairKey, role: Role)

  /** `subs`: the client's records by handle. `subClaims`, `cbClaims`: bookkeeping for each live handle. */
  datatype State = State(
    trackers: map<PairKey, Tracker>,
    subs: map<nat, PairKey>, lastSub: nat, space: Space,
    subClaims: map<nat, Claim>, cbClaims: map<nat, Claim>)

  const INIT := State(map[], map[], 0, EMPTY_SPACE, map[], map[])

  /** The tracker's own callback on the meta-pair. */
  const ON_META_CHANGED: Callback := 0

  // ---------------------------------------------------------------- the two registries

  /** `registerSubscription`: the handle is zero if the record is already held. */
  function Subscribe(s: State, k: PairKey, role: Role): (State, nat) {
    if k in s.subs.Values then (s, 0)
    else
      var h := s.lastSub + 1;
      (s.(lastSub := h, subs := s.subs[h := k], subClaims := s.subClaims[h := Claim(k, role)]), h)
  }

  function Unsubscribe(s: State, h: nat): State {
    s.(subs := s.subs - {h}, subClaims := s.subClaims - {h})
  }

  /** The records of one owner and key: at most one, as a second is refused. */
  function RecordsOf(subs: map<nat, PairKey>, k: PairKey): set<nat> {
    set h | h in subs && subs[h] == k
  }

  /** `cancelSubscription` by owner and key, whoever asked for the record. */
  function UnsubscribeKey(s: State, k: PairKey): State {
    var gone := RecordsOf(s.subs, k);
    s.(subs := s.subs - gone, subClaims := s.subClaims - gone)
  }

  function WatchOp(k: PairKey, cb: Callback): M.Op {
    if k.key == WILDCARD_KEY then WatchAll(cb) else Watch(k, cb)
  }

  /** `registerCallback`: the wildcard key registers for every pair. */
  function Register(s: State, k: PairKey, cb: Callback, role: Role): (State, nat) {
    var h := s.space.lastHandle + 1;
    (s.(space := Apply(s.space, WatchOp(k, cb)), cbClaims := s.cbClaims[h := Claim(k, role)]), h)
  }

  function Unregister(s: State, h: nat): State {
    s.(space := Apply(s.space, Unwatch(h)), cbClaims := s.cbClaims - {h})
  }

  // ---------------------------------------------------------------- the tracker operations

  function ReleaseTarget(s: State, mk: PairKey): State
    requires mk in s.trackers
  {
    var t := s.trackers[mk];
    var s1 := if t.targetCb != 0 then Unregister(s, t.targetCb) else s;
    var s2 := if t.targetSub != 0 then Unsubscribe(s1, t.targetSub) else s1;
    s2.(trackers := s2.trackers[mk := t.(target := None, targetSub := 0, targetCb := 0)])
  }

  function AcquireTarget(s: State, mk: PairKey, k: PairKey): State
    requires mk in s.trackers
  {
    var t := s.trackers[mk];
    var (s1, sub) := Subscribe(s, k, ForTarget(mk));
    var (s2, cb) := if t.fn.Some? then Register(s1, k, t.fn.value, ForTarget(mk)) else (s1, t.targetCb);
    s2.(trackers := s2.trackers[mk := t.(target := Some(k), targetSub := sub, targetCb := cb)])
  }

  /** `onMetaPairChanged`, on a value delivered for the meta-pair. */
  function MetaChanged(s: State, mk: PairKey, value: string): State {
    if mk !in s.trackers then s
    else
      var target := ParseTracked(value);
      if target == s.trackers[mk].target then s
      else
        var s1 := ReleaseTarget(s, mk);
        if target.Some? then AcquireTarget(s1, mk, target.value) else s1
  }

  /** `registerTracker`: an existing tracker only takes the new function. */
  function Track(s: State, mk: PairKey, fn: Option<Callback>): State {
    if mk in s.trackers then s.(trackers := s.trackers[mk := s.trackers[mk].(fn := fn)])
    else
      var (s1, sub) := Subscribe(s, mk, ForMeta(mk));
      var (s2, cb) := Register(s1, mk, ON_META_CHANGED, ForMeta(mk));
      s2.(trackers := s2.trackers[mk := Tracker(fn, sub, cb, None, 0, 0)])
  }

  /** `cancelMetaCallback`. */
  function Untrack(s: State, mk: PairKey): State {
    if mk !in s.trackers then s
    else
      var s1 := ReleaseTarget(s, mk);
      var t := s1.trackers[mk];
      var s2 := Unregister(Unsubscribe(s1, t.metaSub), t.metaCb);
      s2.(trackers := s2.trackers - {mk})
  }

  // ---------------------------------------------------------------- runs

  datatype Step =
    | TrackMeta(mk: PairKey, fn: Option<Callback>)
    | Changed(mk: PairKey, value: string)
    | UntrackMeta(mk: PairKey)
    | UserSubscribe(k: PairKey)
    | UserUnsubscribe(h: nat)
    | UserCancelKey(k: PairKey)
    | UserWatch(k: PairKey, cb: Callback)
    | UserUnwatch(h: nat)
    | PairOp(op: M.Op)

  /** The application cancels only handles it was given; other pair-space traffic is not about callbacks. */
  predicate Enabled(s: State, step: Step) {
    match step
    case UserUnsubscribe(h) => h in s.subClaims ==> s.subClaims[h].role.User?
    case UserUnwatch(h) => h in s.cbClaims ==> s.cbClaims[h].role.User?
    case PairOp(op) => !op.Watch? && !op.WatchAll? && !op.Unwatch?
    case _ => true
  }

  /** No tracker asks for a record somebody already holds, and none of a tracker's is cancelled by its key. */
  predicate NoSharing(s: State, step: Step) {
    match step
    case TrackMeta(mk, _) => mk !in s.trackers ==> mk !in s.subs.Values
    case Changed(mk, v) =>
      mk in s.trackers && ParseTracked(v).Some? && ParseTracked(v) != s.trackers[mk].target ==>
          ParseTracked(v).value !in s.subs.Values
    case UserCancelKey(k) => forall h :: h in RecordsOf(s.subs, k) && h in s.subClaims ==> s.subClaims[h].role.User?
    case _ => true
  }

  function Next(s: State, step: Step): State {
    match step
    case TrackMeta(mk, fn) => Track(s, mk, fn)
    case Changed(mk, v) => MetaChanged(s, mk, v)
    case UntrackMeta(mk) => Untrack(s, mk)
    case UserSubscribe(k) => Subscribe(s, k, User).0
    case UserUnsubscribe(h) => Unsubscribe(s, h)
    case UserCancelKey(k) => UnsubscribeKey(s, k)
    case UserWatch(k, cb) => Register(s, k, cb, User).0
    case UserUnwatch(h) => Unregister(s, h)
    case PairOp(op) => s.(space := Apply(s.space, op))
  }

  /** Any sequence of these steps whatever. */
  ghost predicate IsHistory(states: seq<State>, steps: seq<Step>) {
    && |states| == |steps| + 1 && states[0] == INIT
    && forall i :: 0 <= i < |steps| ==> states[i + 1] == Next(states[i], steps[i])
  }

  /** One in which records are not shared. */
  ghost predicate IsRun(states: seq<State>, steps: seq<Step>) {
    && IsHistory(states, steps)
    && forall i :: 0 <= i < |steps| ==> Enabled(states[i], steps[i]) && NoSharing(states[i], steps[i])
  }

  // ---------------------------------------------------------------- one registry, abstractly

  /** The handles a tracker holds in one registry; the target's is zero when it holds none. */
  datatype Ends = Ends(meta: nat, target: Option<PairKey>, targetHandle: nat)

  /** The tracker's handles are live and were asked for by it, for its meta-pair and its target. */
  ghost predicate Claimed(mk: PairKey, e: Ends, claims: map<nat, Claim>) {
    && e.meta in claims && claims[e.meta] == Claim(mk, ForMeta(mk))
    && (e.targetHandle != 0 ==>
          e.target.Some? && e.targetHandle in claims && claims[e.targetHandle] == Claim(e.target.value, ForTarget(mk)))
  }

  /** Whatever a tracker asked for is still held by it. */
  ghost predicate Held(h: nat, role: Role, ends: map<PairKey, Ends>) {
    match role
    case User => true
    case ForMeta(mk) => mk in ends && ends[mk].meta == h
    case ForTarget(mk) => mk in ends && ends[mk].targetHandle == h
  }

  ghost predicate RegistryOk(ends: map<PairKey, Ends>, claims: map<nat, Claim>) {
    && 0 !in claims
    && (forall mk :: mk in ends ==> Claimed(mk, ends[mk], claims))
    && (forall h :: h in claims ==> Held(h, claims[h].role, ends))
  }

  lemma AddMeta(ends: map<PairKey, Ends>, claims: map<nat, Claim>, mk: PairKey, h: nat)
    requires RegistryOk(ends, claims) && mk !in ends && h !in claims && h != 0
    ensures RegistryOk(ends[mk := Ends(h, None, 0)], claims[h := Claim(mk, ForMeta(mk))])
  {
  }

  /** A handle of zero stands for not asking at all. */
  lemma AddTarget(ends: map<PairKey, Ends>, claims: map<nat, Claim>, mk: PairKey, k: PairKey, h: nat)
    requires RegistryOk(ends, claims) && mk in ends && ends[mk].targetHandle == 0 && h !in claims
    ensures var e := ends[mk].(target := Some(k), targetHandle := h);
            RegistryOk(ends[mk := e], if h == 0 then claims else claims[h := Claim(k, ForTarget(mk))])
  {
  }

  lemma DropTarget(ends: map<PairKey, Ends>, claims: map<nat, Claim>, mk: PairKey)
    requires RegistryOk(ends, claims) && mk in ends
    ensures RegistryOk(ends[mk := Ends(ends[mk].meta, None, 0)], claims - {ends[mk].targetHandle})
  {
  }

  lemma DropMeta(ends: map<PairKey, Ends>, claims: map<nat, Claim>, mk: PairKey)
    requires RegistryOk(ends, claims) && mk in ends && ends[mk].targetHandle == 0
    ensures RegistryOk(ends - {mk}, claims - {ends[mk].meta})
  {
  }

  lemma AddUser(ends: map<PairKey, Ends>, claims: map<nat, Claim>, k: PairKey, h: nat)
    requires RegistryOk(ends, claims) && h !in claims && h != 0
    ensures RegistryOk(ends, claims[h := Claim(k, User)])
  {
  }

  lemma DropUser(ends: map<PairKey, Ends>, claims: map<nat, Claim>, gone: set<nat>)
    requires RegistryOk(ends, claims) && forall h :: h in gone && h in claims ==> claims[h].role.User?
    ensures RegistryOk(ends, claims - gone)
  {
  }

  /** Dropping a record a tracker holds leaves the tracker with a dead handle. */
  lemma DropHeld(ends: map<PairKey, Ends>, claims: map<nat, Claim>, gone: set<nat>, h: nat)
    requires RegistryOk(ends, claims) && h in gone && h in claims && !claims[h].role.User?
    ensures !RegistryOk(ends, claims - gone)
  {
    assert Held(h, claims[h].role, ends);
    assert !Claimed(claims[h].role.mk, ends[claims[h].role.mk], claims - gone);
  }

  // ---------------------------------------------------------------- invariant

  function Handles(space: Space): set<nat> { space.owners.Keys + space.universal.Keys }

  /** Callback `h` is registered for `k`. */
  predicate On(space: Space, h: nat, k: PairKey) {
    if k.key == WILDCARD_KEY then h in space.universal else h in space.owners && space.owners[h] == k
  }

  function SubEnds(trackers: map<PairKey, Tracker>): map<PairKey, Ends> {
    map mk | mk in trackers :: Ends(trackers[mk].metaSub, trackers[mk].target, trackers[mk].targetSub)
  }

  function CbEnds(trackers: map<PairKey, Tracker>): map<PairKey, Ends> {
    map mk | mk in trackers :: Ends(trackers[mk].metaCb, trackers[mk].target, trackers[mk].targetCb)
  }

  /** The client's records are exactly the claims on them. */
  ghost predicate SubsMatch(subs: map<nat, PairKey>, last: nat, claims: map<nat, Claim>) {
    claims.Keys == subs.Keys && forall h :: h in subs ==> subs[h] == claims[h].key && h <= last
  }

  lemma AddRecord(subs: map<nat, PairKey>, claims: map<nat, Claim>, last: nat, c: Claim)
    requires SubsMatch(subs, last, claims)
    ensures SubsMatch(subs[last + 1 := c.key], last + 1, claims[last + 1 := c])
  {
  }

  ghost predicate SubsOk(ends: map<PairKey, Ends>, subs: map<nat, PairKey>, last: nat, claims: map<nat, Claim>) {
    SubsMatch(subs, last, claims) && RegistryOk(ends, claims)
  }

  /** So are the callbacks in the pair space. */
  ghost predicate CbsMatch(space: Space, claims: map<nat, Claim>) {
    && IndicesAgree(space) && claims.Keys == Handles(space)
    && (forall h :: h in claims ==> On(space, h, claims[h].key))
  }

  ghost predicate CbsOk(ends: map<PairKey, Ends>, space: Space, claims: map<nat, Claim>) {
    CbsMatch(space, claims) && RegistryOk(ends, claims)
  }

  /** A tracker subscribes to its target whenever it has one, and otherwise holds nothing. */
  ghost predicate ShapeOk(t: Tracker) {
    (t.target.Some? <==> t.targetSub != 0) && (t.targetCb != 0 ==> t.target.Some?)
  }

  ghost predicate Inv(s: State) {
    && SubsOk(SubEnds(s.trackers), s.subs, s.lastSub, s.subClaims)
    && CbsOk(CbEnds(s.trackers), s.space, s.cbClaims)
    && forall mk :: mk in s.trackers ==> ShapeOk(s.trackers[mk])
  }

  // ---------------------------------------------------------------- effects on the callback registry

  lemma WatchFields(space: Space, k: PairKey, cb: Callback)
    ensures var r, h := Apply(space, WatchOp(k, cb)), space.lastHandle + 1;
            && Handles(r) == Handles(space) + {h}
            && r.owners == (if k.key == WILDCARD_KEY then space.owners else space.owners[h := k])
            && r.universal == (if k.key == WILDCARD_KEY then space.universal[h := cb] else space.universal)
  {
  }

  lemma RegisterEffect(space: Space, claims: map<nat, Claim>, k: PairKey, cb: Callback, role: Role)
    requires CbsMatch(space, claims)
    ensures var h := space.lastHandle + 1;
            h !in claims && CbsMatch(Apply(space, WatchOp(k, cb)), claims[h := Claim(k, role)])
  {
    var h := space.lastHandle + 1;
    StepKeepsIndices(space, WatchOp(k, cb));
    assert h !in Handles(space);
    WatchFields(space, k, cb);
  }

  lemma UnregisterEffect(space: Space, claims: map<nat, Claim>, h: nat)
    requires CbsMatch(space, claims)
    ensures CbsMatch(Apply(space, Unwatch(h)), claims - {h})
  {
    StepKeepsIndices(space, Unwatch(h));
    assert Handles(Apply(space, Unwatch(h))) == Handles(space) - {h};
  }

  // ---------------------------------------------------------------- tracker operations keep the invariant

  lemma EndsAfter(trackers: map<PairKey, Tracker>, mk: PairKey, t: Tracker)
    ensures SubEnds(trackers[mk := t]) == SubEnds(trackers)[mk := Ends(t.metaSub, t.target, t.targetSub)]
    ensures CbEnds(trackers[mk := t]) == CbEnds(trackers)[mk := Ends(t.metaCb, t.target, t.targetCb)]
    ensures SubEnds(trackers - {mk}) == SubEnds(trackers) - {mk} && CbEnds(trackers - {mk}) == CbEnds(trackers) - {mk}
  {
  }

  /** What releasing a target does, with the pair space left abstract. */
  ghost predicate Released(s: State, mk: PairKey, r: State)
    requires mk in s.trackers
  {
    var t := s.trackers[mk];
    && r.trackers == s.trackers[mk := t.(target := None, targetSub := 0, targetCb := 0)] && r.lastSub == s.lastSub
    && r.subs == s.subs - {t.targetSub} && r.subClaims == s.subClaims - {t.targetSub}
    && r.cbClaims == s.cbClaims - {t.targetCb}
  }

  lemma ReleaseFields(s: State, mk: PairKey)
    requires mk in s.trackers && CbsMatch(s.space, s.cbClaims) && 0 !in s.cbClaims && 0 !in s.subClaims && 0 !in s.subs
    ensures Released(s, mk, ReleaseTarget(s, mk))
    ensures CbsMatch(ReleaseTarget(s, mk).space, ReleaseTarget(s, mk).cbClaims)
  {
    var t, r := s.trackers[mk], ReleaseTarget(s, mk);
    assert r.subs == s.subs - {t.targetSub} && r.subClaims == s.subClaims - {t.targetSub};
    if t.targetCb != 0 {
      UnregisterEffect(s.space, s.cbClaims, t.targetCb);
    } else {
      assert r.space == s.space && r.cbClaims == s.cbClaims;
    }
  }

  lemma ReleasedSubs(s: State, mk: PairKey, r: State)
    requires SubsOk(SubEnds(s.trackers), s.subs, s.lastSub, s.subClaims) && mk in s.trackers && Released(s, mk, r)
    ensures SubsOk(SubEnds(r.trackers), r.subs, r.lastSub, r.subClaims)
  {
    EndsAfter(s.trackers, mk, r.trackers[mk]);
    DropTarget(SubEnds(s.trackers), s.subClaims, mk);
  }

  lemma ReleasedCbs(s: State, mk: PairKey, r: State)
    requires CbsOk(CbEnds(s.trackers), s.space, s.cbClaims) && mk in s.trackers && Released(s, mk, r)
    requires CbsMatch(r.space, r.cbClaims)
    ensures CbsOk(CbEnds(r.trackers), r.space, r.cbClaims)
  {
    EndsAfter(s.trackers, mk, r.trackers[mk]);
    DropTarget(CbEnds(s.trackers), s.cbClaims, mk);
  }

  lemma ReleaseInv(s: State, mk: PairKey)
    requires Inv(s) && mk in s.trackers
    ensures var r := ReleaseTarget(s, mk);
            && Inv(r) && r.trackers == s.trackers[mk := s.trackers[mk].(target := None, targetSub := 0, targetCb := 0)]
            && r.subs.Values <= s.subs.Values
  {
    ReleaseFields(s, mk);
    ReleasedSubs(s, mk, ReleaseTarget(s, mk));
    ReleasedCbs(s, mk, ReleaseTarget(s, mk));
  }

  /** What acquiring a target does, with the pair space left abstract; `h` is the callback handle or zero. */
  ghost predicate AcquiredSub(s: State, mk: PairKey, k: PairKey, h: nat, r: State)
    requires mk in s.trackers
  {
    && r.trackers == s.trackers[mk := s.trackers[mk].(target := Some(k), targetSub := s.lastSub + 1, targetCb := h)]
    && r.subs == s.subs[s.lastSub + 1 := k] && r.lastSub == s.lastSub + 1
    && r.subClaims == s.subClaims[s.lastSub + 1 := Claim(k, ForTarget(mk))]
  }

  ghost predicate Acquired(s: State, mk: PairKey, k: PairKey, h: nat, r: State)
    requires mk in s.trackers
  {
    && AcquiredSub(s, mk, k, h, r)
    && CbsMatch(r.space, r.cbClaims) && h !in s.cbClaims
    && r.cbClaims == (if h == 0 then s.cbClaims else s.cbClaims[h := Claim(k, ForTarget(mk))])
    && (h != 0 <==> s.trackers[mk].fn.Some?)
  }

  lemma AcquireFields(s: State, mk: PairKey, k: PairKey)
    requires mk in s.trackers && s.trackers[mk].targetCb == 0 && k !in s.subs.Values
    requires CbsMatch(s.space, s.cbClaims) && 0 !in s.cbClaims
    ensures var r := AcquireTarget(s, mk, k); mk in r.trackers && Acquired(s, mk, k, r.trackers[mk].targetCb, r)
  {
    var t := s.trackers[mk];
    if t.fn.Some? { RegisterEffect(s.space, s.cbClaims, k, t.fn.value, ForTarget(mk)); }
  }

  lemma AcquiredSubs(s: State, mk: PairKey, k: PairKey, h: nat, r: State)
    requires SubsOk(SubEnds(s.trackers), s.subs, s.lastSub, s.subClaims)
    requires mk in s.trackers && s.trackers[mk].targetSub == 0 && AcquiredSub(s, mk, k, h, r)
    ensures SubsOk(SubEnds(r.trackers), r.subs, r.lastSub, r.subClaims)
  {
    var n := s.lastSub + 1;
    EndsAfter(s.trackers, mk, r.trackers[mk]);
    assert n !in s.subs;
    AddTarget(SubEnds(s.trackers), s.subClaims, mk, k, n);
    assert SubEnds(r.trackers) ==
        SubEnds(s.trackers)[mk := SubEnds(s.trackers)[mk].(target := Some(k), targetHandle := n)];
    AddRecord(s.subs, s.subClaims, s.lastSub, Claim(k, ForTarget(mk)));
  }

  lemma AcquiredCbs(s: State, mk: PairKey, k: PairKey, h: nat, r: State)
    requires CbsOk(CbEnds(s.trackers), s.space, s.cbClaims)
    requires mk in s.trackers && s.trackers[mk].targetCb == 0 && Acquired(s, mk, k, h, r)
    ensures CbsOk(CbEnds(r.trackers), r.space, r.cbClaims)
  {
    EndsAfter(s.trackers, mk, r.trackers[mk]);
    AddTarget(CbEnds(s.trackers), s.cbClaims, mk, k, h);
  }

  lemma AcquireInv(s: State, mk: PairKey, k: PairKey)
    requires Inv(s) && mk in s.trackers && s.trackers[mk].target.None? && k !in s.subs.Values
    ensures var r := AcquireTarget(s, mk, k);
            && Inv(r) && r.trackers.Keys == s.trackers.Keys
            && r.trackers[mk].target == Some(k) && (r.trackers[mk].targetCb != 0 <==> r.trackers[mk].fn.Some?)
  {
    var r := AcquireTarget(s, mk, k);
    assert ShapeOk(s.trackers[mk]);
    AcquireFields(s, mk, k);
    AcquiredSubs(s, mk, k, r.trackers[mk].targetCb, r);
    AcquiredCbs(s, mk, k, r.trackers[mk].targetCb, r);
  }

  lemma ChangedInv(s: State, mk: PairKey, value: string)
    requires Inv(s) && NoSharing(s, Changed(mk, value))
    ensures var r := MetaChanged(s, mk, value);
            && Inv(r) && r.trackers.Keys == s.trackers.Keys
            && (mk in s.trackers ==> r.trackers[mk].target == ParseTracked(value))
  {
    var target := ParseTracked(value);
    if mk in s.trackers && target != s.trackers[mk].target {
      ReleaseInv(s, mk);
      if target.Some? { AcquireInv(ReleaseTarget(s, mk), mk, target.value); }
    }
  }

  /** A tracker that only takes a new function keeps all its handles. */
  lemma RefunctionInv(s: State, mk: PairKey, fn: Option<Callback>)
    requires Inv(s) && mk in s.trackers
    ensures Inv(s.(trackers := s.trackers[mk := s.trackers[mk].(fn := fn)]))
  {
    var t := s.trackers[mk].(fn := fn);
    EndsAfter(s.trackers, mk, t);
    assert SubEnds(s.trackers[mk := t]) == SubEnds(s.trackers) && CbEnds(s.trackers[mk := t]) == CbEnds(s.trackers);
    assert ShapeOk(t) by { assert ShapeOk(s.trackers[mk]); }
  }

  lemma TrackNewInv(s: State, mk: PairKey, fn: Option<Callback>, r: State)
    requires Inv(s) && mk !in s.trackers && mk !in s.subs.Values && r == Track(s, mk, fn)
    ensures Inv(r)
  {
    var h := s.space.lastHandle + 1;
    TrackFields(s, mk, fn);
    StartedSubs(s, mk, fn, h, r);
    StartedCbs(s, mk, fn, h, r);
    assert ShapeOk(Tracker(fn, s.lastSub + 1, h, None, 0, 0));
  }

  /** What starting to track does, with the pair space left abstract; `h` is the callback handle. */
  ghost predicate Started(s: State, mk: PairKey, fn: Option<Callback>, h: nat, r: State) {
    && r.trackers == s.trackers[mk := Tracker(fn, s.lastSub + 1, h, None, 0, 0)] && r.lastSub == s.lastSub + 1
    && r.subs == s.subs[s.lastSub + 1 := mk] && r.subClaims == s.subClaims[s.lastSub + 1 := Claim(mk, ForMeta(mk))]
    && h != 0 && h !in s.cbClaims && r.cbClaims == s.cbClaims[h := Claim(mk, ForMeta(mk))]
  }

  lemma TrackFields(s: State, mk: PairKey, fn: Option<Callback>)
    requires mk !in s.trackers && mk !in s.subs.Values && CbsMatch(s.space, s.cbClaims)
    ensures var r := Track(s, mk, fn); Started(s, mk, fn, s.space.lastHandle + 1, r) && CbsMatch(r.space, r.cbClaims)
  {
    RegisterEffect(s.space, s.cbClaims, mk, ON_META_CHANGED, ForMeta(mk));
  }

  lemma StartedSubs(s: State, mk: PairKey, fn: Option<Callback>, h: nat, r: State)
    requires SubsOk(SubEnds(s.trackers), s.subs, s.lastSub, s.subClaims) && mk !in s.trackers
        && Started(s, mk, fn, h, r)
    ensures SubsOk(SubEnds(r.trackers), r.subs, r.lastSub, r.subClaims)
  {
    var n := s.lastSub + 1;
    EndsAfter(s.trackers, mk, r.trackers[mk]);
    assert n !in s.subs;
    AddMeta(SubEnds(s.trackers), s.subClaims, mk, n);
    assert SubEnds(r.trackers) == SubEnds(s.trackers)[mk := Ends(n, None, 0)];
    AddRecord(s.subs, s.subClaims, s.lastSub, Claim(mk, ForMeta(mk)));
  }

  lemma StartedCbs(s: State, mk: PairKey, fn: Option<Callback>, h: nat, r: State)
    requires CbsOk(CbEnds(s.trackers), s.space, s.cbClaims) && mk !in s.trackers && Started(s, mk, fn, h, r)
    requires CbsMatch(r.space, r.cbClaims)
    ensures CbsOk(CbEnds(r.trackers), r.space, r.cbClaims)
  {
    EndsAfter(s.trackers, mk, r.trackers[mk]);
    AddMeta(CbEnds(s.trackers), s.cbClaims, mk, h);
  }

  /** The second half of a cancel: the meta-pair's own registrations go. */
  function Forget(s: State, mk: PairKey): State
    requires mk in s.trackers
  {
    var t := s.trackers[mk];
    var r := Unregister(Unsubscribe(s, t.metaSub), t.metaCb);
    r.(trackers := r.trackers - {mk})
  }

  lemma ForgetInv(s: State, mk: PairKey)
    requires Inv(s) && mk in s.trackers && s.trackers[mk].targetSub == 0 && s.trackers[mk].targetCb == 0
    ensures Inv(Forget(s, mk))
  {
    var t, r := s.trackers[mk], Forget(s, mk);
    EndsAfter(s.trackers, mk, t);
    DropMeta(SubEnds(s.trackers), s.subClaims, mk);
    DropMeta(CbEnds(s.trackers), s.cbClaims, mk);
    UnregisterEffect(s.space, s.cbClaims, t.metaCb);
    assert r.space == Apply(s.space, Unwatch(t.metaCb)) && r.cbClaims == s.cbClaims - {t.metaCb};
    assert r.subClaims == s.subClaims - {t.metaSub} && r.subs == s.subs - {t.metaSub};
  }

  lemma UntrackInv(s: State, mk: PairKey)
    requires Inv(s)
    ensures Inv(Untrack(s, mk)) && Untrack(s, mk).trackers.Keys == s.trackers.Keys - {mk}
  {
    if mk in s.trackers {
      ReleaseInv(s, mk);
      ForgetInv(ReleaseTarget(s, mk), mk);
      assert Untrack(s, mk) == Forget(ReleaseTarget(s, mk), mk);
    }
  }

  lemma UserSubInv(s: State, step: Step)
    requires Inv(s) && Enabled(s, step) && NoSharing(s, step)
    requires step.UserSubscribe? || step.UserUnsubscribe? || step.UserCancelKey?
    ensures Inv(Next(s, step))
  {
    match step
    case UserSubscribe(k) =>
      if k !in s.subs.Values { AddUser(SubEnds(s.trackers), s.subClaims, k, s.lastSub + 1); }
    case UserUnsubscribe(h) => DropUser(SubEnds(s.trackers), s.subClaims, {h});
    case UserCancelKey(k) => DropUser(SubEnds(s.trackers), s.subClaims, RecordsOf(s.subs, k));
  }

  lemma UserCbInv(s: State, step: Step)
    requires Inv(s) && Enabled(s, step) && (step.UserWatch? || step.UserUnwatch?)
    ensures Inv(Next(s, step))
  {
    match step
    case UserWatch(k, cb) =>
      RegisterEffect(s.space, s.cbClaims, k, cb, User);
      AddUser(CbEnds(s.trackers), s.cbClaims, k, s.space.lastHandle + 1);
      assert Next(s, step).space == Apply(s.space, WatchOp(k, cb));
    case UserUnwatch(h) =>
      UnregisterEffect(s.space, s.cbClaims, h);
      DropUser(CbEnds(s.trackers), s.cbClaims, {h});
      assert Next(s, step).space == Apply(s.space, Unwatch(h));
  }

  lemma PairOpInv(s: State, op: M.Op)
    requires Inv(s) && Enabled(s, PairOp(op))
    ensures Inv(Next(s, PairOp(op)))
  {
    StepKeepsIndices(s.space, op);
    PairOpEffect(s.space, op);
    assert CbsMatch(Apply(s.space, op), s.cbClaims);
  }

  lemma PairOpEffect(space: Space, op: M.Op)
    requires !op.Watch? && !op.WatchAll? && !op.Unwatch?
    ensures Apply(space, op).owners == space.owners && Apply(space, op).universal == space.universal
  {
  }

  lemma StepInv(s: State, step: Step)
    requires Inv(s) && Enabled(s, step) && NoSharing(s, step)
    ensures Inv(Next(s, step))
  {
    match step
    case TrackMeta(mk, fn) =>
      if mk in s.trackers { RefunctionInv(s, mk, fn); } else { TrackNewInv(s, mk, fn, Track(s, mk, fn)); }
    case Changed(mk, v) => ChangedInv(s, mk, v);
    case UntrackMeta(mk) => UntrackInv(s, mk);
    case UserSubscribe(_) => UserSubInv(s, step);
    case UserUnsubscribe(_) => UserSubInv(s, step);
    case UserCancelKey(_) => UserSubInv(s, step);
    case UserWatch(_, _) => UserCbInv(s, step);
    case UserUnwatch(_) => UserCbInv(s, step);
    case PairOp(op) => PairOpInv(s, op);
  }

  /** Asking for a record somebody already holds yields no handle, and the tracker is left with nothing to release. */
  lemma SharedGetsNoHandle(s: State, step: Step)
    requires Inv(s) && !NoSharing(s, step) && !step.UserCancelKey?
    ensures var r := Next(s, step);
            && (step.TrackMeta? || step.Changed?) && step.mk in r.trackers
            && (step.TrackMeta? ==> r.trackers[step.mk].metaSub == 0)
            && (step.Changed? ==>
                 r.trackers[step.mk].target == ParseTracked(step.value) && r.trackers[step.mk].target.Some?
                                  && r.trackers[step.mk].targetSub == 0)
  {
    if step.Changed? {
      var mk, k := step.mk, ParseTracked(step.value).value;
      StillHeld(s, mk, k);
      OneTracker(s, mk, k);
      AcquireDuplicate(ReleaseTarget(s, mk), mk, k);
    }
  }

  /** Releasing a tracker's own target takes away no record of another pair. */
  lemma StillHeld(s: State, mk: PairKey, k: PairKey)
    requires Inv(s) && mk in s.trackers && k in s.subs.Values && s.trackers[mk].target != Some(k)
    ensures k in ReleaseTarget(s, mk).subs.Values
  {
    var t, r := s.trackers[mk], ReleaseTarget(s, mk);
    ReleaseFields(s, mk);
    assert Claimed(mk, SubEnds(s.trackers)[mk], s.subClaims);
    var h :| h in s.subs && s.subs[h] == k;
    assert h != t.targetSub;
    assert h in r.subs && r.subs[h] == k;
  }

  lemma AcquireDuplicate(s: State, mk: PairKey, k: PairKey)
    requires mk in s.trackers && k in s.subs.Values
    ensures var r := AcquireTarget(s, mk, k).trackers; mk in r && r[mk].target == Some(k) && r[mk].targetSub == 0
  {
  }

  /** Cancelling by owner and key what a tracker holds takes it from the tracker. */
  lemma CancelledFromTracker(s: State, k: PairKey)
    requires Inv(s) && !NoSharing(s, UserCancelKey(k))
    ensures !Inv(Next(s, UserCancelKey(k)))
  {
    var gone := RecordsOf(s.subs, k);
    var h :| h in gone && h in s.subClaims && !s.subClaims[h].role.User?;
    DropHeld(SubEnds(s.trackers), s.subClaims, gone, h);
  }

  /** So the step that shares is exactly the step that breaks the invariant. */
  lemma KeptIffNotShared(s: State, step: Step)
    requires Inv(s) && Enabled(s, step)
    ensures Inv(Next(s, step)) <==> NoSharing(s, step)
  {
    if NoSharing(s, step) {
      StepInv(s, step);
    } else if step.UserCancelKey? {
      CancelledFromTracker(s, step.k);
    } else {
      SharedGetsNoHandle(s, step);
      NoneWithoutHandle(Next(s, step), step.mk);
    }
  }

  lemma NoneWithoutHandle(s: State, mk: PairKey)
    requires mk in s.trackers
    ensures Inv(s) ==> s.trackers[mk].metaSub != 0 && (s.trackers[mk].target.Some? ==> s.trackers[mk].targetSub != 0)
  {
    if Inv(s) {
      assert ShapeOk(s.trackers[mk]);
      assert Claimed(mk, SubEnds(s.trackers)[mk], s.subClaims);
    }
  }

  lemma {:induction false} RunInv(states: seq<State>, steps: seq<Step>, i: nat)
    requires IsRun(states, steps) && i < |states|
    ensures Inv(states[i])
  {
    if i > 0 {
      RunInv(states, steps, i - 1);
      StepInv(states[i - 1], steps[i - 1]);
    }
  }

  // ---------------------------------------------------------------- theorems over every run

  /** Whether `mk` is tracked after these steps, and what it was last seen pointing at while tracked. */
  function Tracked(steps: seq<Step>, mk: PairKey): bool {
    if steps == [] then false
    else
      match steps[|steps| - 1]
      case TrackMeta(m, _) => m == mk || Tracked(steps[..|steps| - 1], mk)
      case UntrackMeta(m) => m != mk && Tracked(steps[..|steps| - 1], mk)
      case _ => Tracked(steps[..|steps| - 1], mk)
  }

  function LastDelivered(steps: seq<Step>, mk: PairKey): Option<PairKey> {
    if steps == [] then None
    else
      var before := steps[..|steps| - 1];
      match steps[|steps| - 1]
      case Changed(m, v) => if m == mk && Tracked(before, mk) then ParseTracked(v) else LastDelivered(before, mk)
      case UntrackMeta(m) => if m == mk then None else LastDelivered(before, mk)
      case _ => LastDelivered(before, mk)
  }

  /** Releasing and acquiring touch only that tracker. */
  lemma OneTracker(s: State, m: PairKey, k: PairKey)
    requires m in s.trackers
    ensures var r := ReleaseTarget(s, m).trackers; m in r && r == s.trackers[m := r[m]] && r[m].target == None
    ensures var r := AcquireTarget(s, m, k).trackers; m in r && r == s.trackers[m := r[m]] && r[m].target == Some(k)
  {
  }

  lemma ChangedTracker(s: State, m: PairKey, v: string)
    ensures m !in s.trackers ==> MetaChanged(s, m, v).trackers == s.trackers
    ensures m in s.trackers ==> var r := MetaChanged(s, m, v).trackers;
                                m in r && r == s.trackers[m := r[m]] && r[m].target == ParseTracked(v)
  {
    if m in s.trackers && ParseTracked(v) != s.trackers[m].target {
      var k := if ParseTracked(v).Some? then ParseTracked(v).value else m;
      OneTracker(s, m, k);
      OneTracker(ReleaseTarget(s, m), m, k);
    }
  }

  lemma UntrackedTracker(s: State, m: PairKey)
    requires m in s.trackers
    ensures Untrack(s, m).trackers == s.trackers - {m}
  {
  }

  /** What a step does to the tracker of `mk`. */
  lemma TargetStep(s: State, step: Step, mk: PairKey)
    ensures var r := Next(s, step);
            && (mk in r.trackers <==>
                  if step.TrackMeta? && step.mk == mk then true
                  else if step.UntrackMeta? && step.mk == mk then false else mk in s.trackers)
            && (mk in r.trackers ==>
                  r.trackers[mk].target == if mk !in s.trackers then None
                                           else if step.Changed? && step.mk == mk then ParseTracked(step.value)
                                           else s.trackers[mk].target)
  {
    match step
    case Changed(m, v) => ChangedTracker(s, m, v);
    case UntrackMeta(m) => if m in s.trackers { UntrackedTracker(s, m); }
    case _ =>
  }

  /** Each tracker points where its meta-pair was last seen pointing, whatever anybody shares or cancels. */
  lemma {:induction false} TrackersFollow(states: seq<State>, steps: seq<Step>, i: nat, mk: PairKey)
    requires IsHistory(states, steps) && i < |states|
    ensures mk in states[i].trackers <==> Tracked(steps[..i], mk)
    ensures mk in states[i].trackers ==> states[i].trackers[mk].target == LastDelivered(steps[..i], mk)
    ensures mk !in states[i].trackers ==> LastDelivered(steps[..i], mk) == None
  {
    if i > 0 {
      TrackersFollow(states, steps, i - 1, mk);
      TargetStep(states[i - 1], steps[i - 1], mk);
      assert steps[..i][..i - 1] == steps[..i - 1];
    }
  }

  /** It holds exactly the registrations for its meta-pair and that target, and they are live. */
  lemma TrackerHoldsItsHandles(states: seq<State>, steps: seq<Step>, i: nat, mk: PairKey)
    requires IsRun(states, steps) && i < |states| && mk in states[i].trackers
    ensures var s := states[i];
            var t := s.trackers[mk];
            && t.metaSub in s.subs && s.subs[t.metaSub] == mk && On(s.space, t.metaCb, mk)
            && (t.target.None? ==> t.targetSub == 0 && t.targetCb == 0)
            && (t.target.Some? ==> t.targetSub in s.subs && s.subs[t.targetSub] == t.target.value)
            && (t.targetCb != 0 ==> t.target.Some? && On(s.space, t.targetCb, t.target.value))
  {
    RunInv(states, steps, i);
    var s := states[i];
    assert ShapeOk(s.trackers[mk]);
    assert Claimed(mk, SubEnds(s.trackers)[mk], s.subClaims);
    assert Claimed(mk, CbEnds(s.trackers)[mk], s.cbClaims);
  }

  /** Conservation: every live registration is the application's own or held by the tracker that asked for it. */
  lemma NothingLeaks(states: seq<State>, steps: seq<Step>, i: nat)
    requires IsRun(states, steps) && i < |states|
    ensures var s := states[i];
            && s.subClaims.Keys == s.subs.Keys && s.cbClaims.Keys == Handles(s.space)
            && (forall h :: h in s.subs ==> Held(h, s.subClaims[h].role, SubEnds(s.trackers)))
            && (forall h :: h in Handles(s.space) ==> Held(h, s.cbClaims[h].role, CbEnds(s.trackers)))
  {
    RunInv(states, steps, i);
  }

  // ---------------------------------------------------------------- sharing

  /** What tracking does to the client's records. */
  lemma TrackRecords(s: State, mk: PairKey)
    requires mk !in s.trackers && mk !in s.subs.Values
    ensures var r := Track(s, mk, None);
            && r.subs == s.subs[s.lastSub + 1 := mk] && r.lastSub == s.lastSub + 1
            && mk in r.trackers && r.trackers[mk].fn.None? && r.trackers[mk].target.None?
                 && r.trackers[mk].targetSub == 0
            && r.trackers[mk].targetCb == 0 && r.trackers == s.trackers[mk := r.trackers[mk]]
  {
  }

  lemma AcquireRecords(s: State, mk: PairKey, k: PairKey)
    requires mk in s.trackers && s.trackers[mk].fn.None?
    ensures var t, r := s.trackers[mk], AcquireTarget(s, mk, k);
            var h := if k in s.subs.Values then 0 else s.lastSub + 1;
            && r.subs == (if h == 0 then s.subs else s.subs[h := k]) && r.lastSub == (if h == 0 then s.lastSub else h)
            && r.trackers == s.trackers[mk := t.(target := Some(k), targetSub := h)]
  {
  }

  /** And what following a pointer does, for a tracker without a function. */
  lemma ChangeRecords(s: State, mk: PairKey, v: string, k: PairKey)
    requires mk in s.trackers && s.trackers[mk].fn.None? && s.trackers[mk].targetCb == 0
    requires ParseTracked(v) == Some(k) && s.trackers[mk].target != Some(k)
    ensures var t, r := s.trackers[mk], MetaChanged(s, mk, v);
            var left := if t.targetSub == 0 then s.subs else s.subs - {t.targetSub};
            var h := if k in left.Values then 0 else s.lastSub + 1;
            && r.subs == (if h == 0 then left else left[h := k]) && r.lastSub == (if h == 0 then s.lastSub else h)
            && r.trackers == s.trackers[mk := t.(target := Some(k), targetSub := h)]
  {
    AcquireRecords(ReleaseTarget(s, mk), mk, k);
  }

  /** Sharing breaks it: of two trackers on one target the second gets no subscription of its own. */
  lemma SharedTargetIsLost(a: PairKey, b: PairKey, k: PairKey, other: PairKey, v: string, w: string)
    requires a != b && a != k && b != k && a != other && b != other && k != other
    requires ParseTracked(v) == Some(k) && ParseTracked(w) == Some(other)
    ensures var s1 := Track(Track(INIT, a, None), b, None);
            var s2 := MetaChanged(MetaChanged(s1, a, v), b, v);
            var s3 := MetaChanged(s2, a, w);
            && b in s3.trackers && s3.trackers[b].target == Some(k) && s3.trackers[b].targetSub == 0
            && k !in s3.subs.Values
  {
    BothTracked(a, b);
    SharedFrom(Track(Track(INIT, a, None), b, None), a, b, k, other, v, w);
  }

  /** Two idle trackers, and nothing else subscribed. */
  ghost predicate TwoIdle(s: State, a: PairKey, b: PairKey) {
    && s.subs == map[1 := a, 2 := b] && s.lastSub == 2 && s.trackers.Keys == {a, b}
    && forall m :: m in s.trackers ==>
         var t := s.trackers[m]; t.fn.None? && t.target.None? && t.targetSub == 0 && t.targetCb == 0
  }

  lemma SharedFrom(s1: State, a: PairKey, b: PairKey, k: PairKey, other: PairKey, v: string, w: string)
    requires a != b && a != k && b != k && a != other && b != other && k != other && TwoIdle(s1, a, b)
    requires ParseTracked(v) == Some(k) && ParseTracked(w) == Some(other)
    ensures var s3 := MetaChanged(MetaChanged(MetaChanged(s1, a, v), b, v), a, w);
            && b in s3.trackers && s3.trackers[b].target == Some(k) && s3.trackers[b].targetSub == 0
            && k !in s3.subs.Values
  {
    var s2 := MetaChanged(s1, a, v);
    ChangeRecords(s1, a, v, k);
    assert s2.subs == map[1 := a, 2 := b, 3 := k] && s2.subs[3] == k;
    MovesAway(s2, a, b, k, other, v, w);
  }

  /** The first tracker holds the only subscription to `k`; the second arrives, then the first moves on. */
  lemma MovesAway(s: State, a: PairKey, b: PairKey, k: PairKey, other: PairKey, v: string, w: string)
    requires a != b && a != k && b != k && a != other && b != other && k != other
    requires ParseTracked(v) == Some(k) && ParseTracked(w) == Some(other)
    requires s.subs == map[1 := a, 2 := b, 3 := k] && k in s.subs.Values && s.lastSub == 3 && s.trackers.Keys == {a, b}
    requires forall m :: m in s.trackers ==> s.trackers[m].fn.None? && s.trackers[m].targetCb == 0
    requires s.trackers[a].target == Some(k) && s.trackers[a].targetSub == 3
    requires s.trackers[b].target == None && s.trackers[b].targetSub == 0
    ensures var r := MetaChanged(MetaChanged(s, b, v), a, w);
            b in r.trackers && r.trackers[b].target == Some(k) && r.trackers[b].targetSub == 0 && k !in r.subs.Values
  {
    var s3 := MetaChanged(s, b, v);
    ChangeRecords(s, b, v, k);
    assert s3.subs == s.subs && s3.lastSub == 3;
    assert s3.subs - {3} == map[1 := a, 2 := b];
    ChangeRecords(s3, a, w, other);
    assert MetaChanged(s3, a, w).subs == map[1 := a, 2 := b, 4 := other];
  }

  lemma BothTracked(a: PairKey, b: PairKey)
    requires a != b
    ensures TwoIdle(Track(Track(INIT, a, None), b, None), a, b)
  {
    var s0 := Track(INIT, a, None);
    TrackRecords(INIT, a);
    assert s0.subs == map[1 := a];
    TrackRecords(s0, b);
  }
}
