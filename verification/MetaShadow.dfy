/**
 * What trackers leave behind: any history with trackers against the same history without them, in which only
 * the application's own registrations and the other pair-space traffic take place.
 */
module MetaShadow {
  import opened Base
  import opened M = PairSpaceModel
  import opened MetaText
  import opened MetaTracker

  /** The records and the pair space of a client that never tracked anything. */
  datatype Shadow = Shadow(subs: map<nat, PairKey>, space: Space)

  /** The step without trackers. Handles come from the counters of `s`, so that both sides number alike. */
  function ShadowNext(p: Shadow, s: State, step: Step): Shadow {
    match step
    case UserSubscribe(k) => if k in p.subs.Values then p else p.(subs := p.subs[s.lastSub + 1 := k])
    case UserUnsubscribe(h) => p.(subs := p.subs - {h})
    case UserCancelKey(k) => p.(subs := p.subs - RecordsOf(p.subs, k))
    case UserWatch(k, cb) => p.(space := Apply(p.space.(lastHandle := s.space.lastHandle), WatchOp(k, cb)))
    case UserUnwatch(h) => p.(space := Apply(p.space, Unwatch(h)))
    case PairOp(op) => p.(space := Apply(p.space, op))
    case _ => p
  }

  // ---------------------------------------------------------------- how the two sides are related

  /** The callbacks of the left side are those of the right side that are the application's. */
  ghost predicate CallbacksRel(a: map<nat, Callback>, b: map<nat, Callback>, mine: set<nat>) {
    && (forall h :: h in a <==> h in b && h in mine)
    && (forall h :: h in a ==> a[h] == b[h])
  }

  /** The same entry but for trackers' callbacks; an entry the left side lacks is a placeholder anyone would inherit. */
  ghost predicate EntryRel(p: Space, r: Space, mine: set<nat>, k: PairKey) {
    if k in p.pairs then
      && k in r.pairs && r.pairs[k].pair == p.pairs[k].pair && r.pairs[k].subscribers == p.pairs[k].subscribers
      && p.pairs[k].pair.Id() == k && CallbacksRel(p.pairs[k].callbacks, r.pairs[k].callbacks, mine)
    else
      k in r.pairs ==>
        && r.pairs[k].pair == Placeholder(k) && r.pairs[k].subscribers == p.wildcard
        && CallbacksRel(map[], r.pairs[k].callbacks, mine)
  }

  ghost predicate SpaceRel(p: Space, r: Space, mine: set<nat>) {
    && p.wildcard == r.wildcard
    && (forall h :: h in p.owners <==> h in r.owners && h in mine)
    && (forall h :: h in p.owners ==> p.owners[h] == r.owners[h])
    && CallbacksRel(p.universal, r.universal, mine)
    && forall k :: EntryRel(p, r, mine, k)
  }

  ghost predicate SubsRel(mine: map<nat, PairKey>, subs: map<nat, PairKey>, claims: map<nat, Claim>) {
    && (forall h :: h in mine <==> h in subs && h in claims && claims[h].role.User?)
    && (forall h :: h in mine ==> mine[h] == subs[h])
  }

  function Mine(claims: map<nat, Claim>): set<nat> {
    set h | h in claims && claims[h].role.User?
  }

  ghost predicate Related(p: Shadow, s: State) {
    SubsRel(p.subs, s.subs, s.subClaims) && SpaceRel(p.space, s.space, Mine(s.cbClaims))
  }

  // ---------------------------------------------------------------- operations on one side, and on both

  /** A tracker's registration and its cancel change nothing on the left. */
  lemma WatchRel(p: Space, r: Space, mine: set<nat>, j: PairKey, cb: Callback)
    requires SpaceRel(p, r, mine) && r.lastHandle + 1 !in mine
    ensures SpaceRel(p, Apply(r, WatchOp(j, cb)), mine)
  {
    var r' := Apply(r, WatchOp(j, cb));
    HandlesStep(r, WatchOp(j, cb));
    forall k ensures EntryRel(p, r', mine, k) { assert EntryRel(p, r, mine, k); }
  }

  lemma UnwatchRel(p: Space, r: Space, mine: set<nat>, h: nat)
    requires SpaceRel(p, r, mine) && h !in mine
    ensures SpaceRel(p, Apply(r, Unwatch(h)), mine)
  {
    var r' := Apply(r, Unwatch(h));
    HandlesStep(r, Unwatch(h));
    forall k ensures EntryRel(p, r', mine, k) { assert EntryRel(p, r, mine, k); }
  }

  /** The application's own registration, under the same new handle. */
  lemma UserWatchRel(p: Space, r: Space, mine: set<nat>, j: PairKey, cb: Callback)
    requires SpaceRel(p, r, mine) && IndicesAgree(r)
    ensures var op, h := WatchOp(j, cb), r.lastHandle + 1;
            SpaceRel(Apply(p.(lastHandle := r.lastHandle), op), Apply(r, op), mine + {h})
  {
    var op, h := WatchOp(j, cb), r.lastHandle + 1;
    var p', r' := Apply(p.(lastHandle := r.lastHandle), op), Apply(r, op);
    HandlesStep(p.(lastHandle := r.lastHandle), op);
    HandlesStep(r, op);
    forall k ensures EntryRel(p', r', mine + {h}, k) {
      assert EntryRel(p, r, mine, k);
      assert h !in CallbacksOn(r, k);
      UserWatchEntry(p, r, mine, j, cb, k);
    }
  }

  lemma UserWatchEntry(p: Space, r: Space, mine: set<nat>, j: PairKey, cb: Callback, k: PairKey)
    requires EntryRel(p, r, mine, k) && p.wildcard == r.wildcard && r.lastHandle + 1 !in CallbacksOn(r, k)
    ensures var op, h := WatchOp(j, cb), r.lastHandle + 1;
            EntryRel(Apply(p.(lastHandle := r.lastHandle), op), Apply(r, op), mine + {h}, k)
  {
    var h := r.lastHandle + 1;
    if j.key != WILDCARD_KEY && j == k {
      WatchedEntry(p, r, mine, cb, k, h);
    } else {
      MoreMine(p, r, mine, h, k);
    }
  }

  /** A handle the entry does not have makes no difference to it. */
  lemma MoreMine(p: Space, r: Space, mine: set<nat>, h: nat, k: PairKey)
    requires EntryRel(p, r, mine, k) && h !in CallbacksOn(r, k)
    ensures EntryRel(p, r, mine + {h}, k)
  {
  }

  lemma WatchedEntry(p: Space, r: Space, mine: set<nat>, cb: Callback, k: PairKey, h: nat)
    requires EntryRel(p, r, mine, k) && p.wildcard == r.wildcard && h == r.lastHandle + 1 && h !in CallbacksOn(r, k)
    ensures EntryRel(AddCallback(p.(lastHandle := r.lastHandle), k, cb), AddCallback(r, k, cb), mine + {h}, k)
  {
    var p', r' := AddCallback(p.(lastHandle := r.lastHandle), k, cb), AddCallback(r, k, cb);
    WatchedFields(p.(lastHandle := r.lastHandle), k, cb);
    WatchedFields(r, k, cb);
    var a, b := CallbacksOn(p, k), CallbacksOn(r, k);
    assert CallbacksRel(a, b, mine);
    assert CallbacksRel(a[h := cb], b[h := cb], mine + {h});
    assert Placeholder(k).Id() == k;
  }

  lemma WatchedFields(s: Space, k: PairKey, cb: Callback)
    ensures var r := AddCallback(s, k, cb);
            && k in r.pairs && r.wildcard == s.wildcard
            && r.pairs[k].callbacks == CallbacksOn(s, k)[s.lastHandle + 1 := cb]
            && r.pairs[k].pair == (if k in s.pairs then s.pairs[k].pair else Placeholder(k))
            && r.pairs[k].subscribers == (if k in s.pairs then s.pairs[k].subscribers else s.wildcard)
  {
  }

  lemma UserUnwatchRel(p: Space, r: Space, mine: set<nat>, h: nat)
    requires SpaceRel(p, r, mine) && IndicesAgree(r) && (h in Handles(r) ==> h in mine)
    ensures SpaceRel(Apply(p, Unwatch(h)), Apply(r, Unwatch(h)), mine - {h})
  {
    var p', r' := Apply(p, Unwatch(h)), Apply(r, Unwatch(h));
    HandlesStep(p, Unwatch(h));
    HandlesStep(r, Unwatch(h));
    forall k ensures EntryRel(p', r', mine - {h}, k) {
      assert EntryRel(p, r, mine, k);
      assert h in CallbacksOn(r, k) <==> h in r.owners && r.owners[h] == k;
      UserUnwatchEntry(p, r, mine, h, k);
    }
  }

  lemma UserUnwatchEntry(p: Space, r: Space, mine: set<nat>, h: nat, k: PairKey)
    requires EntryRel(p, r, mine, k) && p.wildcard == r.wildcard
    requires h in CallbacksOn(r, k) <==> h in r.owners && r.owners[h] == k
    requires h in p.owners <==> h in r.owners && h in mine
    requires (h in p.owners ==> p.owners[h] == r.owners[h]) && (h in r.owners ==> h in mine)
    ensures EntryRel(Apply(p, Unwatch(h)), Apply(r, Unwatch(h)), mine - {h}, k)
  {
  }

  // ---------------------------------------------------------------- other pair-space traffic

  predicate IsTraffic(op: M.Op) { !op.Watch? && !op.WatchAll? && !op.Unwatch? }

  /**
   * The two cases in which a leftover placeholder shows: a wildcard subscriber cancels the key by itself, and
   * a pair nobody is on is removed while a tracker's callback keeps its entry although wildcard subscribers exist.
   */
  predicate Disturbs(p: Space, r: Space, op: M.Op) {
    match op
    case Unsubscribe(k, x) => k !in p.pairs && k in r.pairs && x in p.wildcard
    case Remove(k) =>
      && k in p.pairs && p.pairs[k].subscribers == [] && p.pairs[k].callbacks == map[]
      && k in r.pairs && r.pairs[k].callbacks != map[] && p.wildcard != []
    case _ => false
  }

  function Subject(op: M.Op): PairKey {
    match op
    case Publish(q) => q.Id()
    case Remove(k) => k
    case Subscribe(k, _) => k
    case Unsubscribe(k, _) => k
    case _ => PairKey(0, "")
  }

  lemma TrafficEntryIff(p: Space, r: Space, mine: set<nat>, op: M.Op, k: PairKey)
    requires EntryRel(p, r, mine, k) && p.wildcard == r.wildcard && IsTraffic(op)
    ensures EntryRel(Apply(p, op), Apply(r, op), mine, k) <==> !(Disturbs(p, r, op) && k == Subject(op))
  {
    match op
    case Publish(q) => PublishEntry(p, r, mine, q, k);
    case Remove(j) => if j == k { RemoveEntryIff(p, r, mine, k); }
    case Unsubscribe(j, x) => if j == k { UnsubscribeEntryIff(p, r, mine, k, x); }
    case Subscribe(j, x) => SubscribeEntry(p, r, mine, j, x, k);
    case SubscribeAll(x) => AllEntry(p, r, mine, x, k);
    case UnsubscribeAll(x) => AllEntry(p, r, mine, x, k);
  }

  /** An operation on one key leaves the entries of others alone. */
  lemma ElsewhereEntry(p: Space, r: Space, p': Space, r': Space, mine: set<nat>, k: PairKey)
    requires EntryRel(p, r, mine, k) && p'.wildcard == p.wildcard
    requires (k in p'.pairs <==> k in p.pairs) && (k in p.pairs ==> p'.pairs[k] == p.pairs[k])
    requires (k in r'.pairs <==> k in r.pairs) && (k in r.pairs ==> r'.pairs[k] == r.pairs[k])
    ensures EntryRel(p', r', mine, k)
  {
  }

  lemma PublishEntry(p: Space, r: Space, mine: set<nat>, q: Pair, k: PairKey)
    requires EntryRel(p, r, mine, k) && p.wildcard == r.wildcard
    ensures EntryRel(Apply(p, Publish(q)), Apply(r, Publish(q)), mine, k)
  {
    if k != q.Id() { ElsewhereEntry(p, r, AddPair(p, q), AddPair(r, q), mine, k); }
  }

  lemma SubscribeEntry(p: Space, r: Space, mine: set<nat>, j: PairKey, x: int, k: PairKey)
    requires EntryRel(p, r, mine, k) && p.wildcard == r.wildcard
    ensures EntryRel(Apply(p, M.Op.Subscribe(j, x)), Apply(r, M.Op.Subscribe(j, x)), mine, k)
  {
    if k != j {
      ElsewhereEntry(p, r, AddSubscription(p, j, x), AddSubscription(r, j, x), mine, k);
    } else {
      SubscribedFields(p, k, x);
      SubscribedFields(r, k, x);
      assert Placeholder(k).Id() == k;
    }
  }

  lemma SubscribedFields(s: Space, k: PairKey, x: int)
    ensures var r := AddSubscription(s, k, x);
            && k in r.pairs && r.wildcard == s.wildcard && r.pairs[k].callbacks == CallbacksOn(s, k)
            && r.pairs[k].pair == (if k in s.pairs then s.pairs[k].pair else Placeholder(k))
            && r.pairs[k].subscribers == AddOnce(if k in s.pairs then s.pairs[k].subscribers else s.wildcard, x)
  {
  }

  lemma AllEntry(p: Space, r: Space, mine: set<nat>, x: int, k: PairKey)
    requires EntryRel(p, r, mine, k) && p.wildcard == r.wildcard
    ensures EntryRel(Apply(p, SubscribeAll(x)), Apply(r, SubscribeAll(x)), mine, k)
    ensures EntryRel(Apply(p, UnsubscribeAll(x)), Apply(r, UnsubscribeAll(x)), mine, k)
  {
  }

  lemma UnsubscribeEntryIff(p: Space, r: Space, mine: set<nat>, k: PairKey, x: int)
    requires EntryRel(p, r, mine, k) && p.wildcard == r.wildcard
    ensures var op := M.Op.Unsubscribe(k, x); EntryRel(Apply(p, op), Apply(r, op), mine, k) <==> !Disturbs(p, r, op)
  {
    if k !in p.pairs && k in r.pairs {
      assert x in p.wildcard ==> Erase(p.wildcard, x) != p.wildcard;
      assert x !in p.wildcard ==> Erase(p.wildcard, x) == p.wildcard by { EraseNothing(p.wildcard, x); }
    }
  }

  lemma EraseNothing(list: seq<int>, x: int)
    ensures x !in list ==> Erase(list, x) == list
  {
    if list != [] { EraseNothing(list[1..], x); }
  }

  lemma RemoveEntryIff(p: Space, r: Space, mine: set<nat>, k: PairKey)
    requires EntryRel(p, r, mine, k) && p.wildcard == r.wildcard
    ensures EntryRel(Apply(p, Remove(k)), Apply(r, Remove(k)), mine, k) <==> !Disturbs(p, r, Remove(k))
  {
    if k in p.pairs {
      var a, b := p.pairs[k].callbacks, r.pairs[k].callbacks;
      if h :| h in a { assert h in b && b != map[]; }
      if b == map[] { assert a == map[]; }
    }
  }

  lemma TrafficRelIff(p: Space, r: Space, mine: set<nat>, op: M.Op)
    requires SpaceRel(p, r, mine) && IsTraffic(op)
    ensures SpaceRel(Apply(p, op), Apply(r, op), mine) <==> !Disturbs(p, r, op)
  {
    var p', r' := Apply(p, op), Apply(r, op);
    HandlesStep(p, op);
    HandlesStep(r, op);
    forall k ensures EntryRel(p', r', mine, k) <==> !(Disturbs(p, r, op) && k == Subject(op)) {
      assert EntryRel(p, r, mine, k);
      TrafficEntryIff(p, r, mine, op, k);
    }
    if Disturbs(p, r, op) { assert !EntryRel(p', r', mine, Subject(op)); }
  }

  // ---------------------------------------------------------------- tracker steps

  lemma RegisterRelated(p: Shadow, s: State, k: PairKey, cb: Callback, role: Role)
    requires Related(p, s) && CbsMatch(s.space, s.cbClaims) && !role.User?
    ensures Related(p, Register(s, k, cb, role).0)
  {
    var h := s.space.lastHandle + 1;
    assert h !in Handles(s.space);
    assert Mine(s.cbClaims[h := Claim(k, role)]) == Mine(s.cbClaims);
    WatchRel(p.space, s.space, Mine(s.cbClaims), k, cb);
  }

  lemma UnregisterRelated(p: Shadow, s: State, h: nat)
    requires Related(p, s) && h !in Mine(s.cbClaims)
    ensures Related(p, Unregister(s, h))
  {
    assert Mine(s.cbClaims - {h}) == Mine(s.cbClaims);
    UnwatchRel(p.space, s.space, Mine(s.cbClaims), h);
  }

  lemma SubscribeRelated(p: Shadow, s: State, k: PairKey, role: Role)
    requires Related(p, s) && !role.User? && s.lastSub + 1 !in s.subClaims
    ensures Related(p, MetaTracker.Subscribe(s, k, role).0)
  {
  }

  lemma UnsubscribeRelated(p: Shadow, s: State, h: nat)
    requires Related(p, s) && h !in Mine(s.subClaims)
    ensures Related(p, MetaTracker.Unsubscribe(s, h))
  {
  }

  /** What a tracker holds is not the application's. */
  lemma NotMine(s: State, mk: PairKey)
    requires Inv(s) && mk in s.trackers
    ensures var t := s.trackers[mk];
            && t.metaSub !in Mine(s.subClaims) && t.metaCb !in Mine(s.cbClaims)
            && t.targetSub !in Mine(s.subClaims) && t.targetCb !in Mine(s.cbClaims)
  {
    assert Claimed(mk, SubEnds(s.trackers)[mk], s.subClaims);
    assert Claimed(mk, CbEnds(s.trackers)[mk], s.cbClaims);
  }

  lemma ReleaseRelated(p: Shadow, s: State, mk: PairKey)
    requires Related(p, s) && Inv(s) && mk in s.trackers
    ensures Related(p, ReleaseTarget(s, mk))
  {
    var t := s.trackers[mk];
    NotMine(s, mk);
    var s1 := if t.targetCb != 0 then Unregister(s, t.targetCb) else s;
    if t.targetCb != 0 { UnregisterRelated(p, s, t.targetCb); }
    if t.targetSub != 0 { UnsubscribeRelated(p, s1, t.targetSub); }
  }

  lemma AcquireRelated(p: Shadow, s: State, mk: PairKey, k: PairKey)
    requires Related(p, s) && Inv(s) && mk in s.trackers
    ensures Related(p, AcquireTarget(s, mk, k))
  {
    var t, s1 := s.trackers[mk], MetaTracker.Subscribe(s, k, ForTarget(mk)).0;
    SubscribeRelated(p, s, k, ForTarget(mk));
    if t.fn.Some? { RegisterRelated(p, s1, k, t.fn.value, ForTarget(mk)); }
  }

  lemma TrackRelated(p: Shadow, s: State, mk: PairKey, fn: Option<Callback>)
    requires Related(p, s) && Inv(s)
    ensures Related(p, Track(s, mk, fn))
  {
    if mk !in s.trackers {
      SubscribeRelated(p, s, mk, ForMeta(mk));
      RegisterRelated(p, MetaTracker.Subscribe(s, mk, ForMeta(mk)).0, mk, ON_META_CHANGED, ForMeta(mk));
    }
  }

  lemma ForgetRelated(p: Shadow, s: State, mk: PairKey)
    requires Related(p, s) && Inv(s) && mk in s.trackers
    ensures Related(p, Forget(s, mk))
  {
    var t := s.trackers[mk];
    NotMine(s, mk);
    UnsubscribeRelated(p, s, t.metaSub);
    UnregisterRelated(p, MetaTracker.Unsubscribe(s, t.metaSub), t.metaCb);
  }

  /** No tracker operation shows on the left. */
  lemma TrackingRelated(p: Shadow, s: State, step: Step)
    requires Related(p, s) && Inv(s) && NoSharing(s, step) && (step.TrackMeta? || step.Changed? || step.UntrackMeta?)
    ensures Related(p, Next(s, step))
  {
    match step
    case TrackMeta(mk, fn) => TrackRelated(p, s, mk, fn);
    case Changed(mk, v) =>
      var target := ParseTracked(v);
      if mk in s.trackers && target != s.trackers[mk].target {
        ReleaseRelated(p, s, mk);
        ReleaseInv(s, mk);
        if target.Some? { AcquireRelated(p, ReleaseTarget(s, mk), mk, target.value); }
      }
    case UntrackMeta(mk) =>
      if mk in s.trackers {
        ReleaseRelated(p, s, mk);
        ReleaseInv(s, mk);
        ForgetRelated(p, ReleaseTarget(s, mk), mk);
        assert Untrack(s, mk) == Forget(ReleaseTarget(s, mk), mk);
      }
  }

  // ---------------------------------------------------------------- every step

  /** The step comes out differently because of a tracker: see `Disturbs`, and records a tracker already holds. */
  predicate Notices(p: Shadow, s: State, step: Step) {
    match step
    case UserSubscribe(k) => k in s.subs.Values && k !in p.subs.Values
    case PairOp(op) => Disturbs(p.space, s.space, op)
    case _ => false
  }

  lemma SubsAdded(mine: map<nat, PairKey>, subs: map<nat, PairKey>, claims: map<nat, Claim>, h: nat, k: PairKey)
    requires SubsRel(mine, subs, claims) && h !in subs
    ensures SubsRel(mine[h := k], subs[h := k], claims[h := Claim(k, User)])
    ensures !SubsRel(mine[h := k], subs, claims)
  {
    assert h in mine[h := k];
  }

  lemma SubsRemoved(mine: map<nat, PairKey>, subs: map<nat, PairKey>, claims: map<nat, Claim>, h: nat)
    requires SubsRel(mine, subs, claims)
    ensures SubsRel(mine - {h}, subs - {h}, claims - {h})
  {
  }

  lemma KeyRemoved(mine: map<nat, PairKey>, subs: map<nat, PairKey>, claims: map<nat, Claim>, k: PairKey)
    requires SubsRel(mine, subs, claims)
    ensures SubsRel(mine - RecordsOf(mine, k), subs - RecordsOf(subs, k), claims - RecordsOf(subs, k))
  {
  }

  lemma UserSubscribeIff(p: Shadow, s: State, k: PairKey)
    requires Related(p, s) && s.lastSub + 1 !in s.subs
    ensures Related(ShadowNext(p, s, UserSubscribe(k)), Next(s, UserSubscribe(k))) <==> !Notices(p, s, UserSubscribe(k))
  {
    var h := s.lastSub + 1;
    SubsAdded(p.subs, s.subs, s.subClaims, h, k);
    HeldHere(p.subs, s.subs, s.subClaims, k);
    if k in p.subs.Values {
      assert ShadowNext(p, s, UserSubscribe(k)) == p && Next(s, UserSubscribe(k)) == s;
    } else {
      var q := p.(subs := p.subs[h := k]);
      assert ShadowNext(p, s, UserSubscribe(k)) == q;
      AddedIff(p, s, q, Next(s, UserSubscribe(k)), h, k);
    }
  }

  lemma AddedIff(p: Shadow, s: State, q: Shadow, r: State, h: nat, k: PairKey)
    requires Related(p, s) && h !in s.subs && q == p.(subs := p.subs[h := k])
    requires r == if k in s.subs.Values then s
                  else s.(lastSub := h, subs := s.subs[h := k], subClaims := s.subClaims[h := Claim(k, User)])
    ensures Related(q, r) <==> k !in s.subs.Values
  {
    SubsAdded(p.subs, s.subs, s.subClaims, h, k);
    OnlySubs(p, s, q, r);
  }

  lemma OnlySubs(p: Shadow, s: State, p': Shadow, r: State)
    requires Related(p, s) && p'.space == p.space && r.space == s.space && r.cbClaims == s.cbClaims
    ensures Related(p', r) <==> SubsRel(p'.subs, r.subs, r.subClaims)
  {
  }

  lemma HeldHere(mine: map<nat, PairKey>, subs: map<nat, PairKey>, claims: map<nat, Claim>, k: PairKey)
    requires SubsRel(mine, subs, claims)
    ensures k in mine.Values ==> k in subs.Values
  {
    if k in mine.Values {
      var g :| g in mine && mine[g] == k;
      assert g in subs && subs[g] == k;
    }
  }

  lemma UserWatchRelated(p: Shadow, s: State, k: PairKey, cb: Callback)
    requires Related(p, s) && CbsMatch(s.space, s.cbClaims)
    ensures Related(ShadowNext(p, s, UserWatch(k, cb)), Next(s, UserWatch(k, cb)))
  {
    var h, r := s.space.lastHandle + 1, Next(s, UserWatch(k, cb));
    UserWatchRel(p.space, s.space, Mine(s.cbClaims), k, cb);
    assert r.space == Apply(s.space, WatchOp(k, cb)) && r.cbClaims == s.cbClaims[h := Claim(k, User)];
    assert r.subs == s.subs && r.subClaims == s.subClaims;
    MineAdded(s.cbClaims, h, k);
  }

  lemma MineAdded(claims: map<nat, Claim>, h: nat, k: PairKey)
    ensures Mine(claims[h := Claim(k, User)]) == Mine(claims) + {h}
    ensures Mine(claims - {h}) == Mine(claims) - {h}
  {
  }

  lemma UserUnwatchRelated(p: Shadow, s: State, h: nat)
    requires Related(p, s) && CbsMatch(s.space, s.cbClaims) && Enabled(s, UserUnwatch(h))
    ensures Related(ShadowNext(p, s, UserUnwatch(h)), Next(s, UserUnwatch(h)))
  {
    UserUnwatchRel(p.space, s.space, Mine(s.cbClaims), h);
    MineAdded(s.cbClaims, h, PairKey(0, ""));
  }

  lemma UserStepRelated(p: Shadow, s: State, step: Step)
    requires Related(p, s) && Inv(s) && Enabled(s, step)
    requires step.UserUnsubscribe? || step.UserCancelKey? || step.UserWatch? || step.UserUnwatch?
    ensures Related(ShadowNext(p, s, step), Next(s, step))
  {
    match step
    case UserUnsubscribe(h) => SubsRemoved(p.subs, s.subs, s.subClaims, h);
    case UserCancelKey(k) => KeyRemoved(p.subs, s.subs, s.subClaims, k);
    case UserWatch(k, cb) => UserWatchRelated(p, s, k, cb);
    case UserUnwatch(h) => UserUnwatchRelated(p, s, h);
  }

  /** The two sides stay related through exactly the steps that notice no tracker. */
  lemma StepRelatedIff(p: Shadow, s: State, step: Step)
    requires Related(p, s) && Inv(s) && Enabled(s, step) && NoSharing(s, step)
    ensures Related(ShadowNext(p, s, step), Next(s, step)) <==> !Notices(p, s, step)
  {
    match step
    case TrackMeta(_, _) => TrackingRelated(p, s, step);
    case Changed(_, _) => TrackingRelated(p, s, step);
    case UntrackMeta(_) => TrackingRelated(p, s, step);
    case UserSubscribe(k) =>
      assert s.lastSub + 1 !in s.subs;
      UserSubscribeIff(p, s, k);
    case PairOp(op) => TrafficRelIff(p.space, s.space, Mine(s.cbClaims), op);
    case _ => UserStepRelated(p, s, step);
  }

  // ---------------------------------------------------------------- theorem over every run

  /** The steps from `i` on, without trackers, from the state at `i`. */
  function ShadowAt(states: seq<State>, steps: seq<Step>, i: nat, j: nat): Shadow
    requires i <= j < |states| && |states| == |steps| + 1
    decreases j
  {
    if i == j then Shadow(states[i].subs, states[i].space)
    else ShadowNext(ShadowAt(states, steps, i, j - 1), states[j - 1], steps[j - 1])
  }

  /** Step `n` of the stretch from `i` comes out differently because of a tracker. */
  predicate Noticed(states: seq<State>, steps: seq<Step>, i: nat, n: nat)
    requires i <= n < |steps| && |states| == |steps| + 1
  {
    Notices(ShadowAt(states, steps, i, n), states[n], steps[n])
  }

  lemma {:induction false} RunKeys(states: seq<State>, steps: seq<Step>, i: nat)
    requires IsRun(states, steps) && i < |states|
    ensures KeysMatch(states[i].space)
  {
    if i > 0 {
      RunKeys(states, steps, i - 1);
      StepKeys(states[i - 1], steps[i - 1]);
    }
  }

  lemma WatchKeys(s: Space, k: PairKey, cb: Callback, h: nat)
    requires KeysMatch(s)
    ensures KeysMatch(Apply(s, WatchOp(k, cb))) && KeysMatch(Apply(s, Unwatch(h)))
  {
    StepKeepsKeys(s, WatchOp(k, cb));
    StepKeepsKeys(s, Unwatch(h));
  }

  lemma ReleaseKeys(s: State, mk: PairKey)
    requires KeysMatch(s.space) && mk in s.trackers
    ensures KeysMatch(ReleaseTarget(s, mk).space) && KeysMatch(Forget(s, mk).space)
  {
    WatchKeys(s.space, mk, 0, s.trackers[mk].targetCb);
    WatchKeys(s.space, mk, 0, s.trackers[mk].metaCb);
  }

  lemma AcquireKeys(s: State, mk: PairKey, k: PairKey)
    requires KeysMatch(s.space) && mk in s.trackers
    ensures KeysMatch(AcquireTarget(s, mk, k).space)
  {
    if s.trackers[mk].fn.Some? { WatchKeys(s.space, k, s.trackers[mk].fn.value, 0); }
  }

  lemma StepKeys(s: State, step: Step)
    requires KeysMatch(s.space)
    ensures KeysMatch(Next(s, step).space)
  {
    match step
    case TrackMeta(mk, _) => WatchKeys(s.space, mk, ON_META_CHANGED, 0);
    case Changed(mk, v) =>
      if mk in s.trackers {
        ReleaseKeys(s, mk);
        if ParseTracked(v).Some? { AcquireKeys(ReleaseTarget(s, mk), mk, ParseTracked(v).value); }
      }
    case UntrackMeta(mk) =>
      if mk in s.trackers {
        ReleaseKeys(s, mk);
        ReleaseKeys(ReleaseTarget(s, mk), mk);
        assert Untrack(s, mk) == Forget(ReleaseTarget(s, mk), mk);
      }
    case UserWatch(k, cb) => WatchKeys(s.space, k, cb, 0);
    case UserUnwatch(h) => WatchKeys(s.space, PairKey(0, ""), 0, h);
    case PairOp(op) => StepKeepsKeys(s.space, op);
    case _ =>
  }

  /** Without trackers every live registration is the application's. */
  lemma AllMine(s: State)
    requires Inv(s) && s.trackers == map[]
    ensures forall h :: h in s.subs ==> h in s.subClaims && s.subClaims[h].role.User?
    ensures Mine(s.cbClaims) == Handles(s.space)
  {
    forall h | h in s.cbClaims ensures s.cbClaims[h].role.User? {
      assert Held(h, s.cbClaims[h].role, CbEnds(s.trackers));
    }
    forall h | h in s.subs ensures h in s.subClaims && s.subClaims[h].role.User? {
      assert Held(h, s.subClaims[h].role, SubEnds(s.trackers));
    }
  }

  lemma StartsRelated(s: State)
    requires Inv(s) && s.trackers == map[] && KeysMatch(s.space)
    ensures Related(Shadow(s.subs, s.space), s)
  {
    AllMine(s);
    forall k ensures EntryRel(s.space, s.space, Mine(s.cbClaims), k) { InMine(s.space, k); }
  }

  lemma InMine(space: Space, k: PairKey)
    requires IndicesAgree(space)
    ensures forall h :: h in CallbacksOn(space, k) ==> h in Handles(space)
  {
  }

  lemma {:induction false} StaysRelated(states: seq<State>, steps: seq<Step>, i: nat, j: nat)
    requires IsRun(states, steps) && i <= j < |states| && states[i].trackers == map[]
    requires forall n :: i <= n < j ==> !Noticed(states, steps, i, n)
    ensures Related(ShadowAt(states, steps, i, j), states[j])
    decreases j
  {
    if i == j {
      RunInv(states, steps, i);
      RunKeys(states, steps, i);
      StartsRelated(states[i]);
    } else {
      StaysRelated(states, steps, i, j - 1);
      RunInv(states, steps, j - 1);
      assert !Noticed(states, steps, i, j - 1);
      StepRelatedIff(ShadowAt(states, steps, i, j - 1), states[j - 1], steps[j - 1]);
    }
  }

  /**
   * Take any stretch of any run between two states without trackers. However trackers came, followed and went
   * in it, and whatever the application registered, cancelled and published meanwhile, unless a step noticed a
   * tracker the records and the callbacks end up as if there had been none, and so does every entry of the pair
   * space; the entries there are besides are empty placeholders with the subscribers any new entry would get.
   */
  lemma CancellingRestores(states: seq<State>, steps: seq<Step>, i: nat, j: nat)
    requires IsRun(states, steps) && i <= j < |states|
    requires states[i].trackers == map[] && states[j].trackers == map[]
    requires forall n :: i <= n < j ==> !Noticed(states, steps, i, n)
    ensures var p, s := ShadowAt(states, steps, i, j), states[j];
            && s.subs == p.subs
            && s.space.owners == p.space.owners && s.space.universal == p.space.universal
                 && s.space.wildcard == p.space.wildcard
            && (forall k :: k in p.space.pairs ==> k in s.space.pairs && s.space.pairs[k] == p.space.pairs[k])
            && (forall k :: k in s.space.pairs && k !in p.space.pairs ==>
                  s.space.pairs[k] == Entry(Placeholder(k), p.space.wildcard, map[]))
  {
    var p, s := ShadowAt(states, steps, i, j), states[j];
    StaysRelated(states, steps, i, j);
    RunInv(states, steps, j);
    AllMine(s);
    assert s.subs == p.subs;
    forall k | k in s.space.pairs
      ensures s.space.pairs[k] == if k in p.space.pairs then p.space.pairs[k]
          else Entry(Placeholder(k), p.space.wildcard, map[])
    {
      assert EntryRel(p.space, s.space, Mine(s.cbClaims), k);
      InMine(s.space, k);
      var a, b := if k in p.space.pairs then p.space.pairs[k].callbacks else map[], s.space.pairs[k].callbacks;
      assert CallbacksRel(a, b, Handles(s.space));
      assert forall h :: h in b ==> h in CallbacksOn(s.space, k);
      assert a == b;
    }
    forall k | k in p.space.pairs ensures k in s.space.pairs { assert EntryRel(p.space, s.space, Mine(s.cbClaims), k); }
  }
}
