/** The tracker table as the mutable global it is, over the client's records and the pair space. */
module MetaTrackerTable {
  import opened Base
  import opened P = PairSpaceModel
  import opened MetaText
  import M = MetaTracker

  class Trackers {
    var trackers: map<PairKey, M.Tracker>
    var subs: map<nat, PairKey>
    var lastSub: nat
    var space: Space
    ghost var subClaims: map<nat, M.Claim>
    ghost var cbClaims: map<nat, M.Claim>

    ghost function View(): M.State
      reads this
    {
      M.State(trackers, subs, lastSub, space, subClaims, cbClaims)
    }

    constructor ()
      ensures View() == M.INIT
    {
      trackers, subs, lastSub, space, subClaims, cbClaims := map[], map[], 0, EMPTY_SPACE, map[], map[];
    }

    method RegisterSubscription(k: PairKey, ghost role: M.Role) returns (handle: nat)
      modifies this`subs, this`lastSub, this`subClaims
      ensures (View(), handle) == M.Subscribe(old(View()), k, role)
    {
      if k in subs.Values { return 0; }
      lastSub := lastSub + 1;
      handle := lastSub;
      subs := subs[handle := k];
      subClaims := subClaims[handle := M.Claim(k, role)];
    }

    method CancelSubscription(handle: nat)
      modifies this`subs, this`subClaims
      ensures View() == M.Unsubscribe(old(View()), handle)
    {
      subs, subClaims := subs - {handle}, subClaims - {handle};
    }

    method RegisterCallback(k: PairKey, fn: Callback, ghost role: M.Role) returns (handle: nat)
      modifies this`space, this`cbClaims
      ensures (View(), handle) == M.Register(old(View()), k, fn, role)
    {
      handle := space.lastHandle + 1;
      space := if k.key == WILDCARD_KEY then AddCallbackToAll(space, fn) else AddCallback(space, k, fn);
      cbClaims := cbClaims[handle := M.Claim(k, role)];
    }

    method CancelCallback(handle: nat)
      modifies this`space, this`cbClaims
      ensures View() == M.Unregister(old(View()), handle)
    {
      space := RemoveCallback(space, handle);
      cbClaims := cbClaims - {handle};
    }

    method ReleaseTarget(mk: PairKey)
      requires mk in trackers
      modifies this
      ensures View() == M.ReleaseTarget(old(View()), mk)
    {
      var t := trackers[mk];
      if t.targetCb != 0 {
        CancelCallback(t.targetCb);
        t := t.(targetCb := 0);
      }
      if t.targetSub != 0 {
        CancelSubscription(t.targetSub);
        t := t.(targetSub := 0);
      }
      trackers := trackers[mk := t.(target := None)];
    }

    method AcquireTarget(mk: PairKey, k: PairKey)
      requires mk in trackers
      modifies this
      ensures View() == M.AcquireTarget(old(View()), mk, k)
    {
      var t := trackers[mk].(target := Some(k));
      var sub := RegisterSubscription(k, M.ForTarget(mk));
      t := t.(targetSub := sub);
      if t.fn.Some? {
        var cb := RegisterCallback(k, t.fn.value, M.ForTarget(mk));
        t := t.(targetCb := cb);
      }
      trackers := trackers[mk := t];
    }

    method OnMetaPairChanged(mk: PairKey, value: string)
      modifies this
      ensures View() == M.MetaChanged(old(View()), mk, value)
    {
      if mk !in trackers { return; }
      var target := ParseTracked(value);
      if target == trackers[mk].target { return; }
      ReleaseTarget(mk);
      if target.Some? { AcquireTarget(mk, target.value); }
    }

    method RegisterTracker(mk: PairKey, fn: Option<Callback>)
      modifies this
      ensures View() == M.Track(old(View()), mk, fn)
    {
      if mk in trackers {
        trackers := trackers[mk := trackers[mk].(fn := fn)];
        return;
      }
      var sub := RegisterSubscription(mk, M.ForMeta(mk));
      var cb := RegisterCallback(mk, M.ON_META_CHANGED, M.ForMeta(mk));
      trackers := trackers[mk := M.Tracker(fn, sub, cb, None, 0, 0)];
    }

    method CancelMetaCallback(mk: PairKey)
      modifies this
      ensures View() == M.Untrack(old(View()), mk)
    {
      if mk !in trackers { return; }
      ReleaseTarget(mk);
      CancelSubscription(trackers[mk].metaSub);
      CancelCallback(trackers[mk].metaCb);
      trackers := trackers - {mk};
    }
  }
}
