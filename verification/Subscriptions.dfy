/**
 * A client's subscription records against one component's pair space: registering, cancelling,
 * connecting late with a bounded pending queue, and the frames in between.
 */
module Subscriptions {
  import opened Base
  import opened M = PairSpaceModel

  datatype Record = Record(owner: int, key: string)

  /** What travels on the link. A subscription names its key; anything else only takes up room. */
  datatype Frame = Sub(key: string, registering: bool) | Other

  datatype Link =
    | Unknown                                  // the component has not been announced yet
    | Connecting(pending: seq<Frame>)
    | Connected(undelivered: seq<Frame>)

  /** `me` subscribes, `peer` owns `space`. */
  datatype State = State(
    me: int, peer: int,
    records: map<nat, Record>, lastHandle: nat,
    link: Link, space: Space)

  function Init(me: int, peer: int): State { State(me, peer, map[], 0, Unknown, EMPTY_SPACE) }

  datatype Step =
    | Register(owner: int, key: string)
    | Cancel(handle: nat)
    | Announce
    | Connect
    | Deliver
    | SendOther
    | OwnerOp(op: M.Op)

  // ---------------------------------------------------------------- the client side

  predicate Applies(r: Record, peer: int) { r.owner == ANY_OWNER || r.owner == peer }

  predicate Duplicate(records: map<nat, Record>, r: Record) { r in records.Values }

  /** `ClientSession::send`: queued behind the connection, or held with the oldest dropped at the cap. */
  function Send(link: Link, f: Frame): Link {
    match link
    case Unknown => link
    case Connecting(p) => Connecting(HoldBack(p, f))
    case Connected(u) => Connected(u + [f])
  }

  function SendIf(link: Link, applies: bool, f: Frame): Link { if applies then Send(link, f) else link }

  /** `sendSubscriptionsFor`: every applying record, in handle order. */
  function Replay(records: map<nat, Record>, peer: int, n: nat): seq<Frame> {
    if n == 0 then []
    else
      var before := Replay(records, peer, n - 1);
      if n in records && Applies(records[n], peer) then before + [Sub(records[n].key, true)] else before
  }

  // ---------------------------------------------------------------- the owner side

  /** `handleSubscription` on a frame addressed to this owner. */
  function SubscriptionOp(f: Frame, peer: int, me: int): M.Op
    requires f.Sub?
  {
    if f.key == WILDCARD_KEY then (if f.registering then SubscribeAll(me) else UnsubscribeAll(me))
    else if f.registering then Subscribe(PairKey(peer, f.key), me)
    else Unsubscribe(PairKey(peer, f.key), me)
  }

  function Handle(space: Space, f: Frame, peer: int, me: int): Space {
    if f.Other? then space else Apply(space, SubscriptionOp(f, peer, me))
  }

  function HandleAll(space: Space, fs: seq<Frame>, peer: int, me: int): Space
    decreases |fs|
  {
    if fs == [] then space else HandleAll(Handle(space, fs[0], peer, me), fs[1..], peer, me)
  }

  /** An update of the owner's key would reach `me`, now or as soon as the key is published. */
  predicate Listens(space: Space, peer: int, me: int, key: string) {
    var k := PairKey(peer, key);
    me in if k in space.pairs then space.pairs[k].subscribers else space.wildcard
  }

  /** The owner does something that is not a subscription of `me`. */
  predicate NotAbout(op: M.Op, me: int) {
    (op.Subscribe? || op.Unsubscribe? || op.SubscribeAll? || op.UnsubscribeAll?) ==> op.who != me
  }

  predicate Enabled(s: State, step: Step) {
    match step
    case Register(_, _) => true
    case Cancel(_) => true
    case Announce => s.link.Unknown?
    case Connect => s.link.Connecting?
    case Deliver => s.link.Connected? && s.link.undelivered != []
    case SendOther => true
    case OwnerOp(op) => NotAbout(op, s.me)
  }

  function Next(s: State, step: Step): State
    requires Enabled(s, step)
  {
    match step
    case Register(owner, key) =>
      var r := Record(owner, key);
      if Duplicate(s.records, r) then s
      else s.(lastHandle := s.lastHandle + 1, records := s.records[s.lastHandle + 1 := r],
              link := SendIf(s.link, Applies(r, s.peer), Sub(key, true)))
    case Cancel(h) =>
      if h !in s.records then s
      else s.(records := s.records - {h},
              link := SendIf(s.link, Applies(s.records[h], s.peer), Sub(s.records[h].key, false)))
    case Announce => s.(link := Connecting([]))
    case Connect => s.(link := Connected(s.link.pending + Replay(s.records, s.peer, s.lastHandle)))
    case Deliver =>
      s.(link := Connected(s.link.undelivered[1..]), space := Handle(s.space, s.link.undelivered[0], s.peer, s.me))
    case SendOther => s.(link := Send(s.link, Other))
    case OwnerOp(op) => s.(space := Apply(s.space, op))
  }

  /** Both records ask the peer for some common key. */
  predicate Overlap(r: Record, q: Record, peer: int) {
    Applies(r, peer) && Applies(q, peer) && (r.key == q.key || r.key == WILDCARD_KEY || q.key == WILDCARD_KEY)
  }

  /** No other record overlaps the one under `h`. */
  predicate Alone(records: map<nat, Record>, peer: int, h: nat)
    requires h in records
  {
    forall g :: g in records && g != h ==> !Overlap(records[h], records[g], peer)
  }

  /** The step cancels no record that overlaps another one, on a peer already known. */
  predicate Safe(s: State, step: Step) {
    step.Cancel? && step.handle in s.records && !s.link.Unknown? ==> Alone(s.records, s.peer, step.handle)
  }

  ghost predicate IsRun(states: seq<State>, steps: seq<Step>, me: int, peer: int) {
    && |states| == |steps| + 1 && states[0] == Init(me, peer) && me != peer
    && forall i :: 0 <= i < |steps| ==> Enabled(states[i], steps[i]) && states[i + 1] == Next(states[i], steps[i])
  }

  /** Some record asks for this key of the peer. */
  ghost predicate Wanted(records: map<nat, Record>, peer: int, key: string) {
    exists h :: h in records && Applies(records[h], peer) && (records[h].key == key || records[h].key == WILDCARD_KEY)
  }

  ghost predicate WantsAll(records: map<nat, Record>, peer: int) {
    exists h :: h in records && Applies(records[h], peer) && records[h].key == WILDCARD_KEY
  }

  // ---------------------------------------------------------------- frames, abstractly

  predicate Relevant(f: Frame, key: string) { f.Sub? && (f.key == key || f.key == WILDCARD_KEY) }

  /** Whether `key` is listened to after `fs`, from `b`. */
  function After(fs: seq<Frame>, key: string, b: bool): bool {
    if fs == [] then b else After(fs[1..], key, if Relevant(fs[0], key) then fs[0].registering else b)
  }

  function Flag(f: Frame, wild: bool): bool {
    if f.Sub? && f.key == WILDCARD_KEY then f.registering else wild
  }

  /** Whether the subscriber is a wildcard one after `fs`. */
  function WildAfter(fs: seq<Frame>, wild: bool): bool {
    if fs == [] then wild else WildAfter(fs[1..], Flag(fs[0], wild))
  }

  /** No single key is cancelled while the subscriber is a wildcard one. */
  predicate Clean(fs: seq<Frame>, wild: bool) {
    fs == [] ||
    (!(wild && fs[0].Sub? && !fs[0].registering && fs[0].key != WILDCARD_KEY) && Clean(fs[1..], Flag(fs[0], wild)))
  }

  lemma {:induction false} Snoc(fs: seq<Frame>, f: Frame, key: string, b: bool, wild: bool)
    ensures After(fs + [f], key, b) == if Relevant(f, key) then f.registering else After(fs, key, b)
    ensures WildAfter(fs + [f], wild) == Flag(f, WildAfter(fs, wild))
    ensures Clean(fs + [f], wild) <==>
              Clean(fs, wild) && !(WildAfter(fs, wild) && f.Sub? && !f.registering && f.key != WILDCARD_KEY)
  {
    if fs == [] {
      assert [] + [f] == [f] && [f][1..] == [];
    } else {
      assert (fs + [f])[1..] == fs[1..] + [f];
      Snoc(fs[1..], f, key, if Relevant(fs[0], key) then fs[0].registering else b, Flag(fs[0], wild));
    }
  }

  /** Starting from less, one ends with no more; what was clean stays clean. */
  lemma {:induction false} Monotone(fs: seq<Frame>, key: string, b: bool, wild: bool)
    ensures After(fs, key, false) ==> After(fs, key, b)
    ensures WildAfter(fs, false) ==> WildAfter(fs, wild)
    ensures Clean(fs, wild) ==> Clean(fs, false)
  {
    if fs != [] {
      Monotone(fs[1..], key, if Relevant(fs[0], key) then fs[0].registering else b, Flag(fs[0], wild));
      if !Relevant(fs[0], key) { Monotone(fs[1..], key, b, wild); }
    }
  }

  // ---------------------------------------------------------------- frames, on the pair space

  /** A wildcard subscriber is on every entry. */
  ghost predicate Coherent(space: Space, me: int) {
    me in space.wildcard ==> forall k :: k in space.pairs ==> me in space.pairs[k].subscribers
  }

  lemma HandleView(space: Space, f: Frame, peer: int, me: int, key: string)
    requires Coherent(space, me) && Clean([f], me in space.wildcard)
    ensures var r := Handle(space, f, peer, me);
            && Coherent(r, me) && (me in r.wildcard) == Flag(f, me in space.wildcard)
            && Listens(r, peer, me, key) == if Relevant(f, key) then f.registering else Listens(space, peer, me, key)
  {
    if f.Sub? {
      var op := SubscriptionOp(f, peer, me);
      SubscribersStep(space, op, PairKey(peer, key));
      forall k | k in Apply(space, op).pairs && me in Apply(space, op).wildcard
        ensures me in Apply(space, op).pairs[k].subscribers
      {
        SubscribersStep(space, op, k);
      }
    }
  }

  /** What other parties do to the space does not change what `me` listens to. */
  lemma OtherView(space: Space, op: M.Op, peer: int, me: int, key: string)
    requires Coherent(space, me) && NotAbout(op, me)
    ensures var r := Apply(space, op);
            && Coherent(r, me) && (me in r.wildcard <==> me in space.wildcard)
            && (Listens(r, peer, me, key) <==> Listens(space, peer, me, key))
  {
    var r := Apply(space, op);
    OtherWildcard(space, op, me);
    OtherEntry(space, op, me, PairKey(peer, key));
    forall k | k in r.pairs && me in r.wildcard
      ensures me in r.pairs[k].subscribers
    {
      OtherEntry(space, op, me, k);
    }
  }

  lemma OtherWildcard(space: Space, op: M.Op, me: int)
    requires NotAbout(op, me)
    ensures me in Apply(space, op).wildcard <==> me in space.wildcard
  {
  }

  /** Membership of `me` on one entry, an absent entry standing for what it would inherit. */
  lemma OtherEntry(space: Space, op: M.Op, me: int, k: PairKey)
    requires Coherent(space, me) && NotAbout(op, me)
    ensures var r := Apply(space, op);
            (me in if k in r.pairs then r.pairs[k].subscribers else r.wildcard)
            <==> (me in if k in space.pairs then space.pairs[k].subscribers else space.wildcard)
  {
    SubscribersStep(space, op, k);
    OtherWildcard(space, op, me);
    if k in space.pairs { ErasesOnlyUnregistered(space, op, k); }
  }

  lemma {:induction false} HandleAllView(space: Space, fs: seq<Frame>, peer: int, me: int, key: string)
    requires Coherent(space, me) && Clean(fs, me in space.wildcard)
    ensures Listens(HandleAll(space, fs, peer, me), peer, me, key) == After(fs, key, Listens(space, peer, me, key))
    decreases |fs|
  {
    if fs != [] {
      assert Clean([fs[0]], me in space.wildcard) by { assert [fs[0]][1..] == []; }
      HandleView(space, fs[0], peer, me, key);
      HandleAllView(Handle(space, fs[0], peer, me), fs[1..], peer, me, key);
    }
  }

  // ---------------------------------------------------------------- records

  predicate Covers(r: Record, key: string) { r.key == key || r.key == WILDCARD_KEY }

  lemma WantedAfterRegister(records: map<nat, Record>, h: nat, r: Record, peer: int, key: string)
    requires h !in records
    ensures Wanted(records[h := r], peer, key) <==> Wanted(records, peer, key) || (Applies(r, peer) && Covers(r, key))
    ensures WantsAll(records[h := r], peer) <==> WantsAll(records, peer) || (Applies(r, peer) && r.key == WILDCARD_KEY)
  {
    var more := records[h := r];
    if Wanted(records, peer, key) {
      var g :| g in records && Applies(records[g], peer) && Covers(records[g], key);
      assert more[g] == records[g];
    }
    if WantsAll(records, peer) {
      var g :| g in records && Applies(records[g], peer) && records[g].key == WILDCARD_KEY;
      assert more[g] == records[g];
    }
    assert more[h] == r;
    if g :| g in more && Applies(more[g], peer) && Covers(more[g], key) { assert g != h ==> more[g] == records[g]; }
    if g :| g in more && Applies(more[g], peer) && more[g].key == WILDCARD_KEY {
      assert g != h ==> more[g] == records[g];
    }
  }

  lemma WantedAfterCancel(records: map<nat, Record>, h: nat, peer: int, key: string)
    requires h in records && Alone(records, peer, h)
    ensures var r := records[h];
            && (Wanted(records - {h}, peer, key) <==>
                 Wanted(records, peer, key) && !(Applies(r, peer) && Covers(r, key)))
            && (WantsAll(records - {h}, peer) <==>
                 WantsAll(records, peer) && !(Applies(r, peer) && r.key == WILDCARD_KEY))
            && (Applies(r, peer) && r.key != WILDCARD_KEY ==> !WantsAll(records, peer))
  {
    var fewer := records - {h};
    forall g | g in records && g != h ensures g in fewer && fewer[g] == records[g] {}
  }

  lemma {:induction false} ReplayCovers(records: map<nat, Record>, peer: int, n: nat, key: string, b: bool, wild: bool)
    ensures var fs := Replay(records, peer, n);
            && (After(fs, key, b) <==>
                 b || exists h :: 1 <= h <= n && h in records && Applies(records[h], peer) && Covers(records[h], key))
            && (WildAfter(fs, wild) <==> wild || exists h ::
                 1 <= h <= n && h in records && Applies(records[h], peer) && records[h].key == WILDCARD_KEY)
            && Clean(fs, wild)
  {
    if n > 0 {
      ReplayCovers(records, peer, n - 1, key, b, wild);
      if n in records && Applies(records[n], peer) {
        Snoc(Replay(records, peer, n - 1), Sub(records[n].key, true), key, b, wild);
      }
    }
  }

  lemma {:induction false} Concat(fs: seq<Frame>, gs: seq<Frame>, key: string, b: bool, wild: bool)
    ensures After(fs + gs, key, b) == After(gs, key, After(fs, key, b))
    ensures WildAfter(fs + gs, wild) == WildAfter(gs, WildAfter(fs, wild))
    ensures Clean(fs + gs, wild) <==> Clean(fs, wild) && Clean(gs, WildAfter(fs, wild))
  {
    if fs == [] {
      assert fs + gs == gs;
    } else {
      assert (fs + gs)[1..] == fs[1..] + gs;
      Concat(fs[1..], gs, key, if Relevant(fs[0], key) then fs[0].registering else b, Flag(fs[0], wild));
    }
  }

  // ---------------------------------------------------------------- invariant

  ghost predicate Fresh(space: Space, me: int) {
    me !in space.wildcard && forall k :: k in space.pairs ==> me !in space.pairs[k].subscribers
  }

  /** Frames `fs`, handled from a space where `key` is listened to iff `b`, bring about what is wanted. */
  ghost predicate KeyAgrees(s: State, fs: seq<Frame>, key: string, b: bool) {
    After(fs, key, b) <==> Wanted(s.records, s.peer, key)
  }

  ghost predicate PendingOk(s: State, p: seq<Frame>) {
    && Fresh(s.space, s.me) && Clean(p, false)
    && (WildAfter(p, false) ==> WantsAll(s.records, s.peer))
    && (forall key :: After(p, key, false) ==> Wanted(s.records, s.peer, key))
  }

  ghost predicate UndeliveredOk(s: State, u: seq<Frame>) {
    var wild := s.me in s.space.wildcard;
    && Coherent(s.space, s.me) && Clean(u, wild)
    && (WildAfter(u, wild) <==> WantsAll(s.records, s.peer))
    && (forall key :: KeyAgrees(s, u, key, Listens(s.space, s.peer, s.me, key)))
  }

  ghost predicate Inv(s: State) {
    && (forall h :: h in s.records ==> 1 <= h <= s.lastHandle)
    && match s.link
       case Unknown => Fresh(s.space, s.me)
       case Connecting(p) => PendingOk(s, p)
       case Connected(u) => UndeliveredOk(s, u)
  }

  /** The two ways records change, seen from the peer: `f` is what is sent about it. */
  ghost predicate Matches(s: State, s': State, f: Frame) {
    && s'.space == s.space && s'.me == s.me && s'.peer == s.peer && f.Sub?
    && (forall key :: Wanted(s'.records, s.peer, key) <==>
         if Relevant(f, key) then f.registering else Wanted(s.records, s.peer, key))
    && (WantsAll(s'.records, s.peer) <==> Flag(f, WantsAll(s.records, s.peer)))
    && (!f.registering && f.key != WILDCARD_KEY ==> !WantsAll(s.records, s.peer))
  }

  lemma PendingAppend(s: State, s': State, p: seq<Frame>, f: Frame)
    requires PendingOk(s, p) && Matches(s, s', f)
    ensures PendingOk(s', p + [f])
  {
    Snoc(p, f, "", false, false);
    forall key | After(p + [f], key, false) ensures Wanted(s'.records, s'.peer, key) { Snoc(p, f, key, false, false); }
  }

  /** Dropping the oldest pending frame can only forget a registration, which the replay restores. */
  lemma PendingDrop(s: State, p: seq<Frame>)
    requires PendingOk(s, p) && p != []
    ensures PendingOk(s, p[1..])
  {
    Monotone(p[1..], "", false, Flag(p[0], false));
    forall key | After(p[1..], key, false) ensures Wanted(s.records, s.peer, key) {
      Monotone(p[1..], key, if Relevant(p[0], key) then p[0].registering else false, false);
      assert After(p, key, false);
    }
  }

  lemma UndeliveredAppend(s: State, s': State, u: seq<Frame>, f: Frame)
    requires UndeliveredOk(s, u) && Matches(s, s', f)
    ensures UndeliveredOk(s', u + [f])
  {
    var wild := s.me in s.space.wildcard;
    Snoc(u, f, "", false, wild);
    forall key ensures KeyAgrees(s', u + [f], key, Listens(s'.space, s'.peer, s'.me, key)) {
      Snoc(u, f, key, Listens(s.space, s.peer, s.me, key), wild);
      assert KeyAgrees(s, u, key, Listens(s.space, s.peer, s.me, key));
    }
  }

  lemma OtherAppend(s: State, u: seq<Frame>)
    ensures PendingOk(s, u) ==> PendingOk(s, u + [Other])
    ensures UndeliveredOk(s, u) ==> UndeliveredOk(s, u + [Other])
  {
    var wild := s.me in s.space.wildcard;
    Snoc(u, Other, "", false, false);
    Snoc(u, Other, "", false, wild);
    forall key ensures After(u + [Other], key, false) == After(u, key, false) { Snoc(u, Other, key, false, wild); }
    if UndeliveredOk(s, u) {
      forall key ensures KeyAgrees(s, u + [Other], key, Listens(s.space, s.peer, s.me, key)) {
        Snoc(u, Other, key, Listens(s.space, s.peer, s.me, key), wild);
        assert KeyAgrees(s, u, key, Listens(s.space, s.peer, s.me, key));
      }
    }
  }

  lemma SendInv(s: State, s': State, f: Frame)
    requires Inv(s) && Matches(s, s', f) && s'.link == Send(s.link, f)
    requires forall h :: h in s'.records ==> 1 <= h <= s'.lastHandle
    ensures Inv(s')
  {
    match s.link
    case Unknown =>
    case Connecting(p) =>
      if |p| >= MAX_PENDING_FRAMES {
        PendingDrop(s, p);
        PendingAppend(s, s', p[1..], f);
      } else {
        PendingAppend(s, s', p, f);
      }
    case Connected(u) => UndeliveredAppend(s, s', u, f);
  }

  /** Records of other components leave this link alone. */
  lemma ElsewhereInv(s: State, s': State)
    requires Inv(s) && s' == s.(records := s'.records, lastHandle := s'.lastHandle)
    requires forall key :: Wanted(s'.records, s.peer, key) <==> Wanted(s.records, s.peer, key)
    requires WantsAll(s'.records, s.peer) <==> WantsAll(s.records, s.peer)
    requires forall h :: h in s'.records ==> 1 <= h <= s'.lastHandle
    ensures Inv(s')
  {
    if s.link.Connected? {
      forall key ensures KeyAgrees(s', s.link.undelivered, key, Listens(s.space, s.peer, s.me, key)) {
        assert KeyAgrees(s, s.link.undelivered, key, Listens(s.space, s.peer, s.me, key));
      }
    }
  }

  lemma RegisterStep(s: State, owner: int, key: string)
    requires Inv(s)
    ensures Inv(Next(s, Register(owner, key)))
  {
    var r, h := Record(owner, key), s.lastHandle + 1;
    var s' := Next(s, Register(owner, key));
    if !Duplicate(s.records, r) {
      forall k ensures Wanted(s'.records, s.peer, k) <==>
          Wanted(s.records, s.peer, k) || (Applies(r, s.peer) && Covers(r, k)) {
        WantedAfterRegister(s.records, h, r, s.peer, k);
      }
      WantedAfterRegister(s.records, h, r, s.peer, "");
      if Applies(r, s.peer) { SendInv(s, s', Sub(key, true)); } else { ElsewhereInv(s, s'); }
    }
  }

  lemma CancelStep(s: State, h: nat)
    requires Inv(s) && Safe(s, Cancel(h))
    ensures Inv(Next(s, Cancel(h)))
  {
    var s' := Next(s, Cancel(h));
    if h in s.records && !s.link.Unknown? {
      var r := s.records[h];
      forall k ensures Wanted(s'.records, s.peer, k) <==>
          Wanted(s.records, s.peer, k) && !(Applies(r, s.peer) && Covers(r, k)) {
        WantedAfterCancel(s.records, h, s.peer, k);
      }
      WantedAfterCancel(s.records, h, s.peer, "");
      if Applies(r, s.peer) { SendInv(s, s', Sub(r.key, false)); } else { ElsewhereInv(s, s'); }
    }
  }

  /** Flushing what is pending and replaying the records brings the owner to exactly what is wanted. */
  lemma ConnectStep(s: State)
    requires Inv(s) && s.link.Connecting?
    ensures Inv(Next(s, Connect))
  {
    var s' := Next(s, Connect);
    var p, r := s.link.pending, Replay(s.records, s.peer, s.lastHandle);
    Concat(p, r, "", false, false);
    ReplayCovers(s.records, s.peer, s.lastHandle, "", false, WildAfter(p, false));
    forall key ensures KeyAgrees(s', p + r, key, Listens(s.space, s.peer, s.me, key)) {
      Concat(p, r, key, false, false);
      ReplayCovers(s.records, s.peer, s.lastHandle, key, After(p, key, false), false);
    }
  }

  lemma DeliverStep(s: State)
    requires Inv(s) && Enabled(s, Deliver)
    ensures Inv(Next(s, Deliver))
  {
    var s', u := Next(s, Deliver), s.link.undelivered;
    assert Clean([u[0]], s.me in s.space.wildcard) by { assert [u[0]][1..] == []; }
    HandleView(s.space, u[0], s.peer, s.me, "");
    forall key ensures KeyAgrees(s', u[1..], key, Listens(s'.space, s.peer, s.me, key)) {
      HandleView(s.space, u[0], s.peer, s.me, key);
      assert KeyAgrees(s, u, key, Listens(s.space, s.peer, s.me, key));
    }
  }

  lemma OwnerStep(s: State, op: M.Op)
    requires Inv(s) && NotAbout(op, s.me)
    ensures Inv(Next(s, OwnerOp(op)))
  {
    var s' := Next(s, OwnerOp(op));
    if s.link.Connected? {
      OtherView(s.space, op, s.peer, s.me, "");
      forall key ensures KeyAgrees(s', s.link.undelivered, key, Listens(s'.space, s.peer, s.me, key)) {
        OtherView(s.space, op, s.peer, s.me, key);
        assert KeyAgrees(s, s.link.undelivered, key, Listens(s.space, s.peer, s.me, key));
      }
    } else {
      forall k | k in s'.space.pairs ensures s.me !in s'.space.pairs[k].subscribers { SubscribersStep(s.space, op, k); }
    }
  }

  lemma {:induction false} RunInv(states: seq<State>, steps: seq<Step>, me: int, peer: int, i: nat)
    requires IsRun(states, steps, me, peer) && i < |states|
    requires forall j :: 0 <= j < i ==> Safe(states[j], steps[j])
    ensures Inv(states[i]) && states[i].me == me && states[i].peer == peer
  {
    if i > 0 {
      RunInv(states, steps, me, peer, i - 1);
      var s := states[i - 1];
      match steps[i - 1]
      case Register(owner, key) => RegisterStep(s, owner, key);
      case Cancel(h) => CancelStep(s, h);
      case Announce =>
      case Connect => ConnectStep(s);
      case Deliver => DeliverStep(s);
      case SendOther =>
        if s.link.Connecting? {
          var p := s.link.pending;
          if |p| >= MAX_PENDING_FRAMES { PendingDrop(s, p); OtherAppend(s, p[1..]); } else { OtherAppend(s, p); }
        } else if s.link.Connected? {
          OtherAppend(s, s.link.undelivered);
        }
      case OwnerOp(op) => OwnerStep(s, op);
    }
  }

  // ---------------------------------------------------------------- theorem over every run

  /**
   * Agreement: once connected, the owner's pair space after the frames still under way forwards a key
   * to this client exactly when one of its current records asks for that key, whatever was
   * registered, cancelled, dropped from the pending queue or published in between, as long as no
   * cancelled record overlapped another one.
   */
  lemma SubscriptionsAgree(states: seq<State>, steps: seq<Step>, me: int, peer: int, i: nat, key: string)
    requires IsRun(states, steps, me, peer) && i < |states|
    requires forall j :: 0 <= j < i ==> Safe(states[j], steps[j])
    requires states[i].link.Connected?
    ensures var s := states[i];
            Listens(HandleAll(s.space, s.link.undelivered, peer, me), peer, me, key) <==> Wanted(s.records, peer, key)
  {
    RunInv(states, steps, me, peer, i);
    var s := states[i];
    HandleAllView(s.space, s.link.undelivered, peer, me, key);
    assert KeyAgrees(s, s.link.undelivered, key, Listens(s.space, peer, me, key));
  }

  // ---------------------------------------------------------------- exactly when a cancel keeps it

  ghost predicate Agrees(s: State, key: string)
    requires s.link.Connected?
  {
    Listens(HandleAll(s.space, s.link.undelivered, s.peer, s.me), s.peer, s.me, key) <==> Wanted(s.records, s.peer, key)
  }

  ghost predicate AllAgree(s: State)
    requires s.link.Connected?
  {
    forall key :: Agrees(s, key)
  }

  /** The entry exists and lists `me`, so that a cancel of this key finds it. */
  predicate OnEntry(space: Space, peer: int, me: int, key: string) {
    var k := PairKey(peer, key);
    k in space.pairs && me in space.pairs[k].subscribers
  }

  function Anchor(f: Frame, key: string, b: bool): bool {
    if f == Sub(key, true) then true else if Relevant(f, key) && !f.registering then false else b
  }

  /** Whether a registration of this very key survives `fs`; a wildcard registration does not count as one. */
  function Anchored(fs: seq<Frame>, key: string, b: bool): bool {
    if fs == [] then b else Anchored(fs[1..], key, Anchor(fs[0], key, b))
  }

  lemma {:induction false} AnchoredMonotone(fs: seq<Frame>, key: string, b: bool)
    requires Anchored(fs, key, false)
    ensures Anchored(fs, key, b)
  {
    if fs != [] && Anchor(fs[0], key, false) != Anchor(fs[0], key, b) {
      AnchoredMonotone(fs[1..], key, b);
    }
  }

  lemma {:induction false} AnchoredConcat(fs: seq<Frame>, gs: seq<Frame>, key: string, b: bool)
    ensures Anchored(fs + gs, key, b) == Anchored(gs, key, Anchored(fs, key, b))
  {
    if fs == [] {
      assert fs + gs == gs;
    } else {
      assert (fs + gs)[1..] == fs[1..] + gs;
      AnchoredConcat(fs[1..], gs, key, Anchor(fs[0], key, b));
    }
  }

  lemma AnchoredSnoc(fs: seq<Frame>, f: Frame, key: string, b: bool)
    ensures Anchored(fs + [f], key, b) == Anchor(f, key, Anchored(fs, key, b))
  {
    AnchoredConcat(fs, [f], key, b);
    assert [f][1..] == [];
  }

  lemma {:induction false} ReplayAnchors(records: map<nat, Record>, peer: int, n: nat, h: nat, b: bool)
    requires 1 <= h <= n && h in records && Applies(records[h], peer)
    ensures Anchored(Replay(records, peer, n), records[h].key, b)
  {
    var before := Replay(records, peer, n - 1);
    if n in records && Applies(records[n], peer) { AnchoredSnoc(before, Sub(records[n].key, true), records[h].key, b); }
    if h < n { ReplayAnchors(records, peer, n - 1, h, b); }
  }

  lemma HandleEntry(space: Space, f: Frame, peer: int, me: int, key: string)
    requires key != WILDCARD_KEY && Anchor(f, key, OnEntry(space, peer, me, key))
    ensures OnEntry(Handle(space, f, peer, me), peer, me, key)
  {
    var k := PairKey(peer, key);
    if f.Sub? {
      var op := SubscriptionOp(f, peer, me);
      SubscribersStep(space, op, k);
      if k in space.pairs { ErasesOnlyUnregistered(space, op, k); }
    }
  }

  lemma {:induction false} HandleAllEntry(space: Space, fs: seq<Frame>, peer: int, me: int, key: string)
    requires key != WILDCARD_KEY && Anchored(fs, key, OnEntry(space, peer, me, key))
    ensures OnEntry(HandleAll(space, fs, peer, me), peer, me, key)
    decreases |fs|
  {
    if fs != [] {
      AnchorHead(space, fs, peer, me, key);
      HandleAllEntry(Handle(space, fs[0], peer, me), fs[1..], peer, me, key);
    }
  }

  /** Handling the first frame keeps the rest anchored. */
  lemma AnchorHead(space: Space, fs: seq<Frame>, peer: int, me: int, key: string)
    requires key != WILDCARD_KEY && fs != [] && Anchored(fs, key, OnEntry(space, peer, me, key))
    ensures Anchored(fs[1..], key, OnEntry(Handle(space, fs[0], peer, me), peer, me, key))
  {
    var b := Anchor(fs[0], key, OnEntry(space, peer, me, key));
    if b {
      HandleEntry(space, fs[0], peer, me, key);
    } else {
      AnchoredMonotone(fs[1..], key, OnEntry(Handle(space, fs[0], peer, me), peer, me, key));
    }
  }

  /** Every record of a single key has its own registration at the owner, or on the way there. */
  ghost predicate RecordAnchored(s: State, h: nat)
    requires h in s.records && s.link.Connected?
  {
    var r := s.records[h];
    Applies(r, s.peer) && r.key != WILDCARD_KEY ==>
      Anchored(s.link.undelivered, r.key, OnEntry(s.space, s.peer, s.me, r.key))
  }

  lemma StepAnchored(s: State, step: Step, h: nat)
    requires Inv(s) && Enabled(s, step) && Safe(s, step)
    requires Next(s, step).link.Connected? && h in Next(s, step).records
    requires s.link.Connected? && h in s.records ==> RecordAnchored(s, h)
    ensures RecordAnchored(Next(s, step), h)
  {
    var s' := Next(s, step);
    var r := s'.records[h];
    if Applies(r, s.peer) && r.key != WILDCARD_KEY {
      var b := OnEntry(s.space, s.peer, s.me, r.key);
      match step
      case Register(owner, key) =>
        if s'.link != s.link { AnchoredSnoc(s.link.undelivered, Sub(key, true), r.key, b); }
      case Cancel(g) =>
        if s'.link != s.link { AnchoredSnoc(s.link.undelivered, Sub(s.records[g].key, false), r.key, b); }
      case Announce =>
      case Connect =>
        AnchoredConcat(s.link.pending, Replay(s.records, s.peer, s.lastHandle), r.key, b);
        ReplayAnchors(s.records, s.peer, s.lastHandle, h, Anchored(s.link.pending, r.key, b));
      case Deliver => AnchorHead(s.space, s.link.undelivered, s.peer, s.me, r.key);
      case SendOther => AnchoredSnoc(s.link.undelivered, Other, r.key, b);
      case OwnerOp(op) => OwnerKeepsEntry(s, op, r.key);
    }
  }

  lemma OwnerKeepsEntry(s: State, op: M.Op, key: string)
    requires NotAbout(op, s.me) && s.link.Connected?
    requires Anchored(s.link.undelivered, key, OnEntry(s.space, s.peer, s.me, key))
    ensures Anchored(s.link.undelivered, key, OnEntry(Apply(s.space, op), s.peer, s.me, key))
  {
    var k := PairKey(s.peer, key);
    if OnEntry(s.space, s.peer, s.me, key) {
      SubscribersStep(s.space, op, k);
      ErasesOnlyUnregistered(s.space, op, k);
      assert OnEntry(Apply(s.space, op), s.peer, s.me, key);
    } else {
      AnchoredMonotone(s.link.undelivered, key, OnEntry(Apply(s.space, op), s.peer, s.me, key));
    }
  }

  lemma {:induction false} RunAnchored(states: seq<State>, steps: seq<Step>, me: int, peer: int, i: nat, h: nat)
    requires IsRun(states, steps, me, peer) && i < |states|
    requires forall j :: 0 <= j < i ==> Safe(states[j], steps[j])
    requires states[i].link.Connected? && h in states[i].records
    ensures RecordAnchored(states[i], h)
  {
    if i > 0 {
      if states[i - 1].link.Connected? && h in states[i - 1].records { RunAnchored(states, steps, me, peer, i - 1, h); }
      RunInv(states, steps, me, peer, i - 1);
      StepAnchored(states[i - 1], steps[i - 1], h);
    }
  }

  lemma {:induction false} HandleAllSnoc(space: Space, fs: seq<Frame>, f: Frame, peer: int, me: int)
    ensures HandleAll(space, fs + [f], peer, me) == Handle(HandleAll(space, fs, peer, me), f, peer, me)
    decreases |fs|
  {
    if fs == [] {
      assert [] + [f] == [f] && [f][1..] == [];
    } else {
      assert (fs + [f])[1..] == fs[1..] + [f];
      HandleAllSnoc(Handle(space, fs[0], peer, me), fs[1..], f, peer, me);
    }
  }

  /** A cancel frame silences its key, and a wildcard cancel every key, whoever else wanted them. */
  lemma CancelSilences(space: Space, cancelled: string, key: string, peer: int, me: int)
    requires cancelled == WILDCARD_KEY || (cancelled == key && OnEntry(space, peer, me, key))
    ensures !Listens(Handle(space, Sub(cancelled, false), peer, me), peer, me, key)
  {
    var op := SubscriptionOp(Sub(cancelled, false), peer, me);
    SubscribersStep(space, op, PairKey(peer, key));
    if PairKey(peer, key) in space.pairs { ErasesOnlyUnregistered(space, op, PairKey(peer, key)); }
  }

  /** Cancelling a record that overlaps another one leaves a key wanted and not listened to. */
  lemma OverlapSilences(states: seq<State>, steps: seq<Step>, me: int, peer: int, i: nat, h: nat, g: nat)
    requires IsRun(states, steps, me, peer) && i < |steps| && steps[i] == Cancel(h)
    requires forall j :: 0 <= j < i ==> Safe(states[j], steps[j])
    requires var s := states[i];
             s.link.Connected? && h in s.records && g in s.records && g != h
                 && Overlap(s.records[h], s.records[g], peer)
    ensures var key := if states[i].records[h].key == WILDCARD_KEY then states[i].records[g].key
        else states[i].records[h].key;
            states[i + 1].link.Connected? && !Agrees(states[i + 1], key)
  {
    var s, s' := states[i], states[i + 1];
    var r, u := s.records[h], s.link.undelivered;
    var key := if r.key == WILDCARD_KEY then s.records[g].key else r.key;
    RunInv(states, steps, me, peer, i);
    assert g in s'.records && s'.records[g] == s.records[g];
    assert Wanted(s'.records, peer, key);
    HandleAllSnoc(s.space, u, Sub(r.key, false), peer, me);
    if r.key != WILDCARD_KEY {
      RunAnchored(states, steps, me, peer, i, h);
      HandleAllEntry(s.space, u, peer, me, key);
    }
    CancelSilences(HandleAll(s.space, u, peer, me), r.key, key, peer, me);
  }

  /** After any safe run, cancelling on a connected peer keeps agreement exactly when no other record overlaps. */
  lemma CancelAgreesIff(states: seq<State>, steps: seq<Step>, me: int, peer: int, i: nat, h: nat)
    requires IsRun(states, steps, me, peer) && i < |steps| && steps[i] == Cancel(h)
    requires forall j :: 0 <= j < i ==> Safe(states[j], steps[j])
    requires states[i].link.Connected? && h in states[i].records
    ensures states[i + 1].link.Connected?
    ensures AllAgree(states[i + 1]) <==> Alone(states[i].records, peer, h)
  {
    var s := states[i];
    RunInv(states, steps, me, peer, i);
    if Alone(s.records, peer, h) {
      assert Safe(s, steps[i]);
      RunInv(states, steps, me, peer, i + 1);
      var s' := states[i + 1];
      forall key ensures Agrees(s', key) { SubscriptionsAgree(states, steps, me, peer, i + 1, key); }
    } else {
      var g :| g in s.records && g != h && Overlap(s.records[h], s.records[g], peer);
      OverlapSilences(states, steps, me, peer, i, h, g);
    }
  }

  /** The hypothesis is needed: cancelling one of two overlapping records silences the other. */
  lemma OverlapBreaksAgreement(me: int, peer: int, key: string) returns (states: seq<State>, steps: seq<Step>)
    requires me != peer && peer != ANY_OWNER && key != WILDCARD_KEY
    ensures IsRun(states, steps, me, peer)
    ensures var s := states[|steps|];
            && s.link == Connected([]) && Wanted(s.records, peer, key)
            && !Listens(s.space, peer, me, key)
  {
    states, steps := TwoRecords(me, peer, key);
    states, steps := Extend(states, steps, me, peer, Deliver);
    assert states[|steps|].link == Connected([Sub(key, true)]);
    states, steps := Extend(states, steps, me, peer, Deliver);
    assert states[|steps|].link == Connected([]);
    states, steps := Extend(states, steps, me, peer, Cancel(2));
    assert states[|steps|].link == Connected([Sub(key, false)]);
    states, steps := Extend(states, steps, me, peer, Deliver);
    assert states[|steps|].link == Connected([]);
    assert 1 in states[|steps|].records && states[|steps|].records[1] == Record(ANY_OWNER, key);
  }

  lemma TwoRecords(me: int, peer: int, key: string) returns (states: seq<State>, steps: seq<Step>)
    requires me != peer && peer != ANY_OWNER
    ensures IsRun(states, steps, me, peer)
    ensures states[|steps|] == State(me, peer, map[1 := Record(ANY_OWNER, key), 2 := Record(peer, key)], 2,
                                     Connected([Sub(key, true), Sub(key, true)]), EMPTY_SPACE)
  {
    states, steps := [Init(me, peer)], [];
    states, steps := Extend(states, steps, me, peer, Announce);
    states, steps := Extend(states, steps, me, peer, Connect);
    states, steps := Extend(states, steps, me, peer, Register(ANY_OWNER, key));
    states, steps := Extend(states, steps, me, peer, Register(peer, key));
    ghost var s := states[|steps|];
    assert s.records == map[1 := Record(ANY_OWNER, key), 2 := Record(peer, key)];
    assert s.link.undelivered == [Sub(key, true), Sub(key, true)];
  }

  lemma Extend(states: seq<State>, steps: seq<Step>, me: int, peer: int, step: Step)
    returns (states': seq<State>, steps': seq<Step>)
    requires IsRun(states, steps, me, peer) && Enabled(states[|steps|], step)
    ensures IsRun(states', steps', me, peer) && states'[|steps'|] == Next(states[|steps|], step)
  {
    states', steps' := states + [Next(states[|steps|], step)], steps + [step];
  }

  // ---------------------------------------------------------------- what is asked of a peer, spelled out

  /** The record is for this peer or for everyone, and for this key or for every key. */
  predicate Asks(r: Record, peer: int, key: string) {
    (r.owner == -1 || r.owner == peer) && (r.key == key || r.key == "*")
  }

  lemma WantedIff(records: map<nat, Record>, peer: int, key: string)
    ensures Wanted(records, peer, key) <==> exists h :: h in records && Asks(records[h], peer, key)
  {
    if Wanted(records, peer, key) {
      var h :| h in records && Applies(records[h], peer)
               && (records[h].key == key || records[h].key == WILDCARD_KEY);
      assert Asks(records[h], peer, key);
    }
  }

  /** The replay to a peer: the records for it or for everyone, one frame each, in the order of their handles. */
  lemma {:induction false} ReplayLists(records: map<nat, Record>, peer: int, n: nat) returns (handles: seq<nat>)
    ensures |handles| == |Replay(records, peer, n)|
    ensures forall i :: 0 <= i < |handles| ==>
              && 1 <= handles[i] <= n && handles[i] in records
              && Replay(records, peer, n)[i] == Sub(records[handles[i]].key, true)
    ensures forall i, j :: 0 <= i < j < |handles| ==> handles[i] < handles[j]
    ensures forall h :: h in handles <==>
              1 <= h <= n && h in records && (records[h].owner == -1 || records[h].owner == peer)
  {
    if n == 0 {
      handles := [];
    } else {
      handles := ReplayLists(records, peer, n - 1);
      if n in records && Applies(records[n], peer) { handles := handles + [n]; }
    }
  }
}
