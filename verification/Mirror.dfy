/**
 * A component and one of its subscribers, both as real pair spaces: what any history at the owner leaves
 * on the subscriber's side, in whatever order the handlers get round to queueing the frames they owe.
 */
module Mirror {
  import opened Base
  import opened M = PairSpaceModel
  import opened Node
  import Sub = Subscriptions

  /** Something that happens at a component: an API call, or a frame from anyone. */
  datatype Event = Called(call: Call) | Received(msg: Msg, snapshot: seq<Pair>)

  function Happens(self: Self, s: Space, e: Event): (Space, seq<Sent>) {
    match e
    case Called(c) => Perform(self, s, c)
    case Received(m, snapshot) => Handle(self, s, m, snapshot)
  }

  function HappenAll(self: Self, s: Space, es: seq<Event>): (Space, seq<Sent>) {
    if es == [] then (s, [])
    else
      var (before, sent) := HappenAll(self, s, es[..|es| - 1]);
      var (r, out) := Happens(self, before, es[|es| - 1]);
      (r, sent + out)
  }

  /** The frames addressed to `x`, in order. */
  function To(out: seq<Sent>, x: int): seq<Msg> {
    if out == [] then []
    else
      var before, last := To(out[..|out| - 1], x), out[|out| - 1];
      if last.to == x then before + [last.msg] else before
  }

  /** Handling frames in order. None of those sent to a subscriber asks for a snapshot of its own. */
  function Receive(self: Self, t: Space, ms: seq<Msg>): Space {
    if ms == [] then t else Handle(self, Receive(self, t, ms[..|ms| - 1]), ms[|ms| - 1], []).0
  }

  /** Nobody else speaks for our pairs, `x` cancels nothing meanwhile, and snapshots list what they should. */
  ghost predicate Ordinary(self: Self, s: Space, e: Event, x: int) {
    e.Called? ||
    match e.msg
    case Update(p) => p.owner != self.id
    case Removed(o, _) => o != self.id
    case Subscription(key, _, who, registering) =>
      who == x ==>
        registering && (key == WILDCARD_KEY ==> IsSnapshot(self, AddSubscriptionToAll(s, x), e.snapshot))
    case _ => true
  }

  /** `x` registers with us for `key`, by itself or with everything. */
  ghost predicate Registers(self: Self, s: Space, e: Event, key: string, x: int) {
    && e.Received? && e.msg.Subscription? && e.msg.registering && e.msg.subscriber == x && x in self.peers
         && x != self.id
    && ((e.msg.key == WILDCARD_KEY && WildcardOk(self, s, x)) ||
        (e.msg.key == key != WILDCARD_KEY && e.msg.ownerId == self.id))
  }

  /** A wildcard subscriber is on every entry of ours. */
  ghost predicate WildcardOk(self: Self, s: Space, x: int) {
    x in s.wildcard ==> forall k :: k in s.pairs && k.owner == self.id ==> x in s.pairs[k].subscribers
  }

  /** `x` is connected and would be told about our `key`. */
  predicate Hears(self: Self, s: Space, key: string, x: int) {
    x in self.peers && Sub.Listens(s, self.id, x, key)
  }

  // ---------------------------------------------------------------- effects on the pair space

  function RegistrationOp(self: Self, m: Msg): Option<M.Op>
    requires m.Subscription?
  {
    var k := PairKey(m.ownerId, m.key);
    if (m.key != WILDCARD_KEY && m.ownerId != self.id) || m.subscriber == self.id then None
    else if m.key == WILDCARD_KEY then Some(if m.registering then SubscribeAll(m.subscriber)
        else UnsubscribeAll(m.subscriber))
    else Some(if m.registering then Subscribe(k, m.subscriber) else Unsubscribe(k, m.subscriber))
  }

  /** Every event is at most one operation on the pair space. */
  function SpaceOp(self: Self, e: Event): Option<M.Op> {
    match e
    case Called(SetPair(k, v, ty)) => Some(Publish(Pair(self.id, k, v, ty)))
    case Called(DropPair(k)) => Some(Remove(PairKey(self.id, k)))
    case Called(DropRemotePair(o, k)) => if o == self.id then Some(Remove(PairKey(o, k))) else None
    case Called(_) => None
    case Received(Push(p), _) => Some(Publish(p.(owner := self.id)))
    case Received(Update(p), _) => Some(Publish(p))
    case Received(Subscription(_, _, _, _), _) => RegistrationOp(self, e.msg)
    case Received(RemoveRequest(o, k), _) => if o == self.id then Some(Remove(PairKey(o, k))) else None
    case Received(Removed(o, k), _) => Some(Remove(PairKey(o, k)))
  }

  lemma HappensIsOp(self: Self, s: Space, e: Event)
    ensures Happens(self, s, e).0 == if SpaceOp(self, e).Some? then Apply(s, SpaceOp(self, e).value) else s
  {
  }

  /** Whoever is told about a key stays told, until it cancels. */
  lemma OpKeepsListening(s: Space, op: M.Op, owner: int, x: int, key: string)
    requires Sub.Listens(s, owner, x, key) && (Sub.NotAbout(op, x) || op.Subscribe? || op.SubscribeAll?)
    ensures Sub.Listens(Apply(s, op), owner, x, key)
  {
    var k := PairKey(owner, key);
    SubscribersStep(s, op, k);
    if Sub.NotAbout(op, x) { Sub.OtherWildcard(s, op, x); }
    if k in s.pairs { ErasesOnlyUnregistered(s, op, k); }
  }

  /** After an event, `x` hears about `key` if it did before or has just registered for it. */
  lemma EventKeeps(self: Self, s: Space, e: Event, x: int, key: string)
    requires KeysMatch(s) && ListsDistinct(s) && Ordinary(self, s, e, x)
    requires Hears(self, s, key, x) || Registers(self, s, e, key, x)
    ensures var r := Happens(self, s, e).0; KeysMatch(r) && ListsDistinct(r) && Hears(self, r, key, x)
  {
    HappensIsOp(self, s, e);
    if SpaceOp(self, e).Some? {
      var op := SpaceOp(self, e).value;
      StepKeepsKeys(s, op);
      StepKeepsLists(s, op);
      if Registers(self, s, e, key, x) {
        SubscribersStep(s, op, PairKey(self.id, key));
      } else {
        OpKeepsListening(s, op, self.id, x, key);
      }
    }
  }

  // ---------------------------------------------------------------- who is sent what

  lemma {:induction false} ToConcat(a: seq<Sent>, b: seq<Sent>, x: int)
    ensures To(a + b, x) == To(a, x) + To(b, x)
  {
    if b == [] {
      assert a + b == a;
    } else {
      var n := |b| - 1;
      ToConcat(a, b[..n], x);
      assert (a + b)[..|a + b| - 1] == a + b[..n];
    }
  }

  /** A fan-out tells each listed and connected component exactly once. */
  lemma {:induction false} FanOutTo(peers: set<int>, subscribers: seq<int>, m: Msg, x: int)
    requires NoDup(subscribers)
    ensures To(FanOut(peers, subscribers, m), x) == if x in subscribers && x in peers then [m] else []
  {
    if subscribers != [] {
      var n := |subscribers| - 1;
      var last := subscribers[n];
      FanOutTo(peers, subscribers[..n], m, x);
      assert subscribers == subscribers[..n] + [last];
      if last in peers {
        ToConcat(FanOut(peers, subscribers[..n], m), [Sent(last, m)], x);
        ToOne(last, m, x);
      }
    }
  }

  lemma ToOne(to: int, m: Msg, x: int)
    ensures To([Sent(to, m)], x) == if to == x then [m] else []
  {
    assert [Sent(to, m)][..0] == [];
  }

  /** A snapshot is a list of updates for whoever asked for it, and nothing for anyone else. */
  function Updates(snapshot: seq<Pair>): seq<Msg> {
    seq(|snapshot|, i requires 0 <= i < |snapshot| => Update(snapshot[i]))
  }

  lemma {:induction false} SnapshotFrames(peers: set<int>, snapshot: seq<Pair>, to: int, x: int)
    ensures To(SnapshotTo(peers, snapshot, to), x) == if to == x && x in peers then Updates(snapshot) else []
  {
    if snapshot != [] {
      var n := |snapshot| - 1;
      SnapshotFrames(peers, snapshot[..n], to, x);
      FanOutTo(peers, [to], Update(snapshot[n]), x);
      ToConcat(SnapshotTo(peers, snapshot[..n], to), FanOut(peers, [to], Update(snapshot[n])), x);
      assert Updates(snapshot) == Updates(snapshot[..n]) + [Update(snapshot[n])];
    }
  }

  /** Publishing: the new pair to everyone listening. */
  lemma NotifyTo(self: Self, s: Space, p: Pair, x: int)
    requires KeysMatch(s) && ListsDistinct(s)
    ensures To(ApplyAndNotify(self, s, p).1, x) == if x in self.peers && Sub.Listens(s, p.owner, x, p.key)
        then [Update(p)] else []
  {
    var e := AddPair(s, p).pairs[p.Id()];
    assert e.pair == p;
    FanOutTo(self.peers, e.subscribers, Update(p), x);
  }

  /** Removing: a farewell to everyone on the entry, if there is one. */
  lemma RemovalTo(self: Self, s: Space, key: string, x: int)
    requires ListsDistinct(s)
    ensures var k := PairKey(self.id, key);
            To(RemoveAndTell(self, s, key).1, x) ==
              if k in s.pairs && x in s.pairs[k].subscribers && x in self.peers then [Removed(self.id, key)] else []
  {
    var k := PairKey(self.id, key);
    if k in s.pairs { FanOutTo(self.peers, s.pairs[k].subscribers, Removed(self.id, key), x); }
  }

  // ---------------------------------------------------------------- what the subscriber makes of it

  /** Whether a frame changes what `self` shows under `k`, and what it shows there afterwards. */
  predicate Concerns(self: Self, m: Msg, k: PairKey) {
    match m
    case Push(p) => PairKey(self.id, p.key) == k
    case Update(p) => p.Id() == k
    case Subscription(_, _, _, _) => false
    case RemoveRequest(o, key) => o == self.id && PairKey(o, key) == k
    case Removed(o, key) => PairKey(o, key) == k
  }

  function Says(m: Msg): Option<(string, PairType)> {
    if m.Push? || m.Update? then Content(m.pair) else None
  }

  function Content(p: Pair): Option<(string, PairType)> { if p.ty == Invalid then None else Some((p.value, p.ty)) }

  lemma HandleShows(self: Self, t: Space, m: Msg, snapshot: seq<Pair>, k: PairKey)
    ensures ShownAt(Handle(self, t, m, snapshot).0, k) == if Concerns(self, m, k) then Says(m) else ShownAt(t, k)
  {
    var e := Received(m, snapshot);
    HappensIsOp(self, t, e);
    if SpaceOp(self, e).Some? { ShownStep(t, SpaceOp(self, e).value, k); }
  }

  lemma ReceiveOne(self: Self, t: Space, m: Msg)
    ensures Receive(self, t, [m]) == Handle(self, t, m, []).0
  {
    assert [m][..0] == [];
  }

  lemma {:induction false} ReceiveConcat(self: Self, t: Space, a: seq<Msg>, b: seq<Msg>)
    ensures Receive(self, t, a + b) == Receive(self, Receive(self, t, a), b)
  {
    if b == [] {
      assert a + b == a;
    } else {
      var n := |b| - 1;
      ReceiveConcat(self, t, a, b[..n]);
      assert (a + b)[..|a + b| - 1] == a + b[..n];
    }
  }

  /** The subscriber shows the owner's pair as the owner does. */
  predicate Mirrors(s: Space, t: Space, k: PairKey) { ShownAt(t, k) == ShownAt(s, k) }

  // ---------------------------------------------------------------- one event at the owner

  /**
   * The frames `ms` are true to the step from `s` to `r`: each one about `k` says what `r` shows, and if there is
   * none, nothing has changed under `k`.
   */
  ghost predicate TrueTo(s: Space, r: Space, ms: seq<Msg>, sub: Self, k: PairKey) {
    && (forall j :: 0 <= j < |ms| && Concerns(sub, ms[j], k) ==> Says(ms[j]) == ShownAt(r, k))
    && (Mentions(ms, sub, k) || ShownAt(r, k) == ShownAt(s, k))
  }

  predicate Mentions(ms: seq<Msg>, sub: Self, k: PairKey) {
    exists j :: 0 <= j < |ms| && Concerns(sub, ms[j], k)
  }

  lemma OneTrue(s: Space, r: Space, m: Msg, sub: Self, k: PairKey)
    requires if Concerns(sub, m, k) then Says(m) == ShownAt(r, k) else ShownAt(r, k) == ShownAt(s, k)
    ensures TrueTo(s, r, [m], sub, k)
  {
    assert Concerns(sub, m, k) ==> Concerns(sub, [m][0], k);
  }

  lemma NotifyTrue(self: Self, s: Space, p: Pair, sub: Self, key: string)
    requires KeysMatch(s) && ListsDistinct(s) && Hears(self, s, key, sub.id)
    ensures var (r, out) := ApplyAndNotify(self, s, p); TrueTo(s, r, To(out, sub.id), sub, PairKey(self.id, key))
  {
    var k := PairKey(self.id, key);
    NotifyTo(self, s, p, sub.id);
    ShownStep(s, Publish(p), k);
    OneTrue(s, AddPair(s, p), Update(p), sub, k);
  }

  lemma RemovalTrue(self: Self, s: Space, gone: string, sub: Self, key: string)
    requires ListsDistinct(s) && Hears(self, s, key, sub.id)
    ensures var (r, out) := RemoveAndTell(self, s, gone); TrueTo(s, r, To(out, sub.id), sub, PairKey(self.id, key))
  {
    var k := PairKey(self.id, key);
    RemovalTo(self, s, gone, sub.id);
    ShownStep(s, Remove(PairKey(self.id, gone)), k);
    OneTrue(s, RemovePair(s, PairKey(self.id, gone)), Removed(self.id, gone), sub, k);
  }

  /** Requests and subscriptions to another component say nothing about our pairs. */
  lemma RequestTrue(self: Self, s: Space, to: int, m: Msg, sub: Self, key: string)
    requires self.id != sub.id && (m.Push? || m.RemoveRequest? || m.Subscription?)
    ensures TrueTo(s, s, To(SendTo(self, to, m), sub.id), sub, PairKey(self.id, key))
  {
    if to in self.peers { ToOne(to, m, sub.id); }
    OneTrue(s, s, m, sub, PairKey(self.id, key));
  }

  /** Nothing about `k` is said, and nothing has changed there. */
  lemma SilentTrue(s: Space, r: Space, sub: Self, k: PairKey)
    requires ShownAt(r, k) == ShownAt(s, k)
    ensures TrueTo(s, r, [], sub, k)
  {
  }

  lemma SnapshotTrue(s: Space, r: Space, snapshot: seq<Pair>, sub: Self, k: PairKey)
    requires forall p :: p in snapshot ==> ShownAt(r, p.Id()) == Content(p)
    requires ShownAt(r, k) == ShownAt(s, k)
    ensures TrueTo(s, r, Updates(snapshot), sub, k)
  {
    var ms := Updates(snapshot);
    forall j | 0 <= j < |ms| && Concerns(sub, ms[j], k) ensures Says(ms[j]) == ShownAt(r, k) {
      assert snapshot[j] in snapshot;
    }
  }

  lemma AskedAllTrue(self: Self, s: Space, m: Msg, snapshot: seq<Pair>, sub: Self, key: string)
    requires m.Subscription? && m.registering && m.key == WILDCARD_KEY && m.subscriber != self.id
    requires m.subscriber == sub.id ==> IsSnapshot(self, AddSubscriptionToAll(s, sub.id), snapshot)
    ensures var (r, out) := OnSubscription(self, s, m, snapshot);
            TrueTo(s, r, To(out, sub.id), sub, PairKey(self.id, key))
  {
    var k, r := PairKey(self.id, key), AddSubscriptionToAll(s, m.subscriber);
    ShownStep(s, SubscribeAll(m.subscriber), k);
    SnapshotFrames(self.peers, snapshot, m.subscriber, sub.id);
    if m.subscriber == sub.id {
      forall p | p in snapshot ensures ShownAt(r, p.Id()) == Content(p) {}
      SnapshotTrue(s, r, snapshot, sub, k);
    }
    SilentTrue(s, r, sub, k);
  }

  lemma AskedOneTrue(self: Self, s: Space, m: Msg, sub: Self, key: string)
    requires KeysMatch(s) && m.Subscription? && m.registering && m.key != WILDCARD_KEY
    requires m.ownerId == self.id && m.subscriber != self.id
    ensures var (r, out) := OnSubscription(self, s, m, []); TrueTo(s, r, To(out, sub.id), sub, PairKey(self.id, key))
  {
    var k, j := PairKey(self.id, key), PairKey(m.ownerId, m.key);
    var r := AddSubscription(s, j, m.subscriber);
    var p := r.pairs[j].pair;
    ShownStep(s, Subscribe(j, m.subscriber), k);
    StepKeepsKeys(s, Subscribe(j, m.subscriber));
    FanOutTo(self.peers, [m.subscriber], Update(p), sub.id);
    OneTrue(s, r, Update(p), sub, k);
    SilentTrue(s, r, sub, k);
  }

  lemma RegistrationTrue(self: Self, s: Space, e: Event, sub: Self, key: string)
    requires KeysMatch(s) && e.Received? && e.msg.Subscription? && Ordinary(self, s, e, sub.id)
    ensures var (r, out) := Happens(self, s, e); TrueTo(s, r, To(out, sub.id), sub, PairKey(self.id, key))
  {
    var m, k := e.msg, PairKey(self.id, key);
    HandleShows(self, s, m, e.snapshot, k);
    if (m.key != WILDCARD_KEY && m.ownerId != self.id) || m.subscriber == self.id || !m.registering {
      SilentTrue(s, Happens(self, s, e).0, sub, k);
    } else if m.key == WILDCARD_KEY {
      AskedAllTrue(self, s, m, e.snapshot, sub, key);
    } else {
      AskedOneTrue(self, s, m, sub, key);
    }
  }

  lemma EventTrue(self: Self, s: Space, e: Event, sub: Self, key: string)
    requires KeysMatch(s) && ListsDistinct(s) && self.id != sub.id && Ordinary(self, s, e, sub.id)
    requires Hears(self, s, key, sub.id) || Registers(self, s, e, key, sub.id)
    ensures var (r, out) := Happens(self, s, e); TrueTo(s, r, To(out, sub.id), sub, PairKey(self.id, key))
  {
    match e
    case Called(SetPair(k, v, ty)) => NotifyTrue(self, s, Pair(self.id, k, v, ty), sub, key);
    case Called(DropPair(k)) => RemovalTrue(self, s, k, sub, key);
    case Called(DropRemotePair(o, k)) =>
      if o == self.id { RemovalTrue(self, s, k, sub, key); }
      else { RequestTrue(self, s, o, RemoveRequest(o, k), sub, key); }
    case Called(SetRemotePair(o, k, v, ty)) => RequestTrue(self, s, o, Push(Pair(o, k, v, ty)), sub, key);
    case Called(SendSubscription(o, k, r)) => RequestTrue(self, s, o, Subscription(k, o, self.id, r), sub, key);
    case Received(Push(p), _) => NotifyTrue(self, s, p.(owner := self.id), sub, key);
    case Received(Update(p), _) => NotifyTrue(self, s, p, sub, key);
    case Received(Subscription(_, _, _, _), _) => RegistrationTrue(self, s, e, sub, key);
    case Received(RemoveRequest(o, k), _) => if o == self.id { RemovalTrue(self, s, k, sub, key); }
    case Received(Removed(o, k), _) => HandleShows(self, s, e.msg, e.snapshot, PairKey(self.id, key));
  }

  // ---------------------------------------------------------------- histories

  function SpaceAt(self: Self, s: Space, es: seq<Event>, i: nat): Space
    requires i <= |es|
  {
    HappenAll(self, s, es[..i]).0
  }

  /** What event `i` makes for `x`. */
  function FramesOf(self: Self, s: Space, es: seq<Event>, i: nat, x: int): seq<Msg>
    requires i < |es|
  {
    To(Happens(self, SpaceAt(self, s, es, i), es[i]).1, x)
  }

  lemma SpaceNext(self: Self, s: Space, es: seq<Event>, i: nat)
    requires i < |es|
    ensures SpaceAt(self, s, es, i + 1) == Happens(self, SpaceAt(self, s, es, i), es[i]).0
  {
    assert es[..i + 1][..i] == es[..i];
  }

  /** From the start, or from a registration that comes first, `x` hears about `key`. */
  ghost predicate Followed(self: Self, s: Space, es: seq<Event>, key: string, x: int) {
    && KeysMatch(s) && ListsDistinct(s) && self.id != x
    && (forall i :: 0 <= i < |es| ==> Ordinary(self, SpaceAt(self, s, es, i), es[i], x))
    && (Hears(self, s, key, x) || (es != [] && Registers(self, s, es[0], key, x)))
  }

  lemma {:induction false} StillFollowed(self: Self, s: Space, es: seq<Event>, key: string, x: int, i: nat)
    requires Followed(self, s, es, key, x) && i <= |es|
    ensures var r := SpaceAt(self, s, es, i);
            KeysMatch(r) && ListsDistinct(r) && (i > 0 || Hears(self, s, key, x) ==> Hears(self, r, key, x))
  {
    if i > 0 {
      StillFollowed(self, s, es, key, x, i - 1);
      SpaceNext(self, s, es, i - 1);
      assert es[..0] == [];
      EventKeeps(self, SpaceAt(self, s, es, i - 1), es[i - 1], x, key);
    }
  }

  lemma EventIsTrue(self: Self, s: Space, es: seq<Event>, key: string, sub: Self, i: nat)
    requires Followed(self, s, es, key, sub.id) && i < |es|
    ensures var ms := FramesOf(self, s, es, i, sub.id);
            TrueTo(SpaceAt(self, s, es, i), SpaceAt(self, s, es, i + 1), ms, sub, PairKey(self.id, key))
  {
    StillFollowed(self, s, es, key, sub.id, i);
    SpaceNext(self, s, es, i);
    assert es[..0] == [];
    EventTrue(self, SpaceAt(self, s, es, i), es[i], sub, key);
  }

  /** Event `i` makes a frame about `k` for `sub`. */
  predicate Touches(self: Self, s: Space, es: seq<Event>, i: nat, sub: Self, k: PairKey) {
    i < |es| && Mentions(FramesOf(self, s, es, i, sub.id), sub, k)
  }

  /** Between events that make a frame about a key, the owner shows the same. */
  lemma {:induction false} Untouched(self: Self, s: Space, es: seq<Event>, key: string, sub: Self, i: nat, j: nat)
    requires Followed(self, s, es, key, sub.id) && i <= j <= |es|
    requires forall n :: i <= n < j ==> !Touches(self, s, es, n, sub, PairKey(self.id, key))
    ensures ShownAt(SpaceAt(self, s, es, j), PairKey(self.id, key)) ==
        ShownAt(SpaceAt(self, s, es, i), PairKey(self.id, key))
    decreases j
  {
    if i < j {
      Untouched(self, s, es, key, sub, i, j - 1);
      EventIsTrue(self, s, es, key, sub, j - 1);
      assert !Touches(self, s, es, j - 1, sub, PairKey(self.id, key));
    }
  }

  // ---------------------------------------------------------------- frames queued in any order

  /** One frame made for the subscriber: by which event, and which of that event's. */
  datatype Ticket = Ticket(event: nat, place: nat)

  predicate Issued(self: Self, s: Space, es: seq<Event>, x: int, order: seq<Ticket>) {
    forall i :: 0 <= i < |order| ==>
      order[i].event < |es| && order[i].place < |FramesOf(self, s, es, order[i].event, x)|
  }

  /** The frames of the tickets, in the order they were queued. */
  function Queued(self: Self, s: Space, es: seq<Event>, x: int, order: seq<Ticket>): seq<Msg>
    requires Issued(self, s, es, x, order)
  {
    seq(|order|, i requires 0 <= i < |order| => FramesOf(self, s, es, order[i].event, x)[order[i].place])
  }

  /** The event whose frame about `k` was queued last. */
  function LastQueued(self: Self, s: Space, es: seq<Event>, sub: Self, order: seq<Ticket>, k: PairKey): Option<nat>
    requires Issued(self, s, es, sub.id, order)
  {
    if order == [] then None
    else
      var n := |order| - 1;
      if Concerns(sub, FramesOf(self, s, es, order[n].event, sub.id)[order[n].place], k) then Some(order[n].event)
      else LastQueued(self, s, es, sub, order[..n], k)
  }

  /** The subscriber's space once it has handled the queued frames. */
  function Reached(self: Self, s: Space, es: seq<Event>, sub: Self, t: Space, order: seq<Ticket>): Space
    requires Issued(self, s, es, sub.id, order)
  {
    Receive(sub, t, Queued(self, s, es, sub.id, order))
  }

  /** What the subscriber shows if the event answered last about `k` is `last`. */
  function AsOf(self: Self, s: Space, es: seq<Event>, t: Space, last: Option<nat>, k: PairKey)
    : Option<(string, PairType)>
    requires last.Some? ==> last.value < |es|
  {
    if last.None? then ShownAt(t, k) else ShownAt(SpaceAt(self, s, es, last.value + 1), k)
  }

  lemma {:induction false} LastInRange(self: Self, s: Space, es: seq<Event>, sub: Self, order: seq<Ticket>, k: PairKey)
    requires Issued(self, s, es, sub.id, order)
    ensures var last := LastQueued(self, s, es, sub, order, k); last.Some? ==> last.value < |es|
  {
    if order != [] { LastInRange(self, s, es, sub, order[..|order| - 1], k); }
  }

  /** Whatever the order, the subscriber shows what the owner showed right after the event answered last. */
  lemma {:induction false} ShowsLastQueued(self: Self, s: Space, es: seq<Event>, sub: Self, t: Space, key: string,
                                           order: seq<Ticket>)
    requires Followed(self, s, es, key, sub.id) && Issued(self, s, es, sub.id, order)
    ensures var k := PairKey(self.id, key);
            var last := LastQueued(self, s, es, sub, order, k);
            && (last.Some? ==> last.value < |es|)
            && ShownAt(Reached(self, s, es, sub, t, order), k) == AsOf(self, s, es, t, last, k)
  {
    LastInRange(self, s, es, sub, order, PairKey(self.id, key));
    if order != [] {
      ShowsLastQueued(self, s, es, sub, t, key, order[..|order| - 1]);
      QueuedNext(self, s, es, sub, t, key, order);
    }
  }

  lemma QueuedNext(self: Self, s: Space, es: seq<Event>, sub: Self, t: Space, key: string, order: seq<Ticket>)
    requires Followed(self, s, es, key, sub.id) && Issued(self, s, es, sub.id, order) && order != []
    ensures var k, n := PairKey(self.id, key), |order| - 1;
            var tk := order[n];
            ShownAt(Reached(self, s, es, sub, t, order), k) ==
              if Concerns(sub, FramesOf(self, s, es, tk.event, sub.id)[tk.place], k)
              then ShownAt(SpaceAt(self, s, es, tk.event + 1), k)
              else ShownAt(Reached(self, s, es, sub, t, order[..n]), k)
  {
    var n, k := |order| - 1, PairKey(self.id, key);
    var tk := order[n];
    var m := FramesOf(self, s, es, tk.event, sub.id)[tk.place];
    ReachedSnoc(self, s, es, sub, t, order);
    HandleShows(sub, Reached(self, s, es, sub, t, order[..n]), m, [], k);
    TicketSays(self, s, es, sub, key, tk);
  }

  lemma ReachedSnoc(self: Self, s: Space, es: seq<Event>, sub: Self, t: Space, order: seq<Ticket>)
    requires Issued(self, s, es, sub.id, order) && order != []
    ensures var n := |order| - 1;
            var m := FramesOf(self, s, es, order[n].event, sub.id)[order[n].place];
            Reached(self, s, es, sub, t, order) == Handle(sub, Reached(self, s, es, sub, t, order[..n]), m, []).0
  {
    var n := |order| - 1;
    var m := FramesOf(self, s, es, order[n].event, sub.id)[order[n].place];
    assert Queued(self, s, es, sub.id, order) == Queued(self, s, es, sub.id, order[..n]) + [m];
    ReceiveConcat(sub, t, Queued(self, s, es, sub.id, order[..n]), [m]);
    ReceiveOne(sub, Reached(self, s, es, sub, t, order[..n]), m);
  }

  lemma TicketSays(self: Self, s: Space, es: seq<Event>, sub: Self, key: string, tk: Ticket)
    requires Followed(self, s, es, key, sub.id) && tk.event < |es|
        && tk.place < |FramesOf(self, s, es, tk.event, sub.id)|
    ensures var m := FramesOf(self, s, es, tk.event, sub.id)[tk.place];
            Concerns(sub, m, PairKey(self.id, key)) ==>
                Says(m) == ShownAt(SpaceAt(self, s, es, tk.event + 1), PairKey(self.id, key))
  {
    EventIsTrue(self, s, es, key, sub, tk.event);
  }

  // ---------------------------------------------------------------- theorems

  /** No event after the one answered last made a frame about `k`; if none was answered, the start was right. */
  ghost predicate UpToDate(self: Self, s: Space, es: seq<Event>, sub: Self, t: Space, last: Option<nat>, k: PairKey) {
    && (last.None? ==> Mirrors(s, t, k))
    && forall i :: (if last.None? then 0 else last.value + 1) <= i < |es| ==> !Touches(self, s, es, i, sub, k)
  }

  lemma UpToDateShows(self: Self, s: Space, es: seq<Event>, sub: Self, t: Space, key: string, last: Option<nat>)
    requires Followed(self, s, es, key, sub.id) && (last.Some? ==> last.value < |es|)
    requires UpToDate(self, s, es, sub, t, last, PairKey(self.id, key))
    ensures var k := PairKey(self.id, key); ShownAt(SpaceAt(self, s, es, |es|), k) == AsOf(self, s, es, t, last, k)
  {
    Untouched(self, s, es, key, sub, if last.None? then 0 else last.value + 1, |es|);
    assert es[..0] == [];
  }

  /**
   * Whatever happens at the owner, by its own calls or by frames from anyone, and in whatever order the frames
   * for one subscriber are queued, some perhaps not yet: the subscriber shows the owner's current pair exactly
   * when the event answered last left the owner showing the same as it does now. In particular it does if no
   * later event made a frame about the key, so that nothing newer is owed and nothing older came last.
   */
  lemma StaysMirrored(self: Self, s: Space, es: seq<Event>, sub: Self, t: Space, key: string, order: seq<Ticket>)
    requires Followed(self, s, es, key, sub.id) && Issued(self, s, es, sub.id, order)
    ensures var k, r := PairKey(self.id, key), SpaceAt(self, s, es, |es|);
            var last := LastQueued(self, s, es, sub, order, k);
            var t' := Reached(self, s, es, sub, t, order);
            && (last.Some? ==> last.value < |es|)
            && (Mirrors(r, t', k) <==> ShownAt(r, k) == AsOf(self, s, es, t, last, k))
            && (UpToDate(self, s, es, sub, t, last, k) ==> Mirrors(r, t', k))
  {
    var k := PairKey(self.id, key);
    var last := LastQueued(self, s, es, sub, order, k);
    ShowsLastQueued(self, s, es, sub, t, key, order);
    if UpToDate(self, s, es, sub, t, last, k) { UpToDateShows(self, s, es, sub, t, key, last); }
  }

  /** The newest event that made a frame about `k`. */
  function NewestTouch(self: Self, s: Space, es: seq<Event>, sub: Self, k: PairKey, n: nat): (i: Option<nat>)
    requires n <= |es|
    ensures i.Some? ==> i.value < n && Touches(self, s, es, i.value, sub, k)
    ensures forall j :: (if i.None? then 0 else i.value + 1) <= j < n ==> !Touches(self, s, es, j, sub, k)
  {
    if n == 0 then None
    else if Touches(self, s, es, n - 1, sub, k) then Some(n - 1)
    else NewestTouch(self, s, es, sub, k, n - 1)
  }

  /** Ticket `a` stands for a frame about `k`. */
  predicate TicketAbout(self: Self, s: Space, es: seq<Event>, sub: Self, order: seq<Ticket>, k: PairKey, a: int)
    requires Issued(self, s, es, sub.id, order)
  {
    0 <= a < |order| && Concerns(sub, FramesOf(self, s, es, order[a].event, sub.id)[order[a].place], k)
  }

  /** A frame of event `i` about `k` is queued, and no frame of another event about `k` behind it. */
  ghost predicate AnsweredLast(self: Self, s: Space, es: seq<Event>, sub: Self, order: seq<Ticket>, k: PairKey, i: nat)
    requires Issued(self, s, es, sub.id, order)
  {
    exists a :: TicketAbout(self, s, es, sub, order, k, a) && order[a].event == i
                && forall b :: b > a && TicketAbout(self, s, es, sub, order, k, b) ==> order[b].event == i
  }

  /** Which tickets stand for a frame about `k`. */
  function Hits(self: Self, s: Space, es: seq<Event>, sub: Self, order: seq<Ticket>, k: PairKey): (r: seq<bool>)
    requires Issued(self, s, es, sub.id, order)
    ensures |r| == |order| && forall b :: 0 <= b < |r| ==> r[b] == TicketAbout(self, s, es, sub, order, k, b)
  {
    seq(|order|, (b: nat) requires b < |order| => TicketAbout(self, s, es, sub, order, k, b))
  }

  function LastHit(hits: seq<bool>, n: nat): (p: int)
    requires n <= |hits|
    ensures -1 <= p < n && (p >= 0 ==> hits[p]) && forall b :: p < b < n ==> !hits[b]
  {
    if n == 0 then -1 else if hits[n - 1] then n - 1 else LastHit(hits, n - 1)
  }

  /** The event of the last frame about `k` is the one of the last such ticket. */
  lemma {:induction false} LastQueuedHit(self: Self, s: Space, es: seq<Event>, sub: Self, order: seq<Ticket>,
                                         k: PairKey, hits: seq<bool>, n: nat)
    requires Issued(self, s, es, sub.id, order) && n <= |order| && hits == Hits(self, s, es, sub, order, k)
    ensures var p := LastHit(hits, n);
            LastQueued(self, s, es, sub, order[..n], k) == if p == -1 then None else Some(order[p].event)
  {
    if n > 0 {
      LastQueuedNext(self, s, es, sub, order, k, n - 1);
      LastQueuedHit(self, s, es, sub, order, k, hits, n - 1);
    }
  }

  lemma LastQueuedIff(self: Self, s: Space, es: seq<Event>, sub: Self, order: seq<Ticket>, k: PairKey, i: nat)
    requires Issued(self, s, es, sub.id, order)
    ensures LastQueued(self, s, es, sub, order, k) == Some(i) <==> AnsweredLast(self, s, es, sub, order, k, i)
  {
    var hits := Hits(self, s, es, sub, order, k);
    LastQueuedHit(self, s, es, sub, order, k, hits, |order|);
    assert order[..|order|] == order;
    HitsSay(self, s, es, sub, order, k, i, LastHit(hits, |order|));
  }

  lemma {:induction false} HitsSay(self: Self, s: Space, es: seq<Event>, sub: Self, order: seq<Ticket>, k: PairKey,
                                   i: nat, p: int)
    requires Issued(self, s, es, sub.id, order) && p == LastHit(Hits(self, s, es, sub, order, k), |order|)
    ensures AnsweredLast(self, s, es, sub, order, k, i) <==> p >= 0 && order[p].event == i
  {
    var hits := Hits(self, s, es, sub, order, k);
    assert forall b :: 0 <= b < |order| ==> hits[b] == TicketAbout(self, s, es, sub, order, k, b);
    if p >= 0 && order[p].event == i { assert hits[p]; }
  }

  lemma LastQueuedNext(self: Self, s: Space, es: seq<Event>, sub: Self, order: seq<Ticket>, k: PairKey, n: nat)
    requires Issued(self, s, es, sub.id, order) && n < |order|
    ensures LastQueued(self, s, es, sub, order[..n + 1], k) ==
              if TicketAbout(self, s, es, sub, order, k, n) then Some(order[n].event)
              else LastQueued(self, s, es, sub, order[..n], k)
  {
    assert order[..n + 1][..n] == order[..n];
  }

  /** What the newest event about `k` left is left by no other event about it, and not what the subscriber had. */
  ghost predicate NewestDiffers(self: Self, s: Space, es: seq<Event>, sub: Self, t: Space, k: PairKey, newest: nat)
    requires newest < |es|
  {
    var now := ShownAt(SpaceAt(self, s, es, newest + 1), k);
    && now != ShownAt(t, k)
    && forall i: nat :: i < newest && Touches(self, s, es, i, sub, k) ==> ShownAt(SpaceAt(self, s, es, i + 1), k) != now
  }

  /**
   * If the newest event about the key leaves what nothing else left, the subscriber shows the owner's current pair
   * exactly when a frame of that event has been queued and none of an older one behind it.
   */
  lemma {:induction false} MirrorsIffNewestLast(self: Self, s: Space, es: seq<Event>, sub: Self, t: Space, key: string,
                                                order: seq<Ticket>)
    requires Followed(self, s, es, key, sub.id) && Issued(self, s, es, sub.id, order)
    requires var newest := NewestTouch(self, s, es, sub, PairKey(self.id, key), |es|);
             newest.Some? ==> NewestDiffers(self, s, es, sub, t, PairKey(self.id, key), newest.value)
    ensures var k := PairKey(self.id, key);
            var newest := NewestTouch(self, s, es, sub, k, |es|);
            Mirrors(SpaceAt(self, s, es, |es|), Reached(self, s, es, sub, t, order), k) <==>
              if newest.Some? then AnsweredLast(self, s, es, sub, order, k, newest.value) else Mirrors(s, t, k)
  {
    var k := PairKey(self.id, key);
    var newest, last := NewestTouch(self, s, es, sub, k, |es|), LastQueued(self, s, es, sub, order, k);
    StaysMirrored(self, s, es, sub, t, key, order);
    QueuedTouches(self, s, es, sub, order, k);
    if newest.Some? {
      ShownByNewest(self, s, es, key, sub, t, newest.value, last);
      LastQueuedIff(self, s, es, sub, order, k, newest.value);
    } else {
      Untouched(self, s, es, key, sub, 0, |es|);
      assert SpaceAt(self, s, es, 0) == s by { assert es[..0] == []; }
    }
  }

  /** The owner shows what the newest event about the key left, and only that event left it. */
  lemma {:induction false} ShownByNewest(self: Self, s: Space, es: seq<Event>, key: string, sub: Self, t: Space,
                                         newest: nat, last: Option<nat>)
    requires Followed(self, s, es, key, sub.id)
    requires NewestTouch(self, s, es, sub, PairKey(self.id, key), |es|) == Some(newest)
    requires NewestDiffers(self, s, es, sub, t, PairKey(self.id, key), newest)
    requires last.Some? ==> Touches(self, s, es, last.value, sub, PairKey(self.id, key))
    ensures last.Some? ==> last.value <= newest
    ensures var k := PairKey(self.id, key);
            ShownAt(SpaceAt(self, s, es, |es|), k) == AsOf(self, s, es, t, last, k) <==> last == Some(newest)
  {
    Untouched(self, s, es, key, sub, newest + 1, |es|);
  }

  /** The last frame about `k` comes from an event that made one. */
  lemma QueuedTouches(self: Self, s: Space, es: seq<Event>, sub: Self, order: seq<Ticket>, k: PairKey)
    requires Issued(self, s, es, sub.id, order)
    ensures var last := LastQueued(self, s, es, sub, order, k); last.Some? ==> Touches(self, s, es, last.value, sub, k)
  {
    var hits := Hits(self, s, es, sub, order, k);
    var p := LastHit(hits, |order|);
    LastQueuedHit(self, s, es, sub, order, k, hits, |order|);
    assert order[..|order|] == order;
    if p >= 0 {
      assert TicketAbout(self, s, es, sub, order, k, p);
      TicketTouches(self, s, es, sub, order, k, p);
    }
  }

  lemma TicketTouches(self: Self, s: Space, es: seq<Event>, sub: Self, order: seq<Ticket>, k: PairKey, p: nat)
    requires Issued(self, s, es, sub.id, order) && TicketAbout(self, s, es, sub, order, k, p)
    ensures Touches(self, s, es, order[p].event, sub, k)
  {
    var ms := FramesOf(self, s, es, order[p].event, sub.id);
    assert Concerns(sub, ms[order[p].place], k);
    assert Mentions(ms, sub, k);
  }

  function RegisterThenSet(self: Self, x: int, key: string, value: string): seq<Event> {
    [Received(Subscription(key, self.id, x, true), []), Called(SetPair(key, value, Text))]
  }

  /** The registration: `x` is listed, and told the value there is. */
  lemma RegisteredFirst(self: Self, s: Space, x: int, key: string)
    requires KeysMatch(s) && x in self.peers && self.id != x && key != WILDCARD_KEY
    requires ShownAt(s, PairKey(self.id, key)).Some?
    ensures var k, m := PairKey(self.id, key), Subscription(key, self.id, x, true);
            && k in s.pairs && Handle(self, s, m, []).0 == AddSubscription(s, k, x)
            && To(Handle(self, s, m, []).1, x) == [Update(s.pairs[k].pair)]
            && Sub.Listens(AddSubscription(s, k, x), self.id, x, key)
            && ShownAt(AddSubscription(s, k, x), k) == ShownAt(s, k)
  {
    var k := PairKey(self.id, key);
    var r := AddSubscription(s, k, x);
    SubscribersStep(s, Subscribe(k, x), k);
    FanOutTo(self.peers, [x], Update(r.pairs[k].pair), x);
    ShownStep(s, Subscribe(k, x), k);
  }

  /** The publish after it: the new value to everyone listed. */
  lemma SetNext(self: Self, r: Space, x: int, key: string, value: string)
    requires KeysMatch(r) && ListsDistinct(r) && Hears(self, r, key, x)
    ensures var (after, out) := Perform(self, r, SetPair(key, value, Text));
            && To(out, x) == [Update(Pair(self.id, key, value, Text))]
            && ShownAt(after, PairKey(self.id, key)) == Some((value, Text))
  {
    NotifyTo(self, r, Pair(self.id, key, value, Text), x);
    ShownStep(r, Publish(Pair(self.id, key, value, Text)), PairKey(self.id, key));
  }

  lemma RegisterThenSetFrames(self: Self, s: Space, x: int, key: string, value: string)
    requires KeysMatch(s) && ListsDistinct(s) && x in self.peers && self.id != x && key != WILDCARD_KEY
    requires ShownAt(s, PairKey(self.id, key)).Some?
    ensures var k, es := PairKey(self.id, key), RegisterThenSet(self, x, key, value);
            && k in s.pairs && SpaceAt(self, s, es, 0) == s && SpaceAt(self, s, es, 1) == AddSubscription(s, k, x)
            && FramesOf(self, s, es, 0, x) == [Update(s.pairs[k].pair)]
            && FramesOf(self, s, es, 1, x) == [Update(Pair(self.id, key, value, Text))]
            && ShownAt(AddSubscription(s, k, x), k) == ShownAt(s, k)
            && ShownAt(SpaceAt(self, s, es, 2), k) == Some((value, Text))
  {
    var k := PairKey(self.id, key);
    TwoEvents(self, s, Received(Subscription(key, self.id, x, true), []), Called(SetPair(key, value, Text)), x);
    StepKeepsKeys(s, Subscribe(k, x));
    StepKeepsLists(s, Subscribe(k, x));
    RegisteredFirst(self, s, x, key);
    SetNext(self, AddSubscription(s, k, x), x, key, value);
  }

  lemma TwoEvents(self: Self, s: Space, a: Event, b: Event, x: int)
    ensures var es, r := [a, b], Happens(self, s, a).0;
            && SpaceAt(self, s, es, 0) == s && SpaceAt(self, s, es, 1) == r
            && SpaceAt(self, s, es, 2) == Happens(self, r, b).0
            && FramesOf(self, s, es, 0, x) == To(Happens(self, s, a).1, x)
            && FramesOf(self, s, es, 1, x) == To(Happens(self, r, b).1, x)
  {
    var es := [a, b];
    assert es[..0] == [];
    SpaceNext(self, s, es, 0);
    SpaceNext(self, s, es, 1);
  }

  /** A registration is answered after a later publish has been queued: the subscriber is left with the older value. */
  lemma RegistrationOvertaken(self: Self, s: Space, sub: Self, t: Space, key: string, value: string)
    requires KeysMatch(s) && ListsDistinct(s) && sub.id in self.peers && self.id != sub.id && key != WILDCARD_KEY
    requires ShownAt(s, PairKey(self.id, key)).Some? && ShownAt(s, PairKey(self.id, key)) != Some((value, Text))
    ensures var k, es := PairKey(self.id, key), RegisterThenSet(self, sub.id, key, value);
            var order := [Ticket(1, 0), Ticket(0, 0)];
            && Followed(self, s, es, key, sub.id) && Issued(self, s, es, sub.id, order)
            && ShownAt(SpaceAt(self, s, es, 2), k) == Some((value, Text))
            && ShownAt(Reached(self, s, es, sub, t, order), k) == ShownAt(s, k)
  {
    var es, order := RegisterThenSet(self, sub.id, key, value), [Ticket(1, 0), Ticket(0, 0)];
    RegisterThenSetFrames(self, s, sub.id, key, value);
    assert Registers(self, s, es[0], key, sub.id);
    assert Followed(self, s, es, key, sub.id);
    assert Issued(self, s, es, sub.id, order);
    EndsWith(self, s, es, sub, order, PairKey(self.id, key));
    ShowsLastQueued(self, s, es, sub, t, key, order);
  }

  lemma EndsWith(self: Self, s: Space, es: seq<Event>, sub: Self, order: seq<Ticket>, k: PairKey)
    requires Issued(self, s, es, sub.id, order) && order != []
    requires var tk := order[|order| - 1]; Concerns(sub, FramesOf(self, s, es, tk.event, sub.id)[tk.place], k)
    ensures LastQueued(self, s, es, sub, order, k) == Some(order[|order| - 1].event)
  {
  }

  /** With every frame queued in the order of the events, the mirror holds without any condition. */
  lemma {:induction false} StaysMirroredInOrder(self: Self, s: Space, es: seq<Event>, sub: Self, t: Space,
                                        key: string, n: nat)
    requires Followed(self, s, es, key, sub.id) && Hears(self, s, key, sub.id) && Mirrors(s, t, PairKey(self.id, key))
        && n <= |es|
    ensures var (r, out) := HappenAll(self, s, es[..n]);
            Hears(self, r, key, sub.id) && Mirrors(r, Receive(sub, t, To(out, sub.id)), PairKey(self.id, key))
  {
    StillFollowed(self, s, es, key, sub.id, n);
    if n == 0 {
      assert es[..0] == [];
    } else {
      StaysMirroredInOrder(self, s, es, sub, t, key, n - 1);
      var (r, out) := HappenAll(self, s, es[..n - 1]);
      var ms := FramesOf(self, s, es, n - 1, sub.id);
      assert es[..n][..n - 1] == es[..n - 1];
      EventIsTrue(self, s, es, key, sub, n - 1);
      SpaceNext(self, s, es, n - 1);
      ToConcat(out, Happens(self, r, es[n - 1]).1, sub.id);
      ReceiveConcat(sub, t, To(out, sub.id), ms);
      ReceiveTrue(r, SpaceAt(self, s, es, n), ms, sub, Receive(sub, t, To(out, sub.id)), PairKey(self.id, key));
    }
  }

  /** Frames true to a step bring a mirror along, whichever of them comes last. */
  lemma ReceiveTrue(s: Space, r: Space, ms: seq<Msg>, sub: Self, t: Space, k: PairKey)
    requires TrueTo(s, r, ms, sub, k) && Mirrors(s, t, k)
    ensures Mirrors(r, Receive(sub, t, ms), k)
  {
    ReceiveSays(ms, sub, t, k, ShownAt(r, k));
  }

  lemma {:induction false} ReceiveSays(ms: seq<Msg>, sub: Self, t: Space, k: PairKey, now: Option<(string, PairType)>)
    requires forall j :: 0 <= j < |ms| && Concerns(sub, ms[j], k) ==> Says(ms[j]) == now
    ensures ShownAt(Receive(sub, t, ms), k) == if Mentions(ms, sub, k) then now else ShownAt(t, k)
  {
    if ms != [] {
      var n := |ms| - 1;
      ReceiveSays(ms[..n], sub, t, k, now);
      HandleShows(sub, Receive(sub, t, ms[..n]), ms[n], [], k);
      MentionsSnoc(ms, sub, k);
    }
  }

  lemma MentionsSnoc(ms: seq<Msg>, sub: Self, k: PairKey)
    requires ms != []
    ensures Mentions(ms, sub, k) <==> Mentions(ms[..|ms| - 1], sub, k) || Concerns(sub, ms[|ms| - 1], k)
  {
    var n := |ms| - 1;
    forall j | 0 <= j < n ensures ms[..n][j] == ms[j] {}
    if j :| 0 <= j < n && Concerns(sub, ms[..n][j], k) { assert Concerns(sub, ms[j], k); }
    if j :| 0 <= j < |ms| && Concerns(sub, ms[j], k) { assert j < n ==> Concerns(sub, ms[..n][j], k); }
  }

  /** Registering for a key starts the mirror exactly when there is a value to send or no old copy to be wrong. */
  lemma RegisteringMirrors(self: Self, s: Space, sub: Self, t: Space, key: string)
    requires KeysMatch(s) && sub.id in self.peers && self.id != sub.id && key != WILDCARD_KEY
    ensures var k := PairKey(self.id, key);
            var (r, out) := Handle(self, s, Subscription(key, self.id, sub.id, true), []);
            && Hears(self, r, key, sub.id) && ShownAt(r, k) == ShownAt(s, k)
            && (Mirrors(r, Receive(sub, t, To(out, sub.id)), k) <==> ShownAt(s, k).Some? || ShownAt(t, k).None?)
  {
    var k, m := PairKey(self.id, key), Subscription(key, self.id, sub.id, true);
    var r := AddSubscription(s, k, sub.id);
    var p := r.pairs[k].pair;
    HandleShows(self, s, m, [], k);
    SubscribersStep(s, Subscribe(k, sub.id), k);
    StepKeepsKeys(s, Subscribe(k, sub.id));
    FanOutTo(self.peers, [sub.id], Update(p), sub.id);
    ReceiveOne(sub, t, Update(p));
    HandleShows(sub, t, Update(p), [], k);
  }

  /** The same for a wildcard registration, first or repeated, for every key the owner may have, now or later. */
  lemma WildcardMirrors(self: Self, s: Space, snapshot: seq<Pair>, sub: Self, t: Space, key: string)
    requires KeysMatch(s) && sub.id in self.peers && self.id != sub.id && WildcardOk(self, s, sub.id)
    requires IsSnapshot(self, AddSubscriptionToAll(s, sub.id), snapshot)
    ensures var k := PairKey(self.id, key);
            var (r, out) := Handle(self, s, Subscription(WILDCARD_KEY, self.id, sub.id, true), snapshot);
            && Hears(self, r, key, sub.id) && ShownAt(r, k) == ShownAt(s, k)
            && (Mirrors(r, Receive(sub, t, To(out, sub.id)), k) <==> ShownAt(s, k).Some? || ShownAt(t, k).None?)
  {
    var k, op := PairKey(self.id, key), SubscribeAll(sub.id);
    var r, ms := Apply(s, op), Updates(snapshot);
    HandleShows(self, s, Subscription(WILDCARD_KEY, self.id, sub.id, true), snapshot, k);
    SubscribersStep(s, op, k);
    StepKeepsKeys(s, op);
    SnapshotFrames(self.peers, snapshot, sub.id, sub.id);
    ReceiveSays(ms, sub, t, k, ShownAt(r, k));
    if ShownAt(r, k).Some? {
      assert r.pairs[k].pair in snapshot;
      var i :| 0 <= i < |snapshot| && snapshot[i] == r.pairs[k].pair;
      assert Concerns(sub, ms[i], k);
    }
  }

  /** A request made anywhere acts at the owner as the owner's own call would. */
  lemma RequestsActAsOwn(asker: Self, own: Space, owner: Self, s: Space, key: string, value: string, ty: PairType)
    requires owner.id in asker.peers && owner.id != asker.id
    ensures var out := Perform(asker, own, SetRemotePair(owner.id, key, value, ty)).1;
            |To(out, owner.id)| == 1
                && Handle(owner, s, To(out, owner.id)[0], []) == Perform(owner, s, SetPair(key, value, ty))
    ensures var out := Perform(asker, own, DropRemotePair(owner.id, key)).1;
            |To(out, owner.id)| == 1 && Handle(owner, s, To(out, owner.id)[0], []) == Perform(owner, s, DropPair(key))
  {
    ToOne(owner.id, Push(Pair(owner.id, key, value, ty)), owner.id);
    ToOne(owner.id, RemoveRequest(owner.id, key), owner.id);
  }

  /**
   * So does a subscription: it is one frame, for the owner and nobody else, and there it does to every key what
   * was asked for. The first registration needs no condition, the rest the one under which cancels are exact at all.
   */
  lemma SubscriptionsReachOwner(asker: Self, own: Space, owner: Self, s: Space, key: string, r: bool,
                                snapshot: seq<Pair>, k: string)
    requires owner.id in asker.peers && owner.id != asker.id
    ensures var (after, out) := Perform(asker, own, SendSubscription(owner.id, key, r));
            && after == own && |out| == 1 && To(out, owner.id) == [out[0].msg]
            && var f, t := Sub.Frame.Sub(key, r), Handle(owner, s, out[0].msg, snapshot).0;
            && t == Sub.Handle(s, f, owner.id, asker.id)
            && (r && (key == k || key == WILDCARD_KEY) && asker.id !in s.wildcard ==>
                  Sub.Listens(t, owner.id, asker.id, k))
            && (Sub.Coherent(s, asker.id) && Sub.Clean([f], asker.id in s.wildcard) ==>
                  (Sub.Listens(t, owner.id, asker.id, k) <==>
                     if key == k || key == WILDCARD_KEY then r else Sub.Listens(s, owner.id, asker.id, k)))
  {
    var f := Sub.Frame.Sub(key, r);
    ToOne(owner.id, Subscription(key, owner.id, asker.id, r), owner.id);
    SubscribersStep(s, Sub.SubscriptionOp(f, owner.id, asker.id), PairKey(owner.id, k));
    if Sub.Coherent(s, asker.id) && Sub.Clean([f], asker.id in s.wildcard) {
      Sub.HandleView(s, f, owner.id, asker.id, k);
    }
  }

  /** A subscription with any owner sends each peer exactly the frame a subscription of its own would. */
  lemma {:induction false} EveryoneIsTold(self: Self, own: Space, sessions: seq<int>, key: string, r: bool, x: int)
    requires NoDup(sessions) && forall y :: y in sessions ==> y in self.peers
    ensures To(ToEach(self, sessions, key, r), x) ==
              if x in sessions then To(Perform(self, own, SendSubscription(x, key, r)).1, x) else []
  {
    ToOne(x, Subscription(key, x, self.id, r), x);
    if sessions != [] {
      var n := |sessions| - 1;
      EveryoneIsTold(self, own, sessions[..n], key, r, x);
      assert sessions == sessions[..n] + [sessions[n]];
      assert ToEach(self, sessions, key, r)[..n] == ToEach(self, sessions[..n], key, r);
    }
  }

  /** Subscriptions and removals meant for somebody else are ignored, and so is a subscription of our own. */
  lemma IgnoredFrames(self: Self, s: Space, m: Msg, snapshot: seq<Pair>)
    requires m.Subscription? || m.RemoveRequest?
    requires m.Subscription? ==> m.subscriber == self.id || (m.key != "*" && m.ownerId != self.id)
    requires m.RemoveRequest? ==> m.owner != self.id
    ensures Handle(self, s, m, snapshot) == (s, [])
  {
  }
}
