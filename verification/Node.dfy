/** What one component does with a frame or an API call: `ServerSession::handle*` and the publish path of `Client`. */
module Node {
  import opened Base
  import opened M = PairSpaceModel

  /** The five frames a server handles. `Push` is the wire type `Pair`. */
  datatype Msg =
    | Push(pair: Pair)
    | Update(pair: Pair)
    | Subscription(key: string, ownerId: int, subscriber: int, registering: bool)
    | RemoveRequest(owner: int, key: string)
    | Removed(owner: int, key: string)

  datatype Sent = Sent(to: int, msg: Msg)

  /** A component: its id, the peers it holds sessions for, and its pair space. */
  datatype Self = Self(id: int, peers: set<int>)

  /** One frame per connected subscriber, in list order. */
  function FanOut(peers: set<int>, subscribers: seq<int>, m: Msg): seq<Sent> {
    if subscribers == [] then []
    else
      var before := FanOut(peers, subscribers[..|subscribers| - 1], m);
      var last := subscribers[|subscribers| - 1];
      if last in peers then before + [Sent(last, m)] else before
  }

  // ---------------------------------------------------------------- handlers

  function ApplyAndNotify(self: Self, s: Space, p: Pair): (Space, seq<Sent>) {
    var r := AddPair(s, p);
    var e := r.pairs[p.Id()];
    (r, FanOut(self.peers, e.subscribers, Update(e.pair)))
  }

  /** Whatever owner the frame names, the pair becomes ours. */
  function OnPush(self: Self, s: Space, p: Pair): (Space, seq<Sent>) {
    ApplyAndNotify(self, s, p.(owner := self.id))
  }

  /** Despite its comment the source forwards: any subscriber of the entry gets the update. */
  function OnUpdate(self: Self, s: Space, p: Pair): (Space, seq<Sent>) {
    ApplyAndNotify(self, s, p)
  }

  /** `snapshot` lists the pairs owned and published here, in whatever order the map is walked. */
  ghost predicate IsSnapshot(self: Self, s: Space, snapshot: seq<Pair>) {
    && NoDup(snapshot)
    && forall p :: p in snapshot <==>
         p.Id() in s.pairs && s.pairs[p.Id()].pair == p && p.owner == self.id && p.ty != Invalid
  }

  /** A wildcard registration from someone else is answered with a snapshot. */
  predicate WantsSnapshot(self: Self, m: Msg) {
    m.Subscription? && m.key == WILDCARD_KEY && m.registering && m.subscriber != self.id
  }

  function SnapshotTo(peers: set<int>, snapshot: seq<Pair>, to: int): seq<Sent> {
    if snapshot == [] then []
    else SnapshotTo(peers, snapshot[..|snapshot| - 1], to) + FanOut(peers, [to], Update(snapshot[|snapshot| - 1]))
  }

  function OnSubscription(self: Self, s: Space, m: Msg, snapshot: seq<Pair>): (Space, seq<Sent>)
    requires m.Subscription?
  {
    var wildcard := m.key == WILDCARD_KEY;
    var k := PairKey(m.ownerId, m.key);
    if (!wildcard && m.ownerId != self.id) || m.subscriber == self.id then (s, [])
    else if !m.registering then
      (if wildcard then RemoveSubscriptionToAll(s, m.subscriber) else RemoveSubscription(s, k, m.subscriber), [])
    else if wildcard then
      (AddSubscriptionToAll(s, m.subscriber), SnapshotTo(self.peers, snapshot, m.subscriber))
    else
      var r := AddSubscription(s, k, m.subscriber);
      var p := r.pairs[k].pair;
      (r, if p.ty == Invalid then [] else FanOut(self.peers, [m.subscriber], Update(p)))
  }

  /** The list is taken from the entry as it was: after the removal there may be no entry. */
  function RemoveAndTell(self: Self, s: Space, key: string): (Space, seq<Sent>) {
    var k := PairKey(self.id, key);
    if k !in s.pairs then (s, [])
    else (RemovePair(s, k), FanOut(self.peers, s.pairs[k].subscribers, Removed(self.id, key)))
  }

  function OnRemoveRequest(self: Self, s: Space, owner: int, key: string): (Space, seq<Sent>) {
    if owner != self.id then (s, []) else RemoveAndTell(self, s, key)
  }

  function OnRemoved(s: Space, owner: int, key: string): (Space, seq<Sent>) {
    (RemovePair(s, PairKey(owner, key)), [])
  }

  /** `ServerSession::handle`. `snapshot` matters only to a wildcard registration. */
  function Handle(self: Self, s: Space, m: Msg, snapshot: seq<Pair>): (Space, seq<Sent>) {
    match m
    case Push(p) => OnPush(self, s, p)
    case Update(p) => OnUpdate(self, s, p)
    case Subscription(_, _, _, _) => OnSubscription(self, s, m, snapshot)
    case RemoveRequest(o, k) => OnRemoveRequest(self, s, o, k)
    case Removed(o, k) => OnRemoved(s, o, k)
  }

  // ---------------------------------------------------------------- API calls

  datatype Call =
    | SetPair(key: string, value: string, ty: PairType)
    | SetRemotePair(owner: int, key: string, value: string, ty: PairType)
    | DropPair(key: string)
    | DropRemotePair(owner: int, key: string)
    | SendSubscription(owner: int, key: string, registering: bool)

  function SendTo(self: Self, to: int, m: Msg): seq<Sent> {
    if to in self.peers then [Sent(to, m)] else []
  }

  function Perform(self: Self, s: Space, c: Call): (Space, seq<Sent>) {
    match c
    case SetPair(k, v, ty) => ApplyAndNotify(self, s, Pair(self.id, k, v, ty))
    case SetRemotePair(o, k, v, ty) => (s, SendTo(self, o, Push(Pair(o, k, v, ty))))
    case DropPair(k) => RemoveAndTell(self, s, k)
    case DropRemotePair(o, k) => if o == self.id then RemoveAndTell(self, s, k)
        else (s, SendTo(self, o, RemoveRequest(o, k)))
    case SendSubscription(o, k, r) => (s, SendTo(self, o, Subscription(k, o, self.id, r)))
  }

  /** A subscription with any owner: one frame for each of these peers, addressed to it. */
  function ToEach(self: Self, order: seq<int>, key: string, registering: bool): seq<Sent> {
    seq(|order|, i requires 0 <= i < |order| => Sent(order[i], Subscription(key, order[i], self.id, registering)))
  }

  // ---------------------------------------------------------------- the component as an object

  /** A component with its sends recorded in order. */
  class Component {
    const self: Self
    var ready: bool
    var space: Space
    var sent: seq<Sent>

    constructor (self: Self)
      ensures this.self == self && !ready && space == EMPTY_SPACE && sent == []
    {
      this.self, ready, space, sent := self, false, EMPTY_SPACE, [];
    }

    /** `fanOutPair` and `fanOutRemoval`. */
    method FanOutFrame(m: Msg, subscribers: seq<int>)
      modifies this`sent
      ensures sent == old(sent) + FanOut(self.peers, subscribers, m)
    {
      var i := 0;
      while i < |subscribers|
        invariant 0 <= i <= |subscribers|
        invariant sent == old(sent) + FanOut(self.peers, subscribers[..i], m)
      {
        assert subscribers[..i + 1][..i] == subscribers[..i];
        if subscribers[i] in self.peers { sent := sent + [Sent(subscribers[i], m)]; }
        i := i + 1;
      }
      assert subscribers[..i] == subscribers;
    }

    method Publish(p: Pair)
      modifies this`space, this`sent
      ensures (space, sent) == var (r, out) := ApplyAndNotify(self, old(space), p); (r, old(sent) + out)
    {
      assert sent + [] == sent;
      space := AddPair(space, p);
      var entry := space.pairs[p.Id()];
      if entry.subscribers != [] { FanOutFrame(Update(entry.pair), entry.subscribers); }
    }

    method HandleSubscription(m: Msg) returns (ghost snapshot: seq<Pair>)
      requires m.Subscription? && KeysMatch(space)
      modifies this`space, this`sent
      ensures (space, sent) == var (r, out) := OnSubscription(self, old(space), m, snapshot); (r, old(sent) + out)
      ensures WantsSnapshot(self, m) ==> IsSnapshot(self, space, snapshot)
    {
      assert sent + [] == sent;
      snapshot := [];
      var wildcard := m.key == WILDCARD_KEY;
      var k := PairKey(m.ownerId, m.key);
      if !wildcard && m.ownerId != self.id { return; }
      if m.subscriber == self.id { return; }
      if !m.registering {
        space := if wildcard then RemoveSubscriptionToAll(space, m.subscriber)
            else RemoveSubscription(space, k, m.subscriber);
        return;
      }
      if wildcard {
        space := AddSubscriptionToAll(space, m.subscriber);
        snapshot := SendSnapshot(m.subscriber);
      } else {
        space := AddSubscription(space, k, m.subscriber);
        if space.pairs[k].pair.ty != Invalid { FanOutFrame(Update(space.pairs[k].pair), [m.subscriber]); }
      }
    }

    /** Everything owned and published goes to the new wildcard subscriber. */
    method SendSnapshot(subscriber: int) returns (toSend: seq<Pair>)
      requires KeysMatch(space)
      modifies this`sent
      ensures IsSnapshot(self, space, toSend)
      ensures sent == old(sent) + SnapshotTo(self.peers, toSend, subscriber)
    {
      toSend := [];
      var todo := space.pairs.Keys;
      while todo != {}
        invariant todo <= space.pairs.Keys && sent == old(sent) && NoDup(toSend)
        invariant forall p :: p in toSend <==>
                    && p.Id() in space.pairs && p.Id() !in todo && space.pairs[p.Id()].pair == p
                    && p.owner == self.id && p.ty != Invalid
        decreases |todo|
      {
        var k :| k in todo;
        todo := todo - {k};
        var p := space.pairs[k].pair;
        if p.owner == self.id && p.ty != Invalid { toSend := toSend + [p]; }
      }
      var i := 0;
      while i < |toSend|
        invariant 0 <= i <= |toSend| && sent == old(sent) + SnapshotTo(self.peers, toSend[..i], subscriber)
      {
        assert toSend[..i + 1][..i] == toSend[..i];
        FanOutFrame(Update(toSend[i]), [subscriber]);
        i := i + 1;
      }
      assert toSend[..i] == toSend;
    }

    method RemoveOwn(key: string)
      modifies this`space, this`sent
      ensures (space, sent) == var (r, out) := RemoveAndTell(self, old(space), key); (r, old(sent) + out)
    {
      assert sent + [] == sent;
      var k := PairKey(self.id, key);
      if k !in space.pairs { return; }
      var subscribers := space.pairs[k].subscribers;
      space := RemovePair(space, k);
      if subscribers != [] { FanOutFrame(Removed(self.id, key), subscribers); }
    }

    method HandleFrame(m: Msg) returns (ghost snapshot: seq<Pair>)
      requires KeysMatch(space)
      modifies this`space, this`sent
      ensures (space, sent) == var (r, out) := Handle(self, old(space), m, snapshot); (r, old(sent) + out)
      ensures WantsSnapshot(self, m) ==> IsSnapshot(self, space, snapshot)
    {
      assert sent + [] == sent;
      snapshot := [];
      match m
      case Push(p) => Publish(p.(owner := self.id));
      case Update(p) => Publish(p);
      case Subscription(_, _, _, _) => snapshot := HandleSubscription(m);
      case RemoveRequest(o, k) => if o == self.id { RemoveOwn(k); }
      case Removed(o, k) => space := RemovePair(space, PairKey(o, k));
    }

    /** A call about our own pairs is refused until the master's welcome, one to a peer if there is no session. */
    method PerformCall(c: Call) returns (ok: bool)
      modifies this`space, this`sent
      ensures c.SetPair? || c.DropPair? ==> (ok <==> ready)
      ensures c.SetRemotePair? || c.SendSubscription? ==> (ok <==> c.owner in self.peers)
      ensures c.DropRemotePair? ==> (ok <==> if c.owner == self.id then ready else c.owner in self.peers)
      ensures !ok ==> space == old(space) && sent == old(sent)
      ensures ok ==> (space, sent) == var (r, out) := Perform(self, old(space), c); (r, old(sent) + out)
    {
      assert sent + [] == sent;
      match c {
        case SetPair(k, v, ty) =>
          if !ready { return false; }
          Publish(Pair(self.id, k, v, ty));
        case SetRemotePair(o, k, v, ty) =>
          if o !in self.peers { return false; }
          sent := sent + [Sent(o, Push(Pair(o, k, v, ty)))];
        case DropPair(k) =>
          if !ready { return false; }
          RemoveOwn(k);
        case DropRemotePair(o, k) =>
          if o == self.id {
            if !ready { return false; }
            RemoveOwn(k);
          } else {
            if o !in self.peers { return false; }
            sent := sent + [Sent(o, RemoveRequest(o, k))];
          }
        case SendSubscription(o, k, r) =>
          if o !in self.peers { return false; }
          sent := sent + [Sent(o, Subscription(k, o, self.id, r))];
      }
      return true;
    }

    /** `sendSubscription` with any owner; `sessions` lists the peers, once each, as the session map is walked. */
    method SendToEveryone(sessions: seq<int>, key: string, registering: bool)
      requires NoDup(sessions) && forall x :: x in sessions <==> x in self.peers
      modifies this`sent
      ensures sent == old(sent) + ToEach(self, sessions, key, registering)
    {
      var i := 0;
      while i < |sessions|
        invariant 0 <= i <= |sessions| && sent == old(sent) + ToEach(self, sessions[..i], key, registering)
      {
        sent := sent + [Sent(sessions[i], Subscription(key, sessions[i], self.id, registering))];
        i := i + 1;
      }
      assert sessions[..i] == sessions;
    }
  }
}
