/** Any number of components exchanging frames: who emits updates, and why the network falls quiet. */
module Network {
  import opened Base
  import opened M = PairSpaceModel
  import opened Node

  datatype Packet = Packet(from: int, to: int, msg: Msg)

  /** Links are FIFO: a packet may be delivered when none ahead of it is on the same link. */
  datatype Net = Net(nodes: map<int, Space>, inFlight: seq<Packet>)

  function InitNet(ids: set<int>): Net { Net(map n | n in ids :: EMPTY_SPACE, []) }

  function SelfOf(net: Net, n: int): Self { Self(n, net.nodes.Keys - {n}) }

  datatype Step =
    | Api(node: int, call: Call)
    | Deliver(i: nat, snapshot: seq<Pair>)
    | Lose(i: nat)

  function Stamp(from: int, out: seq<Sent>): seq<Packet> {
    seq(|out|, i requires 0 <= i < |out| => Packet(from, out[i].to, out[i].msg))
  }

  ghost predicate Enabled(net: Net, step: Step) {
    match step
    case Api(n, _) => n in net.nodes
    case Deliver(i, snapshot) =>
      && i < |net.inFlight| && net.inFlight[i].to in net.nodes
      && (forall j :: 0 <= j < i ==>
           net.inFlight[j].from != net.inFlight[i].from || net.inFlight[j].to != net.inFlight[i].to)
      && var p := net.inFlight[i];
         WantsSnapshot(SelfOf(net, p.to), p.msg) ==> IsSnapshot(SelfOf(net, p.to), net.nodes[p.to], snapshot)
    case Lose(i) => i < |net.inFlight|
  }

  ghost function Next(net: Net, step: Step): Net
    requires Enabled(net, step)
  {
    match step
    case Api(n, c) =>
      var (space, out) := Perform(SelfOf(net, n), net.nodes[n], c);
      Net(net.nodes[n := space], net.inFlight + Stamp(n, out))
    case Deliver(i, snapshot) =>
      var p := net.inFlight[i];
      var (space, out) := Handle(SelfOf(net, p.to), net.nodes[p.to], p.msg, snapshot);
      Net(net.nodes[p.to := space], RemoveAt(net.inFlight, i) + Stamp(p.to, out))
    case Lose(i) => net.(inFlight := RemoveAt(net.inFlight, i))
  }

  ghost predicate IsRun(ids: set<int>, nets: seq<Net>, steps: seq<Step>) {
    && |nets| == |steps| + 1 && nets[0] == InitNet(ids)
    && forall i :: 0 <= i < |steps| ==> Enabled(nets[i], steps[i]) && nets[i + 1] == Next(nets[i], steps[i])
  }

  ghost predicate NoWildcard(step: Step) {
    step.Api? && step.call.SendSubscription? ==> step.call.key != WILDCARD_KEY
  }

  // ---------------------------------------------------------------- invariant

  /** No wildcard subscribers, and nobody subscribed here to somebody else's pair. */
  ghost predicate NodeOk(n: int, s: Space) {
    && KeysMatch(s) && ListsDistinct(s) && s.wildcard == []
    && forall k :: k in s.pairs && k.owner != n ==> s.pairs[k].subscribers == []
  }

  /** Updates and removals travel only from the owner; no subscription is a wildcard one. */
  ghost predicate MsgOk(from: int, m: Msg) {
    match m
    case Update(p) => p.owner == from
    case Removed(o, _) => o == from
    case Subscription(k, _, _, _) => k != WILDCARD_KEY
    case _ => true
  }

  ghost predicate Inv(net: Net) {
    && (forall n :: n in net.nodes ==> NodeOk(n, net.nodes[n]))
    && forall i :: 0 <= i < |net.inFlight| ==>
         net.inFlight[i].from != net.inFlight[i].to && MsgOk(net.inFlight[i].from, net.inFlight[i].msg)
  }

  ghost predicate OutOk(n: int, out: seq<Sent>) {
    forall i :: 0 <= i < |out| ==> out[i].to != n && MsgOk(n, out[i].msg)
  }

  lemma {:induction false} FanOutOk(self: Self, subscribers: seq<int>, m: Msg)
    requires self.id !in self.peers && MsgOk(self.id, m)
    ensures OutOk(self.id, FanOut(self.peers, subscribers, m))
    ensures forall i :: 0 <= i < |FanOut(self.peers, subscribers, m)| ==> FanOut(self.peers, subscribers, m)[i].msg == m
  {
    if subscribers != [] { FanOutOk(self, subscribers[..|subscribers| - 1], m); }
  }

  /** Distinct subscribers get one frame each, so at most one per peer. */
  lemma {:induction false} FanOutBounded(peers: set<int>, subscribers: seq<int>, m: Msg)
    requires NoDup(subscribers)
    ensures |FanOut(peers, subscribers, m)| <= |peers|
  {
    if subscribers != [] {
      var n := |subscribers| - 1;
      var last := subscribers[n];
      FanOutBounded(peers - {last}, subscribers[..n], m);
      FanOutIgnores(peers, subscribers[..n], m, last);
      if last in peers { assert |peers - {last}| == |peers| - 1; } else { assert peers - {last} == peers; }
    }
  }

  lemma {:induction false} FanOutIgnores(peers: set<int>, subscribers: seq<int>, m: Msg, x: int)
    requires x !in subscribers
    ensures FanOut(peers - {x}, subscribers, m) == FanOut(peers, subscribers, m)
  {
    if subscribers != [] { FanOutIgnores(peers, subscribers[..|subscribers| - 1], m, x); }
  }

  lemma NodeStep(n: int, s: Space, op: M.Op)
    requires NodeOk(n, s)
    requires !op.SubscribeAll? && (op.Subscribe? ==> op.id.owner == n)
    ensures NodeOk(n, Apply(s, op))
  {
    StepKeepsKeys(s, op);
    StepKeepsLists(s, op);
    forall k | k in Apply(s, op).pairs && k.owner != n ensures Apply(s, op).pairs[k].subscribers == [] {
      SubscribersStep(s, op, k);
    }
  }

  // ---------------------------------------------------------------- one handler, one call

  /** How much trouble a frame can still cause: itself, plus what handling it may send. */
  function Weight(m: Msg, size: nat): nat {
    match m
    case Push(_) => size + 1
    case RemoveRequest(_, _) => size + 1
    case Subscription(_, _, _, _) => 2
    case Update(_) => 1
    case Removed(_, _) => 1
  }

  ghost predicate Light(out: seq<Sent>) {
    forall i :: 0 <= i < |out| ==> out[i].msg.Update? || out[i].msg.Removed?
  }

  lemma NotifyOk(self: Self, s: Space, p: Pair)
    requires NodeOk(self.id, s) && self.id !in self.peers
    ensures var (r, out) := ApplyAndNotify(self, s, p);
            && NodeOk(self.id, r) && OutOk(self.id, out) && Light(out) && |out| <= |self.peers|
            && (p.owner != self.id ==> out == [])
  {
    var (r, out) := ApplyAndNotify(self, s, p);
    NodeStep(self.id, s, Publish(p));
    var e := r.pairs[p.Id()];
    if p.owner == self.id {
      FanOutOk(self, e.subscribers, Update(e.pair));
      FanOutBounded(self.peers, e.subscribers, Update(e.pair));
    }
  }

  lemma RemovalOk(self: Self, s: Space, key: string)
    requires NodeOk(self.id, s) && self.id !in self.peers
    ensures var (r, out) := RemoveAndTell(self, s, key);
            NodeOk(self.id, r) && OutOk(self.id, out) && Light(out) && |out| <= |self.peers|
  {
    var k := PairKey(self.id, key);
    if k in s.pairs {
      NodeStep(self.id, s, Remove(k));
      FanOutOk(self, s.pairs[k].subscribers, Removed(self.id, key));
      FanOutBounded(self.peers, s.pairs[k].subscribers, Removed(self.id, key));
    }
  }

  lemma SubscriptionOk(self: Self, s: Space, m: Msg, snapshot: seq<Pair>)
    requires NodeOk(self.id, s) && self.id !in self.peers && m.Subscription? && m.key != WILDCARD_KEY
    ensures var (r, out) := OnSubscription(self, s, m, snapshot);
            NodeOk(self.id, r) && OutOk(self.id, out) && Light(out) && |out| <= 1
  {
    var k := PairKey(m.ownerId, m.key);
    if m.ownerId == self.id && m.subscriber != self.id {
      if m.registering {
        var op := Subscribe(k, m.subscriber);
        NodeStep(self.id, s, op);
        assert AddSubscription(s, k, m.subscriber) == Apply(s, op);
        FanOutOk(self, [m.subscriber], Update(Apply(s, op).pairs[k].pair));
        FanOutOne(self.peers, m.subscriber, Update(Apply(s, op).pairs[k].pair));
      } else {
        NodeStep(self.id, s, Unsubscribe(k, m.subscriber));
      }
    }
  }

  /** A frame goes to `x` exactly when `x` is a subscriber we hold a session for, and nobody else gets one. */
  lemma {:induction false} FanOutReaches(peers: set<int>, subscribers: seq<int>, m: Msg, x: int)
    ensures Sent(x, m) in FanOut(peers, subscribers, m) <==> x in subscribers && x in peers
    ensures forall sent :: sent in FanOut(peers, subscribers, m) ==> sent.msg == m
  {
    if subscribers != [] {
      var n := |subscribers| - 1;
      FanOutReaches(peers, subscribers[..n], m, x);
      assert subscribers == subscribers[..n] + [subscribers[n]];
    }
  }

  /** Exactly whom a received update is passed on to: the subscribers of the entry, inherited ones included. */
  lemma UpdateForwardsIff(self: Self, s: Space, p: Pair, x: int)
    requires KeysMatch(s)
    ensures var out := OnUpdate(self, s, p).1;
            var listed := if p.Id() in s.pairs then s.pairs[p.Id()].subscribers else s.wildcard;
            && (Sent(x, Update(p)) in out <==> x in listed && x in self.peers)
            && (out == [] <==> forall y :: y in listed ==> y !in self.peers)
  {
    var r := AddPair(s, p);
    var listed := r.pairs[p.Id()].subscribers;
    assert r.pairs[p.Id()].pair == p;
    assert OnUpdate(self, s, p).1 == FanOut(self.peers, listed, Update(p));
    FanOutReaches(self.peers, listed, Update(p), x);
    forall y | y in listed ensures y in self.peers ==> Sent(y, Update(p)) in OnUpdate(self, s, p).1 {
      FanOutReaches(self.peers, listed, Update(p), y);
    }
    if forall y :: y in listed ==> y !in self.peers { FanOutOnly(self.peers, listed, Update(p)); }
  }

  lemma {:induction false} FanOutOnly(peers: set<int>, subscribers: seq<int>, m: Msg)
    requires forall y :: y in subscribers ==> y !in peers
    ensures FanOut(peers, subscribers, m) == []
  {
    if subscribers != [] { FanOutOnly(peers, subscribers[..|subscribers| - 1], m); }
  }

  lemma FanOutOne(peers: set<int>, to: int, m: Msg)
    ensures FanOut(peers, [to], m) == if to in peers then [Sent(to, m)] else []
  {
    assert [to][..0] == [];
    assert FanOut(peers, [], m) == [];
  }

  /** Handling a frame keeps the node in order and sends strictly less than the frame weighed. */
  lemma HandleOk(self: Self, s: Space, from: int, m: Msg, snapshot: seq<Pair>)
    requires NodeOk(self.id, s) && self.id !in self.peers && from != self.id && MsgOk(from, m)
    ensures var (r, out) := Handle(self, s, m, snapshot);
            NodeOk(self.id, r) && OutOk(self.id, out) && Light(out) && |out| < Weight(m, |self.peers| + 1)
  {
    match m
    case Push(p) => NotifyOk(self, s, p.(owner := self.id));
    case Update(p) => NotifyOk(self, s, p);
    case Subscription(_, _, _, _) => SubscriptionOk(self, s, m, snapshot);
    case RemoveRequest(o, k) => RemovalOk(self, s, k);
    case Removed(o, k) => NodeStep(self.id, s, Remove(PairKey(o, k)));
  }

  lemma PerformOk(self: Self, s: Space, c: Call)
    requires NodeOk(self.id, s) && self.id !in self.peers && (c.SendSubscription? ==> c.key != WILDCARD_KEY)
    ensures var (r, out) := Perform(self, s, c); NodeOk(self.id, r) && OutOk(self.id, out)
  {
    match c
    case SetPair(k, v, ty) => NotifyOk(self, s, Pair(self.id, k, v, ty));
    case DropPair(k) => RemovalOk(self, s, k);
    case DropRemotePair(o, k) => RemovalOk(self, s, k);
    case _ =>
  }

  lemma StepInv(net: Net, step: Step)
    requires Inv(net) && Enabled(net, step) && NoWildcard(step)
    ensures Inv(Next(net, step)) && Next(net, step).nodes.Keys == net.nodes.Keys
  {
    match step
    case Api(n, c) => PerformOk(SelfOf(net, n), net.nodes[n], c);
    case Deliver(i, snapshot) =>
      var p := net.inFlight[i];
      HandleOk(SelfOf(net, p.to), net.nodes[p.to], p.from, p.msg, snapshot);
    case Lose(i) =>
  }

  lemma {:induction false} RunInv(ids: set<int>, nets: seq<Net>, steps: seq<Step>, i: nat)
    requires IsRun(ids, nets, steps) && i < |nets|
    requires forall j :: 0 <= j < i ==> NoWildcard(steps[j])
    ensures Inv(nets[i]) && nets[i].nodes.Keys == ids
  {
    if i > 0 {
      RunInv(ids, nets, steps, i - 1);
      StepInv(nets[i - 1], steps[i - 1]);
    }
  }

  /** Owner-only emission: foreign entries have no subscribers, and every update in flight is from its owner. */
  lemma OwnerOnlyEmission(ids: set<int>, nets: seq<Net>, steps: seq<Step>, i: nat)
    requires IsRun(ids, nets, steps) && i < |nets|
    requires forall j :: 0 <= j < i ==> NoWildcard(steps[j])
    ensures forall n, k :: n in nets[i].nodes && k in nets[i].nodes[n].pairs && k.owner != n ==>
              nets[i].nodes[n].pairs[k].subscribers == []
    ensures forall j :: 0 <= j < |nets[i].inFlight| && nets[i].inFlight[j].msg.Update? ==>
              nets[i].inFlight[j].msg.pair.owner == nets[i].inFlight[j].from
  {
    RunInv(ids, nets, steps, i);
  }

  // ---------------------------------------------------------------- quiescence

  function Total(ps: seq<Packet>, size: nat): nat {
    if ps == [] then 0 else Total(ps[..|ps| - 1], size) + Weight(ps[|ps| - 1].msg, size)
  }

  lemma {:induction false} TotalConcat(a: seq<Packet>, b: seq<Packet>, size: nat)
    ensures Total(a + b, size) == Total(a, size) + Total(b, size)
  {
    if b == [] {
      assert a + b == a;
    } else {
      assert (a + b)[..|a + b| - 1] == a + b[..|b| - 1];
      TotalConcat(a, b[..|b| - 1], size);
    }
  }

  lemma TotalRemove(ps: seq<Packet>, i: nat, size: nat)
    requires i < |ps|
    ensures Total(RemoveAt(ps, i), size) == Total(ps, size) - Weight(ps[i].msg, size)
  {
    assert ps == ps[..i] + ([ps[i]] + ps[i + 1..]);
    TotalConcat(ps[..i], [ps[i]] + ps[i + 1..], size);
    TotalConcat([ps[i]], ps[i + 1..], size);
    TotalConcat(ps[..i], ps[i + 1..], size);
    assert [ps[i]][..0] == [];
  }

  lemma {:induction false} TotalLight(from: int, out: seq<Sent>, size: nat)
    requires Light(out)
    ensures Total(Stamp(from, out), size) == |out|
  {
    if out != [] {
      var n := |out| - 1;
      TotalLight(from, out[..n], size);
      assert Stamp(from, out)[..n] == Stamp(from, out[..n]);
    }
  }

  /** Delivering or losing a frame strictly lowers the total weight under way. */
  lemma DeliveryLowersTotal(net: Net, step: Step)
    requires Inv(net) && Enabled(net, step) && !step.Api?
    ensures Total(Next(net, step).inFlight, |net.nodes|) < Total(net.inFlight, |net.nodes|)
  {
    var size := |net.nodes|;
    TotalRemove(net.inFlight, step.i, size);
    if step.Deliver? {
      var p := net.inFlight[step.i];
      var self := SelfOf(net, p.to);
      var out := Handle(self, net.nodes[p.to], p.msg, step.snapshot).1;
      HandleOk(self, net.nodes[p.to], p.from, p.msg, step.snapshot);
      assert |net.nodes.Keys - {p.to}| == size - 1;
      TotalLight(p.to, out, size);
      TotalConcat(RemoveAt(net.inFlight, step.i), Stamp(p.to, out), size);
    }
  }

  /** After the last API call the network falls quiet: only so many deliveries can follow. */
  lemma {:induction false} Quiesces(ids: set<int>, nets: seq<Net>, steps: seq<Step>, start: nat, end: nat)
    requires IsRun(ids, nets, steps) && start <= end < |nets|
    requires forall j :: 0 <= j < end ==> NoWildcard(steps[j])
    requires forall j :: start <= j < end ==> !steps[j].Api?
    ensures end - start <= Total(nets[start].inFlight, |ids|) - Total(nets[end].inFlight, |ids|)
    decreases end
  {
    if start < end {
      Quiesces(ids, nets, steps, start, end - 1);
      RunInv(ids, nets, steps, end - 1);
      assert |nets[end - 1].nodes| == |ids| by { assert |nets[end - 1].nodes.Keys| == |ids|; }
      DeliveryLowersTotal(nets[end - 1], steps[end - 1]);
    }
  }

  // ---------------------------------------------------------------- wildcard subscribers can echo for ever

  /** A node that knows the pair `p` and tells `other` about it. */
  function Echoing(p: Pair, other: int, wildcard: seq<int>): Space {
    Space(map[p.Id() := Entry(p, [other], map[])], wildcard, map[], map[], 0)
  }

  /** Two components that tell each other about `p`, and one update from `n` to `m` under way. */
  function EchoNet(p: Pair, n: int, m: int, ofN: seq<int>, ofM: seq<int>): Net
  {
    Net(map[n := Echoing(p, m, ofN), m := Echoing(p, n, ofM)], [Packet(n, m, Update(p))])
  }

  /** Each delivery sends the update straight back. */
  lemma EchoStep(p: Pair, n: int, m: int, ofN: seq<int>, ofM: seq<int>)
    requires n != m
    ensures Enabled(EchoNet(p, n, m, ofN, ofM), Deliver(0, []))
    ensures Next(EchoNet(p, n, m, ofN, ofM), Deliver(0, [])) == EchoNet(p, m, n, ofM, ofN)
  {
    var net := EchoNet(p, n, m, ofN, ofM);
    assert net.nodes.Keys - {m} == {n};
    var self := SelfOf(net, m);
    var (space, out) := Handle(self, net.nodes[m], Update(p), []);
    assert space.pairs == Echoing(p, n, ofM).pairs;
    FanOutOne(self.peers, n, Update(p));
    assert space.pairs[p.Id()] == Entry(p, [n], map[]);
    assert out == [Sent(n, Update(p))];
    assert Next(net, Deliver(0, [])).nodes == EchoNet(p, m, n, ofM, ofN).nodes;
  }

  /** So deliveries alone can go on for any number of steps: the hypothesis of quiescence is needed. */
  lemma {:induction false} EchoForever(p: Pair, n: int, m: int, ofN: seq<int>, ofM: seq<int>, count: nat)
    returns (nets: seq<Net>)
    requires n != m
    ensures |nets| == count + 1 && nets[0] == EchoNet(p, n, m, ofN, ofM)
    ensures forall i :: 0 <= i < count ==>
        Enabled(nets[i], Deliver(0, [])) && nets[i + 1] == Next(nets[i], Deliver(0, []))
    decreases count
  {
    if count == 0 { return [EchoNet(p, n, m, ofN, ofM)]; }
    var rest := EchoForever(p, m, n, ofM, ofN, count - 1);
    EchoStep(p, n, m, ofN, ofM);
    nets := [EchoNet(p, n, m, ofN, ofM)] + rest;
  }

  lemma Extend(ids: set<int>, nets: seq<Net>, steps: seq<Step>, step: Step) returns (nets': seq<Net>, steps': seq<Step>)
    requires IsRun(ids, nets, steps) && Enabled(nets[|steps|], step)
    ensures IsRun(ids, nets', steps') && nets'[|steps'|] == Next(nets[|steps|], step)
  {
    nets', steps' := nets + [Next(nets[|steps|], step)], steps + [step];
  }

  /** And the echoing network is reachable with two wildcard registrations and one publish. */
  lemma EchoReachable(n: int, m: int, key: string, value: string) returns (nets: seq<Net>, steps: seq<Step>)
    requires n != m
    ensures IsRun({n, m}, nets, steps)
    ensures nets[|steps|] == EchoNet(Pair(n, key, value, Text), m, n, [n], [m])
  {
    var p := Pair(n, key, value, Text);
    nets, steps := MutualWildcards(n, m);
    var net := nets[|steps|];
    var call := SetPair(key, value, Text);
    nets, steps := Extend({n, m}, nets, steps, Api(n, call));
    PublishToWildcard(SelfOf(net, n), m, p);
    ghost var net1 := nets[|steps|];
    assert net1.inFlight == [Packet(n, m, Update(p))];
    assert net1.nodes.Keys - {m} == {n};
    nets, steps := Extend({n, m}, nets, steps, Deliver(0, []));
    PublishToWildcard(SelfOf(net1, m), n, p);
    ghost var net2 := nets[|steps|];
    assert net2.inFlight == [Packet(m, n, Update(p))];
    assert net2.nodes == EchoNet(p, m, n, [n], [m]).nodes;
  }

  /** One wildcard registration is enough if the other side has registered for a single key. */
  lemma OneWildcardEchoes(n: int, m: int, key: string, value: string) returns (nets: seq<Net>, steps: seq<Step>)
    requires n != m && key != WILDCARD_KEY
    ensures IsRun({n, m}, nets, steps)
    ensures nets[|steps|] == EchoNet(Pair(n, key, value, Text), m, n, [n], [])
  {
    var p := Pair(n, key, value, Text);
    nets, steps := KeyAndWildcard(n, m, key);
    ghost var net := nets[|steps|];
    nets, steps := Extend({n, m}, nets, steps, Api(n, SetPair(key, value, Text)));
    PublishToListed(SelfOf(net, n), m, p);
    ghost var net1 := nets[|steps|];
    assert net1.inFlight == [Packet(n, m, Update(p))];
    assert net1.nodes.Keys - {m} == {n};
    nets, steps := Extend({n, m}, nets, steps, Deliver(0, []));
    PublishToWildcard(SelfOf(net1, m), n, p);
    ghost var net2 := nets[|steps|];
    assert net2.inFlight == [Packet(m, n, Update(p))];
    assert net2.nodes == EchoNet(p, m, n, [n], []).nodes;
  }

  /** `m` waits for one key of `n` that is not published yet. */
  function Awaited(n: int, m: int, key: string): Space {
    var k := PairKey(n, key);
    EMPTY_SPACE.(pairs := map[k := Entry(Placeholder(k), [m], map[])])
  }

  lemma PublishToListed(self: Self, other: int, p: Pair)
    requires other in self.peers
    ensures ApplyAndNotify(self, Awaited(p.owner, other, p.key), p) == (Echoing(p, other, []), [Sent(other, Update(p))])
  {
    FanOutOne(self.peers, other, Update(p));
    assert AddPair(Awaited(p.owner, other, p.key), p).pairs == Echoing(p, other, []).pairs;
  }

  lemma AwaitArrives(n: int, m: int, key: string)
    ensures AddSubscription(EMPTY_SPACE, PairKey(n, key), m) == Awaited(n, m, key)
  {
    var k := PairKey(n, key);
    var r := Ensure(EMPTY_SPACE, k);
    assert Placeholder(k).Id() == k;
    assert r.pairs == map[k := Entry(Placeholder(k), [], map[])];
    assert AddOnce([], m) == [m];
    assert AddSubscription(EMPTY_SPACE, k, m).pairs == Awaited(n, m, key).pairs;
  }

  lemma KeyAndWildcard(n: int, m: int, key: string) returns (nets: seq<Net>, steps: seq<Step>)
    requires n != m && key != WILDCARD_KEY
    ensures IsRun({n, m}, nets, steps)
    ensures nets[|steps|] == Net(map[n := Awaited(n, m, key), m := EMPTY_SPACE.(wildcard := [n])], [])
  {
    var ids := {n, m};
    assert InitNet(ids).nodes == map[n := EMPTY_SPACE, m := EMPTY_SPACE];
    nets, steps := OneWildcard([InitNet(ids)], [], n, m);
    ghost var net := nets[|steps|];
    assert n in SelfOf(net, m).peers;
    nets, steps := Extend(ids, nets, steps, Api(m, SendSubscription(n, key, true)));
    ghost var net1 := nets[|steps|];
    assert net1.inFlight == [Packet(m, n, Subscription(key, n, m, true))] && net1.nodes == net.nodes;
    nets, steps := Extend(ids, nets, steps, Deliver(0, []));
    AwaitArrives(n, m, key);
    assert nets[|steps|].inFlight == [];
    assert nets[|steps|].nodes == map[n := Awaited(n, m, key), m := EMPTY_SPACE.(wildcard := [n])];
  }

  lemma PublishToWildcard(self: Self, other: int, p: Pair)
    requires other in self.peers
    ensures ApplyAndNotify(self, EMPTY_SPACE.(wildcard := [other]), p) ==
        (Echoing(p, other, [other]), [Sent(other, Update(p))])
  {
    FanOutOne(self.peers, other, Update(p));
    assert AddPair(EMPTY_SPACE.(wildcard := [other]), p).pairs == Echoing(p, other, [other]).pairs;
  }

  lemma MutualWildcards(n: int, m: int) returns (nets: seq<Net>, steps: seq<Step>)
    requires n != m
    ensures IsRun({n, m}, nets, steps)
    ensures nets[|steps|] == Net(map[n := EMPTY_SPACE.(wildcard := [m]), m := EMPTY_SPACE.(wildcard := [n])], [])
  {
    assert InitNet({n, m}).nodes == map[n := EMPTY_SPACE, m := EMPTY_SPACE];
    nets, steps := OneWildcard([InitNet({n, m})], [], n, m);
    assert nets[|steps|].nodes == map[n := EMPTY_SPACE, m := EMPTY_SPACE.(wildcard := [n])];
    assert {n, m} == {m, n};
    nets, steps := OneWildcard(nets, steps, m, n);
    assert nets[|steps|].nodes == map[n := EMPTY_SPACE.(wildcard := [m]), m := EMPTY_SPACE.(wildcard := [n])];
  }

  /** `n` subscribes to everything of `m`, which holds nothing yet, and the frame arrives. */
  lemma OneWildcard(nets: seq<Net>, steps: seq<Step>, n: int, m: int) returns (nets': seq<Net>, steps': seq<Step>)
    requires n != m && IsRun({n, m}, nets, steps)
    requires var net := nets[|steps|]; net.inFlight == [] && net.nodes.Keys == {n, m} && net.nodes[m] == EMPTY_SPACE
    ensures IsRun({n, m}, nets', steps')
    ensures nets'[|steps'|] == Net(nets[|steps|].nodes[m := EMPTY_SPACE.(wildcard := [n])], [])
  {
    var ids, net := {n, m}, nets[|steps|];
    assert m in SelfOf(net, n).peers;
    nets', steps' := Extend(ids, nets, steps, Api(n, SendSubscription(m, WILDCARD_KEY, true)));
    ghost var net1 := nets'[|steps'|];
    assert net1.inFlight == [Packet(n, m, Subscription(WILDCARD_KEY, m, n, true))];
    assert net1.nodes == net.nodes;
    nets', steps' := Extend(ids, nets', steps', Deliver(0, []));
    WildcardArrives(SelfOf(net1, m), m, n);
    assert nets'[|steps'|].inFlight == [];
  }

  lemma WildcardArrives(self: Self, n: int, subscriber: int)
    requires self.id == n && subscriber != n
    ensures Handle(self, EMPTY_SPACE, Subscription(WILDCARD_KEY, n, subscriber, true), [])
            == (EMPTY_SPACE.(wildcard := [subscriber]), [])
  {
    assert AddSubscriptionToAll(EMPTY_SPACE, subscriber).pairs == map[];
    assert AddSubscriptionToAll(EMPTY_SPACE, subscriber).wildcard == [subscriber];
    assert SnapshotTo(self.peers, [], subscriber) == [];
  }
}
