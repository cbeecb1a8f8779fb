/**
 * Networks with wildcard subscribers in which every registration goes to a component of higher rank, so that
 * updates only ever travel downhill: they fall quiet too.
 */
module Downhill {
  import opened Base
  import opened M = PairSpaceModel
  import opened Node
  import opened Network
  import H = Mirror

  type Rank = int -> nat

  /** Whoever registers, for one key or for all, ranks below the component registered with. */
  predicate GoesUp(rank: Rank, step: Step) {
    step.Api? && step.call.SendSubscription? && step.call.registering ==> rank(step.node) < rank(step.call.owner)
  }

  ghost predicate AllBelow(rank: Rank, n: int, list: seq<int>) {
    forall x :: x in list ==> rank(x) < rank(n)
  }

  /** Everyone subscribed at `n` ranks below it. */
  ghost predicate SpaceOk(rank: Rank, n: int, s: Space) {
    && KeysMatch(s) && ListsDistinct(s) && AllBelow(rank, n, s.wildcard)
    && forall k :: k in s.pairs ==> AllBelow(rank, n, s.pairs[k].subscribers)
  }

  ghost predicate PacketOk(rank: Rank, p: Packet) {
    p.msg.Subscription? && p.msg.registering ==> rank(p.msg.subscriber) < rank(p.to)
  }

  ghost predicate Sound(rank: Rank, net: Net) {
    && (forall n :: n in net.nodes ==> SpaceOk(rank, n, net.nodes[n]))
    && forall i :: 0 <= i < |net.inFlight| ==> PacketOk(rank, net.inFlight[i])
  }

  // ---------------------------------------------------------------- weights

  /** The most a frame can still cause at a node of rank `r`, in a network of `size` components. */
  function Worth(r: nat, size: nat): nat
    decreases r
  {
    if r == 0 then 1 else 1 + size * Worth(r - 1, size)
  }

  function PacketWorth(rank: Rank, p: Packet, size: nat): nat {
    if p.msg.Removed? then 1 else Worth(rank(p.to), size)
  }

  function TotalWorth(rank: Rank, ps: seq<Packet>, size: nat): nat {
    if ps == [] then 0 else TotalWorth(rank, ps[..|ps| - 1], size) + PacketWorth(rank, ps[|ps| - 1], size)
  }

  predicate AsksAll(m: Msg) { m.Subscription? && m.registering && m.key == WILDCARD_KEY }

  /** How many wildcard registrations are under way. */
  function Asking(ps: seq<Packet>): nat {
    if ps == [] then 0 else Asking(ps[..|ps| - 1]) + if AsksAll(ps[|ps| - 1].msg) then 1 else 0
  }

  lemma {:induction false} SumsConcat(rank: Rank, a: seq<Packet>, b: seq<Packet>, size: nat)
    ensures TotalWorth(rank, a + b, size) == TotalWorth(rank, a, size) + TotalWorth(rank, b, size)
    ensures Asking(a + b) == Asking(a) + Asking(b)
  {
    if b == [] {
      assert a + b == a;
    } else {
      var n := |b| - 1;
      assert (a + b)[..|a + b| - 1] == a + b[..n];
      SumsConcat(rank, a, b[..n], size);
    }
  }

  lemma SumsRemove(rank: Rank, ps: seq<Packet>, i: nat, size: nat)
    requires i < |ps|
    ensures TotalWorth(rank, RemoveAt(ps, i), size) + PacketWorth(rank, ps[i], size) == TotalWorth(rank, ps, size)
    ensures Asking(RemoveAt(ps, i)) + (if AsksAll(ps[i].msg) then 1 else 0) == Asking(ps)
  {
    var x, y := ps[..i], ps[i + 1..];
    SplitAt(ps, i);
    SumsConcat(rank, x, [ps[i]] + y, size);
    SumsConcat(rank, [ps[i]], y, size);
    SumsConcat(rank, x, y, size);
    assert [ps[i]][..0] == [];
  }

  lemma {:induction false} WorthGrows(r: nat, q: nat, size: nat)
    requires r <= q && size > 0
    ensures Worth(r, size) <= Worth(q, size)
    decreases q
  {
    if r < q { WorthGrows(r, q - 1, size); }
  }

  /** Frames that all go below rank `r` weigh together less than one frame at rank `r`. */
  ghost predicate Light(rank: Rank, r: nat, out: seq<Sent>) {
    forall i :: 0 <= i < |out| ==> (out[i].msg.Update? || out[i].msg.Removed?) && rank(out[i].to) < r
  }

  lemma {:induction false} LightSum(rank: Rank, from: int, r: nat, out: seq<Sent>, size: nat)
    requires Light(rank, r, out) && size > 0
    ensures Asking(Stamp(from, out)) == 0
    ensures out == [] ==> TotalWorth(rank, Stamp(from, out), size) == 0
    ensures out != [] ==> r > 0 && TotalWorth(rank, Stamp(from, out), size) <= |out| * Worth(r - 1, size)
  {
    if out != [] {
      var n := |out| - 1;
      var last := out[n];
      LightSum(rank, from, r, out[..n], size);
      assert Stamp(from, out)[..n] == Stamp(from, out[..n]);
      assert rank(last.to) < r;
      WorthGrows(rank(last.to), r - 1, size);
      WorthGrows(0, r - 1, size);
      assert (n + 1) * Worth(r - 1, size) == n * Worth(r - 1, size) + Worth(r - 1, size);
    }
  }

  lemma TimesGrows(a: nat, b: nat, c: nat)
    requires a <= b
    ensures a * c <= b * c
  {
  }

  lemma {:induction false} LightIsLess(rank: Rank, from: int, r: nat, out: seq<Sent>, size: nat)
    requires Light(rank, r, out) && |out| <= size && size > 0
    ensures Asking(Stamp(from, out)) == 0 && TotalWorth(rank, Stamp(from, out), size) < Worth(r, size)
  {
    LightSum(rank, from, r, out, size);
    if out != [] { TimesGrows(|out|, size, Worth(r - 1, size)); }
  }

  // ---------------------------------------------------------------- one event at a node

  /** A registration only comes from below. */
  ghost predicate OpBelow(rank: Rank, n: int, op: M.Op) {
    (op.Subscribe? || op.SubscribeAll?) ==> rank(op.who) < rank(n)
  }

  lemma OpKeeps(rank: Rank, n: int, s: Space, op: M.Op)
    requires SpaceOk(rank, n, s) && OpBelow(rank, n, op)
    ensures SpaceOk(rank, n, Apply(s, op))
  {
    StepKeepsKeys(s, op);
    StepKeepsLists(s, op);
    forall k | k in Apply(s, op).pairs ensures AllBelow(rank, n, Apply(s, op).pairs[k].subscribers) {
      SubscribersStep(s, op, k);
    }
  }

  lemma EventKeeps(rank: Rank, self: Self, s: Space, e: H.Event)
    requires SpaceOk(rank, self.id, s)
    requires e.Received? && e.msg.Subscription? && e.msg.registering ==> rank(e.msg.subscriber) < rank(self.id)
    ensures SpaceOk(rank, self.id, H.Happens(self, s, e).0)
  {
    H.HappensIsOp(self, s, e);
    if H.SpaceOp(self, e).Some? { OpKeeps(rank, self.id, s, H.SpaceOp(self, e).value); }
  }

  lemma {:induction false} FanOutLight(rank: Rank, r: nat, peers: set<int>, subscribers: seq<int>, m: Msg)
    requires m.Update? || m.Removed?
    requires forall x :: x in subscribers ==> rank(x) < r
    ensures Light(rank, r, FanOut(peers, subscribers, m))
  {
    if subscribers != [] {
      var n := |subscribers| - 1;
      assert forall x :: x in subscribers[..n] ==> x in subscribers;
      FanOutLight(rank, r, peers, subscribers[..n], m);
    }
  }

  lemma {:induction false} SnapshotLight(rank: Rank, r: nat, peers: set<int>, snapshot: seq<Pair>, to: int)
    requires rank(to) < r
    ensures Light(rank, r, SnapshotTo(peers, snapshot, to))
  {
    if snapshot != [] {
      var n := |snapshot| - 1;
      SnapshotLight(rank, r, peers, snapshot[..n], to);
      FanOutLight(rank, r, peers, [to], Update(snapshot[n]));
    }
  }

  lemma NotifyLight(rank: Rank, self: Self, s: Space, p: Pair)
    requires SpaceOk(rank, self.id, s)
    ensures var out := ApplyAndNotify(self, s, p).1; Light(rank, rank(self.id), out) && |out| <= |self.peers|
  {
    OpKeeps(rank, self.id, s, Publish(p));
    var e := AddPair(s, p).pairs[p.Id()];
    assert e == Apply(s, Publish(p)).pairs[p.Id()];
    FanOutLight(rank, rank(self.id), self.peers, e.subscribers, Update(e.pair));
    FanOutBounded(self.peers, e.subscribers, Update(e.pair));
  }

  lemma RemovalLight(rank: Rank, self: Self, s: Space, key: string)
    requires SpaceOk(rank, self.id, s)
    ensures var out := RemoveAndTell(self, s, key).1; Light(rank, rank(self.id), out) && |out| <= |self.peers|
  {
    var k := PairKey(self.id, key);
    if k in s.pairs {
      FanOutLight(rank, rank(self.id), self.peers, s.pairs[k].subscribers, Removed(self.id, key));
      FanOutBounded(self.peers, s.pairs[k].subscribers, Removed(self.id, key));
    }
  }

  lemma SubscriptionLight(rank: Rank, self: Self, s: Space, m: Msg, snapshot: seq<Pair>)
    requires m.Subscription? && (m.registering ==> rank(m.subscriber) < rank(self.id))
    ensures var out := OnSubscription(self, s, m, snapshot).1;
            Light(rank, rank(self.id), out) && (!AsksAll(m) ==> |out| <= 1)
  {
    var k := PairKey(m.ownerId, m.key);
    if m.registering {
      SnapshotLight(rank, rank(self.id), self.peers, snapshot, m.subscriber);
      var p := AddSubscription(s, k, m.subscriber).pairs[k].pair;
      FanOutLight(rank, rank(self.id), self.peers, [m.subscriber], Update(p));
      FanOutOne(self.peers, m.subscriber, Update(p));
    }
  }

  /** Handling a frame sends only downhill, and unless it asks for everything, at most one frame per component. */
  lemma HandleLight(rank: Rank, self: Self, s: Space, m: Msg, snapshot: seq<Pair>, size: nat)
    requires SpaceOk(rank, self.id, s) && |self.peers| <= size && size > 0
    requires m.Subscription? && m.registering ==> rank(m.subscriber) < rank(self.id)
    ensures var out := Handle(self, s, m, snapshot).1;
            Light(rank, rank(self.id), out) && (!AsksAll(m) ==> |out| <= size) && (m.Removed? ==> out == [])
  {
    match m
    case Push(p) => NotifyLight(rank, self, s, p.(owner := self.id));
    case Update(p) => NotifyLight(rank, self, s, p);
    case Subscription(_, _, _, _) => SubscriptionLight(rank, self, s, m, snapshot);
    case RemoveRequest(o, k) => if o == self.id { RemovalLight(rank, self, s, k); }
    case Removed(_, _) =>
  }

  // ---------------------------------------------------------------- steps of the network

  lemma PerformSound(rank: Rank, self: Self, s: Space, c: Call)
    requires SpaceOk(rank, self.id, s) && GoesUp(rank, Api(self.id, c))
    ensures var (r, out) := Perform(self, s, c);
            SpaceOk(rank, self.id, r) && forall i :: 0 <= i < |out| ==>
                PacketOk(rank, Packet(self.id, out[i].to, out[i].msg))
  {
    EventKeeps(rank, self, s, H.Called(c));
    match c
    case SetPair(k, v, ty) => NotifyLight(rank, self, s, Pair(self.id, k, v, ty));
    case DropPair(k) => RemovalLight(rank, self, s, k);
    case DropRemotePair(o, k) => if o == self.id { RemovalLight(rank, self, s, k); }
    case _ =>
  }

  lemma DeliverSound(rank: Rank, net: Net, i: nat, snapshot: seq<Pair>)
    requires Sound(rank, net) && Enabled(net, Deliver(i, snapshot))
    ensures Sound(rank, Next(net, Deliver(i, snapshot)))
    ensures Next(net, Deliver(i, snapshot)).nodes.Keys == net.nodes.Keys
  {
    var p := net.inFlight[i];
    var self := SelfOf(net, p.to);
    assert PacketOk(rank, p);
    EventKeeps(rank, self, net.nodes[p.to], H.Received(p.msg, snapshot));
    HandleLight(rank, self, net.nodes[p.to], p.msg, snapshot, |self.peers| + 1);
    var (space, out) := Handle(self, net.nodes[p.to], p.msg, snapshot);
    DeliveredSound(rank, net, i, space, out);
  }

  lemma DeliveredSound(rank: Rank, net: Net, i: nat, space: Space, out: seq<Sent>)
    requires Sound(rank, net) && i < |net.inFlight| && net.inFlight[i].to in net.nodes
    requires SpaceOk(rank, net.inFlight[i].to, space) && Light(rank, rank(net.inFlight[i].to), out)
    ensures var to := net.inFlight[i].to;
            Sound(rank, Net(net.nodes[to := space], RemoveAt(net.inFlight, i) + Stamp(to, out)))
  {
  }

  lemma StepSound(rank: Rank, net: Net, step: Step)
    requires Sound(rank, net) && Enabled(net, step) && GoesUp(rank, step)
    ensures Sound(rank, Next(net, step)) && Next(net, step).nodes.Keys == net.nodes.Keys
  {
    match step
    case Api(n, c) => PerformSound(rank, SelfOf(net, n), net.nodes[n], c);
    case Deliver(i, snapshot) => DeliverSound(rank, net, i, snapshot);
    case Lose(_) =>
  }

  /** Delivering or losing a frame makes things better: one wildcard registration fewer, or else less weight. */
  ghost predicate Better(rank: Rank, was: Net, now: Net) {
    || Asking(now.inFlight) < Asking(was.inFlight)
    || (Asking(now.inFlight) == Asking(was.inFlight)
        && TotalWorth(rank, now.inFlight, |was.nodes|) < TotalWorth(rank, was.inFlight, |was.nodes|))
  }

  lemma WorthPositive(r: nat, size: nat)
    ensures Worth(r, size) >= 1
  {
  }

  lemma DeliveryIsBetter(rank: Rank, net: Net, step: Step)
    requires Sound(rank, net) && Enabled(net, step) && !step.Api?
    ensures Better(rank, net, Next(net, step))
  {
    var i, size := step.i, |net.nodes|;
    var p := net.inFlight[i];
    SumsRemove(rank, net.inFlight, i, size);
    WorthPositive(rank(p.to), size);
    if step.Deliver? {
      var self := SelfOf(net, p.to);
      assert self.peers < net.nodes.Keys && |net.nodes.Keys| == size;
      SubsetSize(self.peers, net.nodes.Keys);
      assert PacketOk(rank, p);
      var out := Handle(self, net.nodes[p.to], p.msg, step.snapshot).1;
      HandleLight(rank, self, net.nodes[p.to], p.msg, step.snapshot, size);
      SumsConcat(rank, RemoveAt(net.inFlight, i), Stamp(p.to, out), size);
      LightSum(rank, p.to, rank(p.to), out, size);
      if !AsksAll(p.msg) { LightIsLess(rank, p.to, rank(p.to), out, size); }
    }
  }

  lemma SubsetSize(a: set<int>, b: set<int>)
    requires a < b
    ensures |a| < |b|
  {
    assert |b - a| == |b| - |a|;
  }

  lemma {:induction false} RunSound(rank: Rank, ids: set<int>, nets: seq<Net>, steps: seq<Step>, i: nat)
    requires IsRun(ids, nets, steps) && i < |nets|
    requires forall j :: 0 <= j < i ==> GoesUp(rank, steps[j])
    ensures Sound(rank, nets[i]) && nets[i].nodes.Keys == ids
  {
    if i > 0 {
      RunSound(rank, ids, nets, steps, i - 1);
      StepSound(rank, nets[i - 1], steps[i - 1]);
    }
  }

  // ---------------------------------------------------------------- theorems

  /** Nothing but deliveries and losses happens, for ever. */
  ghost predicate Endless(nets: nat -> Net, steps: nat -> Step) {
    forall i: nat :: !steps(i).Api? && Enabled(nets(i), steps(i)) && nets(i + 1) == Next(nets(i), steps(i))
  }

  lemma {:induction false} Descends(rank: Rank, nets: nat -> Net, steps: nat -> Step, i: nat, size: nat)
    requires Endless(nets, steps) && Sound(rank, nets(i)) && |nets(i).nodes| == size
    ensures false
    decreases Asking(nets(i).inFlight), TotalWorth(rank, nets(i).inFlight, size)
  {
    DeliveryIsBetter(rank, nets(i), steps(i));
    StepSound(rank, nets(i), steps(i));
    assert nets(i + 1).nodes.Keys == nets(i).nodes.Keys;
    assert |nets(i + 1).nodes| == |nets(i + 1).nodes.Keys| && |nets(i).nodes| == |nets(i).nodes.Keys|;
    Descends(rank, nets, steps, i + 1, size);
  }

  /** After any run whose registrations all went uphill, deliveries alone cannot go on for ever. */
  lemma FallsQuiet(rank: Rank, ids: set<int>, nets: seq<Net>, steps: seq<Step>, later: nat -> Net, how: nat -> Step)
    requires IsRun(ids, nets, steps) && forall j :: 0 <= j < |steps| ==> GoesUp(rank, steps[j])
    requires later(0) == nets[|steps|]
    ensures !Endless(later, how)
  {
    RunSound(rank, ids, nets, steps, |steps|);
    if Endless(later, how) { Descends(rank, later, how, 0, |later(0).nodes|); }
  }

  /** And once no wildcard registration is under way, the weight under way bounds how many deliveries can follow. */
  lemma {:induction false} QuiescesDownhill(rank: Rank, ids: set<int>, nets: seq<Net>, steps: seq<Step>, start: nat,
                                        end: nat)
    requires IsRun(ids, nets, steps) && start <= end < |nets|
    requires forall j :: 0 <= j < end ==> GoesUp(rank, steps[j])
    requires forall j :: start <= j < end ==> !steps[j].Api?
    requires Asking(nets[start].inFlight) == 0
    ensures Asking(nets[end].inFlight) == 0
    ensures end - start <= TotalWorth(rank, nets[start].inFlight, |ids|) - TotalWorth(rank, nets[end].inFlight, |ids|)
    decreases end
  {
    if start < end {
      QuiescesDownhill(rank, ids, nets, steps, start, end - 1);
      RunSound(rank, ids, nets, steps, end - 1);
      DeliveryIsBetter(rank, nets[end - 1], steps[end - 1]);
      assert |nets[end - 1].nodes| == |nets[end - 1].nodes.Keys|;
    }
  }
}
