/**
 * Exactly when a network can go on delivering frames for ever: when some update under way can be passed on along
 * a walk as long as there are components, and so round a circle of components that tell each other about its key.
 */
module Echoes {
  import opened Base
  import opened M = PairSpaceModel
  import opened Node
  import opened Network
  import D = Downhill
  import H = Mirror

  /** Whom a component tells about a key it receives. */
  function Told(s: Space, k: PairKey): seq<int> {
    if k in s.pairs then s.pairs[k].subscribers else s.wildcard
  }

  /** An update of `k` that reaches `n` is passed on to `x`. */
  predicate Hop(net: Net, k: PairKey, n: int, x: int) {
    n in net.nodes && x in net.nodes && x != n && x in Told(net.nodes[n], k)
  }

  /** An update of `k` at `n` can be passed on `f` times in a row. */
  ghost predicate Walk(net: Net, k: PairKey, n: int, f: nat)
    decreases f
  {
    n in net.nodes && (f == 0 || exists x :: Hop(net, k, n, x) && Walk(net, k, x, f - 1))
  }

  ghost predicate EchoesAt(net: Net, i: int) {
    && 0 <= i < |net.inFlight| && net.inFlight[i].msg.Update?
    && Walk(net, net.inFlight[i].msg.pair.Id(), net.inFlight[i].to, |net.nodes|)
  }

  /** Some update under way can be passed on as many times as there are components. */
  ghost predicate CanEcho(net: Net) { exists i :: EchoesAt(net, i) }

  /** Deliveries and losses can go on for ever. */
  ghost predicate CanRunForever(net: Net) {
    exists nets: nat -> Net, steps: nat -> Step :: nets(0) == net && D.Endless(nets, steps)
  }

  /** What holds of every node in every run. */
  ghost predicate Tidy(net: Net) {
    forall n :: n in net.nodes ==> KeysMatch(net.nodes[n]) && ListsDistinct(net.nodes[n])
  }

  /** Only updates are under way, and all of them can be delivered. */
  ghost predicate OnlyUpdates(net: Net) {
    forall i :: 0 <= i < |net.inFlight| ==> net.inFlight[i].msg.Update? && net.inFlight[i].to in net.nodes
  }

  // ---------------------------------------------------------------- walks

  lemma {:induction false} WalkShorter(net: Net, k: PairKey, n: int, f: nat, g: nat)
    requires Walk(net, k, n, g) && f <= g
    ensures Walk(net, k, n, f)
    decreases f
  {
    if f > 0 {
      var x :| Hop(net, k, n, x) && Walk(net, k, x, g - 1);
      WalkShorter(net, k, x, f - 1, g - 1);
    }
  }

  ghost function Live(net: Net, k: PairKey, f: nat): set<int> {
    set n | n in net.nodes.Keys && Walk(net, k, n, f)
  }

  lemma LiveShrinks(net: Net, k: PairKey, f: nat)
    ensures Live(net, k, f + 1) <= Live(net, k, f)
  {
    forall n | n in Live(net, k, f + 1) ensures n in Live(net, k, f) { WalkShorter(net, k, n, f, f + 1); }
  }

  lemma LiveStays(net: Net, k: PairKey, f: nat)
    requires Live(net, k, f) == Live(net, k, f + 1)
    ensures Live(net, k, f + 1) == Live(net, k, f + 2)
  {
    LiveShrinks(net, k, f + 1);
    var a, b := Live(net, k, f + 1), Live(net, k, f + 2);
    forall n | n in a ensures n in b {
      var x :| Hop(net, k, n, x) && Walk(net, k, x, f);
      assert x in Live(net, k, f);
      assert x in Live(net, k, f + 1);
    }
  }

  /** The live components get fewer with each hop, until they stay the same. */
  lemma {:induction false} LiveSettles(net: Net, k: PairKey, f: nat)
    ensures |Live(net, k, f)| + f <= |net.nodes| || Live(net, k, f) == Live(net, k, f + 1)
  {
    if f == 0 {
      SubsetSize(Live(net, k, 0), net.nodes.Keys);
    } else {
      LiveSettles(net, k, f - 1);
      if Live(net, k, f - 1) == Live(net, k, f) {
        LiveStays(net, k, f - 1);
      } else {
        LiveShrinks(net, k, f - 1);
        D.SubsetSize(Live(net, k, f), Live(net, k, f - 1));
      }
    }
  }

  lemma SubsetSize(a: set<int>, b: set<int>)
    requires a <= b
    ensures |a| <= |b|
  {
    assert |b - a| == |b| - |a|;
  }

  /** A walk as long as there are components can be made longer. */
  lemma WalkGoesOn(net: Net, k: PairKey, n: int)
    requires Walk(net, k, n, |net.nodes|)
    ensures Walk(net, k, n, |net.nodes| + 1)
  {
    var size := |net.nodes|;
    LiveSettles(net, k, size);
    assert n in Live(net, k, size);
    assert |Live(net, k, size)| > 0;
    assert n in Live(net, k, size + 1);
  }

  // ---------------------------------------------------------------- what deliveries leave alone

  /** The same components telling the same components. */
  ghost predicate SameHops(a: Net, b: Net) {
    a.nodes.Keys == b.nodes.Keys && forall n, k :: n in a.nodes ==> Told(a.nodes[n], k) == Told(b.nodes[n], k)
  }

  lemma {:induction false} SameWalk(a: Net, b: Net, k: PairKey, n: int, f: nat)
    requires SameHops(a, b)
    ensures Walk(a, k, n, f) <==> Walk(b, k, n, f)
    decreases f
  {
    if f > 0 {
      forall x ensures Hop(a, k, n, x) <==> Hop(b, k, n, x) {}
      var g: nat := f - 1;
      forall x ensures Walk(a, k, x, g) <==> Walk(b, k, x, g) { SameWalk(a, b, k, x, g); }
    }
  }

  lemma PublishKeepsTold(s: Space, p: Pair, k: PairKey)
    ensures Told(AddPair(s, p), k) == Told(s, k)
  {
    SubscribersStep(s, Publish(p), k);
  }

  /** What delivering an update does: nobody tells anyone else than before, and it is passed on along every hop. */
  lemma UpdateDelivered(net: Net, i: nat, snapshot: seq<Pair>) returns (r: Net, out: seq<Sent>)
    requires Tidy(net) && Enabled(net, Deliver(i, snapshot)) && net.inFlight[i].msg.Update?
    ensures var p := net.inFlight[i];
            out == FanOut(net.nodes.Keys - {p.to}, Told(net.nodes[p.to], p.msg.pair.Id()), p.msg)
    ensures r == Next(net, Deliver(i, snapshot)) && SameHops(net, r) && |r.nodes| == |net.nodes|
    ensures r.inFlight == RemoveAt(net.inFlight, i) + Stamp(net.inFlight[i].to, out)
  {
    var p := net.inFlight[i];
    var s, q := net.nodes[p.to], p.msg.pair;
    r := Next(net, Deliver(i, snapshot));
    out := FanOut(net.nodes.Keys - {p.to}, Told(s, q.Id()), p.msg);
    assert AddPair(s, q).pairs[q.Id()].pair == q;
    PublishKeepsTold(s, q, q.Id());
    forall n, k | n in net.nodes ensures Told(net.nodes[n], k) == Told(r.nodes[n], k) { PublishKeepsTold(s, q, k); }
    assert |r.nodes| == |r.nodes.Keys| == |net.nodes.Keys| == |net.nodes|;
  }

  lemma StepTidy(net: Net, step: Step)
    requires Tidy(net) && Enabled(net, step)
    ensures Tidy(Next(net, step)) && Next(net, step).nodes.Keys == net.nodes.Keys
  {
    match step
    case Api(n, c) => EventTidy(SelfOf(net, n), net.nodes[n], H.Called(c));
    case Deliver(i, snapshot) =>
      var p := net.inFlight[i];
      EventTidy(SelfOf(net, p.to), net.nodes[p.to], H.Received(p.msg, snapshot));
    case Lose(_) =>
  }

  lemma EventTidy(self: Self, s: Space, e: H.Event)
    requires KeysMatch(s) && ListsDistinct(s)
    ensures var r := H.Happens(self, s, e).0; KeysMatch(r) && ListsDistinct(r)
  {
    H.HappensIsOp(self, s, e);
    if H.SpaceOp(self, e).Some? {
      StepKeepsKeys(s, H.SpaceOp(self, e).value);
      StepKeepsLists(s, H.SpaceOp(self, e).value);
    }
  }

  lemma {:induction false} RunTidy(ids: set<int>, nets: seq<Net>, steps: seq<Step>, i: nat)
    requires IsRun(ids, nets, steps) && i < |nets|
    ensures Tidy(nets[i])
  {
    if i > 0 {
      RunTidy(ids, nets, steps, i - 1);
      StepTidy(nets[i - 1], steps[i - 1]);
    }
  }

  // ---------------------------------------------------------------- an echo goes on for ever

  lemma UpdatesStay(net: Net, i: nat, snapshot: seq<Pair>)
    requires Tidy(net) && OnlyUpdates(net) && Enabled(net, Deliver(i, snapshot))
    ensures OnlyUpdates(Next(net, Deliver(i, snapshot)))
  {
    var p := net.inFlight[i];
    var r, out := UpdateDelivered(net, i, snapshot);
    var told := Told(net.nodes[p.to], p.msg.pair.Id());
    forall j | 0 <= j < |r.inFlight| ensures r.inFlight[j].msg.Update? && r.inFlight[j].to in r.nodes {
      if j >= |net.inFlight| - 1 { FanOutAmong(net.nodes.Keys - {p.to}, told, p.msg, j - (|net.inFlight| - 1)); }
    }
  }

  lemma {:induction false} FanOutAmong(peers: set<int>, list: seq<int>, m: Msg, j: nat)
    requires j < |FanOut(peers, list, m)|
    ensures var sent := FanOut(peers, list, m)[j]; sent.msg == m && sent.to in peers && sent.to in list
  {
    var n := |list| - 1;
    if j < |FanOut(peers, list[..n], m)| { FanOutAmong(peers, list[..n], m, j); }
  }

  /** Delivering one update leaves an echoing one under way. */
  lemma EchoStays(net: Net, i: nat, snapshot: seq<Pair>, e: nat)
    requires Tidy(net) && EchoesAt(net, e) && Enabled(net, Deliver(i, snapshot)) && net.inFlight[i].msg.Update?
    ensures CanEcho(Next(net, Deliver(i, snapshot)))
  {
    var p := net.inFlight[i];
    var k, peers := net.inFlight[e].msg.pair.Id(), net.nodes.Keys - {p.to};
    var r, out := UpdateDelivered(net, i, snapshot);
    if e != i {
      var j := if e < i then e else e - 1;
      assert r.inFlight[j] == net.inFlight[e];
      SameWalk(net, r, k, net.inFlight[e].to, |net.nodes|);
      assert EchoesAt(r, j);
    } else {
      WalkGoesOn(net, k, p.to);
      var x :| Hop(net, k, p.to, x) && Walk(net, k, x, |net.nodes|);
      FanOutReaches(peers, Told(net.nodes[p.to], k), p.msg, x);
      var j :| 0 <= j < |out| && out[j] == Sent(x, p.msg);
      assert r.inFlight[|net.inFlight| - 1 + j] == Packet(p.to, x, p.msg);
      SameWalk(net, r, k, x, |net.nodes|);
      assert EchoesAt(r, |net.inFlight| - 1 + j);
    }
  }

  /** Delivering the oldest frame over and over: the fairest run there is. */
  ghost function Unrolled(net: Net, i: nat): Net {
    if i == 0 then net
    else
      var before := Unrolled(net, i - 1);
      if Enabled(before, Deliver(0, [])) then Next(before, Deliver(0, [])) else before
  }

  /** Ready for another delivery of the oldest frame. */
  ghost predicate ReadyToEcho(net: Net) { Tidy(net) && OnlyUpdates(net) && CanEcho(net) }

  lemma OldestDelivered(net: Net)
    requires ReadyToEcho(net)
    ensures Enabled(net, Deliver(0, [])) && ReadyToEcho(Next(net, Deliver(0, [])))
  {
    var e :| EchoesAt(net, e);
    assert !WantsSnapshot(SelfOf(net, net.inFlight[0].to), net.inFlight[0].msg);
    EchoStays(net, 0, [], e);
    UpdatesStay(net, 0, []);
    StepTidy(net, Deliver(0, []));
  }

  lemma {:induction false} UnrolledEchoes(net: Net, i: nat)
    requires ReadyToEcho(net)
    ensures ReadyToEcho(Unrolled(net, i))
  {
    if i > 0 {
      UnrolledEchoes(net, i - 1);
      OldestDelivered(Unrolled(net, i - 1));
    }
  }

  lemma UnrolledStep(net: Net, i: nat)
    requires ReadyToEcho(net)
    ensures var r := Unrolled(net, i); Enabled(r, Deliver(0, [])) && Unrolled(net, i + 1) == Next(r, Deliver(0, []))
  {
    UnrolledEchoes(net, i);
    OldestDelivered(Unrolled(net, i));
  }

  lemma UpdatesEchoForever(net: Net)
    requires ReadyToEcho(net)
    ensures CanRunForever(net)
  {
    var nets := (i: nat) => Unrolled(net, i);
    var steps := (i: nat) => Deliver(0, []);
    forall i: nat ensures !steps(i).Api? && Enabled(nets(i), steps(i)) && nets(i + 1) == Next(nets(i), steps(i)) {
      UnrolledStep(net, i);
    }
    assert nets(0) == net && D.Endless(nets, steps);
  }

  lemma Prepend(net: Net, step: Step)
    requires Enabled(net, step) && !step.Api? && CanRunForever(Next(net, step))
    ensures CanRunForever(net)
  {
    var nets: nat -> Net, steps: nat -> Step :| nets(0) == Next(net, step) && D.Endless(nets, steps);
    var nets' := (i: nat) => if i == 0 then net else nets(i - 1);
    var steps' := (i: nat) => if i == 0 then step else steps(i - 1);
    forall i: nat ensures !steps'(i).Api? && Enabled(nets'(i), steps'(i)) && nets'(i + 1) == Next(nets'(i), steps'(i)) {
      if i > 0 { assert nets(i - 1 + 1) == Next(nets(i - 1), steps(i - 1)); }
    }
    assert nets'(0) == net && D.Endless(nets', steps');
  }

  /** Whatever else is under way: it may get lost. */
  lemma {:induction false} EchoGoesOn(net: Net)
    requires Tidy(net) && CanEcho(net)
    ensures CanRunForever(net)
    decreases |net.inFlight|
  {
    if OnlyUpdates(net) {
      UpdatesEchoForever(net);
    } else {
      var e :| EchoesAt(net, e);
      var j :| 0 <= j < |net.inFlight| && !(net.inFlight[j].msg.Update? && net.inFlight[j].to in net.nodes);
      var r := Next(net, Lose(j));
      assert r == net.(inFlight := RemoveAt(net.inFlight, j));
      LossKeepsEcho(net, e, j);
      EchoGoesOn(r);
      Prepend(net, Lose(j));
    }
  }

  lemma LossKeepsEcho(net: Net, e: nat, j: nat)
    requires EchoesAt(net, e) && j < |net.inFlight| && e != j
    ensures CanEcho(net.(inFlight := RemoveAt(net.inFlight, j)))
  {
    var r := net.(inFlight := RemoveAt(net.inFlight, j));
    var e' := if e < j then e else e - 1;
    assert r.inFlight[e'] == net.inFlight[e];
    SameWalk(net, r, net.inFlight[e].msg.pair.Id(), net.inFlight[e].to, |net.nodes|);
    assert EchoesAt(r, e');
  }

  // ---------------------------------------------------------------- without an echo everything ends

  /** The longest walk from `n`, looking up to `b` hops far. */
  ghost function Height(net: Net, k: PairKey, n: int, b: nat): (h: nat)
    ensures h <= b
  {
    if b == 0 || Walk(net, k, n, b) then b else Height(net, k, n, b - 1)
  }

  lemma {:induction false} HeightIsWalk(net: Net, k: PairKey, n: int, b: nat, f: nat)
    requires n in net.nodes && f <= b
    ensures Walk(net, k, n, Height(net, k, n, b))
    ensures Walk(net, k, n, f) ==> f <= Height(net, k, n, b)
  {
    if b > 0 && !Walk(net, k, n, b) {
      HeightIsWalk(net, k, n, b - 1, if f < b then f else b - 1);
    }
  }

  /** A hop leads to a lower component, as long as there is no walk of full length. */
  lemma HopGoesDown(net: Net, k: PairKey, n: int, x: int)
    requires Hop(net, k, n, x) && !Walk(net, k, n, |net.nodes|)
    ensures Height(net, k, x, |net.nodes|) < Height(net, k, n, |net.nodes|)
  {
    var size := |net.nodes|;
    var h := Height(net, k, x, size);
    HeightIsWalk(net, k, x, size, 0);
    HeightIsWalk(net, k, n, size, 0);
    assert Walk(net, k, n, h + 1);
    if h + 1 <= size {
      HeightIsWalk(net, k, n, size, h + 1);
    } else {
      WalkShorter(net, k, n, size, h + 1);
    }
  }

  lemma {:induction false} SameHeight(a: Net, b: Net, k: PairKey, n: int, f: nat)
    requires SameHops(a, b)
    ensures Height(a, k, n, f) == Height(b, k, n, f)
  {
    SameWalk(a, b, k, n, f);
    if f > 0 { SameHeight(a, b, k, n, f - 1); }
  }

  /** What a frame can still cause by being passed on, and how many frames other than updates it stands for. */
  ghost function Cost(net: Net, p: Packet): nat {
    if p.msg.Update? then D.Worth(Height(net, p.msg.pair.Id(), p.to, |net.nodes|), |net.nodes|) else 0
  }

  function Other(size: nat, m: Msg): nat {
    match m
    case Update(_) => 0
    case RemoveRequest(_, _) => size + 1
    case _ => 1
  }

  ghost function TotalCost(net: Net, ps: seq<Packet>): nat {
    if ps == [] then 0 else TotalCost(net, ps[..|ps| - 1]) + Cost(net, ps[|ps| - 1])
  }

  function Others(size: nat, ps: seq<Packet>): nat {
    if ps == [] then 0 else Others(size, ps[..|ps| - 1]) + Other(size, ps[|ps| - 1].msg)
  }

  lemma {:induction false} SumsConcat(net: Net, size: nat, a: seq<Packet>, b: seq<Packet>)
    ensures TotalCost(net, a + b) == TotalCost(net, a) + TotalCost(net, b)
    ensures Others(size, a + b) == Others(size, a) + Others(size, b)
  {
    if b == [] {
      assert a + b == a;
    } else {
      var n := |b| - 1;
      assert (a + b)[..|a + b| - 1] == a + b[..n];
      SumsConcat(net, size, a, b[..n]);
    }
  }

  lemma SumsRemove(net: Net, size: nat, ps: seq<Packet>, i: nat)
    requires i < |ps|
    ensures TotalCost(net, RemoveAt(ps, i)) + Cost(net, ps[i]) == TotalCost(net, ps)
    ensures Others(size, RemoveAt(ps, i)) + Other(size, ps[i].msg) == Others(size, ps)
  {
    var x, y := ps[..i], ps[i + 1..];
    SplitAt(ps, i);
    SumsConcat(net, size, x, [ps[i]] + y);
    SumsConcat(net, size, [ps[i]], y);
    SumsConcat(net, size, x, y);
    assert [ps[i]][..0] == [];
  }

  lemma {:induction false} SameTotal(a: Net, b: Net, ps: seq<Packet>)
    requires SameHops(a, b)
    ensures TotalCost(a, ps) == TotalCost(b, ps)
  {
    if ps != [] {
      var p := ps[|ps| - 1];
      SameTotal(a, b, ps[..|ps| - 1]);
      assert |a.nodes| == |a.nodes.Keys| == |b.nodes.Keys| == |b.nodes|;
      if p.msg.Update? { SameHeight(a, b, p.msg.pair.Id(), p.to, |a.nodes|); }
    }
  }

  lemma OneCost(net: Net, p: Packet, h: nat)
    requires p.msg.Update? && net.nodes.Keys != {} && Height(net, p.msg.pair.Id(), p.to, |net.nodes|) < h
    ensures Cost(net, p) <= D.Worth(h - 1, |net.nodes|)
  {
    assert |net.nodes| == |net.nodes.Keys| > 0;
    D.WorthGrows(Height(net, p.msg.pair.Id(), p.to, |net.nodes|), h - 1, |net.nodes|);
  }

  /** Updates that cost no more than `c` each. */
  lemma {:induction false} CheapSum(net: Net, ps: seq<Packet>, c: nat)
    requires forall j :: 0 <= j < |ps| ==> ps[j].msg.Update? && Cost(net, ps[j]) <= c
    ensures Others(|net.nodes|, ps) == 0 && TotalCost(net, ps) <= |ps| * c
  {
    if ps != [] {
      var n := |ps| - 1;
      CheapSum(net, ps[..n], c);
      assert (n + 1) * c == n * c + c;
    }
  }

  /** Copies of one update to components of height below `h` cost no more than as many at the next height. */
  lemma PassedOnCost(net: Net, from: int, out: seq<Sent>, m: Msg, h: nat)
    requires m.Update? && net.nodes.Keys != {}
    requires forall j :: 0 <= j < |out| ==> out[j].msg == m && Height(net, m.pair.Id(), out[j].to, |net.nodes|) < h
    ensures Others(|net.nodes|, Stamp(from, out)) == 0
    ensures if out == [] then TotalCost(net, Stamp(from, out)) == 0
            else h > 0 && TotalCost(net, Stamp(from, out)) <= |out| * D.Worth(h - 1, |net.nodes|)
  {
    var ps := Stamp(from, out);
    if out != [] {
      assert h > 0 by { assert Height(net, m.pair.Id(), out[0].to, |net.nodes|) < h; }
      forall j | 0 <= j < |ps| ensures ps[j].msg.Update? && Cost(net, ps[j]) <= D.Worth(h - 1, |net.nodes|) {
        OneCost(net, ps[j], h);
      }
      CheapSum(net, ps, D.Worth(h - 1, |net.nodes|));
    }
  }

  /** Fewer frames other than updates, or as many and less cost. */
  ghost predicate Lower(was: Net, now: Net) {
    || Others(|was.nodes|, now.inFlight) < Others(|was.nodes|, was.inFlight)
    || (Others(|was.nodes|, now.inFlight) == Others(|was.nodes|, was.inFlight)
        && TotalCost(now, now.inFlight) < TotalCost(was, was.inFlight))
  }

  lemma UpdateLowers(net: Net, i: nat, snapshot: seq<Pair>)
    requires Tidy(net) && Enabled(net, Deliver(i, snapshot)) && net.inFlight[i].msg.Update? && !EchoesAt(net, i)
    ensures Lower(net, Next(net, Deliver(i, snapshot)))
  {
    var p, size := net.inFlight[i], |net.nodes|;
    var k, peers := p.msg.pair.Id(), net.nodes.Keys - {p.to};
    var told, h := Told(net.nodes[p.to], k), Height(net, k, p.to, size);
    var r, out := UpdateDelivered(net, i, snapshot);
    forall j | 0 <= j < |out| ensures out[j].msg == p.msg && Height(net, k, out[j].to, size) < h {
      FanOutAmong(peers, told, p.msg, j);
      HopGoesDown(net, k, p.to, out[j].to);
    }
    FanOutBounded(peers, told, p.msg);
    D.SubsetSize(peers, net.nodes.Keys);
    PassedOnCost(net, p.to, out, p.msg, h);
    SumsRemove(net, size, net.inFlight, i);
    SumsConcat(net, size, RemoveAt(net.inFlight, i), Stamp(p.to, out));
    SameTotal(net, r, r.inFlight);
    OutIsLess(|out|, size, h, TotalCost(net, Stamp(p.to, out)));
  }

  lemma OutIsLess(count: nat, size: nat, h: nat, total: nat)
    requires count < size
    requires if count == 0 then total == 0 else h > 0 && total <= count * D.Worth(h - 1, size)
    ensures total < D.Worth(h, size)
  {
    D.WorthPositive(h, size);
    if count > 0 { assert count * D.Worth(h - 1, size) <= size * D.Worth(h - 1, size); }
  }

  /** Handling anything but an update sends updates, or farewells fewer than the request for them stood for. */
  lemma OtherLowers(net: Net, i: nat, snapshot: seq<Pair>)
    requires Tidy(net) && Enabled(net, Deliver(i, snapshot)) && !net.inFlight[i].msg.Update?
    ensures Lower(net, Next(net, Deliver(i, snapshot)))
  {
    var p, size := net.inFlight[i], |net.nodes|;
    var self := SelfOf(net, p.to);
    var out := Handle(self, net.nodes[p.to], p.msg, snapshot).1;
    SumsRemove(net, size, net.inFlight, i);
    SumsConcat(net, size, RemoveAt(net.inFlight, i), Stamp(p.to, out));
    D.SubsetSize(self.peers, net.nodes.Keys);
    HandledOthers(self, net.nodes[p.to], p.msg, snapshot, size);
  }

  lemma HandledOthers(self: Self, s: Space, m: Msg, snapshot: seq<Pair>, size: nat)
    requires ListsDistinct(s) && |self.peers| < size && !m.Update?
    ensures Others(size, Stamp(self.id, Handle(self, s, m, snapshot).1)) < Other(size, m)
  {
    match m
    case Push(p) =>
      var e := AddPair(s, p.(owner := self.id)).pairs[PairKey(self.id, p.key)];
      FanOutOthers(self.id, self.peers, e.subscribers, Update(e.pair), size);
    case Subscription(_, _, who, _) =>
      SnapshotOthers(self.id, self.peers, snapshot, who, size);
      var k := PairKey(m.ownerId, m.key);
      FanOutOthers(self.id, self.peers, [who], Update(AddSubscription(s, k, who).pairs[k].pair), size);
    case RemoveRequest(o, key) =>
      var k := PairKey(self.id, key);
      if o == self.id && k in s.pairs {
        FanOutOthers(self.id, self.peers, s.pairs[k].subscribers, Removed(self.id, key), size);
        FanOutBounded(self.peers, s.pairs[k].subscribers, Removed(self.id, key));
      }
    case Removed(_, _) =>
  }

  lemma {:induction false} FanOutOthers(from: int, peers: set<int>, list: seq<int>, m: Msg, size: nat)
    ensures Others(size, Stamp(from, FanOut(peers, list, m))) == |FanOut(peers, list, m)| * Other(size, m)
  {
    if list != [] {
      var n := |list| - 1;
      var before := FanOut(peers, list[..n], m);
      FanOutOthers(from, peers, list[..n], m, size);
      if list[n] in peers {
        var out := before + [Sent(list[n], m)];
        assert Stamp(from, out)[..|before|] == Stamp(from, before);
        assert (|before| + 1) * Other(size, m) == |before| * Other(size, m) + Other(size, m);
      }
    }
  }

  lemma {:induction false} SnapshotOthers(from: int, peers: set<int>, snapshot: seq<Pair>, to: int, size: nat)
    ensures Others(size, Stamp(from, SnapshotTo(peers, snapshot, to))) == 0
  {
    if snapshot != [] {
      var n := |snapshot| - 1;
      var before, last := SnapshotTo(peers, snapshot[..n], to), FanOut(peers, [to], Update(snapshot[n]));
      SnapshotOthers(from, peers, snapshot[..n], to, size);
      FanOutOthers(from, peers, [to], Update(snapshot[n]), size);
      assert Stamp(from, before + last) == Stamp(from, before) + Stamp(from, last);
      OthersConcat(size, Stamp(from, before), Stamp(from, last));
    }
  }

  lemma OthersConcat(size: nat, a: seq<Packet>, b: seq<Packet>)
    ensures Others(size, a + b) == Others(size, a) + Others(size, b)
  {
    SumsConcat(Net(map[], []), size, a, b);
  }

  lemma LossLowers(net: Net, i: nat)
    requires i < |net.inFlight|
    ensures Lower(net, Next(net, Lose(i)))
  {
    var p, r, size := net.inFlight[i], Next(net, Lose(i)), |net.nodes|;
    SumsRemove(net, size, net.inFlight, i);
    assert SameHops(net, r);
    SameTotal(net, r, r.inFlight);
    if p.msg.Update? { D.WorthPositive(Height(net, p.msg.pair.Id(), p.to, size), size); }
  }

  lemma StepLowers(net: Net, step: Step)
    requires Tidy(net) && Enabled(net, step) && !step.Api? && !CanEcho(net)
    ensures Lower(net, Next(net, step))
  {
    match step
    case Deliver(i, snapshot) =>
      assert !EchoesAt(net, i);
      if net.inFlight[i].msg.Update? { UpdateLowers(net, i, snapshot); } else { OtherLowers(net, i, snapshot); }
    case Lose(i) => LossLowers(net, i);
  }

  /** An endless run passes through a state in which some update can echo. */
  lemma {:induction false} Descends(nets: nat -> Net, steps: nat -> Step, i: nat, size: nat)
    requires D.Endless(nets, steps) && Tidy(nets(i)) && |nets(i).nodes| == size && forall j: nat :: !CanEcho(nets(j))
    ensures false
    decreases Others(size, nets(i).inFlight), TotalCost(nets(i), nets(i).inFlight)
  {
    StepLowers(nets(i), steps(i));
    StepTidy(nets(i), steps(i));
    assert nets(i + 1).nodes.Keys == nets(i).nodes.Keys;
    assert |nets(i + 1).nodes| == |nets(i + 1).nodes.Keys| && |nets(i).nodes| == |nets(i).nodes.Keys|;
    Descends(nets, steps, i + 1, size);
  }

  lemma EndlessEchoes(nets: nat -> Net, steps: nat -> Step) returns (i: nat)
    requires D.Endless(nets, steps) && Tidy(nets(0))
    ensures CanEcho(nets(i))
  {
    if forall j: nat :: !CanEcho(nets(j)) { Descends(nets, steps, 0, |nets(0).nodes|); }
    i :| CanEcho(nets(i));
  }

  // ---------------------------------------------------------------- the exact condition

  /** Losing a frame makes no echo where there was none. */
  lemma NoEchoFromLoss(net: Net, i: nat)
    requires i < |net.inFlight| && CanEcho(Next(net, Lose(i)))
    ensures CanEcho(net)
  {
    var r := Next(net, Lose(i));
    var e :| EchoesAt(r, e);
    var j := if e < i then e else e + 1;
    assert r.inFlight[e] == net.inFlight[j];
    SameWalk(net, r, r.inFlight[e].msg.pair.Id(), r.inFlight[e].to, |net.nodes|);
    assert EchoesAt(net, j);
  }

  /** Nor does delivering an update: what it is passed on as can go no further than it could itself. */
  lemma NoEchoFromUpdate(net: Net, i: nat, snapshot: seq<Pair>)
    requires Tidy(net) && Enabled(net, Deliver(i, snapshot)) && net.inFlight[i].msg.Update?
    requires CanEcho(Next(net, Deliver(i, snapshot)))
    ensures CanEcho(net)
  {
    var r, out := UpdateDelivered(net, i, snapshot);
    var e :| EchoesAt(r, e);
    EchoCameFrom(net, i, r, out, e);
  }

  lemma EchoCameFrom(net: Net, i: nat, r: Net, out: seq<Sent>, e: int)
    requires i < |net.inFlight| && net.inFlight[i].msg.Update? && net.inFlight[i].to in net.nodes && EchoesAt(r, e)
    requires var p := net.inFlight[i];
             out == FanOut(net.nodes.Keys - {p.to}, Told(net.nodes[p.to], p.msg.pair.Id()), p.msg)
    requires SameHops(net, r) && |r.nodes| == |net.nodes|
    requires r.inFlight == RemoveAt(net.inFlight, i) + Stamp(net.inFlight[i].to, out)
    ensures CanEcho(net)
  {
    var p, q, n := net.inFlight[i], r.inFlight[e], |net.inFlight| - 1;
    SameWalk(net, r, q.msg.pair.Id(), q.to, |net.nodes|);
    if e < n {
      assert q == net.inFlight[if e < i then e else e + 1];
      assert EchoesAt(net, if e < i then e else e + 1);
    } else {
      assert q == Packet(p.to, out[e - n].to, out[e - n].msg);
      PassedOnFrom(net, p, q, e - n);
      assert EchoesAt(net, i);
    }
  }

  lemma PassedOnFrom(net: Net, p: Packet, q: Packet, j: nat)
    requires p.msg.Update? && p.to in net.nodes
    requires var out := FanOut(net.nodes.Keys - {p.to}, Told(net.nodes[p.to], p.msg.pair.Id()), p.msg);
             j < |out| && q.to == out[j].to && q.msg == out[j].msg
    requires q.msg.Update? && Walk(net, q.msg.pair.Id(), q.to, |net.nodes|)
    ensures Walk(net, p.msg.pair.Id(), p.to, |net.nodes|)
  {
    var k, size := p.msg.pair.Id(), |net.nodes|;
    FanOutAmong(net.nodes.Keys - {p.to}, Told(net.nodes[p.to], k), p.msg, j);
    assert Hop(net, k, p.to, q.to) && Walk(net, k, p.to, size + 1);
    WalkShorter(net, k, p.to, size, size + 1);
  }

  lemma {:induction false} EchoWasThere(nets: nat -> Net, steps: nat -> Step, i: nat)
    requires D.Endless(nets, steps) && Tidy(nets(0)) && OnlyUpdates(nets(0))
    ensures Tidy(nets(i)) && OnlyUpdates(nets(i)) && (CanEcho(nets(i)) ==> CanEcho(nets(0)))
  {
    if i > 0 {
      EchoWasThere(nets, steps, i - 1);
      var net, step := nets(i - 1), steps(i - 1);
      assert nets(i - 1 + 1) == Next(net, step);
      StepTidy(net, step);
      if step.Deliver? { UpdatesStay(net, step.i, step.snapshot); }
      if CanEcho(nets(i)) {
        if step.Deliver? { NoEchoFromUpdate(net, step.i, step.snapshot); } else { NoEchoFromLoss(net, step.i); }
      }
    }
  }

  /**
   * Once only updates are under way, deliveries can go on for ever if and only if some update under way can be
   * passed on as many times as there are components.
   */
  lemma RunsForeverIff(net: Net)
    requires Tidy(net) && OnlyUpdates(net)
    ensures CanRunForever(net) <==> CanEcho(net)
  {
    if CanEcho(net) { EchoGoesOn(net); }
    if CanRunForever(net) {
      var nets: nat -> Net, steps: nat -> Step :| nets(0) == net && D.Endless(nets, steps);
      var i := EndlessEchoes(nets, steps);
      EchoWasThere(nets, steps, i);
    }
  }

  /** Deliveries and losses, and nothing else, lead from `net` through these states. */
  ghost predicate Leads(net: Net, nets: seq<Net>, steps: seq<Step>) {
    && |nets| == |steps| + 1 && nets[0] == net
    && forall i :: 0 <= i < |steps| ==>
         !steps[i].Api? && Enabled(nets[i], steps[i]) && nets[i + 1] == Next(nets[i], steps[i])
  }

  ghost predicate ReachesEcho(net: Net) {
    exists nets, steps :: Leads(net, nets, steps) && CanEcho(nets[|steps|])
  }

  /** Whatever is under way: exactly if finitely many deliveries and losses can lead to such a state. */
  lemma RunsForeverIffReaches(net: Net)
    requires Tidy(net)
    ensures CanRunForever(net) <==> ReachesEcho(net)
  {
    if ReachesEcho(net) {
      var nets, steps :| Leads(net, nets, steps) && CanEcho(nets[|steps|]);
      LeadsOn(net, nets, steps, 0);
    }
    if CanRunForever(net) {
      var nets: nat -> Net, steps: nat -> Step :| nets(0) == net && D.Endless(nets, steps);
      var i := EndlessEchoes(nets, steps);
      var ns, ss := seq(i + 1, j requires 0 <= j <= i => nets(j)), seq(i, j requires 0 <= j < i => steps(j));
      assert Leads(net, ns, ss) && ns[|ss|] == nets(i);
    }
  }

  lemma {:induction false} LeadsOn(net: Net, nets: seq<Net>, steps: seq<Step>, i: nat)
    requires Tidy(net) && Leads(net, nets, steps) && CanEcho(nets[|steps|]) && i <= |steps| && Tidy(nets[i])
    ensures CanRunForever(nets[i])
    decreases |steps| - i
  {
    if i == |steps| {
      EchoGoesOn(nets[i]);
    } else {
      StepTidy(nets[i], steps[i]);
      LeadsOn(net, nets, steps, i + 1);
      Prepend(nets[i], steps[i]);
    }
  }

  /** In particular for every state of every run. */
  lemma RunRunsForeverIff(ids: set<int>, nets: seq<Net>, steps: seq<Step>, i: nat)
    requires IsRun(ids, nets, steps) && i < |nets|
    ensures CanRunForever(nets[i]) <==> ReachesEcho(nets[i])
    ensures OnlyUpdates(nets[i]) ==> (CanRunForever(nets[i]) <==> CanEcho(nets[i]))
  {
    RunTidy(ids, nets, steps, i);
    RunsForeverIffReaches(nets[i]);
    if OnlyUpdates(nets[i]) { RunsForeverIff(nets[i]); }
  }

  // ---------------------------------------------------------------- on either side of it

  /** Two components that tell each other about a pair can pass it on any number of times. */
  lemma {:induction false} BackAndForth(p: Pair, n: int, m: int, ofN: seq<int>, ofM: seq<int>, f: nat)
    requires n != m
    ensures var net := EchoNet(p, n, m, ofN, ofM); Walk(net, p.Id(), n, f) && Walk(net, p.Id(), m, f)
  {
    var net := EchoNet(p, n, m, ofN, ofM);
    if f > 0 {
      BackAndForth(p, n, m, ofN, ofM, f - 1);
      assert Hop(net, p.Id(), n, m) && Hop(net, p.Id(), m, n);
    }
  }

  /** So the networks with two wildcard subscribers, or one and a subscriber of the key, run for ever. */
  lemma EchoNetRunsForever(p: Pair, n: int, m: int, ofN: seq<int>, ofM: seq<int>)
    requires n != m && NoDup(ofN) && NoDup(ofM)
    ensures CanRunForever(EchoNet(p, n, m, ofN, ofM))
  {
    var net := EchoNet(p, n, m, ofN, ofM);
    BackAndForth(p, n, m, ofN, ofM, |net.nodes|);
    assert EchoesAt(net, 0);
    assert Tidy(net);
    RunsForeverIff(net);
  }

  lemma {:induction false} RankBounds(net: Net, rank: (PairKey, int) -> nat, k: PairKey, n: int, f: nat)
    requires forall i, a, b :: Hop(net, i, a, b) ==> rank(i, b) < rank(i, a)
    requires Walk(net, k, n, f)
    ensures f <= rank(k, n)
    decreases f
  {
    if f > 0 {
      var x :| Hop(net, k, n, x) && Walk(net, k, x, f - 1);
      RankBounds(net, rank, k, x, f - 1);
    }
  }

  lemma {:induction false} WalkAnyLength(net: Net, k: PairKey, n: int, f: nat)
    requires Walk(net, k, n, |net.nodes|)
    ensures Walk(net, k, n, f)
    decreases f
  {
    if f > 0 {
      WalkGoesOn(net, k, n);
      var x :| Hop(net, k, n, x) && Walk(net, k, x, |net.nodes|);
      WalkAnyLength(net, k, x, f - 1);
    }
  }

  /** If for each key the components can be ranked so that every hop leads down, nothing echoes. */
  lemma RankedIsQuiet(net: Net, rank: (PairKey, int) -> nat)
    requires forall k, n, x :: Hop(net, k, n, x) ==> rank(k, x) < rank(k, n)
    ensures !CanEcho(net)
  {
    if CanEcho(net) {
      var i :| EchoesAt(net, i);
      var p := net.inFlight[i];
      var k := p.msg.pair.Id();
      WalkAnyLength(net, k, p.to, rank(k, p.to) + 1);
      RankBounds(net, rank, k, p.to, rank(k, p.to) + 1);
    }
  }

  /**
   * One viewer subscribed to everything of everyone, and any components subscribed to each other's keys: nothing
   * echoes as long as nobody has subscribed to the viewer.
   */
  lemma ViewerIsQuiet(net: Net, viewer: int)
    requires forall k, n, x :: Hop(net, k, n, x) ==> n != viewer && (n == k.owner || x == viewer)
    ensures !CanEcho(net)
  {
    RankedIsQuiet(net, (k: PairKey, n: int) => if n == viewer then 0 else if n == k.owner then 2 else 1);
  }
}
