/**
 * One publisher, one subscriber, and the session between them: connecting late, then one open channel.
 * A change is applied under the pair-space lock. `setPair` and `removePair` also queue its frame there;
 * the server's handlers, subscriptions among them, queue theirs after the lock is released.
 */
module Convergence {
  import opened Base
  import opened Outbox

  datatype Val = Val(value: string, ty: PairType)

  /** `stamp` numbers the frames in the order their changes were applied. It is history, not wire content. */
  datatype Frame =
    | Update(id: PairKey, val: Val, stamp: nat)
    | Removal(id: PairKey, stamp: nat)

  /** What the subscriber holds for a key, and the stamp of the frame that put it there. */
  datatype Cell = Cell(val: Option<Val>, stamp: nat)

  const NOTHING := Cell(None, 0)

  /**
   * `owed`: frames made but not queued yet, by stamp. `newest`, `sent`: per key, the newest frame made and the
   * newest queued. `lost`: keys whose newest queued frame is not what the subscriber will end up with.
   */
  datatype State = State(
    published: map<PairKey, Val>, subscribed: set<PairKey>,
    connected: bool, pending: seq<Frame>, box: Box<Frame>, wire: seq<Frame>, copy: map<PairKey, Cell>, closed: bool,
    stamp: nat, owed: map<nat, Frame>, newest: map<PairKey, Frame>, sent: map<PairKey, Frame>, lost: set<PairKey>)

  const INIT := State(map[], {}, false, [], Empty(0), [], map[], false, 0, map[], map[], map[], {})

  datatype Change =
    | Publish(id: PairKey, val: Val)
    | Remove(id: PairKey)
    | Subscribe(id: PairKey)

  /** `Locked` queues inside the lock; `Split` leaves the frame to a later `Answer`. */
  datatype Step =
    | Locked(change: Change)
    | Split(change: Change)
    | Answer(stamp: nat)
    | Connect
    | Drain
    | Deliver

  /** Only updates name their key to the outbox; a removal may not be dropped from there. */
  function CoalesceKey(f: Frame): Option<PairKey> {
    if f.Update? then Some(f.id) else None
  }

  function CellOf(f: Frame): Cell {
    Cell(if f.Update? then Some(f.val) else None, f.stamp)
  }

  // ---------------------------------------------------------------- replaying what is under way

  function Frames(q: seq<Outbound<Frame>>): seq<Frame> {
    seq(|q|, i requires 0 <= i < |q| => q[i].bytes)
  }

  /** In flight, then queued; before connecting, what is held. */
  function Flow(s: State): seq<Frame> {
    if s.connected then s.wire + Frames(s.box.outbox) else s.pending
  }

  function Held(s: State, k: PairKey): Cell {
    if k in s.copy then s.copy[k] else NOTHING
  }

  /** What key `k` ends up as when `flow` is replayed, in order, over `c`. */
  function Final(c: Cell, flow: seq<Frame>, k: PairKey): Cell {
    if flow == [] then c
    else
      var last := flow[|flow| - 1];
      if last.id == k then CellOf(last) else Final(c, flow[..|flow| - 1], k)
  }

  function Shown(v: Option<Val>): Option<Val> {
    if v.Some? && v.value.ty == Invalid then None else v
  }

  function Current(s: State, k: PairKey): Option<Val> {
    Shown(if k in s.published then Some(s.published[k]) else None)
  }

  function Top(s: State, k: PairKey): Cell {
    if k in s.sent then CellOf(s.sent[k]) else NOTHING
  }

  function Newest(s: State, k: PairKey): Cell {
    if k in s.newest then CellOf(s.newest[k]) else NOTHING
  }

  ghost predicate About(flow: seq<Frame>, i: int, k: PairKey) { 0 <= i < |flow| && flow[i].id == k }

  /** No later frame is about the key of frame `d`. */
  ghost predicate LastOf(flow: seq<Frame>, d: nat)
    requires d < |flow|
  {
    forall j :: d < j ==> !About(flow, j, flow[d].id)
  }

  // ---------------------------------------------------------------- the ways to lose

  /** Frame `j` is the last one about the key ahead of position `d`. */
  ghost predicate NextAhead(flow: seq<Frame>, j: int, d: nat, k: PairKey) {
    About(flow, j, k) && j < d && forall i :: j < i < d ==> !About(flow, i, k)
  }

  /** What comes before frame `d` of its key, queued or with the subscriber already, bears the newest stamp. */
  ghost predicate NewestAhead(s: State, d: nat)
    requires d < |Flow(s)|
  {
    var k, flow := Flow(s)[d].id, Flow(s);
    || (exists j :: NextAhead(flow, j, d, k) && flow[j].stamp == Top(s, k).stamp)
    || ((forall i :: i < d ==> !About(flow, i, k)) && Held(s, k).stamp == Top(s, k).stamp)
  }

  /** Dropping the last frame of a key loses the key, unless the one before it is the newest. */
  ghost function DropLost(s: State, d: nat): set<PairKey>
    requires d < |Flow(s)|
  {
    if !LastOf(Flow(s), d) then s.lost
    else if NewestAhead(s, d) then s.lost - {Flow(s)[d].id}
    else s.lost + {Flow(s)[d].id}
  }

  /** Queueing `f` last of its key loses the key when a newer frame of it was queued before. */
  ghost function QueueLost(s: State, f: Frame, lost: set<PairKey>): set<PairKey> {
    if f.stamp > Top(s, f.id).stamp then lost - {f.id} else lost + {f.id}
  }

  /** Storing `f` ahead of a queued removal of its key hides `f`: a loss if it was the newest. */
  ghost function StoreLost(s: State, f: Frame): set<PairKey>
    requires Valid(s.box) && s.connected && f.id in s.box.index
  {
    if LastOf(Flow(s), |s.wire| + PositionOf(s.box, f.id)) then QueueLost(s, f, s.lost)
    else if f.stamp > Top(s, f.id).stamp then s.lost + {f.id}
    else s.lost
  }

  ghost function Evicted(s: State): nat { |s.wire| + FirstKeyed(s.box.outbox) }

  /** Which keys are lost once `f` is queued; decided by the branch taken. */
  ghost function LostAfter(s: State, f: Frame): set<PairKey>
    requires Valid(s.box)
  {
    if !s.connected then
      QueueLost(s, f, if |s.pending| < MAX_PENDING_FRAMES then s.lost else DropLost(s, 0))
    else if |s.box.outbox| < MAX_OUTBOX_FRAMES then QueueLost(s, f, s.lost)
    else if f.Update? && f.id in s.box.index then StoreLost(s, f)
    else QueueLost(s, f, if FirstKeyed(s.box.outbox) < |s.box.outbox| then DropLost(s, Evicted(s)) else s.lost)
  }

  // ---------------------------------------------------------------- steps

  ghost function Emit(s: State, f: Frame): State
    requires Valid(s.box)
  {
    if !s.connected then Noted(s, f, s.box, HoldBack(s.pending, f))
    else
      var (box, outcome) := Send(s.box, f, CoalesceKey(f));
      if outcome.Overfull? then s.(closed := true) else Noted(s, f, box, s.pending)
  }

  /** The state with `f` queued, and in the history. */
  ghost function Noted(s: State, f: Frame, box: Box<Frame>, pending: seq<Frame>): State
    requires Valid(s.box)
  {
    s.(box := box, pending := pending, lost := LostAfter(s, f),
       sent := if f.stamp > Top(s, f.id).stamp then s.sent[f.id := f] else s.sent)
  }

  /** A change applied, and its frame made if the subscriber is to have one. */
  function Apply(s: State, change: Change): State {
    match change
    case Publish(k, v) =>
      var s' := s.(published := s.published[k := v]);
      if k in s.subscribed then Make(s', Update(k, v, s.stamp + 1)) else s'
    case Remove(k) =>
      var s' := s.(published := s.published - {k});
      if k in s.subscribed then Make(s', Removal(k, s.stamp + 1)) else s'
    case Subscribe(k) =>
      var s' := s.(subscribed := s.subscribed + {k});
      if k in s.published && s.published[k].ty != Invalid
      then Make(s', Update(k, s.published[k], s.stamp + 1)) else s'
  }

  function Make(s: State, f: Frame): State {
    s.(stamp := f.stamp, newest := s.newest[f.id := f], owed := s.owed[f.stamp := f])
  }

  ghost function Queue(s: State, m: nat): State
    requires m in s.owed && Valid(s.box)
  {
    Emit(s.(owed := s.owed - {m}), s.owed[m])
  }

  /** The flush: each held frame is sent on the new channel, in order. */
  function SendEach(b: Box<Frame>, fs: seq<Frame>): Box<Frame> {
    if fs == [] then b
    else
      var n := |fs| - 1;
      Send(SendEach(b, fs[..n]), fs[n], CoalesceKey(fs[n])).0
  }

  predicate Enabled(s: State, step: Step) {
    && !s.closed
    && match step
       case Locked(change) => !change.Subscribe?
       case Split(_) => true
       case Answer(m) => m in s.owed
       case Connect => !s.connected
       case Drain => s.box.outbox != []
       case Deliver => s.wire != []
  }

  ghost function Next(s: State, step: Step): State
    requires Enabled(s, step) && Valid(s.box)
  {
    match step
    case Locked(change) =>
      var s' := Apply(s, change);
      if s'.stamp != s.stamp && s'.stamp in s'.owed then Queue(s', s'.stamp) else s'
    case Split(change) => Apply(s, change)
    case Answer(m) => Queue(s, m)
    case Connect => s.(connected := true, box := SendEach(s.box, s.pending), pending := [])
    case Drain => s.(box := Unlink(s.box, 0), wire := s.wire + [s.box.outbox[0].bytes])
    case Deliver => s.(wire := s.wire[1..], copy := s.copy[s.wire[0].id := CellOf(s.wire[0])])
  }

  ghost predicate IsRun(states: seq<State>, steps: seq<Step>) {
    && |states| == |steps| + 1 && states[0] == INIT
    && forall i :: 0 <= i < |steps| ==>
         Enabled(states[i], steps[i]) && Valid(states[i].box) && states[i + 1] == Next(states[i], steps[i])
  }

  // ---------------------------------------------------------------- invariant, key by key

  ghost predicate Below(c: Cell, top: Cell) { c.stamp < top.stamp || c == top }

  function Raise(top: Cell, f: Frame): Cell { if f.stamp > top.stamp then CellOf(f) else top }

  /** `top` is the newest cell ever queued for `k`; replaying ends at it exactly when the key is not lost. */
  ghost predicate KeyInv(c: Cell, flow: seq<Frame>, k: PairKey, top: Cell, lost: bool) {
    && Below(c, top)
    && (forall i :: About(flow, i, k) ==> Below(CellOf(flow[i]), top))
    && (lost <==> Final(c, flow, k) != top)
  }

  lemma {:induction false} FinalAt(c: Cell, flow: seq<Frame>, k: PairKey, p: int)
    requires About(flow, p, k) && forall j :: p < j ==> !About(flow, j, k)
    ensures Final(c, flow, k) == CellOf(flow[p])
    decreases |flow|
  {
    if p != |flow| - 1 {
      assert !About(flow, |flow| - 1, k);
      var rest := flow[..|flow| - 1];
      forall j | p < j ensures !About(rest, j, k) { assert About(rest, j, k) ==> About(flow, j, k); }
      FinalAt(c, rest, k, p);
    }
  }

  lemma {:induction false} FinalNone(c: Cell, flow: seq<Frame>, k: PairKey)
    requires forall j :: !About(flow, j, k)
    ensures Final(c, flow, k) == c
    decreases |flow|
  {
    if flow != [] {
      assert !About(flow, |flow| - 1, k);
      var rest := flow[..|flow| - 1];
      forall j ensures !About(rest, j, k) { assert About(rest, j, k) ==> About(flow, j, k); }
      FinalNone(c, rest, k);
    }
  }

  lemma {:induction false} FinalConcat(c: Cell, a: seq<Frame>, b: seq<Frame>, k: PairKey)
    ensures Final(c, a + b, k) == Final(Final(c, a, k), b, k)
    decreases |b|
  {
    if b == [] {
      assert a + b == a;
    } else {
      var n := |b| - 1;
      assert (a + b)[..|a + b| - 1] == a + b[..n];
      FinalConcat(c, a, b[..n], k);
    }
  }

  /** The last frame about `k`, if there is one. */
  lemma {:induction false} LastAbout(flow: seq<Frame>, k: PairKey) returns (p: int)
    ensures p == -1 ==> forall j :: !About(flow, j, k)
    ensures p != -1 ==> About(flow, p, k) && forall j :: p < j ==> !About(flow, j, k)
    ensures p >= -1
    decreases |flow|
  {
    if flow == [] { return -1; }
    if flow[|flow| - 1].id == k { return |flow| - 1; }
    var rest := flow[..|flow| - 1];
    p := LastAbout(rest, k);
    forall j | p < j ensures !About(flow, j, k) { assert About(flow, j, k) ==> About(rest, j, k); }
    if p != -1 { assert About(flow, p, k); }
  }

  // ---------------------------------------------------------------- what each change of the flow does

  lemma AppendKey(c: Cell, flow: seq<Frame>, k: PairKey, top: Cell, lost: bool, f: Frame)
    requires KeyInv(c, flow, k, top, lost) && (f.id == k ==> f.stamp != top.stamp)
    ensures f.id == k ==> KeyInv(c, flow + [f], k, Raise(top, f), f.stamp < top.stamp)
    ensures f.id != k ==> KeyInv(c, flow + [f], k, top, lost)
  {
    var g := flow + [f];
    assert g[..|flow|] == flow;
    forall i | About(g, i, k) ensures i == |flow| || (About(flow, i, k) && g[i] == flow[i]) {}
  }

  /** Dropping a frame changes where its key ends only if it was the key's last one. */
  lemma DeleteKey(c: Cell, flow: seq<Frame>, k: PairKey, top: Cell, lost: bool, d: nat)
    requires KeyInv(c, flow, k, top, lost) && d < |flow|
    ensures KeyInv(c, RemoveAt(flow, d), k, top,
                   if flow[d].id == k && LastOf(flow, d) then Final(c, flow[..d], k) != top else lost)
  {
    var r := RemoveAt(flow, d);
    var x, y := flow[..d], flow[d + 1..];
    forall i | About(r, i, k) ensures About(flow, if i < d then i else i + 1, k) {}
    SplitAt(flow, d);
    FinalConcat(c, x, y, k);
    FinalConcat(c, x, [flow[d]] + y, k);
    FinalConcat(Final(c, x, k), [flow[d]], y, k);
    assert [flow[d]][..0] == [];
    var p := LastAbout(y, k);
    if p == -1 {
      FinalNone(Final(c, x, k), y, k);
      FinalNone(Final(Final(c, x, k), [flow[d]], k), y, k);
      forall j | d < j ensures !About(flow, j, k) { assert About(flow, j, k) ==> About(y, j - d - 1, k); }
    } else {
      FinalAt(Final(c, x, k), y, k, p);
      FinalAt(Final(Final(c, x, k), [flow[d]], k), y, k, p);
      assert About(flow, d + 1 + p, k);
    }
  }

  /** Storing a frame over another one of its key. */
  lemma ReplaceKey(c: Cell, flow: seq<Frame>, k: PairKey, top: Cell, lost: bool, d: nat, f: Frame)
    requires KeyInv(c, flow, k, top, lost) && d < |flow| && flow[d].id == f.id && (f.id == k ==> f.stamp != top.stamp)
    ensures f.id == k ==> KeyInv(c, flow[d := f], k, Raise(top, f),
                                 if LastOf(flow, d) then f.stamp < top.stamp else f.stamp > top.stamp || lost)
    ensures f.id != k ==> KeyInv(c, flow[d := f], k, top, lost)
  {
    var r := flow[d := f];
    forall i ensures About(r, i, k) <==> About(flow, i, k) {}
    var p := LastAbout(flow, k);
    if p == -1 {
      FinalNone(c, flow, k);
      FinalNone(c, r, k);
      assert f.id == k ==> About(flow, d, k);
    } else {
      FinalAt(c, flow, k, p);
      FinalAt(c, r, k, p);
      if f.id == k {
        assert About(flow, d, k) && p >= d;
        assert LastOf(flow, d) <==> p == d;
      }
    }
  }

  /** The subscriber applying the head of the flow. */
  lemma DeliverKey(c: Cell, flow: seq<Frame>, k: PairKey, top: Cell, lost: bool)
    requires KeyInv(c, flow, k, top, lost) && flow != []
    ensures KeyInv(if flow[0].id == k then CellOf(flow[0]) else c, flow[1..], k, top, lost)
  {
    assert flow == [flow[0]] + flow[1..];
    FinalConcat(c, [flow[0]], flow[1..], k);
    assert [flow[0]][..0] == [];
    assert flow[0].id == k ==> About(flow, 0, k);
    forall i | About(flow[1..], i, k) ensures About(flow, i + 1, k) {}
  }

  // ---------------------------------------------------------------- how the flow changes

  /** Nodes carry the coalescing key of their frame. */
  ghost predicate KeysOk(b: Box<Frame>) {
    forall i :: 0 <= i < |b.outbox| ==> b.outbox[i].key == CoalesceKey(b.outbox[i].bytes)
  }

  lemma FramesUpdate(q: seq<Outbound<Frame>>, p: nat, f: Frame)
    requires p < |q|
    ensures Frames(q[p := q[p].(bytes := f)]) == Frames(q)[p := f]
  {
  }

  lemma FramesEvict(q: seq<Outbound<Frame>>, i: nat, node: Outbound<Frame>)
    requires i < |q|
    ensures Frames(RemoveAt(q, i) + [node]) == RemoveAt(Frames(q), i) + [node.bytes]
  {
  }

  /** How `send` changes the queued frames, by branch. */
  lemma SendFrames(b: Box<Frame>, f: Frame)
    requires Valid(b) && Send(b, f, CoalesceKey(f)).1 != Overfull
    ensures var q, q' := b.outbox, Send(b, f, CoalesceKey(f)).0.outbox;
            if |q| < MAX_OUTBOX_FRAMES then Frames(q') == Frames(q) + [f]
            else if f.Update? && f.id in b.index then Frames(q') == Frames(q)[PositionOf(b, f.id) := f]
            else FirstKeyed(q) < |q| && Frames(q') == RemoveAt(Frames(q), FirstKeyed(q)) + [f]
  {
    SendOutcomes(b, f, CoalesceKey(f));
    var q := b.outbox;
    if |q| >= MAX_OUTBOX_FRAMES {
      if f.Update? && f.id in b.index { FramesUpdate(q, PositionOf(b, f.id), f); }
      else { FramesEvict(q, FirstKeyed(q), Outbound(b.nextId, f, CoalesceKey(f))); }
    }
  }

  lemma SendBox(b: Box<Frame>, f: Frame)
    requires Valid(b) && KeysOk(b)
    ensures var b' := Send(b, f, CoalesceKey(f)).0; Valid(b') && KeysOk(b')
  {
    SendOutcomes(b, f, CoalesceKey(f));
  }

  /** How `send` changes in-flight and queued frames together, by branch. */
  ghost predicate Spliced(wire: seq<Frame>, b: Box<Frame>, f: Frame, flow': seq<Frame>)
    requires Valid(b)
  {
    var q, flow := b.outbox, wire + Frames(b.outbox);
    if |q| < MAX_OUTBOX_FRAMES then flow' == flow + [f]
    else if f.Update? && f.id in b.index then flow' == flow[|wire| + PositionOf(b, f.id) := f]
    else FirstKeyed(q) < |q| && flow' == RemoveAt(flow, |wire| + FirstKeyed(q)) + [f]
  }

  lemma SendFlow(wire: seq<Frame>, b: Box<Frame>, f: Frame)
    requires Valid(b) && Send(b, f, CoalesceKey(f)).1 != Overfull
    ensures Spliced(wire, b, f, wire + Frames(Send(b, f, CoalesceKey(f)).0.outbox))
  {
    SendFrames(b, f);
    var q := b.outbox;
    if |q| < MAX_OUTBOX_FRAMES {
      AppendBehind(wire, Frames(q), f);
    } else if f.Update? && f.id in b.index {
      UpdateBehind(wire, Frames(q), PositionOf(b, f.id), f);
    } else {
      RemoveBehind(wire, Frames(q), FirstKeyed(q), f);
    }
  }

  /** Flushing into a channel with room keeps every held frame, in order. */
  lemma {:induction false} FlushFrames(b: Box<Frame>, fs: seq<Frame>)
    requires Valid(b) && KeysOk(b) && |b.outbox| + |fs| < MAX_OUTBOX_FRAMES
    ensures var b' := SendEach(b, fs);
            Valid(b') && KeysOk(b') && Frames(b'.outbox) == Frames(b.outbox) + fs
    ensures |SendEach(b, fs).outbox| == |b.outbox| + |fs|
  {
    if fs != [] {
      var n := |fs| - 1;
      var mid := SendEach(b, fs[..n]);
      FlushFrames(b, fs[..n]);
      SendOutcomes(mid, fs[n], CoalesceKey(fs[n]));
      SendFrames(mid, fs[n]);
      SendBox(mid, fs[n]);
      assert fs == fs[..n] + [fs[n]];
      assert (Frames(b.outbox) + fs[..n]) + [fs[n]] == Frames(b.outbox) + fs;
    }
  }

  // ---------------------------------------------------------------- queueing one frame

  ghost predicate KeyOk(s: State, k: PairKey) {
    KeyInv(Held(s, k), Flow(s), k, Top(s, k), k in s.lost)
  }

  /** Before connecting nothing is queued or in flight; afterwards nothing is held. */
  ghost predicate LinkOk(s: State) {
    && Valid(s.box) && KeysOk(s.box)
    && if s.connected then s.pending == []
       else s.box == Empty(0) && s.wire == [] && |s.pending| <= MAX_PENDING_FRAMES
  }

  /** How queueing `f` changes the flow, by branch. */
  ghost predicate FlowAfter(s: State, f: Frame, flow': seq<Frame>)
    requires Valid(s.box)
  {
    if s.connected then Spliced(s.wire, s.box, f, flow')
    else flow' == (if |s.pending| < MAX_PENDING_FRAMES then s.pending else RemoveAt(s.pending, 0)) + [f]
  }

  /** `s'` is `s` with `f` queued: the flow changes by the branch taken, and the history follows. */
  ghost predicate SentTo(s: State, f: Frame, s': State)
    requires Valid(s.box)
  {
    && FlowAfter(s, f, Flow(s')) && s'.lost == LostAfter(s, f)
    && forall k :: Held(s', k) == Held(s, k) && Top(s', k) == if k == f.id then Raise(Top(s, k), f) else Top(s, k)
  }

  lemma NotedHistory(s: State, f: Frame, box: Box<Frame>, pending: seq<Frame>)
    requires Valid(s.box)
    ensures var r := Noted(s, f, box, pending);
            && r.lost == LostAfter(s, f) && r.copy == s.copy && r.closed == s.closed && r.connected == s.connected
            && r.box == box && r.pending == pending && r.wire == s.wire
            && r.sent == if f.stamp > Top(s, f.id).stamp then s.sent[f.id := f] else s.sent
  {
  }

  lemma NotedTop(s: State, f: Frame, r: State, k: PairKey)
    requires r.sent == if f.stamp > Top(s, f.id).stamp then s.sent[f.id := f] else s.sent
    ensures Top(r, k) == if k == f.id then Raise(Top(s, k), f) else Top(s, k)
  {
  }

  /** The state after a send that is not refused. */
  lemma EmitIs(s: State, f: Frame)
    requires LinkOk(s) && !Emit(s, f).closed
    ensures s.connected ==>
              Send(s.box, f, CoalesceKey(f)).1 != Overfull &&
              Emit(s, f) == Noted(s, f, Send(s.box, f, CoalesceKey(f)).0, s.pending)
    ensures !s.connected ==> Emit(s, f) == Noted(s, f, s.box, HoldBack(s.pending, f))
  {
  }

  lemma EmitSends(s: State, f: Frame)
    requires LinkOk(s) && !Emit(s, f).closed
    ensures SentTo(s, f, Emit(s, f)) && LinkOk(Emit(s, f))
  {
    EmitIs(s, f);
    if s.connected {
      SendBox(s.box, f);
      SendFlow(s.wire, s.box, f);
      NotedSends(s, f, Send(s.box, f, CoalesceKey(f)).0, s.pending);
    } else {
      HeldFlow(s.pending, f);
      NotedSends(s, f, s.box, HoldBack(s.pending, f));
    }
  }

  lemma NotedSends(s: State, f: Frame, box: Box<Frame>, pending: seq<Frame>)
    requires LinkOk(s) && Valid(box) && KeysOk(box)
    requires if s.connected then Spliced(s.wire, s.box, f, s.wire + Frames(box.outbox)) && pending == s.pending
             else box == s.box && |pending| <= MAX_PENDING_FRAMES && FlowAfter(s, f, pending)
    ensures SentTo(s, f, Noted(s, f, box, pending)) && LinkOk(Noted(s, f, box, pending))
  {
    NotedHistory(s, f, box, pending);
    var r := Noted(s, f, box, pending);
    assert Flow(r) == if s.connected then s.wire + Frames(box.outbox) else pending;
    forall k ensures Top(r, k) == if k == f.id then Raise(Top(s, k), f) else Top(s, k) { NotedTop(s, f, r, k); }
  }

  lemma HeldFlow(pending: seq<Frame>, f: Frame)
    requires |pending| <= MAX_PENDING_FRAMES
    ensures HoldBack(pending, f) == (if |pending| < MAX_PENDING_FRAMES then pending else RemoveAt(pending, 0)) + [f]
  {
    if |pending| == MAX_PENDING_FRAMES { assert pending[1..] == RemoveAt(pending, 0); }
  }

  lemma EvictAndAppendKey(c: Cell, flow: seq<Frame>, k: PairKey, top: Cell, lost: bool, d: nat, f: Frame)
    requires KeyInv(c, flow, k, top, lost) && d < |flow| && (f.id == k ==> f.stamp != top.stamp)
    ensures f.id == k ==> KeyInv(c, RemoveAt(flow, d) + [f], k, Raise(top, f), f.stamp < top.stamp)
    ensures f.id != k ==> KeyInv(c, RemoveAt(flow, d) + [f], k, top,
                                 if flow[d].id == k && LastOf(flow, d) then Final(c, flow[..d], k) != top else lost)
  {
    DeleteKey(c, flow, k, top, lost, d);
    var gone := if flow[d].id == k && LastOf(flow, d) then Final(c, flow[..d], k) != top else lost;
    AppendKey(c, RemoveAt(flow, d), k, top, gone, f);
  }

  /** By stamps or by what replaying ends at: the same frame. */
  lemma AheadIsFinal(s: State, d: nat)
    requires d < |Flow(s)| && KeyOk(s, Flow(s)[d].id)
    ensures var k := Flow(s)[d].id; NewestAhead(s, d) <==> Final(Held(s, k), Flow(s)[..d], k) == Top(s, k)
  {
    var flow, k := Flow(s), Flow(s)[d].id;
    var front := flow[..d];
    forall i ensures About(front, i, k) <==> About(flow, i, k) && i < d {}
    var p := LastAbout(front, k);
    if p == -1 {
      FinalNone(Held(s, k), front, k);
      assert forall j :: !NextAhead(flow, j, d, k);
    } else {
      FinalAt(Held(s, k), front, k, p);
      assert NextAhead(flow, p, d, k);
      forall j | NextAhead(flow, j, d, k) ensures j == p { assert About(front, j, k); }
    }
  }

  lemma DropAndQueueKey(s: State, s': State, f: Frame, k: PairKey, d: nat)
    requires KeyOk(s, k) && d < |Flow(s)| && (f.id == k ==> f.stamp != Top(s, k).stamp)
    requires Flow(s') == RemoveAt(Flow(s), d) + [f] && s'.lost == QueueLost(s, f, DropLost(s, d))
    requires Held(s', k) == Held(s, k) && Top(s', k) == if k == f.id then Raise(Top(s, k), f) else Top(s, k)
    ensures KeyOk(s', k)
  {
    if Flow(s)[d].id == k { AheadIsFinal(s, d); }
    EvictAndAppendKey(Held(s, k), Flow(s), k, Top(s, k), k in s.lost, d, f);
  }

  lemma QueueKey(s: State, s': State, f: Frame, k: PairKey)
    requires KeyOk(s, k) && (f.id == k ==> f.stamp != Top(s, k).stamp)
    requires Flow(s') == Flow(s) + [f] && s'.lost == QueueLost(s, f, s.lost)
    requires Held(s', k) == Held(s, k) && Top(s', k) == if k == f.id then Raise(Top(s, k), f) else Top(s, k)
    ensures KeyOk(s', k)
  {
    AppendKey(Held(s, k), Flow(s), k, Top(s, k), k in s.lost, f);
  }

  lemma StoreKey(s: State, s': State, f: Frame, k: PairKey)
    requires LinkOk(s) && s.connected && f.id in s.box.index && KeyOk(s, k)
    requires f.id == k ==> f.stamp != Top(s, k).stamp
    requires Flow(s') == Flow(s)[|s.wire| + PositionOf(s.box, f.id) := f] && s'.lost == StoreLost(s, f)
    requires Held(s', k) == Held(s, k) && Top(s', k) == if k == f.id then Raise(Top(s, k), f) else Top(s, k)
    ensures KeyOk(s', k)
  {
    var d := |s.wire| + PositionOf(s.box, f.id);
    assert Flow(s)[d] == s.box.outbox[PositionOf(s.box, f.id)].bytes;
    ReplaceKey(Held(s, k), Flow(s), k, Top(s, k), k in s.lost, d, f);
  }

  /** Queueing one frame keeps the invariant of every key. */
  lemma SentKey(s: State, f: Frame, s': State, k: PairKey)
    requires LinkOk(s) && KeyOk(s, k) && SentTo(s, f, s') && (f.id == k ==> f.stamp != Top(s, k).stamp)
    ensures KeyOk(s', k)
  {
    assert Held(s', k) == Held(s, k) && Top(s', k) == if k == f.id then Raise(Top(s, k), f) else Top(s, k);
    if !s.connected {
      if |s.pending| < MAX_PENDING_FRAMES { QueueKey(s, s', f, k); } else { DropAndQueueKey(s, s', f, k, 0); }
    } else if |s.box.outbox| < MAX_OUTBOX_FRAMES {
      QueueKey(s, s', f, k);
    } else if f.Update? && f.id in s.box.index {
      StoreKey(s, s', f, k);
    } else {
      DropAndQueueKey(s, s', f, k, Evicted(s));
    }
  }

  // ---------------------------------------------------------------- invariant of the whole system

  /** Every frame made is owed or has been queued, under its own stamp. */
  ghost predicate OwedOk(s: State) {
    && (forall m :: m in s.owed ==> s.owed[m].stamp == m && 1 <= m <= s.stamp)
    && (forall m, k :: m in s.owed && k in s.sent ==> s.sent[k].stamp != m)
    && (forall k :: k in s.sent ==> s.sent[k].id == k && 1 <= s.sent[k].stamp <= s.stamp)
  }

  /**
   * The newest frame made for a key says what is published, `now`, and is owed or the newest queued one, `top`;
   * without one nobody has been told anything.
   */
  ghost predicate NewestIs(newest: Option<Frame>, top: Option<Frame>, owed: map<nat, Frame>, stamp: nat, k: PairKey,
                           subscribed: bool, now: Option<Val>) {
    match newest
    case Some(f) =>
      && subscribed && f.id == k && f.stamp <= stamp && Shown(CellOf(f).val) == now
      && ((f.stamp in owed && owed[f.stamp] == f) || top == newest)
      && (top.Some? ==> top.value.stamp <= f.stamp)
      && (forall m :: m in owed && owed[m].id == k ==> m <= f.stamp)
    case None =>
      && top.None? && (subscribed ==> now == None)
      && (forall m :: m in owed ==> owed[m].id != k)
  }

  function Lookup<T>(m: map<PairKey, T>, k: PairKey): Option<T> { if k in m then Some(m[k]) else None }

  ghost predicate NewestOk(s: State, k: PairKey) {
    NewestIs(Lookup(s.newest, k), Lookup(s.sent, k), s.owed, s.stamp, k, k in s.subscribed, Current(s, k))
  }

  lemma NewestMade(newest: Option<Frame>, top: Option<Frame>, owed: map<nat, Frame>, stamp: nat, k: PairKey,
                   subscribed: bool, now: Option<Val>, f: Frame)
    requires NewestIs(newest, top, owed, stamp, k, subscribed, now) && f.stamp == stamp + 1
    requires forall m :: m in owed ==> m <= stamp
    requires top.Some? ==> top.value.stamp <= stamp
    ensures f.id == k ==> NewestIs(Some(f), top, owed[f.stamp := f], f.stamp, k, true, Shown(CellOf(f).val))
    ensures f.id != k ==> NewestIs(newest, top, owed[f.stamp := f], f.stamp, k, subscribed, now)
  {
  }

  lemma NewestQueued(newest: Option<Frame>, top: Option<Frame>, owed: map<nat, Frame>, stamp: nat, k: PairKey,
                     subscribed: bool, now: Option<Val>, m: nat)
    requires NewestIs(newest, top, owed, stamp, k, subscribed, now) && m in owed && owed[m].stamp == m
    ensures owed[m].id != k ==> NewestIs(newest, top, owed - {m}, stamp, k, subscribed, now)
    ensures owed[m].id == k && (top.None? || m > top.value.stamp) ==>
              NewestIs(newest, Some(owed[m]), owed - {m}, stamp, k, subscribed, now)
    ensures owed[m].id == k && top.Some? && m < top.value.stamp ==>
              NewestIs(newest, top, owed - {m}, stamp, k, subscribed, now)
  {
  }

  ghost predicate Inv(s: State) {
    && Valid(s.box)
    && (!s.closed ==>
          && LinkOk(s) && OwedOk(s)
          && (forall k :: NewestOk(s, k)) && (forall k :: KeyOk(s, k)))
  }

  /** What a change does to what is published and who is subscribed, and the frame it makes. */
  function Touch(s: State, change: Change): State {
    match change
    case Publish(k, v) => s.(published := s.published[k := v])
    case Remove(k) => s.(published := s.published - {k})
    case Subscribe(k) => s.(subscribed := s.subscribed + {k})
  }

  function FrameFor(s: State, change: Change): Option<Frame> {
    var k := change.id;
    match change
    case Publish(_, v) => if k in s.subscribed then Some(Update(k, v, s.stamp + 1)) else None
    case Remove(_) => if k in s.subscribed then Some(Removal(k, s.stamp + 1)) else None
    case Subscribe(_) =>
      if k in s.published && s.published[k].ty != Invalid then Some(Update(k, s.published[k], s.stamp + 1)) else None
  }

  lemma ApplyIs(s: State, change: Change)
    ensures Apply(s, change) ==
              if FrameFor(s, change).Some? then Make(Touch(s, change), FrameFor(s, change).value) else Touch(s, change)
  {
  }

  lemma TouchCurrent(s: State, change: Change, k: PairKey)
    ensures var t := Touch(s, change);
            && (k != change.id ==> Current(t, k) == Current(s, k) && (k in t.subscribed <==> k in s.subscribed))
            && (k == change.id && FrameFor(s, change).Some? ==>
                  k in t.subscribed && Current(t, k) == Shown(CellOf(FrameFor(s, change).value).val))
            && (k == change.id && FrameFor(s, change).None? ==>
                  (!change.Subscribe? && k !in t.subscribed && k !in s.subscribed) ||
                  (change.Subscribe? && k in t.subscribed && Current(t, k) == Current(s, k) == None))
  {
  }

  lemma ApplyNewest(s: State, change: Change, k: PairKey)
    requires OwedOk(s) && NewestOk(s, k)
    ensures NewestOk(Apply(s, change), k)
  {
    ApplyIs(s, change);
    TouchCurrent(s, change, k);
    var t := Touch(s, change);
    if FrameFor(s, change).Some? {
      var f := FrameFor(s, change).value;
      NewestMade(Lookup(s.newest, k), Lookup(s.sent, k), s.owed, s.stamp, k, k in s.subscribed, Current(s, k), f);
      MadeNewest(t, f, k);
    }
  }

  lemma MadeNewest(t: State, f: Frame, k: PairKey)
    requires if k == f.id then k in t.subscribed && Current(t, k) == Shown(CellOf(f).val) else true
    requires f.id == k ==>
               NewestIs(Some(f), Lookup(t.sent, k), t.owed[f.stamp := f], f.stamp, k, true, Shown(CellOf(f).val))
    requires f.id != k ==>
               NewestIs(Lookup(t.newest, k), Lookup(t.sent, k), t.owed[f.stamp := f], f.stamp, k,
                        k in t.subscribed, Current(t, k))
    ensures NewestOk(Make(t, f), k)
  {
    assert Current(Make(t, f), k) == Current(t, k);
  }

  /** Nothing is queued or delivered by applying. */
  lemma ApplyLeaves(s: State, change: Change)
    ensures var r := Apply(s, change);
            && r.sent == s.sent && r.copy == s.copy && r.lost == s.lost && r.closed == s.closed && Flow(r) == Flow(s)
            && r.connected == s.connected && r.box == s.box && r.wire == s.wire && r.pending == s.pending
            && s.stamp <= r.stamp
  {
    ApplyIs(s, change);
    TouchLeaves(s, change);
    if FrameFor(s, change).Some? { MakeLeaves(Touch(s, change), FrameFor(s, change).value); }
  }

  lemma TouchLeaves(s: State, change: Change)
    ensures var r := Touch(s, change);
            && r.sent == s.sent && r.copy == s.copy && r.lost == s.lost && r.closed == s.closed && Flow(r) == Flow(s)
            && r.connected == s.connected && r.box == s.box && r.wire == s.wire && r.pending == s.pending
            && r.stamp == s.stamp
  {
  }

  lemma MakeLeaves(s: State, f: Frame)
    ensures var r := Make(s, f);
            && r.sent == s.sent && r.copy == s.copy && r.lost == s.lost && r.closed == s.closed && Flow(r) == Flow(s)
            && r.connected == s.connected && r.box == s.box && r.wire == s.wire && r.pending == s.pending
            && r.stamp == f.stamp
  {
  }

  lemma MakeOwed(t: State, f: Frame)
    requires OwedOk(t) && f.stamp == t.stamp + 1
    ensures OwedOk(Make(t, f))
  {
  }

  lemma ApplyOwed(s: State, change: Change)
    requires OwedOk(s)
    ensures OwedOk(Apply(s, change))
  {
    ApplyIs(s, change);
    if FrameFor(s, change).Some? { MakeOwed(Touch(s, change), FrameFor(s, change).value); }
  }

  /** Applying a change makes at most one frame, newer than all others, and queues nothing. */
  lemma ApplyInv(s: State, change: Change)
    requires Inv(s) && !s.closed
    ensures Inv(Apply(s, change)) && !Apply(s, change).closed
  {
    ApplyLeaves(s, change);
    ApplyOwed(s, change);
    forall k ensures KeyOk(Apply(s, change), k) { assert KeyOk(s, k); }
    forall k ensures NewestOk(Apply(s, change), k) { ApplyNewest(s, change, k); }
  }

  lemma NotedKeeps(s: State, f: Frame, box: Box<Frame>, pending: seq<Frame>)
    requires Valid(s.box)
    ensures var r := Noted(s, f, box, pending);
            && r.connected == s.connected && r.copy == s.copy && r.owed == s.owed && r.wire == s.wire
            && r.published == s.published && r.subscribed == s.subscribed && r.newest == s.newest && r.stamp == s.stamp
            && r.sent == if f.stamp > Top(s, f.id).stamp then s.sent[f.id := f] else s.sent
  {
  }

  lemma EmitKeeps(s: State, f: Frame)
    requires LinkOk(s) && !Emit(s, f).closed
    ensures var r := Emit(s, f);
            && r.connected == s.connected && r.copy == s.copy && r.owed == s.owed && r.wire == s.wire
            && r.published == s.published && r.subscribed == s.subscribed && r.newest == s.newest && r.stamp == s.stamp
            && r.sent == if f.stamp > Top(s, f.id).stamp then s.sent[f.id := f] else s.sent
  {
    EmitIs(s, f);
    NotedKeeps(s, f, Send(s.box, f, CoalesceKey(f)).0, s.pending);
    NotedKeeps(s, f, s.box, HoldBack(s.pending, f));
  }

  /** What queueing the owed frame `m` does to the history. */
  lemma QueueHistory(s: State, m: nat)
    requires LinkOk(s) && m in s.owed && !Queue(s, m).closed
    ensures var r, f := Queue(s, m), s.owed[m];
            && r.owed == s.owed - {m} && r.newest == s.newest && r.stamp == s.stamp && r.copy == s.copy
            && r.published == s.published && r.subscribed == s.subscribed
            && r.sent == if f.stamp > Top(s, f.id).stamp then s.sent[f.id := f] else s.sent
  {
    var mid := s.(owed := s.owed - {m});
    assert LinkOk(mid) && Top(mid, s.owed[m].id) == Top(s, s.owed[m].id);
    EmitKeeps(mid, s.owed[m]);
  }

  lemma QueueOwed(s: State, m: nat)
    requires LinkOk(s) && OwedOk(s) && m in s.owed && !Queue(s, m).closed
    ensures OwedOk(Queue(s, m))
  {
    QueueHistory(s, m);
  }

  lemma QueueKeys(s: State, m: nat)
    requires LinkOk(s) && OwedOk(s) && m in s.owed && !Queue(s, m).closed && forall k :: KeyOk(s, k)
    ensures LinkOk(Queue(s, m)) && forall k :: KeyOk(Queue(s, m), k)
  {
    var f, mid := s.owed[m], s.(owed := s.owed - {m});
    EmitSends(mid, f);
    forall k ensures KeyOk(Queue(s, m), k) {
      assert KeyOk(s, k) && KeyOk(mid, k);
      SentKey(mid, f, Queue(s, m), k);
    }
  }

  lemma QueueInv(s: State, m: nat)
    requires Inv(s) && !s.closed && m in s.owed
    ensures Inv(Queue(s, m))
  {
    SendBox(s.box, s.owed[m]);
    if !Queue(s, m).closed {
      QueueKeys(s, m);
      QueueOwed(s, m);
      forall k ensures NewestOk(Queue(s, m), k) { QueueNewest(s, m, k); }
    }
  }

  lemma QueueNewest(s: State, m: nat, k: PairKey)
    requires LinkOk(s) && OwedOk(s) && NewestOk(s, k) && m in s.owed && !Queue(s, m).closed
    ensures NewestOk(Queue(s, m), k)
  {
    QueueHistory(s, m);
    NewestQueued(Lookup(s.newest, k), Lookup(s.sent, k), s.owed, s.stamp, k, k in s.subscribed, Current(s, k), m);
    assert Current(Queue(s, m), k) == Current(s, k);
  }

  lemma LockedInv(s: State, change: Change)
    requires Inv(s) && !s.closed && !change.Subscribe?
    ensures Inv(Next(s, Locked(change)))
  {
    ApplyInv(s, change);
    var s' := Apply(s, change);
    if s'.stamp != s.stamp && s'.stamp in s'.owed { QueueInv(s', s'.stamp); }
  }

  lemma ConnectInv(s: State)
    requires Inv(s) && Enabled(s, Connect)
    ensures Inv(Next(s, Connect))
  {
    var s' := Next(s, Connect);
    FlushFrames(s.box, s.pending);
    assert Frames(s.box.outbox) == [];
    assert Flow(s') == Flow(s);
    forall k ensures KeyOk(s', k) { assert KeyOk(s, k); }
    forall k ensures NewestOk(s', k) { assert NewestOk(s, k); }
  }

  lemma DrainInv(s: State)
    requires Inv(s) && Enabled(s, Drain)
    ensures Inv(Next(s, Drain))
  {
    var s' := Next(s, Drain);
    UnlinkValid(s.box, 0);
    assert Frames(s.box.outbox) == [s.box.outbox[0].bytes] + Frames(s'.box.outbox);
    assert Flow(s') == Flow(s);
    forall k ensures KeyOk(s', k) { assert KeyOk(s, k); }
    forall k ensures NewestOk(s', k) { assert NewestOk(s, k); }
  }

  lemma DeliverInv(s: State)
    requires Inv(s) && Enabled(s, Deliver)
    ensures Inv(Next(s, Deliver))
  {
    var s' := Next(s, Deliver);
    assert Flow(s') == Flow(s)[1..];
    forall k ensures KeyOk(s', k) {
      assert KeyOk(s, k);
      DeliverKey(Held(s, k), Flow(s), k, Top(s, k), k in s.lost);
    }
    forall k ensures NewestOk(s', k) { assert NewestOk(s, k); }
  }

  lemma StepInv(s: State, step: Step)
    requires Inv(s) && Enabled(s, step)
    ensures Inv(Next(s, step))
  {
    match step
    case Locked(change) => LockedInv(s, change);
    case Split(change) => ApplyInv(s, change);
    case Answer(m) => QueueInv(s, m);
    case Connect => ConnectInv(s);
    case Drain => DrainInv(s);
    case Deliver => DeliverInv(s);
  }

  lemma InitInv()
    ensures Inv(INIT)
  {
    forall k ensures KeyOk(INIT, k) { assert Flow(INIT) == [] && Held(INIT, k) == NOTHING && Top(INIT, k) == NOTHING; }
  }

  lemma {:induction false} RunInv(states: seq<State>, steps: seq<Step>, i: nat)
    requires IsRun(states, steps) && i < |states|
    ensures Inv(states[i])
  {
    if i == 0 {
      InitInv();
    } else {
      RunInv(states, steps, i - 1);
      StepInv(states[i - 1], steps[i - 1]);
    }
  }

  // ---------------------------------------------------------------- theorems over every run

  /** The newest frame of `k` has been made and not queued. */
  predicate NewestOwed(s: State, k: PairKey) { k in s.newest && s.newest[k].stamp in s.owed }

  /**
   * Convergence, exactly: while the channel is open, replaying what is under way ends at the newest frame of
   * a subscribed key if and only if that frame is not owed any more and the key is not lost: its newest frame
   * neither evicted or dropped as the last one, nor stored ahead of a queued removal, nor queued before an
   * older frame of the key. What is shown then is the publisher's current value and type.
   */
  lemma Converges(states: seq<State>, steps: seq<Step>, i: nat, k: PairKey)
    requires IsRun(states, steps) && i < |states|
    requires !states[i].closed && k in states[i].subscribed
    ensures var s := states[i];
            var final := Final(Held(s, k), Flow(s), k);
            && (final == Newest(s, k) <==> k !in s.lost && !NewestOwed(s, k))
            && (final == Newest(s, k) ==> Shown(final.val) == Current(s, k))
  {
    RunInv(states, steps, i);
    var s := states[i];
    assert KeyOk(s, k) && NewestOk(s, k);
    FinalBelow(Held(s, k), Flow(s), k, Top(s, k));
  }

  lemma FinalBelow(c: Cell, flow: seq<Frame>, k: PairKey, top: Cell)
    requires Below(c, top) && forall i :: About(flow, i, k) ==> Below(CellOf(flow[i]), top)
    ensures Below(Final(c, flow, k), top)
  {
    var p := LastAbout(flow, k);
    if p == -1 { FinalNone(c, flow, k); } else { FinalAt(c, flow, k, p); }
  }

  /** With everything queued and delivered, the subscriber's own copy is the newest exactly if nothing was lost. */
  lemma ConvergesWhenQuiet(states: seq<State>, steps: seq<Step>, i: nat, k: PairKey)
    requires IsRun(states, steps) && i < |states|
    requires var s := states[i]; !s.closed && k in s.subscribed && Flow(s) == [] && s.owed == map[]
    ensures var s := states[i];
            && (Held(s, k) == Newest(s, k) <==> k !in s.lost)
            && (k !in s.lost ==> Shown(Held(s, k).val) == Current(s, k))
  {
    Converges(states, steps, i, k);
  }

  /** The queue the step would use has room, and no answer is older than what was queued for its key. */
  predicate Roomy(s: State, step: Step) {
    && |s.pending| < MAX_PENDING_FRAMES && |s.box.outbox| < MAX_OUTBOX_FRAMES
    && (step.Answer? && step.stamp in s.owed ==> step.stamp > Top(s, s.owed[step.stamp].id).stamp)
  }

  /** With room in the queues, and answers queued in the order their changes were applied, nothing is ever lost. */
  lemma {:induction false} NothingLostWithRoom(states: seq<State>, steps: seq<Step>, i: nat)
    requires IsRun(states, steps) && i < |states|
    requires forall j :: 0 <= j < i ==> Roomy(states[j], steps[j])
    ensures states[i].lost == {} && !states[i].closed
  {
    if i > 0 {
      NothingLostWithRoom(states, steps, i - 1);
      RunInv(states, steps, i - 1);
      RoomyStep(states[i - 1], steps[i - 1]);
    }
  }

  lemma RoomyStep(s: State, step: Step)
    requires Inv(s) && Enabled(s, step) && s.lost == {} && Roomy(s, step)
    ensures Next(s, step).lost == {} && !Next(s, step).closed
  {
    match step
    case Locked(change) => RoomyLocked(s, change);
    case Split(change) => ApplyLeaves(s, change);
    case Answer(m) => RoomyQueue(s, m);
    case _ =>
  }

  lemma RoomyLocked(s: State, change: Change)
    requires Inv(s) && Enabled(s, Locked(change)) && s.lost == {} && Roomy(s, Locked(change))
    ensures Next(s, Locked(change)).lost == {} && !Next(s, Locked(change)).closed
  {
    var r := Apply(s, change);
    ApplyInv(s, change);
    ApplyLeaves(s, change);
    MadeIsNewest(s, change);
    if r.stamp != s.stamp && r.stamp in r.owed { RoomyQueue(r, r.stamp); }
  }

  lemma RoomyQueue(s: State, m: nat)
    requires Valid(s.box) && !s.closed && m in s.owed && s.owed[m].stamp == m && s.lost == {} && Roomy(s, Answer(m))
    ensures Queue(s, m).lost == {} && !Queue(s, m).closed
  {
    SendOutcomes(s.box, s.owed[m], CoalesceKey(s.owed[m]));
  }

  /** A frame just made is newer than anything queued. */
  lemma MadeIsNewest(s: State, change: Change)
    requires Inv(s) && !s.closed
    ensures var r := Apply(s, change);
            r.stamp != s.stamp && r.stamp in r.owed ==> r.stamp > Top(r, r.owed[r.stamp].id).stamp
  {
    ApplyIs(s, change);
    ApplyLeaves(s, change);
    var r := Apply(s, change);
    if r.stamp in r.owed { assert Top(r, r.owed[r.stamp].id).stamp <= s.stamp; }
  }

  /** With room, an answer loses its key exactly when it is older than what was queued for the key before. */
  lemma AnswerLosesIff(states: seq<State>, steps: seq<Step>, i: nat, m: nat)
    requires IsRun(states, steps) && i < |steps| && steps[i] == Answer(m)
    requires |states[i].pending| < MAX_PENDING_FRAMES && |states[i].box.outbox| < MAX_OUTBOX_FRAMES
    ensures var s, s' := states[i], states[i + 1];
            var k := s.owed[m].id;
            && !s'.closed && (k in s'.lost <==> m < Top(s, k).stamp)
            && (k in s'.lost <==> Final(Held(s', k), Flow(s'), k) != Top(s', k))
  {
    RunInv(states, steps, i);
    RunInv(states, steps, i + 1);
    var s' := states[i + 1];
    assert KeyOk(s', states[i].owed[m].id);
  }

  // ---------------------------------------------------------------- each loss really happens

  lemma Extend(states: seq<State>, steps: seq<Step>, step: Step) returns (states': seq<State>, steps': seq<Step>)
    requires IsRun(states, steps) && Enabled(states[|steps|], step)
    ensures IsRun(states', steps') && Valid(states[|steps|].box) && steps' == steps + [step]
    ensures states' == states + [Next(states[|steps|], step)]
  {
    RunInv(states, steps, |steps|);
    states', steps' := states + [Next(states[|steps|], step)], steps + [step];
  }

  /** The publisher holds `v` under the subscribed key `k`, nothing is owed, and the subscriber will end up with `w`. */
  ghost predicate EndsStale(s: State, k: PairKey, v: Val, w: Option<Val>) {
    && !s.closed && s.connected && k in s.subscribed && k in s.lost && s.owed == map[]
    && Shown(Final(Held(s, k), Flow(s), k).val) == w && Current(s, k) == Some(v)
  }

  // ---------------------------------------------------------------- what a locked change of a subscribed key does

  /** The state in which its frame is queued. */
  function Ready(s: State, change: Change, f: Frame): State {
    Touch(s, change).(stamp := f.stamp, newest := s.newest[f.id := f])
  }

  lemma LockedIs(s: State, change: Change)
    requires Inv(s) && !s.closed && !change.Subscribe? && change.id in s.subscribed
    ensures FrameFor(s, change).Some?
    ensures Next(s, Locked(change)) == Emit(Ready(s, change, FrameFor(s, change).value), FrameFor(s, change).value)
  {
    ApplyIs(s, change);
    var f := FrameFor(s, change).value;
    assert f.stamp !in s.owed;
    assert s.owed[f.stamp := f] - {f.stamp} == s.owed;
  }

  /** What can be said of `r` once `f`, the frame of `change`, has been queued, whatever the branch. */
  ghost predicate QueuedIn(s: State, change: Change, f: Frame, r: State)
    requires Valid(s.box)
  {
    && r.connected == s.connected && r.copy == s.copy && r.owed == s.owed && r.wire == s.wire
    && r.published == Touch(s, change).published && r.subscribed == s.subscribed
    && FlowAfter(s, f, Flow(r)) && forall k :: Top(r, k) == if k == f.id then Raise(Top(s, k), f) else Top(s, k)
  }

  lemma EmitCloses(s: State, f: Frame)
    requires Valid(s.box) && Emit(s, f).closed && !s.closed
    ensures forall i :: 0 <= i < |s.box.outbox| ==> s.box.outbox[i].key.None?
    ensures |s.box.outbox| >= MAX_OUTBOX_FRAMES && s.connected
  {
    SendOutcomes(s.box, f, CoalesceKey(f));
  }

  lemma ReadyLooks(s: State, change: Change, f: Frame)
    requires Valid(s.box) && !change.Subscribe?
    ensures var mid := Ready(s, change, f);
            && mid.connected == s.connected && mid.copy == s.copy && mid.owed == s.owed && mid.wire == s.wire
            && mid.box == s.box && mid.pending == s.pending && mid.closed == s.closed && mid.sent == s.sent
            && mid.published == Touch(s, change).published && mid.subscribed == s.subscribed && Flow(mid) == Flow(s)
  {
  }

  /** The state after a locked change, known by what it does rather than how. */
  lemma LockedSends(s: State, change: Change) returns (r: State)
    requires Inv(s) && !s.closed && !change.Subscribe? && change.id in s.subscribed
    requires !s.connected || exists i :: 0 <= i < |s.box.outbox| && s.box.outbox[i].key.Some?
    ensures r == Next(s, Locked(change)) && Inv(r) && !r.closed
    ensures FrameFor(s, change).Some? && QueuedIn(s, change, FrameFor(s, change).value, r)
  {
    LockedInv(s, change);
    LockedIs(s, change);
    var f := FrameFor(s, change).value;
    ReadyLooks(s, change, f);
    ReadySends(s, change, f, Ready(s, change, f));
    r := Next(s, Locked(change));
  }

  lemma ReadySends(s: State, change: Change, f: Frame, mid: State)
    requires LinkOk(s) && LinkOk(mid) && !s.closed
    requires !s.connected || exists i :: 0 <= i < |s.box.outbox| && s.box.outbox[i].key.Some?
    requires mid.connected == s.connected && mid.copy == s.copy && mid.owed == s.owed && mid.wire == s.wire
    requires mid.box == s.box && mid.pending == s.pending && mid.closed == s.closed && mid.sent == s.sent
    requires mid.published == Touch(s, change).published && mid.subscribed == s.subscribed
    ensures !Emit(mid, f).closed && QueuedIn(s, change, f, Emit(mid, f))
  {
    if Emit(mid, f).closed { EmitCloses(mid, f); }
    EmitSends(mid, f);
    EmitKeeps(mid, f);
    forall k ensures Top(mid, k) == Top(s, k) {}
  }

  /** While there is room on the channel. */
  lemma LockedWithRoom(s: State, change: Change)
    requires Inv(s) && !s.closed && s.connected && |s.box.outbox| < MAX_OUTBOX_FRAMES
    requires !change.Subscribe? && change.id in s.subscribed
    ensures FrameFor(s, change).Some?
    ensures var f := FrameFor(s, change).value;
            Next(s, Locked(change)) ==
              Ready(s, change, f).(box := Append(s.box, f, CoalesceKey(f)),
                                   sent := s.sent[f.id := f], lost := s.lost - {f.id})
  {
    LockedIs(s, change);
    var f := FrameFor(s, change).value;
    assert f.stamp > Top(s, f.id).stamp;
  }

  // ---------------------------------------------------------------- an answer that comes late

  /** A value is published, and a registration has collected it. */
  ghost predicate Collected(s: State, k: PairKey, v: Val) {
    && !s.closed && s.connected && s.published == map[k := v] && s.subscribed == {k} && s.box == Empty(0)
    && s.wire == [] && s.copy == map[] && s.stamp == 1 && s.owed == map[1 := Update(k, v, 1)] && s.sent == map[]
  }

  lemma CollectFirst(k: PairKey, v: Val) returns (states: seq<State>, steps: seq<Step>)
    requires v.ty != Invalid
    ensures IsRun(states, steps) && Collected(states[|steps|], k, v)
    ensures forall j :: 0 <= j < |states| ==> states[j].box.outbox == []
  {
    states, steps := Extend([INIT], [], Connect);
    states, steps := Extend(states, steps, Locked(Publish(k, v)));
    states, steps := Extend(states, steps, Split(Subscribe(k)));
  }

  /** `w` is published meanwhile, and its frame queued. */
  ghost predicate Passed(s: State, k: PairKey, v: Val, w: Val) {
    && !s.closed && s.connected && s.published == map[k := w] && s.subscribed == {k}
    && |s.box.outbox| == 1 && Frames(s.box.outbox) == [Update(k, w, 2)]
    && s.wire == [] && s.copy == map[] && s.owed == map[1 := Update(k, v, 1)] && s.sent == map[k := Update(k, w, 2)]
  }

  lemma PassFrame(s: State, k: PairKey, v: Val, w: Val)
    requires Inv(s) && Collected(s, k, v)
    ensures Passed(Next(s, Locked(Publish(k, w))), k, v, w)
  {
    LockedWithRoom(s, Publish(k, w));
  }

  lemma AnswerLate(s: State, k: PairKey, v: Val, w: Val)
    requires Inv(s) && Passed(s, k, v, w) && v.ty != Invalid && w.ty != Invalid
    ensures EndsStale(Next(s, Answer(1)), k, w, Some(v)) && |Next(s, Answer(1)).box.outbox| == 2
  {
    var mid, f := s.(owed := s.owed - {1}), Update(k, v, 1);
    assert mid.owed == map[];
    EmitIs(mid, f);
    NotedHistory(mid, f, Append(s.box, f, Some(k)), s.pending);
    var r := Next(s, Answer(1));
    assert Frames(r.box.outbox) == [Update(k, w, 2), f];
    assert Flow(r) == [Update(k, w, 2), f];
  }

  /** A registration collects `v`; `w` is published and queued; then the answer with `v` is queued behind it. */
  lemma AnswerOvertaken(k: PairKey, v: Val, w: Val) returns (states: seq<State>, steps: seq<Step>)
    requires v.ty != Invalid && w.ty != Invalid
    ensures IsRun(states, steps) && EndsStale(states[|steps|], k, w, Some(v))
    ensures forall j :: 0 <= j < |states| ==> |states[j].box.outbox| < 3
  {
    states, steps := CollectFirst(k, v);
    RunInv(states, steps, |steps|);
    PassFrame(states[|steps|], k, v, w);
    states, steps := Extend(states, steps, Locked(Publish(k, w)));
    RunInv(states, steps, |steps|);
    AnswerLate(states[|steps|], k, v, w);
    ghost var before := states;
    states, steps := Extend(states, steps, Answer(1));
    assert forall j :: 0 <= j < |before| ==> states[j] == before[j];
  }

  // ---------------------------------------------------------------- losses at the caps

  /** Connected, with these keys subscribed and nothing published. */
  lemma {:induction false} Subscribed(ks: seq<PairKey>) returns (states: seq<State>, steps: seq<Step>)
    ensures IsRun(states, steps)
    ensures states[|steps|] == INIT.(connected := true, subscribed := set k | k in ks)
  {
    if ks == [] {
      states, steps := Extend([INIT], [], Connect);
    } else {
      var n := |ks| - 1;
      states, steps := Subscribed(ks[..n]);
      ghost var was := states[|steps|];
      states, steps := Extend(states, steps, Split(Subscribe(ks[n])));
      assert ks == ks[..n] + [ks[n]];
      assert was.subscribed + {ks[n]} == set k | k in ks;
    }
  }

  /** `s'` is `s` with `n` more updates of `x` queued at the back. */
  ghost predicate Filled(s: State, s': State, x: PairKey, n: nat) {
    && !s'.closed && s'.connected && s'.subscribed == s.subscribed && s'.wire == s.wire && s'.copy == s.copy
    && s'.owed == s.owed && (forall k :: k != x ==> Current(s', k) == Current(s, k) && Top(s', k) == Top(s, k))
    && |s'.box.outbox| == |s.box.outbox| + n && s.box.outbox <= s'.box.outbox
    && (forall j :: |s.box.outbox| <= j < |s'.box.outbox| ==>
          s'.box.outbox[j].bytes.id == x && s'.box.outbox[j].key == Some(x))
    && (forall k :: k != x ==> (k in s'.box.index <==> k in s.box.index))
    && (forall k :: k != x && k in s.box.index ==> s'.box.index[k] == s.box.index[k])
  }

  /** One locked publish of a subscribed key while there is room. */
  lemma PublishOne(s: State, x: PairKey, v: Val)
    requires Inv(s) && !s.closed && s.connected && x in s.subscribed && |s.box.outbox| < MAX_OUTBOX_FRAMES
    ensures Filled(s, Next(s, Locked(Publish(x, v))), x, 1)
  {
    LockedWithRoom(s, Publish(x, v));
  }

  lemma FilledMore(s: State, mid: State, s': State, x: PairKey, n: nat)
    requires Filled(s, mid, x, n) && Filled(mid, s', x, 1)
    ensures Filled(s, s', x, n + 1)
  {
  }

  /** Publishing one subscribed key over and over fills the queue: nothing coalesces below the cap. */
  lemma {:induction false} Fill(states: seq<State>, steps: seq<Step>, x: PairKey, v: Val, n: nat)
    returns (states': seq<State>, steps': seq<Step>)
    requires IsRun(states, steps) && !states[|steps|].closed && states[|steps|].connected
    requires x in states[|steps|].subscribed && |states[|steps|].box.outbox| + n <= MAX_OUTBOX_FRAMES
    ensures IsRun(states', steps') && Filled(states[|steps|], states'[|steps'|], x, n)
    decreases n
  {
    if n == 0 { return states, steps; }
    var a, b := Fill(states, steps, x, v, n - 1);
    RunInv(a, b, |b|);
    PublishOne(a[|b|], x, v);
    states', steps' := Extend(a, b, Locked(Publish(x, v)));
    FilledMore(states[|steps|], a[|b|], states'[|steps'|], x, n - 1);
  }

  /** Storing `v` over the front frame of `k` when the next frame removes `k`. */
  lemma StaleAfterOverwrite(s: State, k: PairKey, v: Val) returns (r: State)
    requires Inv(s) && !s.closed && s.connected && s.owed == map[] && k in s.subscribed && v.ty != Invalid
    requires s.wire == [] && s.copy == map[]
    requires var q := s.box.outbox;
             && |q| == MAX_OUTBOX_FRAMES && q[1].bytes.Removal? && q[1].bytes.id == k
             && k in s.box.index && q[0].id == s.box.index[k]
             && forall j :: 2 <= j < |q| ==> q[j].bytes.id != k
    ensures r == Next(s, Locked(Publish(k, v))) && EndsStale(r, k, v, None)
  {
    FrontIsIndexed(s.box, k);
    r := SendsOne(s, k, v, 0);
    assert KeyOk(r, k);
    OverwrittenStale(s, r, k, v);
  }

  lemma FrontIsIndexed(b: Box<Frame>, k: PairKey)
    requires Valid(b) && k in b.index && b.outbox != [] && b.outbox[0].id == b.index[k]
    ensures PositionOf(b, k) == 0 && b.outbox[0].key == Some(k)
  {
  }

  lemma OverwrittenStale(s: State, r: State, k: PairKey, v: Val)
    requires LinkOk(s) && s.connected && s.owed == map[] && k in s.subscribed && v.ty != Invalid
    requires s.wire == [] && s.copy == map[]
    requires var q := s.box.outbox;
             && |q| == MAX_OUTBOX_FRAMES && q[1].bytes.Removal? && q[1].bytes.id == k
             && k in s.box.index && q[0].id == s.box.index[k]
             && forall j :: 2 <= j < |q| ==> q[j].bytes.id != k
    requires KeyOk(r, k) && Top(s, k).stamp <= s.stamp && !r.closed
    requires QueuedIn(s, Publish(k, v), Update(k, v, s.stamp + 1), r)
    ensures EndsStale(r, k, v, None)
  {
    var q, f, flow := s.box.outbox, Update(k, v, s.stamp + 1), Flow(r);
    FrontIsIndexed(s.box, k);
    assert flow == Flow(s)[0 := f];
    assert flow[1] == q[1].bytes && flow[0] == f;
    assert About(flow, 1, k);
    forall j | 1 < j ensures !About(flow, j, k) { if j < |q| { assert flow[j] == q[j].bytes; } }
    FinalAt(Held(r, k), flow, k, 1);
    assert f.stamp > Top(s, k).stamp;
    assert Top(r, k) == CellOf(f);
  }

  /** A value and its removal are queued, and nothing else. */
  ghost predicate AddedAndGone(s: State, k: PairKey, x: PairKey) {
    && !s.closed && s.connected && s.owed == map[] && s.subscribed == {k, x} && s.wire == [] && s.copy == map[]
    && s.box.index == map[k := 0] && |s.box.outbox| == 2 && s.box.outbox[0].id == 0
    && s.box.outbox[1].bytes.Removal? && s.box.outbox[1].bytes.id == k
  }

  lemma PublishThenRemove(k: PairKey, x: PairKey, v: Val) returns (states: seq<State>, steps: seq<Step>)
    requires k != x
    ensures IsRun(states, steps) && AddedAndGone(states[|steps|], k, x)
  {
    states, steps := Subscribed([k, x]);
    RunInv(states, steps, |steps|);
    LockedWithRoom(states[|steps|], Publish(k, v));
    states, steps := Extend(states, steps, Locked(Publish(k, v)));
    RunInv(states, steps, |steps|);
    LockedWithRoom(states[|steps|], Remove(k));
    states, steps := Extend(states, steps, Locked(Remove(k)));
  }

  /** An update stored in place can jump ahead of a removal queued after the value it replaced. */
  lemma OverwriteJumpsRemoval(k: PairKey, x: PairKey, v: Val) returns (states: seq<State>, steps: seq<Step>)
    requires k != x && v.ty != Invalid
    ensures IsRun(states, steps) && EndsStale(states[|steps|], k, v, None)
  {
    states, steps := PublishThenRemove(k, x, v);
    ghost var q0 := states[|steps|].box.outbox;
    states, steps := Fill(states, steps, x, v, MAX_OUTBOX_FRAMES - 2);
    var s := states[|steps|];
    assert s.box.outbox[0] == q0[0] && s.box.outbox[1] == q0[1];
    RunInv(states, steps, |steps|);
    var r := StaleAfterOverwrite(s, k, v);
    states, steps := Extend(states, steps, Locked(Publish(k, v)));
  }

  /** Evicting the front frame of `k` when nothing else queued is about `k`. */
  lemma StaleAfterEviction(s: State, k: PairKey, z: PairKey, v: Val) returns (r: State)
    requires Inv(s) && !s.closed && s.connected && s.owed == map[] && k in s.subscribed && z in s.subscribed
    requires s.wire == [] && s.copy == map[] && k != z && z !in s.box.index && Current(s, k) == Some(v)
    requires var q := s.box.outbox;
             && |q| == MAX_OUTBOX_FRAMES && q[0].bytes.Update? && q[0].bytes.id == k
             && forall j :: 1 <= j < |q| ==> q[j].bytes.id != k
    ensures r == Next(s, Locked(Publish(z, v))) && EndsStale(r, k, v, None)
  {
    assert KeyOk(s, k);
    FrontSent(s, k);
    r := SendsOne(s, z, v, 0);
    assert KeyOk(r, k);
    EvictedStale(s, r, k, z, v);
  }

  /** Publishing with a keyed frame queued at `i`. */
  lemma SendsOne(s: State, z: PairKey, v: Val, i: nat) returns (r: State)
    requires Inv(s) && !s.closed && z in s.subscribed && i < |s.box.outbox| && s.box.outbox[i].key.Some?
    ensures r == Next(s, Locked(Publish(z, v))) && Inv(r) && !r.closed
    ensures QueuedIn(s, Publish(z, v), Update(z, v, s.stamp + 1), r)
  {
    assert FrameFor(s, Publish(z, v)) == Some(Update(z, v, s.stamp + 1));
    r := LockedSends(s, Publish(z, v));
  }

  lemma EvictedStale(s: State, r: State, k: PairKey, z: PairKey, v: Val)
    requires LinkOk(s) && s.connected && s.owed == map[] && k in s.subscribed && k != z && z !in s.box.index
    requires s.wire == [] && s.copy == map[] && Current(s, k) == Some(v) && Top(s, k) != NOTHING
    requires var q := s.box.outbox;
             && |q| == MAX_OUTBOX_FRAMES && q[0].key.Some? && forall j :: 1 <= j < |q| ==> q[j].bytes.id != k
    requires KeyOk(r, k) && !r.closed && QueuedIn(s, Publish(z, v), Update(z, v, s.stamp + 1), r)
    ensures EndsStale(r, k, v, None)
  {
    var q, f, flow := s.box.outbox, Update(z, v, s.stamp + 1), Flow(r);
    assert FirstKeyed(q) == 0;
    assert flow == RemoveAt(Flow(s), 0) + [f];
    forall j ensures !About(flow, j, k) { if 0 <= j < |q| - 1 { assert flow[j] == q[j + 1].bytes; } }
    FinalNone(Held(r, k), flow, k);
    assert Top(r, k) == Top(s, k);
  }

  /** A key with a frame under way has had one queued. */
  lemma FrontSent(s: State, k: PairKey)
    requires LinkOk(s) && KeyOk(s, k) && s.connected && s.wire == [] && s.box.outbox != []
    requires s.box.outbox[0].bytes.Update? && s.box.outbox[0].bytes.id == k
    ensures Top(s, k) != NOTHING && s.box.outbox[0].key == Some(k)
  {
    assert Flow(s)[0] == s.box.outbox[0].bytes;
    assert About(Flow(s), 0, k);
  }

  /** One value of `k` is queued, and nothing else. */
  lemma OneQueued(k: PairKey, x: PairKey, z: PairKey, v: Val) returns (states: seq<State>, steps: seq<Step>)
    requires k != x && k != z && x != z
    ensures IsRun(states, steps)
    ensures var s := states[|steps|];
            && !s.closed && s.connected && s.owed == map[] && s.subscribed == {k, x, z}
            && s.wire == [] && s.copy == map[]
            && |s.box.outbox| == 1 && s.box.outbox[0].bytes.Update? && s.box.outbox[0].bytes.id == k
            && z !in s.box.index && s.published == map[k := v]
  {
    states, steps := Subscribed([k, x, z]);
    RunInv(states, steps, |steps|);
    LockedWithRoom(states[|steps|], Publish(k, v));
    states, steps := Extend(states, steps, Locked(Publish(k, v)));
  }

  /** Oldest-first eviction can drop the only queued frame of a key. */
  lemma EvictionLosesKey(k: PairKey, x: PairKey, z: PairKey, v: Val)
    returns (states: seq<State>, steps: seq<Step>)
    requires k != x && k != z && x != z && v.ty != Invalid
    ensures IsRun(states, steps) && EndsStale(states[|steps|], k, v, None)
  {
    states, steps := OneQueued(k, x, z, v);
    ghost var s0 := states[|steps|];
    states, steps := Fill(states, steps, x, v, MAX_OUTBOX_FRAMES - 1);
    var s := states[|steps|];
    assert s.box.outbox[0] == s0.box.outbox[0];
    RunInv(states, steps, |steps|);
    var r := StaleAfterEviction(s, k, z, v);
    states, steps := Extend(states, steps, Locked(Publish(z, v)));
  }
}
