/**
 * Every interleaving of senders, the drain, write errors and closes on one channel.
 * A step is one critical section, one atomic access to `closed_`, one spawn, or
 * one chunk accepted by the socket.
 */
module ChannelRuns {
  import opened Base
  import opened Outbox

  import Fields

  type Bytes = seq<Fields.Byte>

  /** A frame together with the key it was sent under. */
  datatype Item = Item(bytes: Bytes, key: Option<PairKey>)

  /** A drain coroutine: at the top of its loop, or `done` bytes into a write. */
  datatype Drain = Top | Writing(item: Item, done: nat)

  /**
   * `inSend`: calls past the `isClosed` test. `spawning`: calls that set `writing_` and have
   * not spawned yet. `overfull`: calls on their way to `close`. `clearing`: closes past the
   * exchange. `sent`, `written`: history. `stream`: bytes the socket has accepted.
   */
  datatype State = State(
    box: Box<Bytes>, writing: bool, closed: bool, failed: bool,
    inSend: multiset<Item>, spawning: nat, overfull: nat, clearing: nat, drains: seq<Drain>,
    sent: seq<Item>, written: seq<Item>, stream: Bytes)

  const INIT := State(Empty(0), false, false, false, multiset{}, 0, 0, 0, [], [], [], [])

  datatype Step =
    | SendCheck(item: Item)
    | SendCritical(item: Item)
    | Spawn
    | CloseAfterOverfull
    | CloseExchange
    | CloseClear
    | DrainTurn(i: nat)
    | WriteChunk(i: nat, n: nat)
    | WriteDone(i: nat)
    | WriteError(i: nat)

  predicate Enabled(s: State, step: Step) {
    match step
    case SendCheck(_) => true
    case SendCritical(item) => item in s.inSend
    case Spawn => s.spawning > 0
    case CloseAfterOverfull => s.overfull > 0
    case CloseExchange => true
    case CloseClear => s.clearing > 0
    case DrainTurn(i) => i < |s.drains| && s.drains[i].Top?
    case WriteChunk(i, n) => i < |s.drains| && s.drains[i].Writing? && s.drains[i].done + n <= |s.drains[i].item.bytes|
    case WriteDone(i) => i < |s.drains| && s.drains[i].Writing? && s.drains[i].done == |s.drains[i].item.bytes|
    case WriteError(i) => i < |s.drains| && s.drains[i].Writing?
  }

  function Exchange(s: State): State {
    if s.closed then s else s.(closed := true, clearing := s.clearing + 1)
  }

  function SendStep(s: State, item: Item): State {
    var (box, outcome) := Send(s.box, item.bytes, item.key);
    var s' := s.(box := box, inSend := s.inSend - multiset{item}, sent := s.sent + [item]);
    match outcome
    case Replaced => s'
    case Overfull => s'.(overfull := s.overfull + 1)
    case Queued => if s.writing then s' else s'.(writing := true, spawning := s.spawning + 1)
  }

  function DrainStep(s: State, i: nat): State
    requires i < |s.drains|
  {
    if s.box.outbox == [] || s.closed then s.(writing := false, drains := RemoveAt(s.drains, i))
    else
      var front := s.box.outbox[0];
      s.(box := Unlink(s.box, 0), drains := s.drains[i := Writing(Item(front.bytes, front.key), 0)])
  }

  function Next(s: State, step: Step): State
    requires Enabled(s, step)
  {
    match step
    case SendCheck(item) => if s.closed then s else s.(inSend := s.inSend + multiset{item})
    case SendCritical(item) => SendStep(s, item)
    case Spawn => s.(spawning := s.spawning - 1, drains := s.drains + [Top])
    case CloseAfterOverfull => Exchange(s.(overfull := s.overfull - 1))
    case CloseExchange => Exchange(s)
    case CloseClear => s.(box := Empty(s.box.nextId), clearing := s.clearing - 1)
    case DrainTurn(i) => DrainStep(s, i)
    case WriteChunk(i, n) =>
      var d := s.drains[i];
      s.(stream := s.stream + d.item.bytes[d.done..d.done + n], drains := s.drains[i := d.(done := d.done + n)])
    case WriteDone(i) => s.(written := s.written + [s.drains[i].item], drains := s.drains[i := Top])
    case WriteError(i) =>
      s.(box := Empty(s.box.nextId), writing := false, failed := true, drains := RemoveAt(s.drains, i))
  }

  /** A run from the freshly built channel. */
  ghost predicate IsRun(states: seq<State>, steps: seq<Step>) {
    && |states| == |steps| + 1 && states[0] == INIT
    && forall i :: 0 <= i < |steps| ==> Enabled(states[i], steps[i]) && states[i + 1] == Next(states[i], steps[i])
  }

  // ---------------------------------------------------------------- what is promised

  /** `writing_` is set exactly when one drain is live or being spawned; never more than one. */
  ghost predicate SingleWriter(s: State) {
    s.spawning + |s.drains| == if s.writing then 1 else 0
  }

  /** An open channel with frames queued always has a drain on the way. */
  ghost predicate NoLostWakeup(s: State) {
    !s.closed && s.box.outbox != [] ==> s.spawning + |s.drains| == 1
  }

  function Flatten(items: seq<Item>): Bytes {
    if items == [] then [] else Flatten(items[..|items| - 1]) + items[|items| - 1].bytes
  }

  function Partial(s: State): Bytes {
    if |s.drains| == 1 && s.drains[0].Writing? && s.drains[0].done <= |s.drains[0].item.bytes|
    then s.drains[0].item.bytes[..s.drains[0].done] else []
  }

  /** The socket holds whole frames one after another, plus a prefix of the frame in progress. */
  ghost predicate WholeFrames(s: State) {
    !s.failed ==> s.stream == Flatten(s.written) + Partial(s)
  }

  function Items(q: seq<Outbound<Bytes>>): seq<Item> {
    seq(|q|, i requires 0 <= i < |q| => Item(q[i].bytes, q[i].key))
  }

  /** Written, then being written, then queued. */
  function Flow(s: State): seq<Item> {
    Ahead(s) + Items(s.box.outbox)
  }

  function Ahead(s: State): seq<Item> {
    s.written + if |s.drains| == 1 && s.drains[0].Writing? then [s.drains[0].item] else []
  }

  function WithKey(items: seq<Item>, key: Option<PairKey>): seq<Item> {
    if items == [] then []
    else
      var rest := WithKey(items[..|items| - 1], key);
      var last := items[|items| - 1];
      if last.key == key then rest + [last] else rest
  }

  ghost predicate Healthy(s: State) { !s.closed && s.overfull == 0 && !s.failed }

  /** Keyed frames may be skipped but never reordered; unkeyed frames are neither. */
  ghost predicate Tracks(flow: seq<Item>, sent: seq<Item>) {
    && WithKey(flow, None) == WithKey(sent, None)
    && forall k: PairKey :: Subsequence(WithKey(flow, Some(k)), WithKey(sent, Some(k)))
  }

  ghost predicate InOrder(s: State) {
    Healthy(s) ==> Tracks(Flow(s), s.sent)
  }

  ghost predicate Inv(s: State) {
    && Valid(s.box) && SingleWriter(s) && NoLostWakeup(s)
    && (s.clearing > 0 ==> s.closed)
    && DonesOk(s) && WholeFrames(s) && InOrder(s)
  }

  // ---------------------------------------------------------------- facts about WithKey

  lemma {:induction false} WithKeyConcat(a: seq<Item>, b: seq<Item>, key: Option<PairKey>)
    ensures WithKey(a + b, key) == WithKey(a, key) + WithKey(b, key)
  {
    if b == [] {
      assert a + b == a;
    } else {
      var b' := b[..|b| - 1];
      WithKeyConcat(a, b', key);
      assert (a + b)[..|a + b| - 1] == a + b';
    }
  }

  lemma WithKeyOne(item: Item, key: Option<PairKey>)
    ensures WithKey([item], key) == if item.key == key then [item] else []
  {
    assert [item][..0] == [];
  }

  /** Deleting one item deletes at most one item of any one key. */
  lemma WithKeyDelete(a: seq<Item>, i: nat, key: Option<PairKey>)
    requires i < |a|
    ensures a[i].key != key ==> WithKey(RemoveAt(a, i), key) == WithKey(a, key)
    ensures a[i].key == key ==>
              var n := |WithKey(a[..i], key)|;
              n < |WithKey(a, key)| && WithKey(RemoveAt(a, i), key) == RemoveAt(WithKey(a, key), n)
  {
    SplitAt(a, i);
    var x, y := a[..i], a[i + 1..];
    WithKeyMiddle(x, a[i], y, key);
    WithKeyConcat(x, y, key);
    if a[i].key == key { RemoveMiddle(WithKey(x, key), a[i], WithKey(y, key)); }
  }

  lemma WithKeyMiddle(x: seq<Item>, item: Item, y: seq<Item>, key: Option<PairKey>)
    ensures WithKey(x + ([item] + y), key) ==
              WithKey(x, key) + ((if item.key == key then [item] else []) + WithKey(y, key))
  {
    WithKeyConcat(x, [item] + y, key);
    WithKeyConcat([item], y, key);
    WithKeyOne(item, key);
  }

  lemma {:induction false} WithKeyNone(a: seq<Item>, key: Option<PairKey>)
    requires forall i :: 0 <= i < |a| ==> a[i].key != key
    ensures WithKey(a, key) == []
  {
    if a != [] { WithKeyNone(a[..|a| - 1], key); }
  }

  lemma SubsequenceAppend(a: seq<Item>, b: seq<Item>, item: Item, key: Option<PairKey>)
    requires Subsequence(WithKey(a, key), WithKey(b, key))
    ensures Subsequence(WithKey(a + [item], key), WithKey(b + [item], key))
  {
    WithKeyConcat(a, [item], key);
    WithKeyConcat(b, [item], key);
    WithKeyOne(item, key);
    SubsequenceGrow(WithKey(a, key), WithKey(b, key), item);
  }

  lemma SubsequenceEvict(a: seq<Item>, b: seq<Item>, i: nat, key: Option<PairKey>)
    requires i < |a| && Subsequence(WithKey(a, key), WithKey(b, key))
    ensures Subsequence(WithKey(RemoveAt(a, i), key), WithKey(b, key))
  {
    WithKeyDelete(a, i, key);
    if a[i].key == key { SubsequenceDelete(WithKey(a, key), WithKey(b, key), |WithKey(a[..i], key)|); }
  }

  /** Replacing the newest frame of a key by a newer one, in place. */
  lemma ReplaceNewest(a: seq<Item>, p: nat, item: Item, key: Option<PairKey>)
    requires p < |a| && a[p].key == item.key
    requires forall j :: p < j < |a| ==> a[j].key != item.key
    ensures key != item.key ==> WithKey(a[p := item], key) == WithKey(a, key)
    ensures key == item.key ==> WithKey(a[p := item], key) == WithKey(RemoveAt(a, p) + [item], key)
  {
    var x, y := a[..p], a[p + 1..];
    SplitAt(a, p);
    SplitUpdate(a, p, item);
    if key == item.key {
      ReplacedLast(x, item, y, key);
    } else {
      WithKeyMiddle(x, a[p], y, key);
      WithKeyMiddle(x, item, y, key);
    }
  }

  lemma {:induction false} ReplacedLast(x: seq<Item>, item: Item, y: seq<Item>, key: Option<PairKey>)
    requires item.key == key && forall i :: 0 <= i < |y| ==> y[i].key != key
    ensures WithKey(x + ([item] + y), key) == WithKey((x + y) + [item], key)
  {
    WithKeyMiddle(x, item, y, key);
    WithKeyNone(y, key);
    WithKeyConcat(x + y, [item], key);
    WithKeyConcat(x, y, key);
    WithKeyOne(item, key);
  }

  // ---------------------------------------------------------------- one step

  lemma AppendInFlow(a: seq<Item>, sent: seq<Item>, item: Item)
    requires Tracks(a, sent)
    ensures Tracks(a + [item], sent + [item])
  {
    WithKeyConcat(a, [item], None);
    WithKeyConcat(sent, [item], None);
    forall k: PairKey ensures Subsequence(WithKey(a + [item], Some(k)), WithKey(sent + [item], Some(k))) {
      SubsequenceAppend(a, sent, item, Some(k));
    }
  }

  lemma EvictInFlow(a: seq<Item>, sent: seq<Item>, i: nat)
    requires Tracks(a, sent) && i < |a| && a[i].key.Some?
    ensures Tracks(RemoveAt(a, i), sent)
  {
    WithKeyDelete(a, i, None);
    forall k: PairKey ensures Subsequence(WithKey(RemoveAt(a, i), Some(k)), WithKey(sent, Some(k))) {
      SubsequenceEvict(a, sent, i, Some(k));
    }
  }

  lemma ReplaceInFlow(ahead: seq<Item>, q: seq<Item>, sent: seq<Item>, p: nat, item: Item)
    requires Tracks(ahead + q, sent) && p < |q| && item.key.Some? && q[p].key == item.key
    requires forall j :: p < j < |q| ==> q[j].key != item.key
    ensures Tracks(ahead + q[p := item], sent + [item])
  {
    var a := ahead + q;
    var i := |ahead| + p;
    assert ahead + q[p := item] == a[i := item];
    EvictInFlow(a, sent, i);
    AppendInFlow(RemoveAt(a, i), sent, item);
    AppendInFlow(a, sent, item);
    ReplaceNewest(a, i, item, None);
    WithKeyConcat(sent, [item], None);
    WithKeyOne(item, None);
    forall k: PairKey ensures Subsequence(WithKey(a[i := item], Some(k)), WithKey(sent + [item], Some(k))) {
      ReplaceNewest(a, i, item, Some(k));
      WithKeyConcat(a, [item], Some(k));
      WithKeyOne(item, Some(k));
    }
  }

  lemma ItemsEvict(q: seq<Outbound<Bytes>>, i: nat, node: Outbound<Bytes>)
    requires i < |q|
    ensures Items(RemoveAt(q, i) + [node]) == RemoveAt(Items(q), i) + [Item(node.bytes, node.key)]
  {
  }

  /** What one locked `send` does to the queue, as items. */
  lemma SendItems(b: Box<Bytes>, item: Item)
    requires Valid(b) && Send(b, item.bytes, item.key).1 != Overfull
    ensures var q, r := Items(b.outbox), Items(Send(b, item.bytes, item.key).0.outbox);
            r == q + [item] || (exists i :: Evicts(q, i, item, r)) || (exists p :: ReplacesNewest(q, p, item, r))
  {
    SendOutcomes(b, item.bytes, item.key);
    var (b', outcome) := Send(b, item.bytes, item.key);
    var q := Items(b.outbox);
    if outcome.Replaced? {
      assert ReplacesNewest(q, PositionOf(b, item.key.value), item, Items(b'.outbox));
    } else if |b.outbox| < MAX_OUTBOX_FRAMES {
      assert Items(b'.outbox) == q + [item];
    } else {
      var i := FirstKeyed(b.outbox);
      ItemsEvict(b.outbox, i, Outbound(b.nextId, item.bytes, item.key));
      assert Evicts(q, i, item, Items(b'.outbox));
    }
  }

  ghost predicate Evicts(q: seq<Item>, i: int, item: Item, r: seq<Item>) {
    0 <= i < |q| && q[i].key.Some? && r == RemoveAt(q, i) + [item]
  }

  ghost predicate ReplacesNewest(q: seq<Item>, p: int, item: Item, r: seq<Item>) {
    && 0 <= p < |q| && item.key.Some? && q[p].key == item.key
    && (forall j :: p < j < |q| ==> q[j].key != item.key)
    && r == q[p := item]
  }

  lemma SendInFlow(ahead: seq<Item>, b: Box<Bytes>, sent: seq<Item>, item: Item)
    requires Valid(b) && Tracks(ahead + Items(b.outbox), sent)
    requires Send(b, item.bytes, item.key).1 != Overfull
    ensures Tracks(ahead + Items(Send(b, item.bytes, item.key).0.outbox), sent + [item])
  {
    var q, r := Items(b.outbox), Items(Send(b, item.bytes, item.key).0.outbox);
    SendItems(b, item);
    QueueInFlow(ahead, q, r, sent, item);
  }

  lemma QueueInFlow(ahead: seq<Item>, q: seq<Item>, r: seq<Item>, sent: seq<Item>, item: Item)
    requires Tracks(ahead + q, sent)
    requires r == q + [item] || (exists i :: Evicts(q, i, item, r)) || (exists p :: ReplacesNewest(q, p, item, r))
    ensures Tracks(ahead + r, sent + [item])
  {
    if r == q + [item] {
      AppendBehind(ahead, q, item);
      AppendInFlow(ahead + q, sent, item);
    } else if exists i :: Evicts(q, i, item, r) {
      var i :| Evicts(q, i, item, r);
      EvictBehind(ahead, q, r, i, sent, item);
    } else {
      var p :| ReplacesNewest(q, p, item, r);
      ReplaceInFlow(ahead, q, sent, p, item);
    }
  }

  lemma EvictBehind(ahead: seq<Item>, q: seq<Item>, r: seq<Item>, i: nat, sent: seq<Item>, item: Item)
    requires Tracks(ahead + q, sent) && Evicts(q, i, item, r)
    ensures Tracks(ahead + r, sent + [item])
  {
    RemoveBehind(ahead, q, i, item);
    EvictThenAppend(ahead + q, sent, |ahead| + i, item);
  }

  lemma EvictThenAppend(a: seq<Item>, sent: seq<Item>, i: nat, item: Item)
    requires Tracks(a, sent) && i < |a| && a[i].key.Some?
    ensures Tracks(RemoveAt(a, i) + [item], sent + [item])
  {
    EvictInFlow(a, sent, i);
    AppendInFlow(RemoveAt(a, i), sent, item);
  }

  /** No other step changes what is ahead of the peer, while the channel stays healthy. */
  lemma QuietStep(s: State, step: Step)
    requires SingleWriter(s) && (s.clearing > 0 ==> s.closed) && Enabled(s, step)
    requires !step.SendCritical? && Healthy(Next(s, step))
    ensures Flow(Next(s, step)) == Flow(s) && Next(s, step).sent == s.sent && Healthy(s)
  {
    if step.DrainTurn? && s.box.outbox != [] {
      assert Items(s.box.outbox) == [Items(s.box.outbox)[0]] + Items(RemoveAt(s.box.outbox, 0));
    }
  }

  lemma SendOrder(s: State, item: Item)
    requires Valid(s.box) && InOrder(s)
    ensures InOrder(SendStep(s, item))
  {
    var r := SendStep(s, item);
    if Healthy(r) {
      SendInFlow(Ahead(s), s.box, s.sent, item);
      assert Ahead(r) == Ahead(s);
      assert r.sent == s.sent + [item] && r.box == Send(s.box, item.bytes, item.key).0;
    }
  }

  lemma OrderStep(s: State, step: Step)
    requires Valid(s.box) && SingleWriter(s) && (s.clearing > 0 ==> s.closed) && InOrder(s) && Enabled(s, step)
    ensures InOrder(Next(s, step))
  {
    if step.SendCritical? {
      SendOrder(s, step.item);
    } else if Healthy(Next(s, step)) {
      QuietStep(s, step);
    }
  }

  ghost predicate DonesOk(s: State) {
    forall i :: 0 <= i < |s.drains| && s.drains[i].Writing? ==> s.drains[i].done <= |s.drains[i].item.bytes|
  }

  lemma ChunkStep(s: State, i: nat, n: nat)
    requires SingleWriter(s) && DonesOk(s) && WholeFrames(s) && Enabled(s, WriteChunk(i, n))
    ensures WholeFrames(Next(s, WriteChunk(i, n)))
  {
    var d := s.drains[i];
    TakeMore(d.item.bytes, d.done, n);
    Associate(Flatten(s.written), d.item.bytes[..d.done], d.item.bytes[d.done..d.done + n]);
  }

  lemma DoneStep(s: State, i: nat)
    requires SingleWriter(s) && DonesOk(s) && WholeFrames(s) && Enabled(s, WriteDone(i))
    ensures WholeFrames(Next(s, WriteDone(i)))
  {
    FlattenSnoc(s.written, s.drains[i].item);
    assert Partial(s) == s.drains[i].item.bytes;
    assert Partial(Next(s, WriteDone(i))) == [];
  }

  predicate MovesBytes(step: Step) {
    step.WriteChunk? || step.WriteDone? || step.DrainTurn? || step.Spawn? || step.WriteError?
  }

  lemma StreamStep(s: State, step: Step)
    requires SingleWriter(s) && DonesOk(s) && WholeFrames(s) && Enabled(s, step)
    ensures WholeFrames(Next(s, step))
  {
    if !MovesBytes(step) {
      OutsideStream(s, step);
      StreamUntouched(s, Next(s, step));
    } else {
      match step
      case WriteChunk(i, n) => ChunkStep(s, i, n);
      case WriteDone(i) => DoneStep(s, i);
      case DrainTurn(i) => DrainStream(s, i);
      case Spawn => SpawnStream(s);
      case WriteError(_) =>
    }
  }

  lemma OutsideStream(s: State, step: Step)
    requires Enabled(s, step) && !MovesBytes(step)
    ensures var r := Next(s, step);
            r.stream == s.stream && r.written == s.written && r.drains == s.drains && r.failed == s.failed
  {
  }

  lemma SpawnStream(s: State)
    requires SingleWriter(s) && WholeFrames(s) && Enabled(s, Spawn)
    ensures WholeFrames(Next(s, Spawn))
  {
    var r := Next(s, Spawn);
    assert s.drains == [] && r.drains == [Top];
    assert Partial(s) == [] && Partial(r) == [];
  }

  lemma StreamUntouched(s: State, r: State)
    requires WholeFrames(s) && r.stream == s.stream && r.written == s.written && r.drains == s.drains
        && r.failed == s.failed
    ensures WholeFrames(r)
  {
  }

  lemma DrainStream(s: State, i: nat)
    requires SingleWriter(s) && WholeFrames(s) && Enabled(s, DrainTurn(i))
    ensures WholeFrames(DrainStep(s, i))
  {
    assert s.drains == [Top];
    assert Partial(s) == [] && Partial(DrainStep(s, i)) == [];
  }

  lemma TakeMore(b: Bytes, d: nat, n: nat)
    requires d + n <= |b|
    ensures b[..d] + b[d..d + n] == b[..d + n]
  {
  }

  lemma Associate(a: Bytes, b: Bytes, c: Bytes)
    ensures (a + b) + c == a + (b + c)
  {
  }

  lemma FlattenSnoc(items: seq<Item>, item: Item)
    ensures Flatten(items + [item]) == Flatten(items) + item.bytes
  {
    assert (items + [item])[..|items|] == items;
  }

  lemma StepKeepsInv(s: State, step: Step)
    requires Inv(s) && Enabled(s, step)
    ensures Inv(Next(s, step))
  {
    OrderStep(s, step);
    StreamStep(s, step);
    match step
    case SendCritical(item) => SendOutcomes(s.box, item.bytes, item.key);
    case DrainTurn(i) => if s.box.outbox != [] && !s.closed { UnlinkValid(s.box, 0); }
    case _ =>
  }

  lemma InitInv()
    ensures Inv(INIT)
  {
    assert Flow(INIT) == [];
  }

  /** The invariant holds in every state of every run. */
  lemma {:induction false} RunKeepsInv(states: seq<State>, steps: seq<Step>, i: nat)
    requires IsRun(states, steps) && i < |states|
    ensures Inv(states[i])
  {
    if i == 0 {
      InitInv();
    } else {
      RunKeepsInv(states, steps, i - 1);
      StepKeepsInv(states[i - 1], steps[i - 1]);
    }
  }

  // ---------------------------------------------------------------- theorems over every run

  lemma IndexSoundAndBounded(states: seq<State>, steps: seq<Step>, i: nat)
    requires IsRun(states, steps) && i < |states|
    ensures var b := states[i].box;
            && |b.outbox| <= 4096
            && forall k :: k in b.index ==> exists p :: NewestAt(b.outbox, p, k, b.index[k])
  {
    RunKeepsInv(states, steps, i);
  }

  /** The step takes one of two queued frames of a key off the queue, without storing another one for it. */
  ghost predicate ForgetsKey(s: State, step: Step) {
    || (step.DrainTurn? && s.box.outbox != [] && !s.closed && CarriedTwice(s.box, 0))
    || (step.SendCritical? && EvictsTwice(s.box, step.item.key))
  }

  /** From any reachable state with a complete index, a step keeps it complete exactly if it forgets no key. */
  lemma IndexCompleteIff(states: seq<State>, steps: seq<Step>, i: nat)
    requires IsRun(states, steps) && i < |steps| && Complete(states[i].box)
    ensures Complete(states[i + 1].box) <==> !ForgetsKey(states[i], steps[i])
  {
    var s, step := states[i], steps[i];
    RunKeepsInv(states, steps, i);
    if step.SendCritical? { SendCompleteIff(s.box, step.item.bytes, step.item.key); }
    if step.DrainTurn? && s.box.outbox != [] && !s.closed { UnlinkCompleteIff(s.box, 0); }
  }

  /** So in a run that never does, the index is complete throughout. */
  lemma {:induction false} IndexCompleteInRun(states: seq<State>, steps: seq<Step>, i: nat)
    requires IsRun(states, steps) && i < |states|
    requires forall j :: 0 <= j < i ==> !ForgetsKey(states[j], steps[j])
    ensures Complete(states[i].box)
  {
    if i > 0 {
      IndexCompleteInRun(states, steps, i - 1);
      IndexCompleteIff(states, steps, i - 1);
    }
  }

  lemma SingleWriterAlways(states: seq<State>, steps: seq<Step>, i: nat)
    requires IsRun(states, steps) && i < |states|
    ensures SingleWriter(states[i]) && NoLostWakeup(states[i]) && WholeFrames(states[i])
  {
    RunKeepsInv(states, steps, i);
  }

  lemma NoGoingBack(states: seq<State>, steps: seq<Step>, i: nat)
    requires IsRun(states, steps) && i < |states| && Healthy(states[i])
    ensures WithKey(Flow(states[i]), None) == WithKey(states[i].sent, None)
    ensures forall k: PairKey ::
              Subsequence(WithKey(Flow(states[i]), Some(k)), WithKey(states[i].sent, Some(k)))
  {
    RunKeepsInv(states, steps, i);
  }
}
