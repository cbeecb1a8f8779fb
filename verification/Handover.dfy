/** Every interleaving of sends, the connecting coroutine and closes on one `ClientSession`. */
module Handover {
  import opened Base

  type Frame = nat

  /** `got`: the frames handed to this channel, in order. */
  datatype Chan = Chan(open: bool, got: seq<Frame>)

  /** `run`/`connect`: trying, holding a channel not yet adopted, flushing what was pending, or over. */
  datatype Connector = Trying | Made(c: nat) | Flushing(c: nat, waiting: seq<Frame>) | Finished

  /** A `close` past its flag, or past its lock and holding what it took. */
  datatype Closer = Flagged | Took(channel: Option<nat>)

  /**
   * `inSend`: calls past the closing test. `completed`: closes that have returned. `taken`: some close has
   * passed its lock. `accepted`: frames in the order the lock took them. `overtaken`: a send went
   * straight to the channel while older frames were still being flushed.
   */
  datatype State = State(
    channel: Option<nat>, pending: seq<Frame>, closing: bool, chans: map<nat, Chan>,
    inSend: multiset<Frame>, connector: Connector, closers: seq<Closer>,
    completed: nat, taken: bool, accepted: seq<Frame>, overtaken: bool)

  const INIT := State(None, [], false, map[], multiset{}, Trying, [], 0, false, [], false)

  datatype Step =
    | SendCheck(f: Frame)
    | SendLocked(f: Frame)
    | Make(c: nat)
    | GiveUp
    | Adopt
    | Flush
    | CloseFlag
    | CloseTake(i: nat)
    | CloseFinish(i: nat)

  predicate Enabled(s: State, step: Step) {
    match step
    case SendCheck(_) => !s.closing
    case SendLocked(f) => f in s.inSend
    case Make(c) => s.connector.Trying? && c !in s.chans
    case GiveUp => s.connector.Trying? && s.closing
    case Adopt => s.connector.Made?
    case Flush => s.connector.Flushing?
    case CloseFlag => true
    case CloseTake(i) => i < |s.closers| && s.closers[i].Flagged?
    case CloseFinish(i) => i < |s.closers| && s.closers[i].Took?
  }

  /** `channel->send`; a closed channel drops the frame. */
  function Give(chans: map<nat, Chan>, c: nat, f: Frame): map<nat, Chan> {
    if c in chans && chans[c].open then chans[c := chans[c].(got := chans[c].got + [f])] else chans
  }

  function Shut(chans: map<nat, Chan>, c: nat): map<nat, Chan> {
    if c in chans then chans[c := chans[c].(open := false)] else chans
  }

  function Next(s: State, step: Step): State
    requires Enabled(s, step)
  {
    match step
    case SendCheck(f) => s.(inSend := s.inSend + multiset{f})
    case SendLocked(f) =>
      var s' := s.(inSend := s.inSend - multiset{f}, accepted := s.accepted + [f]);
      if s.channel.Some? then
        s'.(chans := Give(s.chans, s.channel.value, f),
            overtaken := s.overtaken || (s.connector.Flushing? && s.connector.waiting != []))
      else
        s'.(pending := HoldBack(s.pending, f))
    case Make(c) => s.(chans := s.chans[c := Chan(true, [])], connector := Made(c))
    case GiveUp => s.(connector := Finished)
    case Adopt =>
      var c := s.connector.c;
      if s.closing then s.(chans := Shut(s.chans, c), connector := Trying)
      else s.(channel := Some(c), pending := [], connector := Flushing(c, s.pending))
    case Flush =>
      var c, w := s.connector.c, s.connector.waiting;
      if w == [] then s.(connector := Finished)
      else s.(chans := Give(s.chans, c, w[0]), connector := Flushing(c, w[1..]))
    case CloseFlag => s.(closing := true, closers := s.closers + [Flagged])
    case CloseTake(i) =>
      s.(channel := None, pending := [], taken := true, closers := s.closers[i := Took(s.channel)])
    case CloseFinish(i) =>
      var took := s.closers[i].channel;
      s.(chans := if took.Some? then Shut(s.chans, took.value) else s.chans,
         closers := RemoveAt(s.closers, i), completed := s.completed + 1)
  }

  ghost predicate IsRun(states: seq<State>, steps: seq<Step>) {
    && |states| == |steps| + 1 && states[0] == INIT
    && forall i :: 0 <= i < |steps| ==> Enabled(states[i], steps[i]) && states[i + 1] == Next(states[i], steps[i])
  }

  // ---------------------------------------------------------------- invariant

  ghost predicate Holds(closers: seq<Closer>, c: nat) {
    exists i :: 0 <= i < |closers| && closers[i] == Took(Some(c))
  }

  /** Somebody is answerable for every open channel. */
  ghost predicate Answerable(s: State, c: nat) {
    s.channel == Some(c) || s.connector == Made(c) || Holds(s.closers, c)
  }

  ghost predicate Suffix(a: seq<Frame>, b: seq<Frame>) {
    |a| <= |b| && b[|b| - |a|..] == a
  }

  /** What the installed channel was given, and will be given by the flush. */
  function Lane(s: State): seq<Frame> {
    if s.channel.Some? && s.channel.value in s.chans then
      s.chans[s.channel.value].got + Waiting(s)
    else s.pending
  }

  ghost predicate Inv(s: State) {
    && |s.pending| <= MAX_PENDING_FRAMES && (s.channel.Some? ==> s.pending == [])
    && (s.closers != [] || s.completed > 0 || s.taken ==> s.closing)
    && ((exists i :: 0 <= i < |s.closers| && s.closers[i].Took?) || s.completed > 0 ==> s.taken)
    && (s.taken ==> s.channel.None?)
    && (s.channel.Some? ==>
         s.channel.value in s.chans && s.chans[s.channel.value].open && !s.connector.Trying? && !s.connector.Made?)
    && (s.channel.Some? && s.connector.Flushing? ==> s.channel == Some(s.connector.c))
    && (s.connector.Made? ==> s.connector.c in s.chans && s.chans[s.connector.c] == Chan(true, []))
    && ((s.connector.Flushing? || s.connector.Finished?) && s.channel.None? ==> s.closing)
    && (forall i :: 0 <= i < |s.closers| && s.closers[i].Took? && s.closers[i].channel.Some? ==>
         !s.connector.Trying? && !s.connector.Made?)
    && (forall c :: c in s.chans && s.chans[c].open ==> Answerable(s, c))
    && HeldOpen(s.closers, s.chans)
    && Ordered(s)
  }

  /** What a close has taken is open until it finishes, and only one close can have taken anything. */
  ghost predicate HeldOpen(closers: seq<Closer>, chans: map<nat, Chan>) {
    && (forall i :: 0 <= i < |closers| && closers[i].Took? && closers[i].channel.Some? ==>
          closers[i].channel.value in chans && chans[closers[i].channel.value].open)
    && (forall i, j :: 0 <= i < j < |closers| ==>
         !(closers[i].Took? && closers[i].channel.Some? && closers[j].Took? && closers[j].channel.Some?))
  }

  /** Two frames were accepted in one order and reach the channel in the other. */
  ghost predicate Swapped(lane: seq<Frame>, accepted: seq<Frame>, a: int, b: int, c: int, d: int) {
    0 <= a < b < |accepted| && 0 <= c < d < |lane| && lane[c] == accepted[b] && lane[d] == accepted[a]
  }

  ghost predicate Inverted(lane: seq<Frame>, accepted: seq<Frame>) {
    exists a, b, c, d :: Swapped(lane, accepted, a, b, c, d)
  }

  ghost predicate Ordered(s: State) {
    && (!s.taken && !s.overtaken ==> Suffix(Lane(s), s.accepted))
    && (!s.taken && s.overtaken ==> s.channel.Some? && Inverted(Lane(s), s.accepted))
  }

  /** A frame squeezed in ahead of `waiting`: whatever was swapped stays so, and if nothing was, something is now. */
  lemma Overtake(got: seq<Frame>, waiting: seq<Frame>, accepted: seq<Frame>, f: Frame)
    requires Inverted(got + waiting, accepted) || (waiting != [] && Suffix(got + waiting, accepted))
    ensures Inverted((got + [f]) + waiting, accepted + [f])
  {
    var lane, lane', accepted' := got + waiting, (got + [f]) + waiting, accepted + [f];
    if Inverted(lane, accepted) {
      var a, b, c, d :| Swapped(lane, accepted, a, b, c, d);
      assert Swapped(lane', accepted', a, b, if c < |got| then c else c + 1, if d < |got| then d else d + 1);
    } else {
      var n := |accepted|;
      assert accepted[n - 1] == lane[|lane| - 1];
      assert Swapped(lane', accepted', n - 1, n, |got|, |lane'| - 1);
    }
  }

  lemma NotSwapped(lane: seq<Frame>, accepted: seq<Frame>, a: int, b: int, c: int, d: int)
    requires NoDup(accepted) && Suffix(lane, accepted)
    ensures !Swapped(lane, accepted, a, b, c, d)
  {
    assert forall i :: 0 <= i < |lane| ==> lane[i] == accepted[|accepted| - |lane| + i];
  }

  /** Without repeated frames, a lane in the accepted order has nothing swapped. */
  lemma SuffixIsNotInverted(lane: seq<Frame>, accepted: seq<Frame>)
    requires NoDup(accepted) && Suffix(lane, accepted)
    ensures !Inverted(lane, accepted)
  {
    forall a, b, c, d ensures !Swapped(lane, accepted, a, b, c, d) { NotSwapped(lane, accepted, a, b, c, d); }
  }

  lemma SuffixAppend(a: seq<Frame>, b: seq<Frame>, f: Frame)
    requires Suffix(a, b)
    ensures Suffix(a + [f], b + [f])
    ensures a != [] ==> Suffix(a[1..], b)
  {
  }

  lemma SendStep(s: State, f: Frame)
    requires Inv(s) && f in s.inSend
    ensures Inv(Next(s, SendLocked(f)))
  {
    var s' := Next(s, SendLocked(f));
    forall c | c in s'.chans && s'.chans[c].open ensures Answerable(s', c) { assert Answerable(s, c); }
    SendOrder(s, f);
  }

  lemma SendOrder(s: State, f: Frame)
    requires Ordered(s) && f in s.inSend
    requires s.channel.Some? ==> s.channel.value in s.chans && s.chans[s.channel.value].open
    ensures Ordered(Next(s, SendLocked(f)))
  {
    var s' := Next(s, SendLocked(f));
    assert s'.accepted == s.accepted + [f] && s'.taken == s.taken && s'.channel == s.channel;
    if s.taken {
    } else if s.channel.Some? {
      var got, waiting := s.chans[s.channel.value].got, Waiting(s);
      LaneAfterSend(s, f);
      LaneOrder(got, waiting, s.accepted, f, s.overtaken);
      assert s'.overtaken == (s.overtaken || waiting != []);
    } else {
      PendingOrder(s.pending, s.accepted, f);
    }
  }

  function Waiting(s: State): seq<Frame> { if s.connector.Flushing? then s.connector.waiting else [] }

  lemma LaneAfterSend(s: State, f: Frame)
    requires f in s.inSend && s.channel.Some? && s.channel.value in s.chans && s.chans[s.channel.value].open
    ensures Lane(s) == s.chans[s.channel.value].got + Waiting(s)
    ensures Lane(Next(s, SendLocked(f))) == (s.chans[s.channel.value].got + [f]) + Waiting(s)
  {
  }

  lemma LaneOrder(got: seq<Frame>, waiting: seq<Frame>, accepted: seq<Frame>, f: Frame, overtaken: bool)
    requires if overtaken then Inverted(got + waiting, accepted) else Suffix(got + waiting, accepted)
    ensures if overtaken || waiting != [] then Inverted((got + [f]) + waiting, accepted + [f])
            else Suffix((got + [f]) + waiting, accepted + [f])
  {
    if overtaken || waiting != [] {
      Overtake(got, waiting, accepted, f);
    } else {
      SuffixAppend(got + waiting, accepted, f);
      assert (got + [f]) + waiting == (got + waiting) + [f];
    }
  }

  lemma PendingOrder(pending: seq<Frame>, accepted: seq<Frame>, f: Frame)
    requires Suffix(pending, accepted)
    ensures Suffix(HoldBack(pending, f), accepted + [f])
  {
    SuffixAppend(pending, accepted, f);
    if |pending| >= MAX_PENDING_FRAMES { SuffixAppend(pending[1..], accepted, f); }
  }

  lemma FlushStep(s: State)
    requires Inv(s) && s.connector.Flushing?
    ensures Inv(Next(s, Flush))
  {
    var s' := Next(s, Flush);
    forall c | c in s'.chans && s'.chans[c].open ensures Answerable(s', c) { assert Answerable(s, c); }
    if s.channel.Some? { assert Lane(s') == Lane(s); }
  }

  lemma AdoptStep(s: State)
    requires Inv(s) && s.connector.Made?
    ensures Inv(Next(s, Adopt))
  {
    var s' := Next(s, Adopt);
    forall c | c in s'.chans && s'.chans[c].open ensures Answerable(s', c) { assert Answerable(s, c); }
    if !s.closing { assert Lane(s') == Lane(s); }
  }

  lemma FlagStep(s: State)
    requires Inv(s)
    ensures Inv(Next(s, CloseFlag))
  {
    var s' := Next(s, CloseFlag);
    forall c | c in s'.chans && s'.chans[c].open ensures Answerable(s', c) {
      assert Answerable(s, c);
      if i :| 0 <= i < |s.closers| && s.closers[i] == Took(Some(c)) { assert s'.closers[i] == Took(Some(c)); }
    }
  }

  lemma TakeStep(s: State, j: nat)
    requires Inv(s) && Enabled(s, CloseTake(j))
    ensures Inv(Next(s, CloseTake(j)))
  {
    var s' := Next(s, CloseTake(j));
    assert s'.closers[j] == Took(s.channel);
    forall c | c in s'.chans && s'.chans[c].open ensures Answerable(s', c) {
      assert Answerable(s, c);
      if i :| 0 <= i < |s.closers| && s.closers[i] == Took(Some(c)) { assert s'.closers[i] == Took(Some(c)); }
    }
  }

  lemma FinishStep(s: State, j: nat)
    requires Inv(s) && Enabled(s, CloseFinish(j))
    ensures Inv(Next(s, CloseFinish(j)))
  {
    var s' := Next(s, CloseFinish(j));
    forall c | c in s'.chans && s'.chans[c].open ensures Answerable(s', c) {
      assert Answerable(s, c);
      if i :| 0 <= i < |s.closers| && s.closers[i] == Took(Some(c)) {
        assert i != j;
        assert s'.closers[if i < j then i else i - 1] == Took(Some(c));
      }
    }
  }

  lemma StepInv(s: State, step: Step)
    requires Inv(s) && Enabled(s, step)
    ensures Inv(Next(s, step))
  {
    match step
    case SendLocked(f) => SendStep(s, f);
    case Flush => FlushStep(s);
    case Adopt => AdoptStep(s);
    case CloseFlag => FlagStep(s);
    case CloseTake(j) => TakeStep(s, j);
    case CloseFinish(j) => FinishStep(s, j);
    case _ =>
      var s' := Next(s, step);
      forall c | c in s'.chans && s'.chans[c].open ensures Answerable(s', c) {
        assert step != Make(c) ==> Answerable(s, c);
      }
  }

  lemma {:induction false} RunInv(states: seq<State>, steps: seq<Step>, i: nat)
    requires IsRun(states, steps) && i < |states|
    ensures Inv(states[i])
  {
    if i > 0 {
      RunInv(states, steps, i - 1);
      StepInv(states[i - 1], steps[i - 1]);
    }
  }

  // ---------------------------------------------------------------- theorems over every run

  /** The pending queue is capped, and empty while a channel is installed. */
  lemma PendingBounded(states: seq<State>, steps: seq<Step>, i: nat)
    requires IsRun(states, steps) && i < |states|
    ensures |states[i].pending| <= 1024 && (states[i].channel.Some? ==> states[i].pending == [])
  {
    RunInv(states, steps, i);
  }

  /**
   * Once a close has returned, no channel is installed or ever will be. The channels still open are exactly
   * the one another close is still holding and the one not adopted yet, which adopting shuts.
   */
  lemma ClosedForGood(states: seq<State>, steps: seq<Step>, i: nat, j: nat)
    requires IsRun(states, steps) && i <= j < |states| && states[i].completed > 0
    ensures states[j].channel.None?
    ensures forall c :: c in states[j].chans && states[j].chans[c].open <==>
              Holds(states[j].closers, c) || states[j].connector == Made(c)
    ensures states[j].connector.Made? ==>
              var c, chans := states[j].connector.c, Next(states[j], Adopt).chans; c in chans && !chans[c].open
    decreases j
  {
    CompletedGrows(states, steps, i, j);
    RunInv(states, steps, j);
    forall c | c in states[j].chans && states[j].chans[c].open
      ensures Holds(states[j].closers, c) || states[j].connector == Made(c)
    {
      assert Answerable(states[j], c);
    }
  }

  lemma {:induction false} CompletedGrows(states: seq<State>, steps: seq<Step>, i: nat, j: nat)
    requires IsRun(states, steps) && i <= j < |states|
    ensures states[i].completed <= states[j].completed
    decreases j
  {
    if i < j { CompletedGrows(states, steps, i, j - 1); }
  }

  /** Frames reach the channel in the order they were accepted exactly while no send overtakes the flush. */
  lemma OrderKept(states: seq<State>, steps: seq<Step>, i: nat)
    requires IsRun(states, steps) && i < |states| && !states[i].taken
    ensures !states[i].overtaken ==> Suffix(Lane(states[i]), states[i].accepted)
    ensures NoDup(states[i].accepted) ==> (Suffix(Lane(states[i]), states[i].accepted) <==> !states[i].overtaken)
  {
    RunInv(states, steps, i);
    var lane, accepted := Lane(states[i]), states[i].accepted;
    if NoDup(accepted) && Suffix(lane, accepted) { SuffixIsNotInverted(lane, accepted); }
  }

  lemma Extend(states: seq<State>, steps: seq<Step>, step: Step) returns (states': seq<State>, steps': seq<Step>)
    requires IsRun(states, steps) && Enabled(states[|steps|], step)
    ensures IsRun(states', steps') && states'[|steps'|] == Next(states[|steps|], step)
  {
    states', steps' := states + [Next(states[|steps|], step)], steps + [step];
  }

  lemma HeldThenAdopted(f: Frame, g: Frame) returns (states: seq<State>, steps: seq<Step>)
    requires f != g
    ensures IsRun(states, steps)
    ensures var s := states[|steps|];
            && s.accepted == [f] && s.channel == Some(0) && s.chans == map[0 := Chan(true, [])] && g in s.inSend
            && s.connector == Flushing(0, [f])
  {
    states, steps := Extend([INIT], [], SendCheck(f));
    states, steps := Extend(states, steps, SendCheck(g));
    states, steps := Extend(states, steps, SendLocked(f));
    assert states[|steps|].pending == [f];
    states, steps := Extend(states, steps, Make(0));
    states, steps := Extend(states, steps, Adopt);
  }

  /** And a send can overtake: the flush runs after the lock is released. */
  lemma SendOvertakesFlush(f: Frame, g: Frame) returns (states: seq<State>, steps: seq<Step>)
    requires f != g
    ensures IsRun(states, steps)
    ensures var s := states[|steps|];
            s.accepted == [f, g] && s.channel == Some(0) && 0 in s.chans && s.chans[0].got == [g, f]
  {
    states, steps := HeldThenAdopted(f, g);
    states, steps := Extend(states, steps, SendLocked(g));
    states, steps := Extend(states, steps, Flush);
  }

  /** A second close can return while the first still holds the open channel it took. */
  lemma SecondCloseReturnsEarly() returns (states: seq<State>, steps: seq<Step>)
    ensures IsRun(states, steps)
    ensures var s := states[|steps|]; s.completed == 1 && 0 in s.chans && s.chans[0].open && Holds(s.closers, 0)
  {
    states, steps := Extend([INIT], [], Make(0));
    states, steps := Extend(states, steps, Adopt);
    states, steps := Extend(states, steps, CloseFlag);
    states, steps := Extend(states, steps, CloseFlag);
    states, steps := Extend(states, steps, CloseTake(0));
    states, steps := Extend(states, steps, CloseTake(1));
    states, steps := Extend(states, steps, CloseFinish(1));
    assert states[|steps|].closers[0] == Took(Some(0));
  }
}
