/**
 * Subscriptions again, with a change of the client's records and the frame about it as two steps, as the source has
 * them: the mutex is released in between, so frames may leave in another order than their changes were made.
 */
module SubscriptionRace {
  import opened Base
  import opened M = PairSpaceModel
  import S = Subscriptions

  /** An item of the channel: what a record change has to say, or anything else. */
  type Frame = S.Frame

  /**
   * `changes`: every change of a record that concerns the peer, as the frame it owes, numbered from zero. `sent`: the
   * numbers whose frames have been sent, in that order. `flow`: everything queued since the channel was there, first
   * what was held, then the replay. `known`, `mark`: how many changes and sends there had been by then.
   */
  datatype State = State(
    me: int, peer: int, records: map<nat, S.Record>, lastHandle: nat, link: S.Link, space: Space,
    changes: seq<Frame>, sent: seq<nat>, flow: seq<Frame>, known: nat, mark: nat)

  function Init(me: int, peer: int): State {
    State(me, peer, map[], 0, S.Unknown, EMPTY_SPACE, [], [], [], 0, 0)
  }

  datatype Step =
    | Register(owner: int, key: string)
    | Cancel(handle: nat)
    | SendChange(n: nat)
    | Announce
    | Connect
    | Deliver
    | SendOther
    | OwnerOp(op: M.Op)

  predicate Owed(s: State, n: nat) { n < |s.changes| && n !in s.sent }

  predicate Enabled(s: State, step: Step) {
    match step
    case SendChange(n) => Owed(s, n)
    case Announce => s.link.Unknown?
    case Connect => s.link.Connecting?
    case Deliver => s.link.Connected? && s.link.undelivered != []
    case OwnerOp(op) => S.NotAbout(op, s.me)
    case _ => true
  }

  function Change(s: State, applies: bool, f: Frame): State {
    if applies then s.(changes := s.changes + [f]) else s
  }

  /** A frame for the peer: sent on the channel, held, or dropped as long as the peer is unknown. */
  function Put(s: State, f: Frame): State {
    s.(link := S.Send(s.link, f), flow := if s.link.Connected? then s.flow + [f] else s.flow)
  }

  function Next(s: State, step: Step): State
    requires Enabled(s, step)
  {
    match step
    case Register(owner, key) =>
      var r := S.Record(owner, key);
      if S.Duplicate(s.records, r) then s
      else Change(s.(lastHandle := s.lastHandle + 1, records := s.records[s.lastHandle + 1 := r]),
                  S.Applies(r, s.peer), S.Sub(key, true))
    case Cancel(h) =>
      if h !in s.records then s
      else Change(s.(records := s.records - {h}), S.Applies(s.records[h], s.peer), S.Sub(s.records[h].key, false))
    case SendChange(n) => Put(s, s.changes[n]).(sent := s.sent + [n])
    case Announce => s.(link := S.Connecting([]))
    case Connect =>
      var all := s.link.pending + S.Replay(s.records, s.peer, s.lastHandle);
      s.(link := S.Connected(all), flow := all, known := |s.changes|, mark := |s.sent|)
    case Deliver =>
      s.(link := S.Connected(s.link.undelivered[1..]), space := S.Handle(s.space, s.link.undelivered[0], s.peer, s.me))
    case SendOther => Put(s, S.Other)
    case OwnerOp(op) => s.(space := Apply(s.space, op))
  }

  ghost predicate IsRun(states: seq<State>, steps: seq<Step>, me: int, peer: int) {
    && |states| == |steps| + 1 && states[0] == Init(me, peer) && me != peer
    && forall i :: 0 <= i < |steps| ==> Enabled(states[i], steps[i]) && states[i + 1] == Next(states[i], steps[i])
  }

  /** The step cancels no record that overlaps another one. */
  predicate Safe(s: State, step: Step) {
    step.Cancel? && step.handle in s.records ==> S.Alone(s.records, s.peer, step.handle)
  }

  /** What the frames say last about a key: registered, cancelled, or nothing. */
  function Says(fs: seq<Frame>, key: string): Option<bool> {
    if fs == [] then None
    else if S.Relevant(fs[|fs| - 1], key) then Some(fs[|fs| - 1].registering)
    else Says(fs[..|fs| - 1], key)
  }

  /** The frames sent so far, lost ones included, in the order they were sent. */
  function SentFrames(changes: seq<Frame>, sent: seq<nat>): seq<Frame>
    requires forall i :: 0 <= i < |sent| ==> sent[i] < |changes|
  {
    seq(|sent|, i requires 0 <= i < |sent| => changes[sent[i]])
  }

  /** The owner will forward the key to this client, once it has handled what is under way. */
  predicate WillListen(s: State, key: string)
    requires s.link.Connected?
  {
    S.Listens(S.HandleAll(s.space, s.link.undelivered, s.peer, s.me), s.peer, s.me, key)
  }

  // ---------------------------------------------------------------- facts about Says

  lemma SaysSnoc(fs: seq<Frame>, f: Frame, key: string)
    ensures Says(fs + [f], key) == if S.Relevant(f, key) then Some(f.registering) else Says(fs, key)
  {
    assert (fs + [f])[..|fs|] == fs;
  }

  lemma {:induction false} SaysConcat(a: seq<Frame>, b: seq<Frame>, key: string)
    ensures Says(a + b, key) == if Says(b, key).Some? then Says(b, key) else Says(a, key)
  {
    if b == [] {
      assert a + b == a;
    } else {
      var n := |b| - 1;
      assert a + b == (a + b[..n]) + [b[n]] && b == b[..n] + [b[n]];
      SaysSnoc(a + b[..n], b[n], key);
      SaysSnoc(b[..n], b[n], key);
      SaysConcat(a, b[..n], key);
    }
  }

  /** Handling the frames from nothing leaves what they say last. */
  lemma {:induction false} AfterSays(fs: seq<Frame>, key: string)
    ensures S.After(fs, key, false) <==> Says(fs, key) == Some(true)
  {
    if fs != [] {
      var n := |fs| - 1;
      assert fs == fs[..n] + [fs[n]];
      S.Snoc(fs[..n], fs[n], key, false, false);
      SaysSnoc(fs[..n], fs[n], key);
      AfterSays(fs[..n], key);
    }
  }

  /** A front dropped takes nothing away from the last word, unless it takes all. */
  lemma SaysDrop(fs: seq<Frame>, key: string)
    requires fs != []
    ensures Says(fs[1..], key) == None || Says(fs[1..], key) == Says(fs, key)
  {
    assert fs == [fs[0]] + fs[1..];
    SaysConcat([fs[0]], fs[1..], key);
  }

  /** A replay says of a key that it is registered, exactly if some record asks for it. */
  lemma ReplaySays(records: map<nat, S.Record>, peer: int, n: nat, key: string)
    requires forall h :: h in records ==> 1 <= h <= n
    ensures Says(S.Replay(records, peer, n), key) == if S.Wanted(records, peer, key) then Some(true) else None
  {
    var fs := S.Replay(records, peer, n);
    S.ReplayCovers(records, peer, n, key, false, false);
    AfterSays(fs, key);
    NeverCancels(records, peer, n, key);
    if S.Wanted(records, peer, key) {
      var h: nat :| h in records && S.Applies(records[h], peer) &&
                    (records[h].key == key || records[h].key == WILDCARD_KEY);
      assert 1 <= h <= n && h in records && S.Applies(records[h], peer) && S.Covers(records[h], key);
      assert S.After(fs, key, false);
    } else {
      assert forall h :: h in records && S.Applies(records[h], peer) ==> !S.Covers(records[h], key);
      assert !S.After(fs, key, false);
      OneOfThree(Says(fs, key));
    }
  }

  lemma OneOfThree(o: Option<bool>)
    ensures o == None || o == Some(true) || o == Some(false)
  {
    if o.Some? { assert o.value || !o.value; }
  }

  lemma {:induction false} NeverCancels(records: map<nat, S.Record>, peer: int, n: nat, key: string)
    ensures Says(S.Replay(records, peer, n), key) != Some(false)
  {
    if n > 0 {
      NeverCancels(records, peer, n - 1, key);
      if n in records && S.Applies(records[n], peer) {
        SaysSnoc(S.Replay(records, peer, n - 1), S.Sub(records[n].key, true), key);
      }
    }
  }

  // ---------------------------------------------------------------- what the owner makes of the frames

  /** The undelivered frames do to the space what the whole flow does to one that has not heard of us. */
  ghost predicate OwnerOk(s: State) {
    match s.link
    case Connected(u) =>
      S.Clean(s.flow, false) ==>
        var wild := s.me in s.space.wildcard;
        && S.Coherent(s.space, s.me) && S.Clean(u, wild)
        && S.WildAfter(u, wild) == S.WildAfter(s.flow, false)
        && forall key :: HeardOk(s, u, key)
    case _ => S.Fresh(s.space, s.me)
  }

  ghost predicate HeardOk(s: State, u: seq<Frame>, key: string) {
    S.After(u, key, S.Listens(s.space, s.peer, s.me, key)) <==> S.After(s.flow, key, false)
  }

  lemma PutOwner(s: State, f: Frame)
    requires OwnerOk(s)
    ensures OwnerOk(Put(s, f))
  {
    var r := Put(s, f);
    if s.link.Connected? && S.Clean(r.flow, false) {
      var u, wild := s.link.undelivered, s.me in s.space.wildcard;
      S.Snoc(s.flow, f, "", false, false);
      S.Snoc(u, f, "", false, wild);
      forall key ensures HeardOk(r, u + [f], key) {
        assert HeardOk(s, u, key);
        S.Snoc(s.flow, f, key, false, false);
        S.Snoc(u, f, key, S.Listens(s.space, s.peer, s.me, key), wild);
      }
    }
  }

  lemma ConnectOwner(s: State)
    requires OwnerOk(s) && s.link.Connecting?
    ensures OwnerOk(Next(s, Connect))
  {
    var r := Next(s, Connect);
    forall key ensures HeardOk(r, r.flow, key) {}
  }

  lemma DeliverOwner(s: State)
    requires OwnerOk(s) && Enabled(s, Deliver)
    ensures OwnerOk(Next(s, Deliver))
  {
    var r, u := Next(s, Deliver), s.link.undelivered;
    if S.Clean(s.flow, false) {
      assert S.Clean([u[0]], s.me in s.space.wildcard) by { assert [u[0]][1..] == []; }
      S.HandleView(s.space, u[0], s.peer, s.me, "");
      forall key ensures HeardOk(r, u[1..], key) {
        assert HeardOk(s, u, key);
        S.HandleView(s.space, u[0], s.peer, s.me, key);
      }
    }
  }

  lemma OwnerOpOwner(s: State, op: M.Op)
    requires OwnerOk(s) && S.NotAbout(op, s.me)
    ensures OwnerOk(Next(s, OwnerOp(op)))
  {
    var r := Next(s, OwnerOp(op));
    if s.link.Connected? {
      if S.Clean(s.flow, false) {
        S.OtherView(s.space, op, s.peer, s.me, "");
        forall key ensures HeardOk(r, s.link.undelivered, key) {
          assert HeardOk(s, s.link.undelivered, key);
          S.OtherView(s.space, op, s.peer, s.me, key);
        }
      }
    } else {
      forall k | k in r.space.pairs ensures s.me !in r.space.pairs[k].subscribers { SubscribersStep(s.space, op, k); }
    }
  }

  // ---------------------------------------------------------------- what the changes say, and what was sent

  /** The records ask for a key exactly if the last change about it registered it. */
  ghost predicate RecordsOk(s: State) {
    && (forall h :: h in s.records ==> 1 <= h <= s.lastHandle)
    && (forall key :: S.Wanted(s.records, s.peer, key) <==> Says(s.changes, key) == Some(true))
  }

  /** Each change is sent at most once. */
  ghost predicate SentOk(s: State) {
    && (forall i :: 0 <= i < |s.sent| ==> s.sent[i] < |s.changes|) && NoDup(s.sent)
    && s.known <= |s.changes| && s.mark <= |s.sent|
    && (forall i :: 0 <= i < s.mark ==> s.sent[i] < s.known)
    && (forall i :: 0 <= i < |s.changes| ==> s.changes[i].Sub?)
  }

  /** What has been sent since the channel was there. */
  ghost function Later(s: State): seq<Frame>
    requires SentOk(s)
  {
    SentFrames(s.changes, s.sent[s.mark..])
  }

  ghost function Earlier(s: State): seq<Frame>
    requires SentOk(s)
  {
    SentFrames(s.changes, s.sent[..s.mark])
  }

  /** What is held says nothing, or the last that was sent; the flow has that, then the replay, then what came later. */
  ghost predicate FlowOk(s: State, key: string)
    requires SentOk(s)
  {
    match s.link
    case Unknown => true
    case Connecting(p) => Says(p, key) == None || Says(p, key) == Says(SentFrames(s.changes, s.sent), key)
    case Connected(_) =>
      if Says(Later(s), key).Some? then Says(s.flow, key) == Says(Later(s), key)
      else if Says(s.changes[..s.known], key) == Some(true) then Says(s.flow, key) == Some(true)
      else Says(s.flow, key) == None || Says(s.flow, key) == Says(Earlier(s), key)
  }

  ghost predicate Inv(s: State) {
    RecordsOk(s) && SentOk(s) && OwnerOk(s) && forall key :: FlowOk(s, key)
  }

  /** A change made, and the records with it. */
  lemma ChangedRecords(s: State, r: State, f: Frame)
    requires RecordsOk(s) && f.Sub? && r.changes == s.changes + [f] && r.peer == s.peer
    requires forall h :: h in r.records ==> 1 <= h <= r.lastHandle
    requires forall key :: S.Wanted(r.records, s.peer, key) <==>
                             if S.Relevant(f, key) then f.registering else S.Wanted(s.records, s.peer, key)
    ensures RecordsOk(r)
  {
    forall key ensures S.Wanted(r.records, r.peer, key) <==> Says(r.changes, key) == Some(true) {
      SaysSnoc(s.changes, f, key);
    }
  }

  lemma ChangedSent(s: State, r: State, f: Frame, key: string)
    requires SentOk(s) && FlowOk(s, key) && f.Sub? && r.changes == s.changes + [f]
    requires r.sent == s.sent && r.known == s.known && r.mark == s.mark && r.flow == s.flow && r.link == s.link
    ensures SentOk(r) && FlowOk(r, key)
  {
    assert SentFrames(r.changes, r.sent) == SentFrames(s.changes, s.sent);
    assert SentFrames(r.changes, r.sent[r.mark..]) == SentFrames(s.changes, s.sent[s.mark..]);
    assert SentFrames(r.changes, r.sent[..r.mark]) == SentFrames(s.changes, s.sent[..s.mark]);
    assert r.changes[..r.known] == s.changes[..s.known];
  }

  lemma RegisterRecords(s: State, owner: int, key: string)
    requires RecordsOk(s)
    ensures RecordsOk(Next(s, Register(owner, key)))
  {
    var q, h, r := S.Record(owner, key), s.lastHandle + 1, Next(s, Register(owner, key));
    if !S.Duplicate(s.records, q) {
      forall k ensures S.Wanted(r.records, s.peer, k) <==>
                         S.Wanted(s.records, s.peer, k) || (S.Applies(q, s.peer) && S.Covers(q, k))
      {
        S.WantedAfterRegister(s.records, h, q, s.peer, k);
      }
      if S.Applies(q, s.peer) { ChangedRecords(s, r, S.Sub(key, true)); }
    }
  }

  lemma CancelRecords(s: State, h: nat)
    requires RecordsOk(s) && Safe(s, Cancel(h))
    ensures RecordsOk(Next(s, Cancel(h)))
  {
    var r := Next(s, Cancel(h));
    if h in s.records {
      var q := s.records[h];
      forall k ensures S.Wanted(r.records, s.peer, k) <==>
                         S.Wanted(s.records, s.peer, k) && !(S.Applies(q, s.peer) && S.Covers(q, k))
      {
        S.WantedAfterCancel(s.records, h, s.peer, k);
      }
      if S.Applies(q, s.peer) { ChangedRecords(s, r, S.Sub(q.key, false)); }
    }
  }

  /** Neither touches the link. */
  lemma ChangeInv(s: State, step: Step)
    requires Inv(s) && Safe(s, step) && (step.Register? || step.Cancel?)
    ensures Inv(Next(s, step))
  {
    var r := Next(s, step);
    if step.Register? { RegisterRecords(s, step.owner, step.key); } else { CancelRecords(s, step.handle); }
    if r.changes != s.changes {
      var f := if step.Register? then S.Sub(step.key, true) else S.Sub(s.records[step.handle].key, false);
      ChangedSent(s, r, f, "");
      forall key ensures FlowOk(r, key) { ChangedSent(s, r, f, key); }
    } else {
      forall key ensures FlowOk(r, key) { assert FlowOk(s, key); }
    }
    ChangeOwner(s, r);
  }

  lemma ChangeOwner(s: State, r: State)
    requires OwnerOk(s) && r.link == s.link && r.flow == s.flow && r.space == s.space
    requires r.me == s.me && r.peer == s.peer
    ensures OwnerOk(r)
  {
    if s.link.Connected? && S.Clean(s.flow, false) {
      forall key ensures HeardOk(r, s.link.undelivered, key) { assert HeardOk(s, s.link.undelivered, key); }
    }
  }

  lemma SentSnoc(changes: seq<Frame>, sent: seq<nat>, n: nat)
    requires n < |changes| && forall i :: 0 <= i < |sent| ==> sent[i] < |changes|
    ensures SentFrames(changes, sent + [n]) == SentFrames(changes, sent) + [changes[n]]
  {
  }

  /** Sending the frame of a change puts it behind everything, wherever that is. */
  lemma SendFlow(s: State, n: nat, key: string)
    requires SentOk(s) && FlowOk(s, key) && Owed(s, n)
    ensures SentOk(Next(s, SendChange(n))) && FlowOk(Next(s, SendChange(n)), key)
  {
    var r, f := Next(s, SendChange(n)), s.changes[n];
    SentSnoc(s.changes, s.sent, n);
    SentSnoc(s.changes, s.sent[s.mark..], n);
    assert r.sent[r.mark..] == s.sent[s.mark..] + [n] && r.sent[..r.mark] == s.sent[..s.mark];
    SaysSnoc(SentFrames(s.changes, s.sent), f, key);
    match s.link
    case Unknown =>
    case Connecting(p) => HeldSays(p, f, key);
    case Connected(_) =>
      SaysSnoc(Later(s), f, key);
      SaysSnoc(s.flow, f, key);
  }

  lemma HeldSays(p: seq<Frame>, f: Frame, key: string)
    ensures var q := HoldBack(p, f);
            if S.Relevant(f, key) then Says(q, key) == Some(f.registering)
            else Says(q, key) == None || Says(q, key) == Says(p, key)
  {
    if |p| >= MAX_PENDING_FRAMES {
      SaysDrop(p, key);
      SaysSnoc(p[1..], f, key);
    } else {
      SaysSnoc(p, f, key);
    }
  }

  lemma OtherFlow(s: State, key: string)
    requires SentOk(s) && FlowOk(s, key)
    ensures FlowOk(Put(s, S.Other), key)
  {
    match s.link
    case Unknown =>
    case Connecting(p) => HeldSays(p, S.Other, key);
    case Connected(_) => SaysSnoc(s.flow, S.Other, key);
  }

  lemma ConnectFlow(s: State, key: string)
    requires RecordsOk(s) && SentOk(s) && FlowOk(s, key) && s.link.Connecting?
    ensures SentOk(Next(s, Connect)) && FlowOk(Next(s, Connect), key)
  {
    var r, p := Next(s, Connect), s.link.pending;
    var replay := S.Replay(s.records, s.peer, s.lastHandle);
    SaysConcat(p, replay, key);
    ReplaySays(s.records, s.peer, s.lastHandle, key);
    assert r.sent[r.mark..] == [] && r.sent[..r.mark] == s.sent && r.changes[..r.known] == s.changes;
  }

  lemma StepInv(s: State, step: Step)
    requires Inv(s) && Enabled(s, step) && Safe(s, step)
    ensures Inv(Next(s, step)) && Next(s, step).me == s.me && Next(s, step).peer == s.peer
  {
    var r := Next(s, step);
    match step
    case Register(_, _) => ChangeInv(s, step);
    case Cancel(_) => ChangeInv(s, step);
    case SendChange(n) => SendInv(s, n);
    case Announce =>
    case Connect =>
      ConnectOwner(s);
      ConnectFlow(s, "");
      forall key ensures FlowOk(r, key) { ConnectFlow(s, key); }
    case Deliver =>
      DeliverOwner(s);
      forall key ensures FlowOk(r, key) { assert FlowOk(s, key); }
    case SendOther =>
      PutOwner(s, S.Other);
      forall key ensures FlowOk(r, key) { OtherFlow(s, key); }
    case OwnerOp(op) =>
      OwnerOpOwner(s, op);
      forall key ensures FlowOk(r, key) { assert FlowOk(s, key); }
  }

  lemma SendInv(s: State, n: nat)
    requires Inv(s) && Owed(s, n)
    ensures Inv(Next(s, SendChange(n)))
  {
    var r := Next(s, SendChange(n));
    PutOwner(s, s.changes[n]);
    ChangeOwner(Put(s, s.changes[n]), r);
    SendFlow(s, n, "");
    forall key ensures FlowOk(r, key) { SendFlow(s, n, key); }
  }

  lemma {:induction false} RunInv(states: seq<State>, steps: seq<Step>, me: int, peer: int, i: nat)
    requires IsRun(states, steps, me, peer) && i < |states|
    requires forall j :: 0 <= j < i ==> Safe(states[j], steps[j])
    ensures Inv(states[i]) && states[i].me == me && states[i].peer == peer
  {
    if i > 0 {
      RunInv(states, steps, me, peer, i - 1);
      StepInv(states[i - 1], steps[i - 1]);
    }
  }

  // ---------------------------------------------------------------- theorems over every run

  /** Once connected, what the owner will make of a key is what the frames queued for it say last. */
  lemma ListensAsTold(states: seq<State>, steps: seq<Step>, me: int, peer: int, i: nat, key: string)
    requires IsRun(states, steps, me, peer) && i < |states|
    requires forall j :: 0 <= j < i ==> Safe(states[j], steps[j])
    requires states[i].link.Connected? && S.Clean(states[i].flow, false)
    ensures WillListen(states[i], key) <==> Says(states[i].flow, key) == Some(true)
  {
    RunInv(states, steps, me, peer, i);
    var s := states[i];
    assert HeardOk(s, s.link.undelivered, key);
    S.HandleAllView(s.space, s.link.undelivered, peer, me, key);
    AfterSays(s.flow, key);
  }

  /**
   * Agreement, exactly: whatever order the frames leave in, the owner will forward a key to this client just when a
   * record asks for it, if and only if the last frame queued about the key and the last change of a record about it
   * both say that it is registered, or neither does.
   */
  lemma AgreesIff(states: seq<State>, steps: seq<Step>, me: int, peer: int, i: nat, key: string)
    requires IsRun(states, steps, me, peer) && i < |states|
    requires forall j :: 0 <= j < i ==> Safe(states[j], steps[j])
    requires states[i].link.Connected? && S.Clean(states[i].flow, false)
    ensures var s := states[i];
            && (S.Wanted(s.records, peer, key) <==> Says(s.changes, key) == Some(true))
            && ((WillListen(s, key) <==> S.Wanted(s.records, peer, key)) <==>
                  (Says(s.flow, key) == Some(true) <==> Says(s.changes, key) == Some(true)))
  {
    ListensAsTold(states, steps, me, peer, i, key);
    RunInv(states, steps, me, peer, i);
  }

  ghost predicate SentAbout(s: State, i: nat, key: string)
    requires SentOk(s) && i < |s.sent|
  {
    S.Relevant(s.changes[s.sent[i]], key)
  }

  /** The frames about a key have left in the order of their changes, and none is owed. */
  ghost predicate InOrder(s: State, key: string)
    requires SentOk(s)
  {
    && (forall i, j :: 0 <= i < j < |s.sent| && SentAbout(s, i, key) && SentAbout(s, j, key) ==> s.sent[i] < s.sent[j])
    && (forall n :: 0 <= n < |s.changes| && S.Relevant(s.changes[n], key) ==> n in s.sent)
  }

  /** The last frame among those numbered `sent` that is about the key. */
  lemma {:induction false} LastSays(changes: seq<Frame>, sent: seq<nat>, key: string) returns (p: int)
    requires forall i :: 0 <= i < |sent| ==> sent[i] < |changes|
    ensures -1 <= p < |sent|
    ensures p == -1 ==> Says(SentFrames(changes, sent), key) == None
    ensures p == -1 ==> forall i :: 0 <= i < |sent| ==> !S.Relevant(changes[sent[i]], key)
    ensures p >= 0 ==> S.Relevant(changes[sent[p]], key)
                       && Says(SentFrames(changes, sent), key) == Some(changes[sent[p]].registering)
    ensures p >= 0 ==> forall i :: p < i < |sent| ==> !S.Relevant(changes[sent[i]], key)
  {
    if sent == [] { return -1; }
    var n := |sent| - 1;
    SentSnoc(changes, sent[..n], sent[n]);
    assert sent == sent[..n] + [sent[n]];
    SaysSnoc(SentFrames(changes, sent[..n]), changes[sent[n]], key);
    if S.Relevant(changes[sent[n]], key) { return n; }
    p := LastSays(changes, sent[..n], key);
  }

  /** What the changes themselves say last. */
  lemma {:induction false} LastChange(changes: seq<Frame>, key: string) returns (t: int)
    ensures -1 <= t < |changes|
    ensures if t == -1 then Says(changes, key) == None
            else S.Relevant(changes[t], key) && Says(changes, key) == Some(changes[t].registering)
    ensures forall n :: t < n < |changes| ==> !S.Relevant(changes[n], key)
  {
    if changes == [] { return -1; }
    var n := |changes| - 1;
    if S.Relevant(changes[n], key) { return n; }
    t := LastChange(changes[..n], key);
  }

  /** In order and complete, what was sent says last what the changes say last. */
  lemma SentSaysAll(s: State, key: string)
    requires SentOk(s) && InOrder(s, key)
    ensures Says(SentFrames(s.changes, s.sent), key) == Says(s.changes, key)
  {
    var t := LastChange(s.changes, key);
    var p := LastSays(s.changes, s.sent, key);
    if t >= 0 {
      assert t in s.sent;
      var i :| 0 <= i < |s.sent| && s.sent[i] == t;
      assert p >= i;
      assert SentAbout(s, i, key) && SentAbout(s, p, key);
      assert s.sent[p] <= t;
    }
  }

  /** If nothing about the key was sent since the channel was there, nothing about it has changed since then either. */
  lemma NothingSince(s: State, key: string)
    requires SentOk(s) && InOrder(s, key) && Says(Later(s), key) == None
    ensures forall n :: s.known <= n < |s.changes| ==> !S.Relevant(s.changes[n], key)
  {
    var later := s.sent[s.mark..];
    var p := LastSays(s.changes, later, key);
    forall n | s.known <= n < |s.changes| && n in s.sent ensures !S.Relevant(s.changes[n], key) {
      var i :| 0 <= i < |s.sent| && s.sent[i] == n;
      assert later[i - s.mark] == n;
    }
  }

  lemma KnownSaysAll(s: State, key: string)
    requires SentOk(s) && InOrder(s, key) && Says(Later(s), key) == None
    ensures Says(s.changes[..s.known], key) == Says(s.changes, key)
    ensures Says(Earlier(s), key) == Says(s.changes, key)
  {
    NothingSince(s, key);
    assert s.changes == s.changes[..s.known] + s.changes[s.known..];
    SaysConcat(s.changes[..s.known], s.changes[s.known..], key);
    SaysNothing(s.changes[s.known..], key);
    SentSaysAll(s, key);
    SentSplits(s);
    SaysConcat(Earlier(s), Later(s), key);
  }

  lemma SentSplits(s: State)
    requires SentOk(s)
    ensures SentFrames(s.changes, s.sent) == Earlier(s) + Later(s)
  {
  }

  lemma {:induction false} SaysNothing(fs: seq<Frame>, key: string)
    requires forall i :: 0 <= i < |fs| ==> !S.Relevant(fs[i], key)
    ensures Says(fs, key) == None
  {
    if fs != [] { SaysNothing(fs[..|fs| - 1], key); }
  }

  /**
   * So they agree about every key whose frames have all left, in the order of their changes, however many were lost
   * before the peer was known or dropped before it was connected.
   */
  lemma InOrderAgrees(states: seq<State>, steps: seq<Step>, me: int, peer: int, i: nat, key: string)
    requires IsRun(states, steps, me, peer) && i < |states|
    requires forall j :: 0 <= j < i ==> Safe(states[j], steps[j])
    requires states[i].link.Connected? && S.Clean(states[i].flow, false)
    requires SentOk(states[i]) && InOrder(states[i], key)
    ensures WillListen(states[i], key) <==> S.Wanted(states[i].records, peer, key)
  {
    var s := states[i];
    AgreesIff(states, steps, me, peer, i, key);
    RunInv(states, steps, me, peer, i);
    assert FlowOk(s, key);
    SentSaysAll(s, key);
    if Says(Later(s), key).Some? {
      SentSplits(s);
      SaysConcat(Earlier(s), Later(s), key);
    } else {
      KnownSaysAll(s, key);
    }
  }

  // ---------------------------------------------------------------- the condition can fail

  lemma Extend(states: seq<State>, steps: seq<Step>, me: int, peer: int, step: Step)
    returns (states': seq<State>, steps': seq<Step>)
    requires IsRun(states, steps, me, peer) && Enabled(states[|steps|], step)
    ensures IsRun(states', steps', me, peer) && steps' == steps + [step]
    ensures states' == states + [Next(states[|steps|], step)]
  {
    states', steps' := states + [Next(states[|steps|], step)], steps + [step];
  }

  /** A key registered and cancelled, with neither frame sent yet. */
  lemma BothOwed(me: int, peer: int, key: string) returns (states: seq<State>, steps: seq<Step>)
    requires me != peer
    ensures IsRun(states, steps, me, peer)
    ensures states[|steps|] ==
              Init(me, peer).(lastHandle := 1, link := S.Connected([]),
                              changes := [S.Sub(key, true), S.Sub(key, false)])
  {
    states, steps := [Init(me, peer)], [];
    states, steps := Extend(states, steps, me, peer, Announce);
    states, steps := Extend(states, steps, me, peer, Connect);
    assert states[|steps|] == Init(me, peer).(link := S.Connected([]));
    states, steps := Extend(states, steps, me, peer, Register(peer, key));
    states, steps := Extend(states, steps, me, peer, Cancel(1));
    assert states[|steps|].records == map[];
  }

  /** The cancel leaves first: the owner goes on forwarding a key no record asks for, and nothing more is on its way. */
  lemma CancelOvertakes(me: int, peer: int, key: string) returns (states: seq<State>, steps: seq<Step>)
    requires me != peer && key != WILDCARD_KEY
    ensures IsRun(states, steps, me, peer)
    ensures var s := states[|steps|];
            && s.records == map[] && s.link == S.Connected([]) && s.sent == [1, 0]
            && S.Listens(s.space, peer, me, key) && !S.Wanted(s.records, peer, key)
  {
    states, steps := BothOwed(me, peer, key);
    states, steps := Extend(states, steps, me, peer, SendChange(1));
    states, steps := Extend(states, steps, me, peer, SendChange(0));
    var s := states[|steps|];
    assert s.link.undelivered == [S.Sub(key, false), S.Sub(key, true)];
    states, steps := Extend(states, steps, me, peer, Deliver);
    states, steps := Extend(states, steps, me, peer, Deliver);
    BothHandled(peer, me, key);
  }

  lemma BothHandled(peer: int, me: int, key: string)
    requires key != WILDCARD_KEY
    ensures S.Handle(EMPTY_SPACE, S.Sub(key, false), peer, me) == EMPTY_SPACE
    ensures S.Listens(S.Handle(EMPTY_SPACE, S.Sub(key, true), peer, me), peer, me, key)
  {
    SubscribersStep(EMPTY_SPACE, Subscribe(PairKey(peer, key), me), PairKey(peer, key));
  }

  /** Connecting replays a wildcard record; the cancel of a single key, made before it, is still owed. */
  ghost predicate Replayed(s: State, me: int, peer: int, key: string) {
    && s.me == me && s.peer == peer && s.records == map[2 := S.Record(peer, WILDCARD_KEY)] && s.space == EMPTY_SPACE
    && s.changes == [S.Sub(key, true), S.Sub(key, false), S.Sub(WILDCARD_KEY, true)] && s.sent == [0]
    && s.link == S.Connected([S.Sub(key, true), S.Sub(WILDCARD_KEY, true)])
  }

  lemma WildcardHeld(me: int, peer: int, key: string) returns (states: seq<State>, steps: seq<Step>)
    requires me != peer && key != WILDCARD_KEY
    ensures IsRun(states, steps, me, peer)
    ensures states[|steps|] ==
              Init(me, peer).(records := map[2 := S.Record(peer, WILDCARD_KEY)], lastHandle := 2,
                              link := S.Connecting([S.Sub(key, true)]), sent := [0],
                              changes := [S.Sub(key, true), S.Sub(key, false), S.Sub(WILDCARD_KEY, true)])
  {
    states, steps := [Init(me, peer)], [];
    states, steps := Extend(states, steps, me, peer, Announce);
    states, steps := Extend(states, steps, me, peer, Register(peer, key));
    states, steps := Extend(states, steps, me, peer, SendChange(0));
    assert states[|steps|].link == S.Connecting([S.Sub(key, true)]);
    states, steps := Extend(states, steps, me, peer, Cancel(1));
    assert states[|steps|].records == map[];
    states, steps := Extend(states, steps, me, peer, Register(peer, WILDCARD_KEY));
    assert states[|steps|].records == map[2 := S.Record(peer, WILDCARD_KEY)];
  }

  lemma WildcardReplayed(me: int, peer: int, key: string) returns (states: seq<State>, steps: seq<Step>)
    requires me != peer && key != WILDCARD_KEY
    ensures IsRun(states, steps, me, peer) && Replayed(states[|steps|], me, peer, key)
  {
    states, steps := WildcardHeld(me, peer, key);
    var s := states[|steps|];
    OneReplayed(s.records, peer);
    states, steps := Extend(states, steps, me, peer, Connect);
  }

  lemma OneReplayed(records: map<nat, S.Record>, peer: int)
    requires records == map[2 := S.Record(peer, WILDCARD_KEY)]
    ensures S.Replay(records, peer, 2) == [S.Sub(WILDCARD_KEY, true)]
  {
    assert S.Replay(records, peer, 0) == [];
    assert S.Replay(records, peer, 1) == [];
  }

  /**
   * Order alone is not enough once a single key is cancelled among wildcard frames: here every frame has left in the
   * order of its change, and the owner forwards everything but the key cancelled before the wildcard was asked for.
   */
  lemma ReplayOvertakes(me: int, peer: int, key: string) returns (states: seq<State>, steps: seq<Step>)
    requires me != peer && key != WILDCARD_KEY
    ensures IsRun(states, steps, me, peer)
    ensures var s := states[|steps|];
            && s.link.Connected? && s.sent == [0, 1, 2] && |s.changes| == 3
            && S.Wanted(s.records, peer, key) && !WillListen(s, key)
  {
    states, steps := WildcardReplayed(me, peer, key);
    states, steps := Extend(states, steps, me, peer, SendChange(1));
    states, steps := Extend(states, steps, me, peer, SendChange(2));
    var s := states[|steps|];
    var u := [S.Sub(key, true), S.Sub(WILDCARD_KEY, true), S.Sub(key, false), S.Sub(WILDCARD_KEY, true)];
    assert s.link.undelivered == u;
    assert S.HandleAll(EMPTY_SPACE, u, peer, me) == FourHandled(peer, me, key) by { FourFrames(peer, me, key); }
    Stripped(peer, me, key);
    assert 2 in s.records && s.records[2] == S.Record(peer, WILDCARD_KEY);
  }

  function FourHandled(peer: int, me: int, key: string): Space {
    var one := S.Handle(EMPTY_SPACE, S.Sub(key, true), peer, me);
    var two := S.Handle(one, S.Sub(WILDCARD_KEY, true), peer, me);
    S.Handle(S.Handle(two, S.Sub(key, false), peer, me), S.Sub(WILDCARD_KEY, true), peer, me)
  }

  lemma FourFrames(peer: int, me: int, key: string)
    ensures var a, b, c := S.Sub(key, true), S.Sub(WILDCARD_KEY, true), S.Sub(key, false);
            S.HandleAll(EMPTY_SPACE, [a, b, c, b], peer, me) == FourHandled(peer, me, key)
  {
    var a, b, c := S.Sub(key, true), S.Sub(WILDCARD_KEY, true), S.Sub(key, false);
    S.HandleAllSnoc(EMPTY_SPACE, [a, b, c], b, peer, me);
    S.HandleAllSnoc(EMPTY_SPACE, [a, b], c, peer, me);
    S.HandleAllSnoc(EMPTY_SPACE, [a], b, peer, me);
    S.HandleAllSnoc(EMPTY_SPACE, [], a, peer, me);
    assert [] + [a] == [a] && [a] + [b] == [a, b] && [a, b] + [c] == [a, b, c] && [a, b, c] + [b] == [a, b, c, b];
  }

  lemma Stripped(peer: int, me: int, key: string)
    requires key != WILDCARD_KEY
    ensures !S.Listens(FourHandled(peer, me, key), peer, me, key)
  {
    var k := PairKey(peer, key);
    var one := Apply(EMPTY_SPACE, Subscribe(k, me));
    var two := Apply(one, SubscribeAll(me));
    var three := Apply(two, Unsubscribe(k, me));
    SubscribersStep(EMPTY_SPACE, Subscribe(k, me), k);
    SubscribersStep(one, SubscribeAll(me), k);
    SubscribersStep(two, Unsubscribe(k, me), k);
    SubscribersStep(three, SubscribeAll(me), k);
    assert me in two.wildcard && three.wildcard == two.wildcard;
  }
}
