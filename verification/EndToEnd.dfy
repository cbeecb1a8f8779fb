/** The channel and the codec together: what a peer decodes off the socket of a running channel. */
module EndToEnd {
  import opened Base
  import opened Outbox
  import opened ChannelRuns
  import opened Codec
  import Fields

  /** Every frame the channel has queued, is writing or has written was once sent. */
  ghost predicate OnlySent(s: State) {
    && (forall i :: 0 <= i < |s.box.outbox| ==> Item(s.box.outbox[i].bytes, s.box.outbox[i].key) in s.sent)
    && (forall i :: 0 <= i < |s.drains| && s.drains[i].Writing? ==> s.drains[i].item in s.sent)
    && (forall i :: 0 <= i < |s.written| ==> s.written[i] in s.sent)
  }

  lemma SendOnlySent(s: State, item: Item)
    requires Valid(s.box) && OnlySent(s)
    ensures OnlySent(SendStep(s, item))
  {
    var b, r := s.box, Send(s.box, item.bytes, item.key).0;
    SendOutcomes(b, item.bytes, item.key);
    forall i | 0 <= i < |r.outbox|
      ensures Item(r.outbox[i].bytes, r.outbox[i].key) in s.sent + [item]
    {
      QueuedBefore(b, item, i);
    }
  }

  /** After a send, each queued frame is the one just sent or was queued before. */
  lemma QueuedBefore(b: Box<Bytes>, item: Item, i: nat)
    requires Valid(b) && i < |Send(b, item.bytes, item.key).0.outbox|
    ensures var node := Send(b, item.bytes, item.key).0.outbox[i];
            Item(node.bytes, node.key) == item || exists j :: 0 <= j < |b.outbox| && b.outbox[j] == node
  {
    SendOutcomes(b, item.bytes, item.key);
    var node := Send(b, item.bytes, item.key).0.outbox[i];
    if |b.outbox| == MAX_OUTBOX_FRAMES && Send(b, item.bytes, item.key).1.Queued? && i < |b.outbox| - 1 {
      var e := FirstKeyed(b.outbox);
      assert node == RemoveAt(b.outbox, e)[i];
      assert node == b.outbox[if i < e then i else i + 1];
    } else if i < |b.outbox| {
      assert node == b.outbox[i] || Item(node.bytes, node.key) == item;
    }
  }

  lemma StepOnlySent(s: State, step: Step)
    requires Valid(s.box) && OnlySent(s) && Enabled(s, step)
    ensures OnlySent(Next(s, step))
  {
    if step.SendCritical? { SendOnlySent(s, step.item); }
  }

  lemma {:induction false} RunOnlySent(states: seq<State>, steps: seq<Step>, i: nat)
    requires IsRun(states, steps) && i < |states|
    ensures OnlySent(states[i])
  {
    if i > 0 {
      RunOnlySent(states, steps, i - 1);
      RunKeepsInv(states, steps, i - 1);
      StepOnlySent(states[i - 1], steps[i - 1]);
    }
  }

  lemma StreamCons(t: Typed, ts: seq<Typed>)
    requires Sendable(t) && forall i :: 0 <= i < |ts| ==> Sendable(ts[i])
    ensures StreamOf([t] + ts) == FrameOf(t) + StreamOf(ts)
  {
    assert ([t] + ts)[1..] == ts;
  }

  lemma {:induction false} StreamSnoc(ts: seq<Typed>, t: Typed)
    requires Sendable(t) && forall i :: 0 <= i < |ts| ==> Sendable(ts[i])
    ensures StreamOf(ts + [t]) == StreamOf(ts) + FrameOf(t)
  {
    if ts == [] {
      assert [] + [t] == [t];
      StreamCons(t, []);
      assert FrameOf(t) + [] == FrameOf(t);
    } else {
      StreamSnoc(ts[1..], t);
      Fields.ConsSplit(ts, [t]);
      StreamCons(ts[0], ts[1..] + [t]);
      Associate(FrameOf(ts[0]), StreamOf(ts[1..]), FrameOf(t));
    }
  }

  /** The bytes are some message's whole frame. */
  ghost predicate IsFrame(bytes: Bytes) {
    exists t :: Sendable(t) && FrameOf(t) == bytes
  }

  /** The items are the frames of these messages, in order. */
  ghost predicate Carry(items: seq<Item>, ts: seq<Typed>) {
    |items| == |ts| && forall i :: 0 <= i < |ts| ==> Sendable(ts[i]) && FrameOf(ts[i]) == items[i].bytes
  }

  lemma {:induction false} FlattenIsStream(items: seq<Item>, ts: seq<Typed>)
    requires Carry(items, ts)
    ensures Flatten(items) == StreamOf(ts)
  {
    if ts != [] {
      var n := |ts| - 1;
      FlattenIsStream(items[..n], ts[..n]);
      StreamSnoc(ts[..n], ts[n]);
      SplitLast(ts);
      SplitLast(items);
      FlattenSnoc(items[..n], items[n]);
    }
  }

  lemma SplitLast<T>(s: seq<T>)
    requires s != []
    ensures s == s[..|s| - 1] + [s[|s| - 1]]
  {
  }

  lemma {:induction false} MessagesOf(items: seq<Item>) returns (ts: seq<Typed>)
    requires forall i :: 0 <= i < |items| ==> IsFrame(items[i].bytes)
    ensures Carry(items, ts)
  {
    if items == [] { return []; }
    var n := |items| - 1;
    var before := MessagesOf(items[..n]);
    assert IsFrame(items[n].bytes);
    var t :| Sendable(t) && FrameOf(t) == items[n].bytes;
    CarryOne(items, before, t);
    ts := before + [t];
  }

  lemma CarryOne(items: seq<Item>, before: seq<Typed>, t: Typed)
    requires items != [] && Carry(items[..|items| - 1], before)
    requires Sendable(t) && FrameOf(t) == items[|items| - 1].bytes
    ensures Carry(items, before + [t])
  {
    var ts, n := before + [t], |items| - 1;
    forall i | 0 <= i < |ts| ensures Sendable(ts[i]) && FrameOf(ts[i]) == items[i].bytes {
      if i < n { assert ts[i] == before[i] && items[..n][i] == items[i]; }
    }
  }

  /**
   * However the senders, the drain and the socket interleave: if only encoded messages were sent and
   * no write has failed, then between writes the bytes on the socket decode, with nothing left over,
   * to exactly the messages whose frames have been written, in order.
   */
  lemma PeerDecodesWhatWasWritten(states: seq<State>, steps: seq<Step>, i: nat) returns (ts: seq<Typed>)
    requires IsRun(states, steps) && i < |states|
    requires !states[i].failed && Partial(states[i]) == []
    requires forall item :: item in states[i].sent ==> IsFrame(item.bytes)
    ensures Carry(states[i].written, ts)
    ensures ReadStream(states[i].stream) == Some(ts)
  {
    var s := states[i];
    RunKeepsInv(states, steps, i);
    RunOnlySent(states, steps, i);
    forall j | 0 <= j < |s.written| ensures IsFrame(s.written[j].bytes) {
      assert s.written[j] in s.sent;
    }
    ts := MessagesOf(s.written);
    FlattenIsStream(s.written, ts);
    StreamRoundTrip(ts);
    assert Flatten(s.written) + [] == Flatten(s.written);
  }
}
