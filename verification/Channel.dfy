/** `FrameChannel` as the object it is: each method is one critical section of the source. */
module Channel {
  import opened Base
  import opened Outbox

  class FrameChannel<F> {
    var outbox: seq<Outbound<F>>
    var coalescable: map<PairKey, nat>
    var nextId: nat
    var writing: bool
    var closed: bool

    ghost function View(): Box<F>
      reads this
    {
      Box(outbox, coalescable, nextId)
    }

    ghost predicate Ok()
      reads this
    {
      Valid(View())
    }

    constructor ()
      ensures Ok() && View() == Empty(0) && !writing && !closed
    {
      outbox, coalescable, nextId, writing, closed := [], map[], 0, false, false;
    }

    /** `replaced`: the bytes went into a queued node, so nothing is left to queue. */
    method MakeRoomLocked(frame: F, key: Option<PairKey>) returns (replaced: bool)
      requires Ok()
      modifies this`outbox, this`coalescable
      ensures (View(), replaced) == MakeRoom(old(View()), frame, key)
    {
      if |outbox| < MAX_OUTBOX_FRAMES { return false; }
      if key.Some? && key.value in coalescable {
        outbox := Overwrite(outbox, coalescable[key.value], frame);
        return true;
      }
      var i := 0;
      while i < |outbox|
        invariant 0 <= i <= |outbox|
        invariant forall j :: 0 <= j < i ==> outbox[j].key.None?
        invariant View() == old(View())
      {
        if outbox[i].key.Some? {
          coalescable := coalescable - {outbox[i].key.value};
          outbox := RemoveAt(outbox, i);
          return false;
        }
        i := i + 1;
      }
      return false;
    }

    /** The locked part of `send`; `spawn` tells the caller to start a drain. */
    method SendLocked(frame: F, key: Option<PairKey>) returns (outcome: SendOutcome, spawn: bool)
      requires Ok()
      modifies this`outbox, this`coalescable, this`nextId, this`writing
      ensures Ok()
      ensures (View(), outcome) == Outbox.Send(old(View()), frame, key)
      ensures spawn == (outcome == Queued && !old(writing))
      ensures writing == (old(writing) || outcome == Queued)
    {
      SendOutcomes(View(), frame, key);
      var replaced := MakeRoomLocked(frame, key);
      if replaced { return Replaced, false; }
      if |outbox| >= MAX_OUTBOX_FRAMES { return Overfull, false; }
      outbox := outbox + [Outbound(nextId, frame, key)];
      if key.Some? { coalescable := coalescable[key.value := nextId]; }
      nextId := nextId + 1;
      if writing { return Queued, false; }
      writing := true;
      return Queued, true;
    }

    /** A whole `send` with nobody interfering. A full queue of control frames closes the channel. */
    method Send(frame: F, key: Option<PairKey>) returns (spawn: bool)
      requires Ok()
      modifies this
      ensures Ok()
      ensures old(closed) ==> View() == old(View()) && closed && writing == old(writing) && !spawn
      ensures !old(closed) ==>
                var (box, outcome) := Outbox.Send(old(View()), frame, key);
                && closed == outcome.Overfull?
                && View() == (if closed then Empty(old(nextId)) else box)
                && writing == (old(writing) || outcome.Queued?)
                && spawn == (writing && !old(writing))
    {
      spawn := false;
      if closed { return; }
      SendOutcomes(View(), frame, key);
      var outcome;
      outcome, spawn := SendLocked(frame, key);
      if outcome == Overfull { Close(); }
    }

    /** One locked turn of the drain loop: the next frame to write, or the drain ends. */
    method DrainLocked() returns (next: Option<F>)
      requires Ok()
      modifies this`outbox, this`coalescable, this`writing
      ensures Ok()
      ensures next.None? <==> old(outbox) == [] || closed
      ensures next.None? ==> View() == old(View()) && !writing
      ensures next.Some? ==> next.value == old(outbox)[0].bytes && View() == Unlink(old(View()), 0)
                             && writing == old(writing)
    {
      if outbox == [] || closed {
        writing := false;
        return None;
      }
      UnlinkValid(View(), 0);
      next := Some(outbox[0].bytes);
      if outbox[0].key.Some? { coalescable := coalescable - {outbox[0].key.value}; }
      outbox := outbox[1..];
      assert outbox == RemoveAt(old(outbox), 0);
    }

    /** A failed write drops the backlog and ends the drain. */
    method WriteFailed()
      modifies this`outbox, this`coalescable, this`writing
      ensures Ok() && View() == Empty(nextId) && !writing
    {
      outbox, coalescable, writing := [], map[], false;
    }

    method Close()
      requires Ok()
      modifies this`outbox, this`coalescable, this`closed
      ensures Ok() && closed
      ensures View() == if old(closed) then old(View()) else Empty(nextId)
    {
      if closed { return; }
      closed := true;
      outbox, coalescable := [], map[];
    }
  }
}
