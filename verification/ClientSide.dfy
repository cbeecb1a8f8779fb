/** `ClientSession` and the bookkeeping of `Client` as mutable objects. */
module ClientSide {
  import opened Base
  import opened Outbox
  import opened Channel
  import Sub = Subscriptions
  import Mem = Membership

  datatype Pending<F> = Pending(bytes: F, key: Option<PairKey>)

  /** The outbox lists the frames held, each with its bytes and its coalescing key, and its index knows every key. */
  ghost predicate Lists<F>(b: Box<F>, ps: seq<Pending<F>>) {
    && |b.outbox| == |ps| && Complete(b)
    && forall i :: 0 <= i < |ps| ==> b.outbox[i].bytes == ps[i].bytes && b.outbox[i].key == ps[i].key
  }

  lemma SendLists<F>(b: Box<F>, ps: seq<Pending<F>>, p: Pending<F>)
    requires Lists(b, ps) && |ps| < MAX_OUTBOX_FRAMES
    ensures var (r, outcome) := Outbox.Send(b, p.bytes, p.key); outcome.Queued? && Lists(r, ps + [p])
  {
    AppendComplete(b, p.bytes, p.key);
  }

  class ClientSession<F> {
    var channel: FrameChannel?<F>
    var pending: seq<Pending<F>>
    var closing: bool

    ghost predicate Ok()
      reads this, channel
    {
      && |pending| <= MAX_PENDING_FRAMES
      && (channel != null ==> pending == [] && channel.Ok())
    }

    constructor ()
      ensures Ok() && channel == null && pending == [] && !closing
    {
      channel, pending, closing := null, [], false;
    }

    /** Queued on the channel when there is one, held otherwise, dropped once closing. */
    method Send(frame: F, key: Option<PairKey>)
      requires Ok()
      modifies this`pending, channel
      ensures Ok() && channel == old(channel) && closing == old(closing)
      ensures pending == if closing || channel != null then old(pending)
          else HoldBack(old(pending), Pending(frame, key))
      ensures channel != null && (closing || old(channel.closed)) ==>
                channel.View() == old(channel.View()) && channel.closed == old(channel.closed)
      ensures channel != null && !closing && !old(channel.closed) ==>
                var (box, outcome) := Outbox.Send(old(channel.View()), frame, key);
                && channel.closed == outcome.Overfull?
                && channel.View() == if outcome.Overfull? then Empty(old(channel.nextId)) else box
    {
      if closing { return; }
      if channel != null {
        var _ := channel.Send(frame, key);
        return;
      }
      if |pending| >= MAX_PENDING_FRAMES { pending := pending[1..]; }
      pending := pending + [Pending(frame, key)];
    }

    /** The locked part of `connect`: a session already closing refuses the channel and shuts it. */
    method Adopt(ch: FrameChannel<F>) returns (adopted: bool, waiting: seq<Pending<F>>)
      requires Ok() && ch.Ok() && channel == null
      modifies this`channel, this`pending, ch
      ensures Ok() && adopted == !closing
      ensures adopted ==>
          channel == ch && waiting == old(pending) && ch.View() == old(ch.View()) && ch.closed == old(ch.closed)
      ensures !adopted ==> channel == null && pending == old(pending) && ch.closed
    {
      waiting := [];
      if closing {
        ch.Close();
        return false, waiting;
      }
      waiting := pending;
      channel, pending := ch, [];
      return true, waiting;
    }

    /** `connect` with nobody interfering: everything held goes out first, in order, under the keys it was sent with. */
    method Connect() returns (adopted: bool)
      requires Ok() && channel == null
      modifies this`channel, this`pending
      ensures Ok() && adopted == !closing
      ensures adopted ==>
                channel != null && fresh(channel) && !channel.closed && Lists(channel.View(), old(pending))
      ensures !adopted ==> channel == null && pending == old(pending)
    {
      var ch := new FrameChannel<F>();
      var waiting;
      adopted, waiting := Adopt(ch);
      if !adopted { return; }
      var i := 0;
      while i < |waiting|
        invariant 0 <= i <= |waiting| && channel == ch && pending == [] && ch.Ok() && !ch.closed
        invariant waiting == old(pending) && Lists(ch.View(), waiting[..i])
      {
        assert waiting[..i + 1] == waiting[..i] + [waiting[i]];
        SendLists(ch.View(), waiting[..i], waiting[i]);
        var _ := ch.Send(waiting[i].bytes, waiting[i].key);
        i := i + 1;
      }
      assert waiting[..i] == waiting;
    }

    method Close()
      requires Ok()
      modifies this, channel
      ensures Ok() && closing && channel == null && pending == []
      ensures old(channel) != null ==> old(channel).closed
    {
      closing := true;
      var taken := channel;
      channel, pending := null, [];
      if taken != null { taken.Close(); }
    }
  }

  /** A `ClientSession` by number, and the component it is for. */
  datatype Session = Session(number: nat, info: Mem.Info)

  /** Every listed component has a session from `next` on, the others what they had `before`. */
  ghost predicate Renewed(before: map<int, Session>, infos: seq<Mem.Info>, next: nat, after: map<int, Session>) {
    forall o ::
      if Mem.LastListed(infos, o).Some? then o in after && after[o].number >= next
      else (o in after <==> o in before) && (o in after ==> after[o] == before[o])
  }

  lemma RenewOne(before: map<int, Session>, infos: seq<Mem.Info>, i: nat, next: nat, after: map<int, Session>,
                 s: Session)
    requires i < |infos| && Renewed(before, infos[..i], next, after) && s.number >= next
    ensures Renewed(before, infos[..i + 1], next, after[infos[i].owner := s])
  {
    assert infos[..i + 1][..i] == infos[..i];
  }

  /** The records of `Client`, its components and a session for each. */
  class Registry {
    var subscriptions: map<nat, Sub.Record>
    var lastHandle: nat
    var components: map<int, Mem.Info>
    var sessions: map<int, Session>
    var nextSession: nat
    var closed: set<nat>
    var ownerId: int
    var ready: bool

    /** Components and sessions are the same table, and no session in it has been closed. */
    ghost predicate SessionsOk()
      reads this
    {
      && sessions.Keys == components.Keys
      && (forall o :: o in sessions ==> sessions[o].info == components[o] && sessions[o].number < nextSession)
      && (forall o :: o in sessions ==> sessions[o].number !in closed)
      && (forall o, p :: o in sessions && p in sessions && o != p ==> sessions[o].number != sessions[p].number)
      && (forall n :: n in closed ==> n < nextSession)
    }

    ghost predicate Ok()
      reads this
    {
      && SessionsOk()
      && (forall h :: h in subscriptions ==> 1 <= h <= lastHandle)
      && forall h, g :: h in subscriptions && g in subscriptions && subscriptions[h] == subscriptions[g] ==> h == g
    }

    constructor ()
      ensures Ok() && subscriptions == map[] && lastHandle == 0 && components == map[] && !ready
    {
      subscriptions, lastHandle, components := map[], 0, map[];
      sessions, nextSession, closed, ownerId, ready := map[], 0, {}, ANY_OWNER, false;
    }

    /** Zero, and no change, if this very record is already held. */
    method RegisterSubscription(owner: int, key: string) returns (handle: nat)
      requires Ok()
      modifies this`subscriptions, this`lastHandle
      ensures Ok()
      ensures handle == 0 <==> Sub.Duplicate(old(subscriptions), Sub.Record(owner, key))
      ensures handle == 0 ==> subscriptions == old(subscriptions) && lastHandle == old(lastHandle)
      ensures handle != 0 ==>
                && handle == lastHandle == old(lastHandle) + 1 && handle !in old(subscriptions)
                && subscriptions == old(subscriptions)[handle := Sub.Record(owner, key)]
    {
      var r := Sub.Record(owner, key);
      if exists h :: h in subscriptions && subscriptions[h] == r { return 0; }
      lastHandle := lastHandle + 1;
      handle := lastHandle;
      subscriptions := subscriptions[handle := r];
    }

    /** The record to announce as cancelled, if there was one. */
    method CancelHandle(handle: nat) returns (record: Option<Sub.Record>)
      requires Ok()
      modifies this`subscriptions
      ensures Ok() && subscriptions == old(subscriptions) - {handle}
      ensures record == if handle in old(subscriptions) then Some(old(subscriptions)[handle]) else None
    {
      if handle !in subscriptions { return None; }
      record := Some(subscriptions[handle]);
      subscriptions := subscriptions - {handle};
    }

    /** Exactly the record of this owner and key goes; there is at most one. */
    method CancelKey(owner: int, key: string) returns (found: bool)
      requires Ok()
      modifies this`subscriptions
      ensures Ok() && found == Sub.Duplicate(old(subscriptions), Sub.Record(owner, key))
      ensures !Sub.Duplicate(subscriptions, Sub.Record(owner, key))
      ensures forall h :: h in old(subscriptions) && old(subscriptions)[h] != Sub.Record(owner, key) ==>
                h in subscriptions && subscriptions[h] == old(subscriptions)[h]
      ensures subscriptions.Keys <= old(subscriptions).Keys
    {
      var h := 1;
      while h <= lastHandle
        invariant 1 <= h <= lastHandle + 1
        invariant subscriptions == old(subscriptions)
        invariant forall g :: 1 <= g < h && g in subscriptions ==> subscriptions[g] != Sub.Record(owner, key)
      {
        if h in subscriptions && subscriptions[h] == Sub.Record(owner, key) {
          subscriptions := subscriptions - {h};
          return true;
        }
        h := h + 1;
      }
      return false;
    }

    /** The registrations to replay to a component that just connected. */
    method SubscriptionsFor(owner: int) returns (frames: seq<Sub.Frame>)
      ensures frames == Sub.Replay(subscriptions, owner, lastHandle)
    {
      frames := [];
      var h := 0;
      while h < lastHandle
        invariant 0 <= h <= lastHandle && frames == Sub.Replay(subscriptions, owner, h)
      {
        h := h + 1;
        if h in subscriptions && Sub.Applies(subscriptions[h], owner) {
          frames := frames + [Sub.Sub(subscriptions[h].key, true)];
        }
      }
    }

    /** A new session for the component, in place of any it had, which is not closed for that. */
    method AddSession(info: Mem.Info)
      requires Ok()
      modifies this`components, this`sessions, this`nextSession
      ensures Ok() && nextSession == old(nextSession) + 1
      ensures components == old(components)[info.owner := info]
      ensures sessions == old(sessions)[info.owner := Session(old(nextSession), info)]
    {
      sessions := sessions[info.owner := Session(nextSession, info)];
      components := components[info.owner := info];
      nextSession := nextSession + 1;
    }

    /** The component's session is closed, if it has one. */
    method RemoveSession(owner: int)
      requires Ok()
      modifies this`components, this`sessions, this`closed
      ensures Ok() && components == old(components) - {owner} && sessions == old(sessions) - {owner}
      ensures closed == old(closed) + if owner in old(sessions) then {old(sessions)[owner].number} else {}
    {
      if owner in sessions { closed := closed + {sessions[owner].number}; }
      sessions := sessions - {owner};
      components := components - {owner};
    }

    /** Every listed component gets a session; only then may calls about our own pairs go ahead. */
    method OnWelcome(owner: int, infos: seq<Mem.Info>, masterIp: string)
      requires Ok()
      modifies this`components, this`sessions, this`nextSession, this`ownerId, this`ready
      ensures Ok() && ownerId == owner && ready && nextSession >= old(nextSession)
      ensures Mem.Learned(old(components), infos, masterIp, components)
      ensures Renewed(old(sessions), infos, old(nextSession), sessions)
    {
      ownerId := owner;
      var i := 0;
      while i < |infos|
        invariant 0 <= i <= |infos| && Ok() && ownerId == owner && nextSession >= old(nextSession)
        invariant components == Mem.Learn(old(components), infos[..i], masterIp)
        invariant Renewed(old(sessions), infos[..i], old(nextSession), sessions)
      {
        assert infos[..i + 1][..i] == infos[..i];
        var info := Mem.Reachable(infos[i], masterIp);
        RenewOne(old(sessions), infos, i, old(nextSession), sessions, Session(nextSession, info));
        AddSession(info);
        i := i + 1;
      }
      assert infos[..i] == infos;
      Mem.LearnShows(old(components), infos, masterIp);
      ready := true;
    }

    method OnComponentUpdate(f: Mem.Frame, masterIp: string)
      requires Ok() && !f.Welcome?
      modifies this`components, this`sessions, this`nextSession, this`closed
      ensures Ok()
      ensures f.Added? ==>
          components == old(components)[f.info.owner := Mem.Info(f.info.owner,
              if f.info.ip == "127.0.0.1" then masterIp else f.info.ip, f.info.port)]
      ensures f.Gone? ==> components == old(components) - {f.owner}
      ensures forall o :: o != (if f.Added? then f.info.owner else f.owner) ==>
                (o in sessions <==> o in old(sessions)) && (o in sessions ==> sessions[o] == old(sessions)[o])
      ensures f.Added? ==>
          closed == old(closed) && f.info.owner in sessions && sessions[f.info.owner].number == old(nextSession)
      ensures f.Gone? ==> f.owner !in sessions
                          && closed == old(closed) + if f.owner in old(sessions) then {old(sessions)[f.owner].number}
                               else {}
    {
      match f
      case Added(info) => AddSession(Mem.Reachable(info, masterIp));
      case Gone(o) => RemoveSession(o);
    }
  }
}
