/**
 * The master: ids handed out, peers announced, views kept current. Each master step is atomic:
 * its process runs one thread and the steps of a session have no suspension point between them.
 */
module Membership {
  import opened Base

  datatype Info = Info(owner: int, ip: string, port: string)

  datatype Frame =
    | Welcome(owner: int, components: seq<Info>)
    | Added(info: Info)
    | Gone(owner: int)

  /** One connection to the master, by connection number; `owner` is the id it was given. */
  datatype Peer = Peer(owner: int, ip: string, port: string)

  /** `sessions_`, what each session knows about its peer, and the frames sent but not yet read. */
  datatype Hub = Hub(sessions: map<int, nat>, peers: map<nat, Peer>, queues: map<nat, seq<Frame>>)

  // ---------------------------------------------------------------- the master's operations

  /** `makeOwnerId` past its random start: the first free id. */
  function NextFree(taken: set<int>, candidate: int): (id: int)
    ensures id !in taken && candidate <= id
    ensures forall x :: candidate <= x < id ==> x in taken
    decreases |set x | x in taken && x >= candidate|
  {
    if candidate in taken then
      assert (set x | x in taken && x >= candidate) == (set x | x in taken && x >= candidate + 1) + {candidate};
      NextFree(taken, candidate + 1)
    else candidate
  }

  function ChooseOwner(h: Hub, force: bool, wanted: int, start: int): int {
    if force && wanted !in h.sessions then wanted else NextFree(h.sessions.Keys, start)
  }

  /** Which id a component is given: the one it forces if that is free, or else the first free one from `start` on. */
  predicate Granted(taken: set<int>, force: bool, wanted: int, start: int, owner: int) {
    && owner !in taken
    && if force && wanted !in taken then owner == wanted
       else start <= owner && forall x :: start <= x < owner ==> x in taken
  }

  function Targets(h: Hub, about: int): set<nat> {
    set o | o in h.sessions && o != about :: h.sessions[o]
  }

  /** To every registered component except the one the update is about. */
  function SendToAll(h: Hub, f: Frame, about: int): Hub {
    var targets := Targets(h, about);
    h.(queues := map c | c in h.queues :: if c in targets then h.queues[c] + [f] else h.queues[c])
  }

  /** `listing` names everyone registered so far. */
  ghost predicate IsListing(h: Hub, listing: seq<Info>) {
    && (forall o :: o in h.sessions ==> h.sessions[o] in h.peers)
    && (forall i :: 0 <= i < |listing| ==> listing[i].owner in h.sessions && listing[i] == InfoOf(h, listing[i].owner))
    && (forall o :: o in h.sessions ==> InfoOf(h, o) in listing)
  }

  function InfoOf(h: Hub, o: int): Info
    requires o in h.sessions && h.sessions[o] in h.peers
  {
    var p := h.peers[h.sessions[o]];
    Info(o, p.ip, p.port)
  }

  /** `registerComponent`, the welcome, then the announcement to the others. */
  function JoinHub(h: Hub, c: nat, owner: int, ip: string, port: string, listing: seq<Info>): Hub {
    var welcome := Welcome(owner, listing);
    var h1 := Hub(h.sessions[owner := c], h.peers[c := Peer(owner, ip, port)], h.queues[c := [welcome]]);
    SendToAll(h1, Added(Info(owner, ip, port)), owner)
  }

  /**
   * The end of `run`. A session that was given the reserved id stays registered: it goes on being listed, with
   * the empty address of a socket that has no peer any more, and whatever is sent to it is dropped.
   */
  function LeaveHub(h: Hub, c: nat): Hub
    requires c in h.peers
  {
    var owner := h.peers[c].owner;
    if owner == ANY_OWNER then h.(peers := h.peers[c := h.peers[c].(ip := "")], queues := h.queues - {c})
    else
      var h1 := SendToAll(h.(sessions := h.sessions - {owner}), Gone(owner), owner);
      h1.(peers := h1.peers - {c}, queues := h1.queues - {c})
  }

  // ---------------------------------------------------------------- a component's side

  /** `welcomed` once the reply to its registration has been read; `view` is `components_`. */
  datatype Member = Member(masterIp: string, welcomed: bool, view: map<int, Info>)

  /** A loopback address stands for the master's host, so it is replaced by the one the master was reached at. */
  function Reachable(info: Info, masterIp: string): Info {
    if info.ip == "127.0.0.1" then info.(ip := masterIp) else info
  }

  function Learn(view: map<int, Info>, infos: seq<Info>, masterIp: string): map<int, Info> {
    if infos == [] then view
    else
      var last := infos[|infos| - 1];
      Learn(view, infos[..|infos| - 1], masterIp)[last.owner := Reachable(last, masterIp)]
  }

  /** The last entry for component `o`. */
  function LastListed(infos: seq<Info>, o: int): (r: Option<Info>)
    ensures r.None? <==> forall i :: 0 <= i < |infos| ==> infos[i].owner != o
    ensures r.Some? ==> r.value in infos && r.value.owner == o
  {
    if infos == [] then None
    else if infos[|infos| - 1].owner == o then Some(infos[|infos| - 1])
    else LastListed(infos[..|infos| - 1], o)
  }

  /** Each listed component is known as it was listed last, under an address to reach it at; the others stay. */
  ghost predicate Learned(view: map<int, Info>, infos: seq<Info>, masterIp: string, r: map<int, Info>) {
    forall o ::
      match LastListed(infos, o)
      case None => (o in r <==> o in view) && (o in r ==> r[o] == view[o])
      case Some(info) => o in r && r[o] == Info(o, if info.ip == "127.0.0.1" then masterIp else info.ip, info.port)
  }

  lemma {:induction false} LearnShows(view: map<int, Info>, infos: seq<Info>, masterIp: string)
    ensures Learned(view, infos, masterIp, Learn(view, infos, masterIp))
  {
    if infos != [] { LearnShows(view, infos[..|infos| - 1], masterIp); }
  }

  /** `onWelcome` and `onComponentUpdate`. */
  function ApplyFrame(view: map<int, Info>, f: Frame, masterIp: string): map<int, Info> {
    match f
    case Welcome(_, infos) => Learn(view, infos, masterIp)
    case Added(info) => view[info.owner := Reachable(info, masterIp)]
    case Gone(o) => view - {o}
  }

  function ApplyAll(view: map<int, Info>, fs: seq<Frame>, masterIp: string): map<int, Info> {
    if fs == [] then view else ApplyFrame(ApplyAll(view, fs[..|fs| - 1], masterIp), fs[|fs| - 1], masterIp)
  }

  // ---------------------------------------------------------------- runs

  datatype State = State(hub: Hub, members: map<nat, Member>)

  const INIT := State(Hub(map[], map[], map[]), map[])

  datatype Step =
    | Join(c: nat, ip: string, port: string, masterIp: string, force: bool, wanted: int, start: int, listing: seq<Info>)
    | Leave(c: nat)
    | Read(c: nat)

  ghost predicate Enabled(s: State, step: Step) {
    match step
    case Join(c, _, _, _, _, _, start, listing) =>
      c !in s.hub.peers && c !in s.hub.sessions.Values && 1000 <= start <= 10000 && IsListing(s.hub, listing)
    case Leave(c) => c in s.hub.peers && c in s.hub.queues
    case Read(c) => c in s.hub.peers && c in s.hub.queues && c in s.members && s.hub.queues[c] != []
  }

  ghost function Next(s: State, step: Step): State
    requires Enabled(s, step)
  {
    match step
    case Join(c, ip, port, masterIp, force, wanted, start, listing) =>
      State(JoinHub(s.hub, c, ChooseOwner(s.hub, force, wanted, start), ip, port, listing),
            s.members[c := Member(masterIp, false, map[])])
    case Leave(c) => State(LeaveHub(s.hub, c), s.members - {c})
    case Read(c) =>
      var q, m := s.hub.queues[c], s.members[c];
      State(s.hub.(queues := s.hub.queues[c := q[1..]]),
            s.members[c := m.(welcomed := true, view := ApplyFrame(m.view, q[0], m.masterIp))])
  }

  ghost predicate IsRun(states: seq<State>, steps: seq<Step>) {
    && |states| == |steps| + 1 && states[0] == INIT
    && forall i :: 0 <= i < |steps| ==> Enabled(states[i], steps[i]) && states[i + 1] == Next(states[i], steps[i])
  }

  /** What `registerWithMaster` sends: an id is forced only if it is not the reserved one. */
  ghost predicate Polite(step: Step) {
    step.Join? && step.force ==> step.wanted != ANY_OWNER
  }

  /** Everyone else who is registered, with addresses as this component can reach them. */
  ghost function Others(h: Hub, me: int, masterIp: string): map<int, Info>
    requires Linked(h)
  {
    map o | o in h.sessions && o != me :: Reachable(InfoOf(h, o), masterIp)
  }

  // ---------------------------------------------------------------- invariant

  /** Connections and ids correspond one to one. */
  ghost predicate Linked(h: Hub) {
    && (forall o :: o in h.sessions ==> h.sessions[o] in h.peers && h.peers[h.sessions[o]].owner == o)
    && (forall c :: c in h.peers ==> h.peers[c].owner in h.sessions && h.sessions[h.peers[c].owner] == c)
    && h.peers.Keys == h.queues.Keys
  }

  /**
   * What holds even if the reserved id was forced: each registered id leads to the session that has it, each
   * connection, which is what has a queue, is registered under its id, and only the reserved id outlives one.
   */
  ghost predicate Registered(h: Hub) {
    && (forall o :: o in h.sessions ==> h.sessions[o] in h.peers && h.peers[h.sessions[o]].owner == o)
    && (forall c :: c in h.queues ==>
         c in h.peers && h.peers[c].owner in h.sessions && h.sessions[h.peers[c].owner] == c)
    && (forall o :: o in h.sessions && o != ANY_OWNER ==> h.sessions[o] in h.queues)
    && (forall c :: c in h.peers ==> h.peers[c].owner in h.sessions && h.sessions[h.peers[c].owner] == c)
  }

  /** The first frame is the welcome and no other one is. */
  ghost predicate WelcomeFirst(m: Member, q: seq<Frame>, owner: int) {
    && (!m.welcomed ==> q != [] && q[0].Welcome? && q[0].owner == owner && m.view == map[])
    && (forall i :: 0 <= i < |q| && (m.welcomed || i > 0) ==> !q[i].Welcome?)
  }

  ghost predicate MemberOk(s: State, c: nat)
    requires Linked(s.hub) && c in s.hub.peers && c in s.members
  {
    var m, q, owner := s.members[c], s.hub.queues[c], s.hub.peers[c].owner;
    WelcomeFirst(m, q, owner) && ApplyAll(m.view, q, m.masterIp) == Others(s.hub, owner, m.masterIp)
  }

  ghost predicate Inv(s: State) {
    && Linked(s.hub) && s.members.Keys == s.hub.peers.Keys && ANY_OWNER !in s.hub.sessions
    && forall c :: c in s.hub.peers ==> MemberOk(s, c)
  }

  // ---------------------------------------------------------------- facts about views

  lemma ApplySnoc(view: map<int, Info>, fs: seq<Frame>, f: Frame, masterIp: string)
    ensures ApplyAll(view, fs + [f], masterIp) == ApplyFrame(ApplyAll(view, fs, masterIp), f, masterIp)
  {
    assert (fs + [f])[..|fs|] == fs;
  }

  lemma {:induction false} ApplyCons(view: map<int, Info>, fs: seq<Frame>, masterIp: string)
    requires fs != []
    ensures ApplyAll(view, fs, masterIp) == ApplyAll(ApplyFrame(view, fs[0], masterIp), fs[1..], masterIp)
  {
    if |fs| == 1 {
      assert fs[..0] == [] && fs[1..] == [];
    } else {
      var n := |fs| - 1;
      ApplyCons(view, fs[..n], masterIp);
      assert fs[..n][1..] == fs[1..][..n - 1];
    }
  }

  lemma {:induction false} LearnListing(h: Hub, infos: seq<Info>, masterIp: string)
    requires Linked(h)
    requires forall i :: 0 <= i < |infos| ==> infos[i].owner in h.sessions && infos[i] == InfoOf(h, infos[i].owner)
    ensures var v := Learn(map[], infos, masterIp);
            && (forall o :: o in v <==> o in h.sessions && InfoOf(h, o) in infos)
            && (forall o :: o in v ==> v[o] == Reachable(InfoOf(h, o), masterIp))
  {
    if infos != [] {
      var n := |infos| - 1;
      LearnListing(h, infos[..n], masterIp);
      var v := Learn(map[], infos, masterIp);
      forall o ensures o in v <==> o in h.sessions && InfoOf(h, o) in infos {
        if o in h.sessions && InfoOf(h, o) in infos && o != infos[n].owner {
          var i :| 0 <= i < |infos| && infos[i] == InfoOf(h, o);
          assert infos[..n][i] == InfoOf(h, o);
        }
      }
    }
  }

  // ---------------------------------------------------------------- steps

  lemma JoinLinked(h: Hub, c: nat, owner: int, ip: string, port: string, listing: seq<Info>)
    requires Linked(h) && c !in h.peers && owner !in h.sessions
    ensures var r := JoinHub(h, c, owner, ip, port, listing);
            && Linked(r) && r.sessions == h.sessions[owner := c] && r.peers == h.peers[c := Peer(owner, ip, port)]
            && r.queues[c] == [Welcome(owner, listing)]
            && forall d :: d in h.peers ==> d in r.queues && r.queues[d] == h.queues[d] + [Added(Info(owner, ip, port))]
  {
    var welcome := Welcome(owner, listing);
    var h1 := Hub(h.sessions[owner := c], h.peers[c := Peer(owner, ip, port)], h.queues[c := [welcome]]);
    forall d | d in h.peers ensures d in Targets(h1, owner) {
      assert h.peers[d].owner in h1.sessions && h1.sessions[h.peers[d].owner] == d;
    }
    assert c !in Targets(h1, owner);
  }

  /** `r` is `h` with connection `c` registered as `owner`. */
  ghost predicate Grown(h: Hub, r: Hub, c: nat, owner: int, ip: string, port: string) {
    && Linked(h) && Linked(r) && c !in h.peers && owner !in h.sessions
    && r.sessions == h.sessions[owner := c] && r.peers == h.peers[c := Peer(owner, ip, port)]
  }

  /** The welcome alone gives the newcomer everyone else. */
  lemma NewcomerSees(h: Hub, r: Hub, c: nat, owner: int, ip: string, port: string, listing: seq<Info>, masterIp: string)
    requires Grown(h, r, c, owner, ip, port) && IsListing(h, listing)
    ensures ApplyAll(map[], [Welcome(owner, listing)], masterIp) == Others(r, owner, masterIp)
  {
    var q := [Welcome(owner, listing)];
    assert q[..0] == [];
    assert ApplyAll(map[], q[..0], masterIp) == map[];
    LearnListing(h, listing, masterIp);
    var v := Learn(map[], listing, masterIp);
    assert ApplyAll(map[], q, masterIp) == ApplyFrame(map[], q[0], masterIp) == v;
    forall o ensures o in v <==> o in r.sessions && o != owner {
      if o in h.sessions { assert InfoOf(h, o) in listing; }
    }
    forall o | o in h.sessions ensures o in r.sessions && InfoOf(r, o) == InfoOf(h, o) {}
    assert v == Others(r, owner, masterIp);
  }

  /** The announcement gives everyone else the newcomer. */
  lemma OthersSeeNewcomer(h: Hub, r: Hub, c: nat, owner: int, ip: string, port: string,
                          me: int, view: map<int, Info>, q: seq<Frame>, masterIp: string)
    requires Grown(h, r, c, owner, ip, port) && me in h.sessions
    requires ApplyAll(view, q, masterIp) == Others(h, me, masterIp)
    ensures ApplyAll(view, q + [Added(Info(owner, ip, port))], masterIp) == Others(r, me, masterIp)
  {
    ApplySnoc(view, q, Added(Info(owner, ip, port)), masterIp);
    GrownOthers(h, r, c, owner, ip, port, me, masterIp);
  }

  lemma GrownOthers(h: Hub, r: Hub, c: nat, owner: int, ip: string, port: string, me: int, masterIp: string)
    requires Grown(h, r, c, owner, ip, port) && me in h.sessions
    ensures Others(r, me, masterIp) == Others(h, me, masterIp)[owner := Reachable(Info(owner, ip, port), masterIp)]
  {
    forall o | o in h.sessions ensures o in r.sessions && InfoOf(r, o) == InfoOf(h, o) {}
  }

  lemma WelcomeStaysFirst(m: Member, q: seq<Frame>, owner: int, f: Frame)
    requires WelcomeFirst(m, q, owner) && !f.Welcome?
    ensures WelcomeFirst(m, q + [f], owner)
  {
  }

  lemma JoinStep(s: State, step: Step)
    requires Inv(s) && step.Join? && Enabled(s, step) && Polite(step)
    ensures Inv(Next(s, step))
  {
    var h := s.hub;
    var owner := ChooseOwner(h, step.force, step.wanted, step.start);
    var r := JoinHub(h, step.c, owner, step.ip, step.port, step.listing);
    var s' := State(r, s.members[step.c := Member(step.masterIp, false, map[])]);
    assert Next(s, step) == s';
    JoinLinked(h, step.c, owner, step.ip, step.port, step.listing);
    NewcomerSees(h, r, step.c, owner, step.ip, step.port, step.listing, step.masterIp);
    forall d | d in h.peers ensures MemberOk(s', d) { JoinSeenBy(s, r, step.c, owner, step.ip, step.port, d); }
    assert MemberOk(s', step.c);
  }

  lemma JoinSeenBy(s: State, r: Hub, c: nat, owner: int, ip: string, port: string, d: nat)
    requires Inv(s) && Grown(s.hub, r, c, owner, ip, port) && d in s.hub.peers
    requires r.queues[d] == s.hub.queues[d] + [Added(Info(owner, ip, port))]
    ensures WelcomeFirst(s.members[d], r.queues[d], r.peers[d].owner)
    ensures ApplyAll(s.members[d].view, r.queues[d], s.members[d].masterIp) ==
        Others(r, r.peers[d].owner, s.members[d].masterIp)
  {
    assert MemberOk(s, d);
    var m, q, me := s.members[d], s.hub.queues[d], s.hub.peers[d].owner;
    WelcomeStaysFirst(m, q, me, Added(Info(owner, ip, port)));
    OthersSeeNewcomer(s.hub, r, c, owner, ip, port, me, m.view, q, m.masterIp);
  }

  lemma LeaveLinked(h: Hub, c: nat)
    requires Linked(h) && c in h.peers && h.peers[c].owner != ANY_OWNER
    ensures var r, owner := LeaveHub(h, c), h.peers[c].owner;
            && Linked(r) && r.sessions == h.sessions - {owner} && r.peers == h.peers - {c}
            && forall d :: d in r.peers ==> r.queues[d] == h.queues[d] + [Gone(owner)]
  {
    var owner := h.peers[c].owner;
    var h1 := h.(sessions := h.sessions - {owner});
    forall d | d in h.peers && d != c ensures d in Targets(h1, owner) {
      assert h.peers[d].owner in h1.sessions && h1.sessions[h.peers[d].owner] == d;
    }
  }

  /** The farewell takes the leaver out of everyone's view. */
  lemma OthersForgetLeaver(h: Hub, r: Hub, c: nat, owner: int, me: int, view: map<int, Info>, q: seq<Frame>,
                           masterIp: string)
    requires Linked(h) && Linked(r) && r.sessions == h.sessions - {owner} && r.peers == h.peers - {c}
    requires ApplyAll(view, q, masterIp) == Others(h, me, masterIp)
    ensures ApplyAll(view, q + [Gone(owner)], masterIp) == Others(r, me, masterIp)
  {
    ApplySnoc(view, q, Gone(owner), masterIp);
    forall o | o in r.sessions ensures InfoOf(r, o) == InfoOf(h, o) {}
  }

  lemma LeaveSeenBy(s: State, r: Hub, c: nat, owner: int, d: nat)
    requires Inv(s) && Linked(r) && r.sessions == s.hub.sessions - {owner} && r.peers == s.hub.peers - {c}
        && d in r.peers
    requires r.queues[d] == s.hub.queues[d] + [Gone(owner)]
    ensures WelcomeFirst(s.members[d], r.queues[d], r.peers[d].owner)
    ensures ApplyAll(s.members[d].view, r.queues[d], s.members[d].masterIp) ==
        Others(r, r.peers[d].owner, s.members[d].masterIp)
  {
    assert MemberOk(s, d);
    var m, q, me := s.members[d], s.hub.queues[d], s.hub.peers[d].owner;
    WelcomeStaysFirst(m, q, me, Gone(owner));
    OthersForgetLeaver(s.hub, r, c, owner, me, m.view, q, m.masterIp);
  }

  lemma LeaveStep(s: State, c: nat)
    requires Inv(s) && c in s.hub.peers
    ensures Inv(Next(s, Leave(c)))
  {
    var r, owner := LeaveHub(s.hub, c), s.hub.peers[c].owner;
    var s' := State(r, s.members - {c});
    assert Next(s, Leave(c)) == s';
    LeaveLinked(s.hub, c);
    forall d | d in r.peers ensures MemberOk(s', d) {
      LeaveSeenBy(s, r, c, owner, d);
    }
  }

  lemma ReadStep(s: State, c: nat)
    requires Inv(s) && Enabled(s, Read(c))
    ensures Inv(Next(s, Read(c)))
  {
    var s' := Next(s, Read(c));
    forall d | d in s'.hub.peers ensures MemberOk(s', d) {
      assert MemberOk(s, d);
      SameOthers(s.hub, s'.hub, s.hub.peers[d].owner, s.members[d].masterIp);
      if d == c { ApplyCons(s.members[c].view, s.hub.queues[c], s.members[c].masterIp); }
    }
  }

  lemma SameOthers(h: Hub, r: Hub, me: int, masterIp: string)
    requires Linked(h) && Linked(r) && r.sessions == h.sessions && r.peers == h.peers
    ensures Others(r, me, masterIp) == Others(h, me, masterIp)
  {
    forall o | o in h.sessions ensures InfoOf(r, o) == InfoOf(h, o) {}
  }

  lemma {:induction false} RunInv(states: seq<State>, steps: seq<Step>, i: nat)
    requires IsRun(states, steps) && i < |states|
    requires forall j :: 0 <= j < i ==> Polite(steps[j])
    ensures Inv(states[i])
  {
    if i > 0 {
      RunInv(states, steps, i - 1);
      match steps[i - 1]
      case Join(_, _, _, _, _, _, _, _) => JoinStep(states[i - 1], steps[i - 1]);
      case Leave(c) => LeaveStep(states[i - 1], c);
      case Read(c) => ReadStep(states[i - 1], c);
    }
  }

  // ---------------------------------------------------------------- the reserved id

  lemma StepRegistered(s: State, step: Step)
    requires Registered(s.hub) && Enabled(s, step)
    ensures Registered(Next(s, step).hub)
  {
    match step
    case Join(c, ip, port, _, force, wanted, start, listing) =>
      JoinRegistered(s.hub, c, ChooseOwner(s.hub, force, wanted, start), ip, port, listing);
    case Leave(c) => LeaveRegistered(s.hub, c);
    case Read(_) =>
  }

  lemma JoinRegistered(h: Hub, c: nat, owner: int, ip: string, port: string, listing: seq<Info>)
    requires Registered(h) && c !in h.peers && owner !in h.sessions
    ensures Registered(JoinHub(h, c, owner, ip, port, listing))
  {
  }

  lemma LeaveRegistered(h: Hub, c: nat)
    requires Registered(h) && c in h.peers
    ensures Registered(LeaveHub(h, c))
  {
  }

  lemma {:induction false} RunRegistered(states: seq<State>, steps: seq<Step>, i: nat)
    requires IsRun(states, steps) && i < |states|
    ensures Registered(states[i].hub)
  {
    if i > 0 {
      RunRegistered(states, steps, i - 1);
      StepRegistered(states[i - 1], steps[i - 1]);
    }
  }

  /** Leaving unregisters the id of the connection, exactly unless it is the reserved one. */
  lemma LeaveUnregistersIff(states: seq<State>, steps: seq<Step>, i: nat, c: nat)
    requires IsRun(states, steps) && i < |steps| && steps[i] == Leave(c)
    ensures var owner := states[i].hub.peers[c].owner;
            && owner in states[i].hub.sessions && c !in states[i + 1].hub.queues
            && (owner in states[i + 1].hub.sessions <==> owner == ANY_OWNER)
  {
    RunRegistered(states, steps, i);
  }

  /** The component asks for the reserved id, and nobody has it. */
  predicate ForcesReserved(s: State, step: Step) {
    step.Join? && step.force && step.wanted == ANY_OWNER && ANY_OWNER !in s.hub.sessions
  }

  lemma ReservedStep(s: State, step: Step)
    requires Enabled(s, step)
    ensures ANY_OWNER in Next(s, step).hub.sessions <==> ANY_OWNER in s.hub.sessions || ForcesReserved(s, step)
  {
  }

  /** The reserved id is registered exactly if somebody once forced it: no other way leads to it, and none away. */
  lemma {:induction false} ReservedRegisteredIff(states: seq<State>, steps: seq<Step>, i: nat)
    requires IsRun(states, steps) && i < |states|
    ensures ANY_OWNER in states[i].hub.sessions <==> exists j :: 0 <= j < i && ForcesReserved(states[j], steps[j])
  {
    if i > 0 {
      ReservedRegisteredIff(states, steps, i - 1);
      ReservedStep(states[i - 1], steps[i - 1]);
    }
  }

  /** A registered id is that of a live connection, or the reserved one; without it registration means being live. */
  lemma RegisteredMeansLive(states: seq<State>, steps: seq<Step>, i: nat)
    requires IsRun(states, steps) && i < |states|
    ensures var h := states[i].hub;
            && (forall o :: o in h.sessions && o != ANY_OWNER ==>
                  h.sessions[o] in h.queues && h.sessions[o] in h.peers && h.peers[h.sessions[o]].owner == o)
            && ((forall o :: o in h.sessions ==> h.sessions[o] in h.queues) <==>
                  (ANY_OWNER in h.sessions ==> h.sessions[ANY_OWNER] in h.queues))
  {
    RunRegistered(states, steps, i);
  }

  // ---------------------------------------------------------------- theorems over every run

  /** Live connections have distinct ids. */
  lemma OwnerIdsDistinct(states: seq<State>, steps: seq<Step>, i: nat, c: nat, d: nat)
    requires IsRun(states, steps) && i < |states|
    requires c in states[i].hub.queues && d in states[i].hub.queues && c != d
    ensures c in states[i].hub.peers && d in states[i].hub.peers
    ensures states[i].hub.peers[c].owner != states[i].hub.peers[d].owner
  {
    RunRegistered(states, steps, i);
  }

  /**
   * Reading what is still under way gives each component exactly the other live components under
   * their current addresses, reused ids included; and the first frame it reads is its welcome.
   */
  lemma ViewsCurrent(states: seq<State>, steps: seq<Step>, i: nat, c: nat)
    requires IsRun(states, steps) && i < |states| && forall j :: 0 <= j < i ==> Polite(steps[j])
    requires c in states[i].hub.peers
    ensures var s := states[i];
            && Linked(s.hub) && c in s.members
            && var m, q, owner := s.members[c], s.hub.queues[c], s.hub.peers[c].owner;
               && ApplyAll(m.view, q, m.masterIp) == Others(s.hub, owner, m.masterIp)
               && (!m.welcomed ==> q != [] && q[0].Welcome? && q[0].owner == owner)
               && (forall k :: 0 <= k < |q| && (m.welcomed || k > 0) ==> !q[k].Welcome?)
  {
    RunInv(states, steps, i);
    assert MemberOk(states[i], c);
  }

  /** In every run a join registers the connection under one more id, and this one. */
  lemma JoinGrants(states: seq<State>, steps: seq<Step>, i: nat)
    requires IsRun(states, steps) && i < |steps| && steps[i].Join?
    ensures var h, r, step := states[i].hub, states[i + 1].hub, steps[i];
            && step.c in r.peers && var owner := r.peers[step.c].owner;
            && Granted(h.sessions.Keys, step.force, step.wanted, step.start, owner)
            && r.sessions == h.sessions[owner := step.c]
            && r.peers == h.peers[step.c := Peer(owner, step.ip, step.port)]
            && r.queues[step.c] == [Welcome(owner, step.listing)]
  {
  }

  /** Step `j` is the join of the connection `c` there is at `i`, which is still as announced then. */
  ghost predicate JoinedAt(states: seq<State>, steps: seq<Step>, i: nat, j: nat, c: nat)
    requires |states| == |steps| + 1
  {
    && j < i < |states| && steps[j].Join? && steps[j].c == c && c in states[i].hub.peers && c in states[i].members
    && states[i].members[c].masterIp == steps[j].masterIp
    && states[i].hub.peers[c].ip == steps[j].ip && states[i].hub.peers[c].port == steps[j].port
    && forall l :: j < l < i ==> steps[l] != Leave(c)
  }

  lemma {:induction false} AsAnnounced(states: seq<State>, steps: seq<Step>, i: nat, c: nat) returns (j: nat)
    requires IsRun(states, steps) && i < |states| && c in states[i].hub.queues
    ensures JoinedAt(states, steps, i, j, c)
  {
    RunRegistered(states, steps, i);
    RunRegistered(states, steps, i - 1);
    var s, step := states[i - 1], steps[i - 1];
    if step.Join? && step.c == c {
      j := i - 1;
    } else {
      j := AsAnnounced(states, steps, i - 1, c);
    }
  }

  /**
   * What a component ends up knowing of another: its id, the port it announced when it joined, and the address the
   * master saw it under, or, where that is the loopback address, the one this component reached the master at.
   */
  lemma ViewShows(states: seq<State>, steps: seq<Step>, i: nat, c: nat, o: int) returns (mine: nat, other: nat)
    requires IsRun(states, steps) && i < |states| && forall j :: 0 <= j < i ==> Polite(steps[j])
    requires c in states[i].hub.peers
    ensures var s := states[i];
            && c in s.members && c in s.hub.queues && Registered(s.hub)
            && var view := ApplyAll(s.members[c].view, s.hub.queues[c], s.members[c].masterIp);
            && (o in view <==> o in s.hub.sessions && s.hub.sessions[o] != c)
            && (o in view ==>
                  && JoinedAt(states, steps, i, mine, c) && JoinedAt(states, steps, i, other, s.hub.sessions[o])
                  && view[o].owner == o && view[o].port == steps[other].port
                  && view[o].ip == if steps[other].ip == "127.0.0.1" then steps[mine].masterIp else steps[other].ip)
  {
    RunRegistered(states, steps, i);
    RunInv(states, steps, i);
    ViewsCurrent(states, steps, i, c);
    mine := AsAnnounced(states, steps, i, c);
    other := mine;
    var s := states[i];
    if o in s.hub.sessions { other := AsAnnounced(states, steps, i, s.hub.sessions[o]); }
  }

  /** Forcing the reserved id defeats the farewell: the component leaves and stays registered. */
  lemma ReservedIdNeverLeaves(ip: string, port: string) returns (states: seq<State>, steps: seq<Step>)
    ensures IsRun(states, steps)
    ensures states[|steps|].hub.queues == map[] && ANY_OWNER in states[|steps|].hub.sessions
  {
    var join := Join(0, ip, port, ip, true, ANY_OWNER, 1000, []);
    var s1 := Next(INIT, join);
    assert s1.hub.peers[0].owner == ANY_OWNER;
    var s2 := Next(s1, Leave(0));
    assert s2.hub.queues == map[];
    states, steps := [INIT, s1, s2], [join, Leave(0)];
  }
}
