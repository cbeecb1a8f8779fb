/** `MasterHub` as the mutable registry it is, each method proved against its specification. */
module Master {
  import opened Base
  import opened M = Membership

  lemma RegisteredPeer(h: Hub, o: int)
    requires Registered(h) && o in h.sessions
    ensures h.sessions[o] in h.peers
  {
  }

  class MasterHub {
    var sessions: map<int, nat>
    var peers: map<nat, Peer>
    var queues: map<nat, seq<Frame>>

    ghost function View(): Hub
      reads this
    {
      Hub(sessions, peers, queues)
    }

    constructor ()
      ensures View() == Hub(map[], map[], map[])
    {
      sessions, peers, queues := map[], map[], map[];
    }

    /** The first free id from `start` on. */
    method MakeOwnerId(start: int) returns (candidate: int)
      ensures candidate == NextFree(sessions.Keys, start)
    {
      candidate := start;
      while candidate in sessions
        invariant start <= candidate
        invariant forall x :: start <= x < candidate ==> x in sessions
        decreases |set x | x in sessions && x >= candidate|
      {
        assert (set x | x in sessions && x >= candidate) == (set x | x in sessions && x >= candidate + 1) + {candidate};
        candidate := candidate + 1;
      }
    }

    /** One entry for each registered id, whoever it belongs to. */
    method ListComponents() returns (all: seq<Info>)
      requires Registered(View())
      ensures IsListing(View(), all) && |all| == |sessions.Items|
    {
      ghost var h := View();
      all := [];
      var todo := sessions.Items;
      while todo != {}
        invariant todo <= sessions.Items && |all| + |todo| == |sessions.Items|
        invariant forall i :: 0 <= i < |all| ==> all[i].owner in h.sessions && all[i] == InfoOf(h, all[i].owner)
        invariant forall o :: o in h.sessions && (o, h.sessions[o]) !in todo ==> InfoOf(h, o) in all
        decreases |todo|
      {
        var item :| item in todo;
        todo := todo - {item};
        assert item.0 in h.sessions && h.sessions[item.0] == item.1;
        RegisteredPeer(h, item.0);
        var peer := peers[item.1];
        ghost var before := all;
        all := all + [Info(item.0, peer.ip, peer.port)];
        assert all[|before|] == InfoOf(h, item.0);
        assert forall i :: i in before ==> i in all;
      }
    }

    method RegisterComponent(c: nat, ip: string, port: string, force: bool, wanted: int, start: int)
      returns (welcome: Frame)
      requires Registered(View())
      modifies this`sessions, this`peers
      ensures welcome.Welcome? && IsListing(old(View()), welcome.components)
      ensures Granted(old(sessions).Keys, force, wanted, start, welcome.owner)
      ensures sessions == old(sessions)[welcome.owner := c]
      ensures peers == old(peers)[c := Peer(welcome.owner, ip, port)]
    {
      var owner;
      if force && wanted !in sessions { owner := wanted; } else { owner := MakeOwnerId(start); }
      var all := ListComponents();
      welcome := Welcome(owner, all);
      sessions := sessions[owner := c];
      peers := peers[c := Peer(owner, ip, port)];
    }

    method RemoveComponent(owner: int)
      modifies this`sessions
      ensures sessions == old(sessions) - {owner}
    {
      sessions := sessions - {owner};
    }

    method SendToAll(f: Frame, about: int)
      modifies this`queues
      ensures View() == M.SendToAll(old(View()), f, about)
    {
      var targets := set o | o in sessions && o != about && sessions[o] in queues :: sessions[o];
      var todo := targets;
      while todo != {}
        invariant todo <= targets && queues.Keys == old(queues).Keys
        invariant forall c :: c in queues ==>
                    queues[c] == if c in targets && c !in todo then old(queues)[c] + [f] else old(queues)[c]
        decreases |todo|
      {
        var c :| c in todo;
        todo := todo - {c};
        queues := queues[c := queues[c] + [f]];
      }
      assert queues == M.SendToAll(old(View()), f, about).queues;
    }

    /** `MasterHubSession::run` from the presence to the announcement. */
    method Join(c: nat, ip: string, port: string, force: bool, wanted: int,
                start: int) returns (owner: int, ghost listing: seq<Info>)
      requires Registered(View()) && c !in peers
      modifies this
      ensures IsListing(old(View()), listing) && Granted(old(sessions).Keys, force, wanted, start, owner)
      ensures View() == JoinHub(old(View()), c, owner, ip, port, listing)
      ensures sessions == old(sessions)[owner := c] && peers == old(peers)[c := Peer(owner, ip, port)]
      ensures queues.Keys == old(queues).Keys + {c} && queues[c] == [Welcome(owner, listing)]
      ensures forall d :: d in old(queues) ==> queues[d] == old(queues)[d] + [Added(Info(owner, ip, port))]
    {
      var welcome := RegisterComponent(c, ip, port, force, wanted, start);
      owner, listing := welcome.owner, welcome.components;
      queues := queues[c := [welcome]];
      SendToAll(Added(Info(owner, ip, port)), owner);
      JoinTells(old(View()), c, owner, ip, port, listing);
    }

    /** And from the disconnect to the close. */
    method Leave(c: nat)
      requires Registered(View()) && c in peers
      modifies this
      ensures View() == LeaveHub(old(View()), c)
      ensures var owner := old(peers)[c].owner;
              && queues.Keys == old(queues).Keys - {c}
              && sessions == (if owner == ANY_OWNER then old(sessions) else old(sessions) - {owner})
              && forall d :: d in queues ==>
                   queues[d] == old(queues)[d] + if owner == ANY_OWNER then [] else [Gone(owner)]
    {
      var owner := peers[c].owner;
      LeaveTells(View(), c);
      if owner != ANY_OWNER {
        RemoveComponent(owner);
        SendToAll(Gone(owner), owner);
        peers, queues := peers - {c}, queues - {c};
      } else {
        peers, queues := peers[c := peers[c].(ip := "")], queues - {c};
      }
    }
  }

  /** Whoever was connected before is told of the newcomer, and of nothing else. */
  lemma JoinTells(h: Hub, c: nat, owner: int, ip: string, port: string, listing: seq<Info>)
    requires Registered(h) && c !in h.peers && owner !in h.sessions
    ensures var r := JoinHub(h, c, owner, ip, port, listing);
            && r.queues.Keys == h.queues.Keys + {c} && r.queues[c] == [Welcome(owner, listing)]
            && forall d :: d in h.queues ==> r.queues[d] == h.queues[d] + [Added(Info(owner, ip, port))]
  {
    var welcome := Welcome(owner, listing);
    var h1 := Hub(h.sessions[owner := c], h.peers[c := Peer(owner, ip, port)], h.queues[c := [welcome]]);
    forall d | d in h.queues ensures d in Targets(h1, owner) {
      assert h.peers[d].owner in h1.sessions && h1.sessions[h.peers[d].owner] == d;
    }
    assert c !in Targets(h1, owner);
  }

  /** And of the leaver. */
  lemma LeaveTells(h: Hub, c: nat)
    requires Registered(h) && c in h.peers
    ensures var r, owner := LeaveHub(h, c), h.peers[c].owner;
            && r.queues.Keys == h.queues.Keys - {c}
            && forall d :: d in r.queues ==>
                 r.queues[d] == h.queues[d] + if owner == ANY_OWNER then [] else [Gone(owner)]
  {
    var owner := h.peers[c].owner;
    var h1 := h.(sessions := h.sessions - {owner});
    forall d | d in h.queues && d != c && owner != ANY_OWNER ensures d in Targets(h1, owner) {
      assert h.peers[d].owner in h1.sessions && h1.sessions[h.peers[d].owner] == d;
    }
  }
}
