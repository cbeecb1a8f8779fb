/** `PairSpace` as the mutable store it is, each mutator proved against its specification. */
module PairStore {
  import opened Base
  import M = PairSpaceModel

  class PairSpace {
    var pairs: map<PairKey, M.Entry>
    var uSubscribers: seq<int>
    var callbackOwners: map<nat, PairKey>
    var universalCallbacks: map<nat, M.Callback>
    var nextCallbackHandle: nat

    ghost function View(): M.Space
      reads this
    {
      M.Space(pairs, uSubscribers, callbackOwners, universalCallbacks, nextCallbackHandle)
    }

    constructor ()
      ensures View() == M.EMPTY_SPACE
    {
      pairs, uSubscribers, callbackOwners, universalCallbacks, nextCallbackHandle := map[], [], map[], map[], 0;
    }

    method AddPair(p: Pair)
      modifies this`pairs
      ensures View() == M.Apply(old(View()), M.Publish(p))
    {
      var k := PairKey(p.owner, p.key);
      if k !in pairs {
        pairs := pairs[k := M.Entry(p, [], map[])];
        pairs := pairs[k := pairs[k].(subscribers := uSubscribers)];
        return;
      }
      var existing := pairs[k];
      existing := existing.(pair := existing.pair.(ty := p.ty));
      existing := existing.(pair := existing.pair.(value := p.value));
      pairs := pairs[k := existing];
    }

    method RemovePair(k: PairKey)
      modifies this`pairs
      ensures View() == M.Apply(old(View()), M.Remove(k))
    {
      if k !in pairs { return; }
      var entry := pairs[k];
      if entry.subscribers == [] && entry.callbacks == map[] {
        pairs := pairs - {k};
        return;
      }
      pairs := pairs[k := entry.(pair := entry.pair.(value := "", ty := Invalid))];
    }

    method AddCallback(k: PairKey, cb: M.Callback) returns (handle: nat)
      modifies this
      ensures View() == M.Apply(old(View()), M.Watch(k, cb))
      ensures handle == nextCallbackHandle == old(nextCallbackHandle) + 1
    {
      nextCallbackHandle := nextCallbackHandle + 1;
      handle := nextCallbackHandle;
      callbackOwners := callbackOwners[handle := k];
      if k !in pairs { AddPair(M.Placeholder(k)); }
      pairs := pairs[k := pairs[k].(callbacks := pairs[k].callbacks[handle := cb])];
    }

    method AddCallbackToAll(cb: M.Callback) returns (handle: nat)
      modifies this`nextCallbackHandle, this`universalCallbacks
      ensures View() == M.Apply(old(View()), M.WatchAll(cb))
      ensures handle == nextCallbackHandle == old(nextCallbackHandle) + 1
    {
      nextCallbackHandle := nextCallbackHandle + 1;
      handle := nextCallbackHandle;
      universalCallbacks := universalCallbacks[handle := cb];
    }

    method RemoveCallback(handle: nat)
      modifies this`pairs, this`callbackOwners, this`universalCallbacks
      ensures View() == M.Apply(old(View()), M.Unwatch(handle))
    {
      if handle !in callbackOwners {
        universalCallbacks := universalCallbacks - {handle};
        return;
      }
      var k := callbackOwners[handle];
      if k in pairs { pairs := pairs[k := pairs[k].(callbacks := pairs[k].callbacks - {handle})]; }
      callbackOwners := callbackOwners - {handle};
    }

    method AddSubscription(k: PairKey, subscriber: int)
      modifies this`pairs
      ensures View() == M.Apply(old(View()), M.Subscribe(k, subscriber))
    {
      if k !in pairs { AddPair(M.Placeholder(k)); }
      if subscriber in pairs[k].subscribers {
        assert pairs == pairs[k := pairs[k]];
        return;
      }
      pairs := pairs[k := pairs[k].(subscribers := pairs[k].subscribers + [subscriber])];
    }

    method RemoveSubscription(k: PairKey, subscriber: int)
      modifies this`pairs
      ensures View() == M.Apply(old(View()), M.Unsubscribe(k, subscriber))
    {
      if k !in pairs { return; }
      pairs := pairs[k := pairs[k].(subscribers := Erase(pairs[k].subscribers, subscriber))];
    }

    method AddSubscriptionToAll(subscriber: int)
      modifies this`pairs, this`uSubscribers
      ensures View() == M.Apply(old(View()), M.SubscribeAll(subscriber))
    {
      if subscriber in uSubscribers { return; }
      uSubscribers := uSubscribers + [subscriber];
      var todo := pairs.Keys;
      while todo != {}
        modifies this`pairs
        invariant todo <= pairs.Keys == old(pairs).Keys
        invariant forall k :: k in pairs ==>
                    pairs[k] == if k in todo then old(pairs)[k]
                                else old(pairs)[k].(subscribers := M.AddOnce(old(pairs)[k].subscribers, subscriber))
        decreases |todo|
      {
        var k :| k in todo;
        if subscriber !in pairs[k].subscribers {
          pairs := pairs[k := pairs[k].(subscribers := pairs[k].subscribers + [subscriber])];
        }
        todo := todo - {k};
      }
      assert pairs == M.Apply(old(View()), M.SubscribeAll(subscriber)).pairs;
    }

    method RemoveSubscriptionToAll(subscriber: int)
      modifies this`pairs, this`uSubscribers
      ensures View() == M.Apply(old(View()), M.UnsubscribeAll(subscriber))
    {
      uSubscribers := Erase(uSubscribers, subscriber);
      var todo := pairs.Keys;
      while todo != {}
        modifies this`pairs
        invariant todo <= pairs.Keys == old(pairs).Keys
        invariant forall k :: k in pairs ==>
                    pairs[k] == if k in todo then old(pairs)[k]
                                else old(pairs)[k].(subscribers := Erase(old(pairs)[k].subscribers, subscriber))
        decreases |todo|
      {
        var k :| k in todo;
        pairs := pairs[k := pairs[k].(subscribers := Erase(pairs[k].subscribers, subscriber))];
        todo := todo - {k};
      }
      assert pairs == M.Apply(old(View()), M.UnsubscribeAll(subscriber)).pairs;
    }

    /** `Client::getPair`: a placeholder has nothing to hand back. */
    method GetPair(k: PairKey) returns (found: Option<Pair>)
      ensures found.Some? <==> k in M.Visible(View())
      ensures found.Some? ==> (found.value.value, found.value.ty) == M.Visible(View())[k]
      ensures found.Some? && M.KeysMatch(View()) ==> found.value.Id() == k
    {
      if k !in pairs || pairs[k].pair.ty == Invalid { return None; }
      return Some(pairs[k].pair);
    }

    /** `snapshotPairs`: every visible pair once, no placeholder. */
    method SnapshotPairs() returns (out: seq<Pair>)
      requires M.KeysMatch(View())
      ensures Ids(out) == M.Visible(View()).Keys && |out| == |M.Visible(View())|
      ensures forall p :: p in out ==>
                p.Id() in M.Visible(View()) && M.Visible(View())[p.Id()] == (p.value, p.ty)
    {
      out := [];
      ghost var shown: set<PairKey> := {};
      var todo := pairs.Keys;
      while todo != {}
        invariant todo <= pairs.Keys && shown <= pairs.Keys - todo
        invariant Ids(out) == shown && |out| == |shown|
        invariant forall k :: k in pairs && k !in todo ==> (k in shown <==> pairs[k].pair.ty != Invalid)
        invariant forall i :: 0 <= i < |out| ==> out[i].Id() in shown && out[i] == pairs[out[i].Id()].pair
        decreases |todo|
      {
        var k :| k in todo;
        todo := todo - {k};
        if pairs[k].pair.ty != Invalid {
          shown := shown + {k};
          IdsAppend(out, pairs[k].pair);
          out := out + [pairs[k].pair];
        }
      }
      assert shown == M.Visible(View()).Keys;
    }
  }

  lemma IdsAppend(out: seq<Pair>, p: Pair)
    ensures Ids(out + [p]) == Ids(out) + {p.Id()}
  {
    assert (out + [p])[..|out|] == out;
  }

  ghost function Ids(out: seq<Pair>): set<PairKey> {
    if out == [] then {} else Ids(out[..|out| - 1]) + {out[|out| - 1].Id()}
  }
}
