/** The capped, coalescing outbox of a `FrameChannel`, one critical section at a time. */
module Outbox {
  import opened Base

  const MAX_OUTBOX_FRAMES := 4096

  /** A list node. `id` is the node's identity, which is what a list iterator holds on to. */
  datatype Outbound<F> = Outbound(id: nat, bytes: F, key: Option<PairKey>)

  /** `outbox_`, `coalescable_` and the supply of fresh list nodes. */
  datatype Box<F> = Box(outbox: seq<Outbound<F>>, index: map<PairKey, nat>, nextId: nat)

  datatype SendOutcome = Replaced | Overfull | Queued

  function Empty<F>(nextId: nat): Box<F> { Box([], map[], nextId) }

  // ---------------------------------------------------------------- operations

  /** Stores new bytes in the node `id`, wherever it sits. */
  function Overwrite<F>(q: seq<Outbound<F>>, id: nat, f: F): seq<Outbound<F>> {
    seq(|q|, i requires 0 <= i < |q| => if q[i].id == id then q[i].(bytes := f) else q[i])
  }

  /** The oldest droppable frame, or the length when nothing may be dropped. */
  function FirstKeyed<F>(q: seq<Outbound<F>>): (i: nat)
    ensures i <= |q|
    ensures forall j :: 0 <= j < i ==> q[j].key.None?
    ensures i < |q| ==> q[i].key.Some?
  {
    if q == [] || q[0].key.Some? then 0 else 1 + FirstKeyed(q[1..])
  }

  /** Unlinks node `i` and forgets the index entry of its key, if it has one. */
  function Unlink<F>(b: Box<F>, i: nat): Box<F>
    requires i < |b.outbox|
  {
    var key := b.outbox[i].key;
    Box(RemoveAt(b.outbox, i), if key.Some? then b.index - {key.value} else b.index, b.nextId)
  }

  function Append<F>(b: Box<F>, f: F, key: Option<PairKey>): Box<F> {
    Box(b.outbox + [Outbound(b.nextId, f, key)],
        if key.Some? then b.index[key.value := b.nextId] else b.index,
        b.nextId + 1)
  }

  /** `makeRoomLocked`: true when the frame was stored over a queued one. */
  function MakeRoom<F>(b: Box<F>, f: F, key: Option<PairKey>): (Box<F>, bool) {
    if |b.outbox| < MAX_OUTBOX_FRAMES then (b, false)
    else if key.Some? && key.value in b.index then
      (b.(outbox := Overwrite(b.outbox, b.index[key.value], f)), true)
    else
      var i := FirstKeyed(b.outbox);
      (if i < |b.outbox| then Unlink(b, i) else b, false)
  }

  /** The part of `send` that runs under `outbox_mutex_`, apart from the drain flag. */
  function Send<F>(b: Box<F>, f: F, key: Option<PairKey>): (Box<F>, SendOutcome) {
    var (room, replaced) := MakeRoom(b, f, key);
    if replaced then (room, Replaced)
    else if |room.outbox| >= MAX_OUTBOX_FRAMES then (room, Overfull)
    else (Append(room, f, key), Queued)
  }

  // ---------------------------------------------------------------- invariant

  /** Node `i` is the live node `id`, carries key `k`, and no later frame does. */
  ghost predicate NewestAt<F>(q: seq<Outbound<F>>, i: int, k: PairKey, id: nat) {
    && 0 <= i < |q| && q[i].id == id && q[i].key == Some(k)
    && forall j :: i < j < |q| ==> q[j].key != Some(k)
  }

  /** Nodes are distinct (ids grow along the list), the index is sound, the cap is respected. */
  ghost predicate Valid<F>(b: Box<F>) {
    && (forall i, j :: 0 <= i < j < |b.outbox| ==> b.outbox[i].id < b.outbox[j].id)
    && (forall i :: 0 <= i < |b.outbox| ==> b.outbox[i].id < b.nextId)
    && (forall k :: k in b.index ==> exists i :: NewestAt(b.outbox, i, k, b.index[k]))
    && |b.outbox| <= MAX_OUTBOX_FRAMES
  }

  /** Where the index entry of `k` leads. */
  ghost function PositionOf<F>(b: Box<F>, k: PairKey): (p: nat)
    requires Valid(b) && k in b.index
    ensures NewestAt(b.outbox, p, k, b.index[k])
  {
    var p :| NewestAt(b.outbox, p, k, b.index[k]);
    p
  }

  // ---------------------------------------------------------------- preservation

  lemma UnlinkNewest<F>(q: seq<Outbound<F>>, i: nat, p: nat, k: PairKey, id: nat)
    requires i < |q| && NewestAt(q, p, k, id) && q[i].key != Some(k)
    ensures NewestAt(RemoveAt(q, i), if p < i then p else p - 1, k, id)
  {
    var r := RemoveAt(q, i);
    assert p != i;
    forall j | (if p < i then p else p - 1) < j < |r| ensures r[j].key != Some(k) {
      assert r[j] == q[if j < i then j else j + 1];
    }
  }

  /** Draining the front and evicting from the middle both keep the index sound. */
  lemma UnlinkValid<F>(b: Box<F>, i: nat)
    requires Valid(b) && i < |b.outbox|
    ensures Valid(Unlink(b, i))
  {
    var r := Unlink(b, i);
    forall k | k in r.index
      ensures exists j :: NewestAt(r.outbox, j, k, r.index[k])
    {
      var p := PositionOf(b, k);
      UnlinkNewest(b.outbox, i, p, k, b.index[k]);
    }
  }

  lemma AppendValid<F>(b: Box<F>, f: F, key: Option<PairKey>)
    requires Valid(b) && |b.outbox| < MAX_OUTBOX_FRAMES
    ensures Valid(Append(b, f, key))
    ensures var r := Append(b, f, key);
            key.Some? ==> key.value in r.index && NewestAt(r.outbox, |b.outbox|, key.value, r.index[key.value])
  {
    var r := Append(b, f, key);
    forall k | k in r.index
      ensures exists j :: NewestAt(r.outbox, j, k, r.index[k])
    {
      if key == Some(k) {
        assert NewestAt(r.outbox, |b.outbox|, k, r.index[k]);
      } else {
        assert NewestAt(r.outbox, PositionOf(b, k), k, r.index[k]);
      }
    }
  }

  /** An in-place replacement touches exactly the newest queued frame of its key. */
  lemma OverwriteIsUpdate<F>(b: Box<F>, f: F, k: PairKey)
    requires Valid(b) && k in b.index
    ensures var p := PositionOf(b, k);
            Overwrite(b.outbox, b.index[k], f) == b.outbox[p := b.outbox[p].(bytes := f)]
    ensures Valid(b.(outbox := Overwrite(b.outbox, b.index[k], f)))
  {
    var r := b.(outbox := Overwrite(b.outbox, b.index[k], f));
    forall k' | k' in r.index
      ensures exists j :: NewestAt(r.outbox, j, k', r.index[k'])
    {
      assert NewestAt(r.outbox, PositionOf(b, k'), k', r.index[k']);
    }
  }

  /** Everything `send` can do to a well-formed outbox, spelled out by outcome. */
  lemma SendOutcomes<F>(b: Box<F>, f: F, key: Option<PairKey>)
    requires Valid(b)
    ensures Valid(Send(b, f, key).0)
    ensures var (r, outcome) := Send(b, f, key);
            var node := Outbound(b.nextId, f, key);
            match outcome
            case Replaced =>
              |b.outbox| == MAX_OUTBOX_FRAMES && key.Some? && key.value in b.index &&
              var p := PositionOf(b, key.value);
              r == b.(outbox := b.outbox[p := b.outbox[p].(bytes := f)])
            case Overfull =>
              |b.outbox| == MAX_OUTBOX_FRAMES && r == b && forall i :: 0 <= i < |b.outbox| ==> b.outbox[i].key.None?
            case Queued =>
              if |b.outbox| < MAX_OUTBOX_FRAMES then r.outbox == b.outbox + [node]
              else var i := FirstKeyed(b.outbox);
                   i < |b.outbox| && r.outbox == RemoveAt(b.outbox, i) + [node]
  {
    if |b.outbox| < MAX_OUTBOX_FRAMES {
      AppendValid(b, f, key);
    } else if key.Some? && key.value in b.index {
      OverwriteIsUpdate(b, f, key.value);
    } else {
      var i := FirstKeyed(b.outbox);
      if i < |b.outbox| {
        UnlinkValid(b, i);
        AppendValid(Unlink(b, i), f, key);
      }
    }
  }

  // ---------------------------------------------------------------- completeness of the index

  /** Every queued key is in the index. */
  ghost predicate Complete<F>(b: Box<F>) {
    forall i :: 0 <= i < |b.outbox| && b.outbox[i].key.Some? ==> b.outbox[i].key.value in b.index
  }

  /** Another queued node carries the key of node `i`. */
  ghost predicate CarriedTwice<F>(b: Box<F>, i: nat)
    requires i < |b.outbox|
  {
    b.outbox[i].key.Some? && exists j :: 0 <= j < |b.outbox| && j != i && b.outbox[j].key == b.outbox[i].key
  }

  /** Unlinking a node keeps the index complete exactly if no other queued node carries its key. */
  lemma UnlinkCompleteIff<F>(b: Box<F>, i: nat)
    requires Valid(b) && Complete(b) && i < |b.outbox|
    ensures Complete(Unlink(b, i)) <==> !CarriedTwice(b, i)
  {
    var r := Unlink(b, i);
    if CarriedTwice(b, i) {
      var j :| 0 <= j < |b.outbox| && j != i && b.outbox[j].key == b.outbox[i].key;
      assert r.outbox[if j < i then j else j - 1] == b.outbox[j];
    } else {
      forall j | 0 <= j < |r.outbox| && r.outbox[j].key.Some? ensures r.outbox[j].key.value in r.index {
        var j' := if j < i then j else j + 1;
        assert r.outbox[j] == b.outbox[j'];
      }
    }
  }

  /** Making room at the cap evicts a key that is queued elsewhere too. */
  ghost predicate EvictsTwice<F>(b: Box<F>, key: Option<PairKey>) {
    && |b.outbox| >= MAX_OUTBOX_FRAMES && !(key.Some? && key.value in b.index)
    && var i := FirstKeyed(b.outbox); i < |b.outbox| && CarriedTwice(b, i)
  }

  /** So does a send, unless it makes room that way. */
  lemma SendCompleteIff<F>(b: Box<F>, f: F, key: Option<PairKey>)
    requires Valid(b) && Complete(b)
    ensures Complete(Send(b, f, key).0) <==> !EvictsTwice(b, key)
  {
    if |b.outbox| < MAX_OUTBOX_FRAMES {
      AppendComplete(b, f, key);
    } else if key.Some? && key.value in b.index {
      OverwriteComplete(b, f, key.value);
    } else {
      var i := FirstKeyed(b.outbox);
      if i < |b.outbox| {
        UnlinkCompleteIff(b, i);
        assert forall j :: 0 <= j < |b.outbox| - 1 ==> Unlink(b, i).outbox[j] in b.outbox;
        AppendComplete(Unlink(b, i), f, key);
      }
    }
  }

  lemma OverwriteComplete<F>(b: Box<F>, f: F, k: PairKey)
    requires Complete(b) && k in b.index
    ensures Complete(b.(outbox := Overwrite(b.outbox, b.index[k], f)))
  {
  }

  /** Queueing a frame indexes its own key and no other. */
  lemma AppendComplete<F>(b: Box<F>, f: F, key: Option<PairKey>)
    ensures Complete(b) ==> Complete(Append(b, f, key))
    ensures (key.Some? ==> forall i :: 0 <= i < |b.outbox| ==> b.outbox[i].key != key) ==>
              (Complete(Append(b, f, key)) <==> Complete(b))
  {
    var r := Append(b, f, key);
    forall i | 0 <= i < |b.outbox| ensures r.outbox[i] == b.outbox[i] {}
  }

  /**
   * The index is sound but not complete: once the older of two queued frames of
   * one key is drained, the newer one is queued with no index entry.
   */
  lemma IndexIsNotComplete<F>(b: Box<F>, f: F, g: F, k: PairKey)
    requires b == Empty(b.nextId)
    ensures var two := Send(Send(b, f, Some(k)).0, g, Some(k)).0;
            var r := Unlink(two, 0);
            Valid(two) && Valid(r) && |r.outbox| == 1 && r.outbox[0].key == Some(k) && k !in r.index
  {
    SendOutcomes(b, f, Some(k));
    SendOutcomes(Send(b, f, Some(k)).0, g, Some(k));
    UnlinkValid(Send(Send(b, f, Some(k)).0, g, Some(k)).0, 0);
  }
}
