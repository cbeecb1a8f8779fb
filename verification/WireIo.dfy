/**
 * `Writer` and `Reader` as the mutable cursors they are, and the `encode`/`decode` overloads
 * built on them. A thrown `DecodeError` is a flag that stays set, so nothing after it counts.
 */
module WireIo {
  import opened Base
  import opened Fields
  import opened Codec
  import F = WireFormat

  class Writer {
    var buffer: seq<Byte>
    var failed: bool
    ghost var kinds: seq<Kind>
    ghost var fields: seq<Field>

    /** The buffer is the encoding of the fields put so far, unless one of them cannot be encoded. */
    ghost predicate Ok()
      reads this
    {
      && |kinds| == |fields|
      && (failed <==> !AllFit(kinds, fields))
      && (!failed ==> buffer == EncodeFields(kinds, fields))
    }

    constructor ()
      ensures Ok() && !failed && buffer == [] && kinds == [] && fields == []
    {
      buffer, failed, kinds, fields := [], false, [], [];
    }

    ghost method Note(k: Kind, f: Field)
      requires Ok() && Fits(k, f)
      modifies this`kinds, this`fields
      ensures kinds == old(kinds) + [k] && fields == old(fields) + [f]
      ensures failed <==> !AllFit(kinds, fields)
      ensures !failed ==> EncodeFields(kinds, fields) == buffer + EncodeField(k, f)
    {
      if !failed {
        FieldsConcat(kinds, fields, [k], [f]);
        assert EncodeFields([k], [f]) == EncodeField(k, f);
      } else if AllFit(kinds + [k], fields + [f]) {
        AllFitSplit(kinds, fields, [k], [f]);
      }
      kinds, fields := kinds + [k], fields + [f];
    }

    /** The least significant byte first. */
    method Integer(n: nat, signed: bool, v: int)
      requires Ok() && InRange(n, signed, v)
      modifies this
      ensures Ok() && failed == old(failed)
      ensures kinds == old(kinds) + [KInt(n, signed)] && fields == old(fields) + [FInt(v)]
      ensures buffer == old(buffer) + F.LowBytes(n, v)
    {
      Note(KInt(n, signed), FInt(v));
      buffer := buffer + EncodeInt(n, signed, v);
      F.IntWritten(n, signed, v);
    }

    method Enum(v: nat, ghost highest: nat)
      requires Ok() && v <= highest < 256
      modifies this
      ensures Ok() && failed == old(failed)
      ensures kinds == old(kinds) + [KEnum(highest)] && fields == old(fields) + [FEnum(v)]
    {
      Note(KEnum(highest), FEnum(v));
      buffer := buffer + [v];
    }

    method Boolean(b: bool)
      requires Ok()
      modifies this
      ensures Ok() && failed == old(failed)
      ensures kinds == old(kinds) + [KBool] && fields == old(fields) + [FBool(b)]
    {
      Note(KBool, FBool(b));
      buffer := buffer + [if b then 1 else 0];
    }

    /** A string over the limit cannot be encoded. */
    method String(t: Text)
      requires Ok()
      modifies this
      ensures Ok()
      ensures kinds == old(kinds) + [KText] && fields == old(fields) + [FText(t)]
    {
      if |t| > MAX_PAYLOAD {
        assert !AllFit(kinds + [KText], fields + [FText(t)]) by {
          assert !Fits((kinds + [KText])[|kinds|], (fields + [FText(t)])[|fields|]);
        }
        failed := true;
        kinds, fields := kinds + [KText], fields + [FText(t)];
        return;
      }
      Note(KText, FText(t));
      buffer := buffer + TextPrefix(|t|) + t;
    }
  }

  /** What the C++ types of a message guarantee: everything fits except possibly the string lengths. */
  predicate Representable(m: Message) {
    match m
    case PairMsg(o, _, _, t, w, e) => InRange(4, true, o) && t <= 3 && InRange(8, true, w) && InRange(8, true, e)
    case SubscriptionMsg(_, o, s, _) => InRange(4, true, o) && InRange(4, true, s)
    case RemoveMsg(o, _) => InRange(4, true, o)
    case PresenceMsg(_, _, o) => InRange(4, true, o)
    case ComponentMsg(c) => InRange(4, true, c.owner)
    case UpdateMsg(op, c) => op <= 1 && InRange(4, true, c.owner)
    case MasterMsg(o, cs) =>
      InRange(4, true, o) && InRange(4, false, |cs|) && forall i :: 0 <= i < |cs| ==> InRange(4, true, cs[i].owner)
  }

  method EncodeComponent(w: Writer, c: Component)
    requires w.Ok() && InRange(4, true, c.owner)
    modifies w
    ensures w.Ok() && w.kinds == old(w.kinds) + [I32, KText, KText]
    ensures w.fields == old(w.fields) + [FInt(c.owner), FText(c.ip), FText(c.port)]
  {
    w.Integer(4, true, c.owner);
    w.String(c.ip);
    w.String(c.port);
  }

  method EncodePair(w: Writer, m: Message)
    requires w.Ok() && w.kinds == [] && w.fields == [] && m.PairMsg? && Representable(m)
    modifies w
    ensures w.Ok() && w.kinds == FixedKinds(PairShape) && w.fields == FixedFields(m)
  {
    w.Integer(4, true, m.owner);
    w.String(m.key);
    w.String(m.value);
    w.Enum(m.ty, 3);
    w.Integer(8, true, m.writeTime);
    w.Integer(8, true, m.expiryTime);
  }

  method EncodeSubscription(w: Writer, m: Message)
    requires w.Ok() && w.kinds == [] && w.fields == [] && m.SubscriptionMsg? && Representable(m)
    modifies w
    ensures w.Ok() && w.kinds == FixedKinds(SubscriptionShape) && w.fields == FixedFields(m)
  {
    w.String(m.key);
    w.Integer(4, true, m.ownerId);
    w.Integer(4, true, m.subscriber);
    w.Boolean(m.registering);
  }

  method EncodeRemove(w: Writer, m: Message)
    requires w.Ok() && w.kinds == [] && w.fields == [] && m.RemoveMsg? && Representable(m)
    modifies w
    ensures w.Ok() && w.kinds == FixedKinds(RemoveShape) && w.fields == FixedFields(m)
  {
    w.Integer(4, true, m.owner);
    w.String(m.key);
  }

  method EncodePresence(w: Writer, m: Message)
    requires w.Ok() && w.kinds == [] && w.fields == [] && m.PresenceMsg? && Representable(m)
    modifies w
    ensures w.Ok() && w.kinds == FixedKinds(PresenceShape) && w.fields == FixedFields(m)
  {
    w.String(m.port);
    w.Boolean(m.force);
    w.Integer(4, true, m.ownerId);
  }

  method EncodeUpdate(w: Writer, m: Message)
    requires w.Ok() && w.kinds == [] && w.fields == [] && m.UpdateMsg? && Representable(m)
    modifies w
    ensures w.Ok() && w.kinds == FixedKinds(UpdateShape) && w.fields == FixedFields(m)
  {
    w.Enum(m.operation, 1);
    EncodeComponent(w, m.component);
  }

  method EncodeMaster(w: Writer, m: Message)
    requires w.Ok() && w.kinds == [] && w.fields == [] && m.MasterMsg? && Representable(m)
    modifies w
    ensures w.Ok() && w.kinds == KindsOf(m) && w.fields == FieldsOf(m)
  {
    var cs := m.components;
    w.Integer(4, true, m.owner);
    w.Integer(4, false, |cs|);
    var i := 0;
    assert cs[..0] == [];
    while i < |cs|
      invariant 0 <= i <= |cs| && w.Ok()
      invariant w.kinds == FixedKinds(MasterShape) + ComponentKinds(i)
      invariant w.fields == FixedFields(m) + ComponentFields(cs[..i])
    {
      EncodeComponent(w, cs[i]);
      ComponentsSnoc(cs, i);
      AssociativeKinds(FixedKinds(MasterShape), ComponentKinds(i), [I32, KText, KText]);
      var one := [FInt(cs[i].owner), FText(cs[i].ip), FText(cs[i].port)];
      AssociativeFields(FixedFields(m), ComponentFields(cs[..i]), one);
      i := i + 1;
    }
    assert cs[..|cs|] == cs;
  }

  lemma AssociativeKinds(a: seq<Kind>, b: seq<Kind>, c: seq<Kind>)
    ensures (a + b) + c == a + (b + c)
  {
  }

  /** `encode` of every message, field by field in source order; it fails only on an over-long string. */
  method EncodeMessage(w: Writer, m: Message)
    requires w.Ok() && w.kinds == [] && w.fields == [] && Representable(m)
    modifies w
    ensures w.failed <==> !Encodable(m)
    ensures !w.failed ==> w.buffer == Encode(m)
  {
    match m {
      case PairMsg(_, _, _, _, _, _) => EncodePair(w, m);
      case SubscriptionMsg(_, _, _, _) => EncodeSubscription(w, m);
      case RemoveMsg(_, _) => EncodeRemove(w, m);
      case PresenceMsg(_, _, _) => EncodePresence(w, m);
      case ComponentMsg(c) => EncodeComponent(w, c);
      case UpdateMsg(_, _) => EncodeUpdate(w, m);
      case MasterMsg(_, _) => EncodeMaster(w, m);
    }
    assert w.kinds == KindsOf(m) && w.fields == FieldsOf(m);
    EncodedWhole(m);
  }

  /** A message's fields as one sequence. */
  lemma EncodedWhole(m: Message)
    ensures Encodable(m) <==> AllFit(KindsOf(m), FieldsOf(m))
    ensures Encodable(m) ==> EncodeFields(KindsOf(m), FieldsOf(m)) == Encode(m)
  {
    var ks, fs := FixedKinds(ShapeOf(m)), FixedFields(m);
    var ks', fs' := ComponentKinds(|Components(m)|), ComponentFields(Components(m));
    if Encodable(m) {
      FieldsConcat(ks, fs, ks', fs');
    } else if AllFit(ks + ks', fs + fs') {
      AllFitSplit(ks, fs, ks', fs');
    }
  }

  lemma {:induction false} ComponentsSnoc(cs: seq<Component>, i: nat)
    requires i < |cs|
    ensures ComponentKinds(i + 1) == ComponentKinds(i) + [I32, KText, KText]
    ensures var c := cs[i];
            ComponentFields(cs[..i + 1]) == ComponentFields(cs[..i]) + [FInt(c.owner), FText(c.ip), FText(c.port)]
    decreases i
  {
    if i > 0 {
      ComponentsSnoc(cs[1..], i - 1);
      assert cs[1..][..i] == cs[..i + 1][1..] && cs[1..][..i - 1] == cs[..i][1..];
    }
  }

  // ---------------------------------------------------------------- reading

  /** Reading one more field after `ks`. */
  lemma DecodeSnoc(ks: seq<Kind>, k: Kind, s: seq<Byte>)
    ensures var a := DecodeFields(ks, s);
            DecodeFields(ks + [k], s) ==
              if a.None? then None
              else
                var b := DecodeField(k, a.value.rest);
                if b.None? then None else Some(Parsed(a.value.value + [b.value.value], b.value.rest))
  {
    DecodeConcat(ks, [k], s);
    var a := DecodeFields(ks, s);
    if a.Some? {
      var b := DecodeField(k, a.value.rest);
      assert [k][1..] == [];
      if b.Some? {
        assert DecodeFields([], b.value.rest) == Some(Parsed([], b.value.rest));
        assert [b.value.value] + [] == [b.value.value];
      }
    }
  }

  /** Slices of the unread part are slices of the input. */
  lemma Within(bytes: seq<Byte>, offset: nat, n: nat)
    requires offset + n <= |bytes|
    ensures bytes[offset..][..n] == bytes[offset..offset + n] && bytes[offset..][n..] == bytes[offset + n..]
  {
  }

  /** Reading a string at `offset`, in terms of the whole input. */
  lemma TextAt(bytes: seq<Byte>, offset: nat)
    requires offset + 4 <= |bytes|
    ensures var n, start := FromLittleEndian(bytes[offset..offset + 4]), offset + 4;
            DecodeField(KText, bytes[offset..]) ==
              if start + n > |bytes| then None else Some(Parsed(FText(bytes[start..start + n]), bytes[start + n..]))
  {
    Within(bytes, offset, 4);
    var n, start, rest := FromLittleEndian(bytes[offset..offset + 4]), offset + 4, bytes[offset..];
    if start + n <= |bytes| {
      TextSlice(bytes, offset, n);
    }
  }

  lemma TextSlice(bytes: seq<Byte>, offset: nat, n: nat)
    requires offset + 4 + n <= |bytes|
    ensures bytes[offset..][4..4 + n] == bytes[offset + 4..offset + 4 + n]
        && bytes[offset..][4 + n..] == bytes[offset + 4 + n..]
  {
  }

  class Reader {
    const bytes: seq<Byte>
    var offset: nat
    var failed: bool
    ghost var kinds: seq<Kind>
    ghost var fields: seq<Field>

    /** The fields read so far are what the input decodes to, and `offset` is where decoding stopped. */
    ghost predicate Ok()
      reads this
    {
      && offset <= |bytes|
      && DecodeFields(kinds, bytes) == if failed then None else Some(Parsed(fields, bytes[offset..]))
    }

    constructor (input: seq<Byte>)
      ensures bytes == input && Ok() && !failed && kinds == [] && offset == 0
    {
      bytes, offset, failed, kinds, fields := input, 0, false, [], [];
    }

    /** Moves to `next` having read field `f` of kind `k`; without a field the read has failed. */
    method Advance(ghost k: Kind, ghost f: Option<Field>, next: nat, ok: bool)
      requires Ok() && offset <= next <= |bytes| && (ok <==> f.Some?) && (failed ==> !ok)
      requires !failed ==> DecodeField(k, bytes[offset..]) == if ok then Some(Parsed(f.value, bytes[next..])) else None
      modifies this
      ensures Ok() && kinds == old(kinds) + [k] && failed == !ok
      ensures ok ==> fields == old(fields) + [f.value] && offset == next
    {
      DecodeSnoc(kinds, k, bytes);
      kinds := kinds + [k];
      if ok {
        fields := fields + [f.value];
        offset := next;
      } else {
        failed := true;
      }
    }

    method Integer(n: nat, signed: bool) returns (v: int)
      requires Ok()
      modifies this
      ensures Ok() && kinds == old(kinds) + [KInt(n, signed)] && (old(failed) ==> failed)
      ensures if failed then v == 0 else fields == old(fields) + [FInt(v)]
      ensures failed <==> old(failed) || old(offset) + n > |bytes|
      ensures !failed ==>
                && offset == old(offset) + n && InRange(n, signed, v)
                && bytes[old(offset)..offset] == F.LowBytes(n, v)
    {
      if failed || offset + n > |bytes| {
        Advance(KInt(n, signed), None, offset, false);
        return 0;
      }
      Within(bytes, offset, n);
      v := Value(n, signed, FromLittleEndian(bytes[offset..offset + n]));
      F.IntRead(bytes[offset..offset + n], n, signed);
      Advance(KInt(n, signed), Some(FInt(v)), offset + n, true);
    }

    method Enum(highest: nat) returns (v: nat)
      requires Ok()
      modifies this
      ensures Ok() && kinds == old(kinds) + [KEnum(highest)] && (old(failed) ==> failed)
      ensures !failed ==> fields == old(fields) + [FEnum(v)]
    {
      if failed || offset + 1 > |bytes| || bytes[offset] > highest {
        Advance(KEnum(highest), None, offset, false);
        return 0;
      }
      v := bytes[offset];
      assert bytes[offset..][1..] == bytes[offset + 1..];
      Advance(KEnum(highest), Some(FEnum(v)), offset + 1, true);
    }

    method Boolean() returns (b: bool)
      requires Ok()
      modifies this
      ensures Ok() && kinds == old(kinds) + [KBool] && (old(failed) ==> failed)
      ensures !failed ==> fields == old(fields) + [FBool(b)]
    {
      if failed || offset + 1 > |bytes| {
        Advance(KBool, None, offset, false);
        return false;
      }
      b := bytes[offset] != 0;
      assert bytes[offset..][1..] == bytes[offset + 1..];
      Advance(KBool, Some(FBool(b)), offset + 1, true);
    }

    method String() returns (t: Text)
      requires Ok()
      modifies this
      ensures Ok() && kinds == old(kinds) + [KText] && (old(failed) ==> failed)
      ensures !failed ==> fields == old(fields) + [FText(t)]
    {
      if failed || offset + 4 > |bytes| {
        Advance(KText, None, offset, false);
        return [];
      }
      var n := FromLittleEndian(bytes[offset..offset + 4]);
      var start := offset + 4;
      TextAt(bytes, offset);
      if start + n > |bytes| {
        Advance(KText, None, offset, false);
        return [];
      }
      t := bytes[start..start + n];
      Advance(KText, Some(FText(t)), start + n, true);
    }
  }

  method DecodeComponent(r: Reader) returns (c: Component)
    requires r.Ok()
    modifies r
    ensures r.Ok() && r.kinds == old(r.kinds) + [I32, KText, KText] && (old(r.failed) ==> r.failed)
    ensures !r.failed ==> r.fields == old(r.fields) + [FInt(c.owner), FText(c.ip), FText(c.port)]
  {
    var owner := r.Integer(4, true);
    var ip := r.String();
    var port := r.String();
    c := Component(owner, ip, port);
  }

  method DecodePair(r: Reader) returns (m: Message)
    requires r.Ok() && r.kinds == [] && !r.failed
    modifies r
    ensures r.Ok() && r.kinds == FixedKinds(PairShape)
    ensures !r.failed ==> m.PairMsg? && r.fields == FixedFields(m)
  {
    var owner := r.Integer(4, true);
    var key := r.String();
    var value := r.String();
    var ty := r.Enum(3);
    var writeTime := r.Integer(8, true);
    var expiryTime := r.Integer(8, true);
    m := PairMsg(owner, key, value, ty, writeTime, expiryTime);
  }

  method DecodeSubscription(r: Reader) returns (m: Message)
    requires r.Ok() && r.kinds == [] && !r.failed
    modifies r
    ensures r.Ok() && r.kinds == FixedKinds(SubscriptionShape)
    ensures !r.failed ==> m.SubscriptionMsg? && r.fields == FixedFields(m)
  {
    var key := r.String();
    var owner := r.Integer(4, true);
    var subscriber := r.Integer(4, true);
    var registering := r.Boolean();
    m := SubscriptionMsg(key, owner, subscriber, registering);
  }

  method DecodeRemove(r: Reader) returns (m: Message)
    requires r.Ok() && r.kinds == [] && !r.failed
    modifies r
    ensures r.Ok() && r.kinds == FixedKinds(RemoveShape)
    ensures !r.failed ==> m.RemoveMsg? && r.fields == FixedFields(m)
  {
    var owner := r.Integer(4, true);
    var key := r.String();
    m := RemoveMsg(owner, key);
  }

  method DecodePresence(r: Reader) returns (m: Message)
    requires r.Ok() && r.kinds == [] && !r.failed
    modifies r
    ensures r.Ok() && r.kinds == FixedKinds(PresenceShape)
    ensures !r.failed ==> m.PresenceMsg? && r.fields == FixedFields(m)
  {
    var port := r.String();
    var force := r.Boolean();
    var owner := r.Integer(4, true);
    m := PresenceMsg(port, force, owner);
  }

  method DecodeUpdate(r: Reader) returns (m: Message)
    requires r.Ok() && r.kinds == [] && !r.failed
    modifies r
    ensures r.Ok() && r.kinds == FixedKinds(UpdateShape)
    ensures !r.failed ==> m.UpdateMsg? && r.fields == FixedFields(m)
  {
    var operation := r.Enum(1);
    var c := DecodeComponent(r);
    m := UpdateMsg(operation, c);
  }

  /** `decode` of the messages without components. */
  method DecodeFixed(r: Reader, shape: Shape) returns (m: Message)
    requires r.Ok() && r.kinds == [] && !r.failed && !shape.MasterShape?
    modifies r
    ensures r.Ok() && r.kinds == FixedKinds(shape)
    ensures !r.failed ==> |r.fields| == |FixedKinds(shape)| && m == MessageFrom(shape, r.fields, [])
  {
    match shape
    case PairShape => m := DecodePair(r);
    case SubscriptionShape => m := DecodeSubscription(r);
    case RemoveShape => m := DecodeRemove(r);
    case PresenceShape => m := DecodePresence(r);
    case ComponentShape =>
      var c := DecodeComponent(r);
      m := ComponentMsg(c);
    case UpdateShape => m := DecodeUpdate(r);
  }

  /** `decode` of a master message. An implausible count is refused before any component is read. */
  method DecodeMaster(r: Reader) returns (m: Option<Message>)
    requires r.Ok() && r.kinds == [] && !r.failed
    modifies r
    ensures r.Ok()
    ensures m == var d := Decode(MasterShape, r.bytes); if d.None? then None else Some(d.value.value)
    ensures m.Some? ==> !r.failed && Decode(MasterShape, r.bytes).value.rest == r.bytes[r.offset..]
  {
    ghost var ks := FixedKinds(MasterShape);
    var owner := r.Integer(4, true);
    var count := r.Integer(4, false);
    assert r.kinds == ks;
    if r.failed { return None; }
    ghost var fs := r.fields;
    assert fs == [FInt(owner), FInt(count)];
    AnnouncedCount(r.bytes);
    if count > MAX_COMPONENTS { return None; }
    ghost var rest := r.bytes[r.offset..];
    var cs: seq<Component> := [];
    while |cs| < count
      invariant r.Ok() && |cs| <= count
      invariant r.kinds == ks + ComponentKinds(|cs|)
      invariant !r.failed ==> r.fields == fs + ComponentFields(cs)
    {
      ghost var before := cs;
      var c := DecodeComponent(r);
      cs := cs + [c];
      ComponentsSnoc(cs, |before|);
      assert cs[..|before|] == before && cs[..|before| + 1] == cs;
      AssociativeKinds(ks, ComponentKinds(|before|), [I32, KText, KText]);
      AssociativeFields(fs, ComponentFields(before), [FInt(c.owner), FText(c.ip), FText(c.port)]);
    }
    DecodeConcat(ks, ComponentKinds(count), r.bytes);
    if r.failed { return None; }
    assert r.fields[|fs|..] == ComponentFields(cs);
    ghost var more := DecodeFields(ComponentKinds(count), rest).value;
    assert (fs + more.value)[|fs|..] == more.value;
    ComponentsRoundTrip(cs);
    return Some(MasterMsg(owner, cs));
  }

  /** A count read as an unsigned integer is never negative. */
  lemma AnnouncedCount(s: seq<Byte>)
    requires DecodeFields([I32, U32], s).Some?
    ensures IntOf(DecodeFields([I32, U32], s).value.value[1]) >= 0
  {
    DecodeSnoc([I32], U32, s);
    assert [I32] + [U32] == [I32, U32];
  }

  /** `decodePayload`: rejects bytes left over as well as bytes missing. */
  method DecodePayload(shape: Shape, payload: seq<Byte>) returns (m: Option<Message>)
    ensures m == Codec.DecodePayload(shape, payload)
  {
    var r := new Reader(payload);
    if shape.MasterShape? {
      m := DecodeMaster(r);
      if m.None? { return None; }
    } else {
      var fixed := DecodeFixed(r, shape);
      NoComponents(shape, payload);
      if r.failed { return None; }
      m := Some(fixed);
    }
    if r.offset != |payload| { return None; }
  }

  lemma NoComponents(shape: Shape, s: seq<Byte>)
    requires !shape.MasterShape?
    ensures var fixed := DecodeFields(FixedKinds(shape), s);
            Decode(shape, s) == if fixed.None? then None
                                else Some(Parsed(MessageFrom(shape, fixed.value.value, []), fixed.value.rest))
  {
    var fixed := DecodeFields(FixedKinds(shape), s);
    if fixed.Some? {
      assert Announced(shape, fixed.value.value) == 0;
      assert DecodeFields(ComponentKinds(0), fixed.value.rest) == Some(Parsed([], fixed.value.rest));
    }
  }

  /** `frameOf`: nothing is sent when a string or the whole payload is over the limit. */
  method FrameMessage(t: Typed) returns (frame: Option<seq<Byte>>)
    requires Representable(t.msg) && ShapeOf(t.msg) == ShapeFor(t.ty)
    ensures frame.Some? <==> Encodable(t.msg) && |Encode(t.msg)| <= MAX_PAYLOAD
    ensures frame.Some? ==> frame.value == FrameOf(t)
  {
    var w := new Writer();
    EncodeMessage(w, t.msg);
    if w.failed || |w.buffer| > MAX_PAYLOAD { return None; }
    Pow256Of4();
    return Some(EncodeHeader(Header(t.ty, |w.buffer|, -1)) + w.buffer);
  }
}
