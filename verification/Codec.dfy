/** The messages of the protocol as bytes: payloads, frames and whole streams. */
module Codec {
  import opened Base
  import opened Fields

  type Text = seq<Byte>

  const MAGIC: nat := 0x504E5253
  const VERSION: nat := 2
  const HEADER_SIZE: nat := 16

  /** `sizeof(ComponentInfo)` with 32-byte strings on a 64-bit target. */
  const SIZEOF_COMPONENT: nat := 72
  const MAX_COMPONENTS: nat := MAX_PAYLOAD / SIZEOF_COMPONENT

  datatype Component = Component(owner: int, ip: Text, port: Text)

  /** Times are nanosecond counts; the enums are their underlying bytes. */
  datatype Message =
    | PairMsg(owner: int, key: Text, value: Text, ty: nat, writeTime: int, expiryTime: int)
    | SubscriptionMsg(key: Text, ownerId: int, subscriber: int, registering: bool)
    | RemoveMsg(owner: int, key: Text)
    | PresenceMsg(port: Text, force: bool, ownerId: int)
    | ComponentMsg(component: Component)
    | UpdateMsg(operation: nat, component: Component)
    | MasterMsg(owner: int, components: seq<Component>)

  /** Which `decode` overload applies. */
  datatype Shape =
    PairShape | SubscriptionShape | RemoveShape | PresenceShape | ComponentShape | UpdateShape | MasterShape

  const I32 := KInt(4, true)
  const U32 := KInt(4, false)
  const I64 := KInt(8, true)

  // ---------------------------------------------------------------- messages as fields

  function ShapeOf(m: Message): Shape {
    match m
    case PairMsg(_, _, _, _, _, _) => PairShape
    case SubscriptionMsg(_, _, _, _) => SubscriptionShape
    case RemoveMsg(_, _) => RemoveShape
    case PresenceMsg(_, _, _) => PresenceShape
    case ComponentMsg(_) => ComponentShape
    case UpdateMsg(_, _) => UpdateShape
    case MasterMsg(_, _) => MasterShape
  }

  /** The fields of a shape in wire order. A master message goes on with its components. */
  function FixedKinds(shape: Shape): seq<Kind> {
    match shape
    case PairShape => [I32, KText, KText, KEnum(3), I64, I64]
    case SubscriptionShape => [KText, I32, I32, KBool]
    case RemoveShape => [I32, KText]
    case PresenceShape => [KText, KBool, I32]
    case ComponentShape => [I32, KText, KText]
    case UpdateShape => [KEnum(1), I32, KText, KText]
    case MasterShape => [I32, U32]
  }

  function FixedFields(m: Message): seq<Field> {
    match m
    case PairMsg(o, k, v, t, w, e) => [FInt(o), FText(k), FText(v), FEnum(t), FInt(w), FInt(e)]
    case SubscriptionMsg(k, o, s, r) => [FText(k), FInt(o), FInt(s), FBool(r)]
    case RemoveMsg(o, k) => [FInt(o), FText(k)]
    case PresenceMsg(p, f, o) => [FText(p), FBool(f), FInt(o)]
    case ComponentMsg(c) => [FInt(c.owner), FText(c.ip), FText(c.port)]
    case UpdateMsg(op, c) => [FEnum(op), FInt(c.owner), FText(c.ip), FText(c.port)]
    case MasterMsg(o, cs) => [FInt(o), FInt(|cs|)]
  }

  function ComponentKinds(n: nat): seq<Kind> {
    if n == 0 then [] else [I32, KText, KText] + ComponentKinds(n - 1)
  }

  function ComponentFields(cs: seq<Component>): seq<Field> {
    if cs == [] then [] else [FInt(cs[0].owner), FText(cs[0].ip), FText(cs[0].port)] + ComponentFields(cs[1..])
  }

  function Components(m: Message): seq<Component> { if m.MasterMsg? then m.components else [] }

  function KindsOf(m: Message): seq<Kind> { FixedKinds(ShapeOf(m)) + ComponentKinds(|Components(m)|) }

  function FieldsOf(m: Message): seq<Field> { FixedFields(m) + ComponentFields(Components(m)) }

  /** Every field fits its wire type; in particular no string is over the limit. */
  predicate Encodable(m: Message) {
    && AllFit(FixedKinds(ShapeOf(m)), FixedFields(m))
    && AllFit(ComponentKinds(|Components(m)|), ComponentFields(Components(m)))
  }

  /** And a master message is within the cap its reader puts on the component count. */
  predicate WellTyped(m: Message) {
    Encodable(m) && |Components(m)| <= MAX_COMPONENTS
  }

  function Encode(m: Message): seq<Byte>
    requires Encodable(m)
  {
    EncodeFields(FixedKinds(ShapeOf(m)), FixedFields(m))
    + EncodeFields(ComponentKinds(|Components(m)|), ComponentFields(Components(m)))
  }

  // ---------------------------------------------------------------- decoding

  function IntOf(f: Field): int { if f.FInt? then f.v else 0 }
  function EnumOf(f: Field): nat { if f.FEnum? then f.e else 0 }
  function BoolOf(f: Field): bool { f.FBool? && f.b }
  function TextOf(f: Field): Text { if f.FText? then f.text else [] }

  function ComponentsFrom(fs: seq<Field>): seq<Component> {
    if |fs| < 3 then []
    else [Component(IntOf(fs[0]), TextOf(fs[1]), TextOf(fs[2]))] + ComponentsFrom(fs[3..])
  }

  function MessageFrom(shape: Shape, fs: seq<Field>, cs: seq<Component>): Message
    requires |fs| == |FixedKinds(shape)|
  {
    match shape
    case PairShape => PairMsg(IntOf(fs[0]), TextOf(fs[1]), TextOf(fs[2]), EnumOf(fs[3]), IntOf(fs[4]), IntOf(fs[5]))
    case SubscriptionShape => SubscriptionMsg(TextOf(fs[0]), IntOf(fs[1]), IntOf(fs[2]), BoolOf(fs[3]))
    case RemoveShape => RemoveMsg(IntOf(fs[0]), TextOf(fs[1]))
    case PresenceShape => PresenceMsg(TextOf(fs[0]), BoolOf(fs[1]), IntOf(fs[2]))
    case ComponentShape => ComponentMsg(Component(IntOf(fs[0]), TextOf(fs[1]), TextOf(fs[2])))
    case UpdateShape => UpdateMsg(EnumOf(fs[0]), Component(IntOf(fs[1]), TextOf(fs[2]), TextOf(fs[3])))
    case MasterShape => MasterMsg(IntOf(fs[0]), cs)
  }

  /** How many components the fixed fields announce. */
  function Announced(shape: Shape, fs: seq<Field>): nat
    requires |fs| == |FixedKinds(shape)|
  {
    if shape.MasterShape? && IntOf(fs[1]) >= 0 then IntOf(fs[1]) else 0
  }

  function Decode(shape: Shape, s: seq<Byte>): Option<Parsed<Message>> {
    var fixed := DecodeFields(FixedKinds(shape), s);
    if fixed.None? then None
    else
      var count := Announced(shape, fixed.value.value);
      if count > MAX_COMPONENTS then None
      else
        var more := DecodeFields(ComponentKinds(count), fixed.value.rest);
        if more.None? then None
        else Some(Parsed(MessageFrom(shape, fixed.value.value, ComponentsFrom(more.value.value)), more.value.rest))
  }

  /** `decodePayload`: the whole payload or nothing. */
  function DecodePayload(shape: Shape, s: seq<Byte>): Option<Message> {
    var r := Decode(shape, s);
    if r.Some? && r.value.rest == [] then Some(r.value.value) else None
  }

  // ---------------------------------------------------------------- round trip and exactness of payloads

  lemma {:induction false} ComponentsRoundTrip(cs: seq<Component>)
    ensures ComponentsFrom(ComponentFields(cs)) == cs
    ensures |ComponentFields(cs)| == |ComponentKinds(|cs|)|
  {
    if cs != [] {
      ComponentsRoundTrip(cs[1..]);
      assert ComponentFields(cs)[3..] == ComponentFields(cs[1..]);
      assert cs == [cs[0]] + cs[1..];
    }
  }

  lemma MessageRoundTrip(m: Message)
    requires AllFit(FixedKinds(ShapeOf(m)), FixedFields(m))
    ensures MessageFrom(ShapeOf(m), FixedFields(m), Components(m)) == m
    ensures Announced(ShapeOf(m), FixedFields(m)) == |Components(m)|
  {
  }

  /** Decoding an encoded message returns it and leaves the rest of the input alone. */
  lemma DecodeEncoded(m: Message, rest: seq<Byte>)
    requires WellTyped(m)
    ensures Decode(ShapeOf(m), Encode(m) + rest) == Some(Parsed(m, rest))
  {
    var ks, fs := FixedKinds(ShapeOf(m)), FixedFields(m);
    var ks', fs' := ComponentKinds(|Components(m)|), ComponentFields(Components(m));
    MessageRoundTrip(m);
    ComponentsRoundTrip(Components(m));
    Associative(EncodeFields(ks, fs), EncodeFields(ks', fs'), rest);
    FieldsRoundTrip(ks, fs, EncodeFields(ks', fs') + rest);
    FieldsRoundTrip(ks', fs', rest);
  }

  lemma DecodeExtend(shape: Shape, s: seq<Byte>, t: seq<Byte>)
    requires Decode(shape, s).Some?
    ensures var p := Decode(shape, s).value;
            Decode(shape, s + t) == Some(Parsed(p.value, p.rest + t))
  {
    var fixed := DecodeFields(FixedKinds(shape), s).value;
    FieldsExtend(FixedKinds(shape), s, t);
    FieldsExtend(ComponentKinds(Announced(shape, fixed.value)), fixed.rest, t);
  }

  /** A count over the cap is refused, whatever follows it. */
  lemma OverCapRefused(m: Message, rest: seq<Byte>)
    requires Encodable(m) && |Components(m)| > MAX_COMPONENTS
    ensures Decode(ShapeOf(m), Encode(m) + rest) == None
  {
    var ks, fs := FixedKinds(ShapeOf(m)), FixedFields(m);
    var tail := EncodeFields(ComponentKinds(|Components(m)|), ComponentFields(Components(m)));
    MessageRoundTrip(m);
    Associative(EncodeFields(ks, fs), tail, rest);
    FieldsRoundTrip(ks, fs, tail + rest);
  }

  /** Every message that can be encoded decodes to itself, exactly if its component count is within the reader's cap. */
  lemma PayloadRoundTripIff(m: Message)
    requires Encodable(m)
    ensures DecodePayload(ShapeOf(m), Encode(m)) == Some(m) <==> |Components(m)| <= MAX_COMPONENTS
    ensures |Components(m)| > MAX_COMPONENTS ==> DecodePayload(ShapeOf(m), Encode(m)) == None
  {
    if |Components(m)| <= MAX_COMPONENTS {
      PayloadRoundTrip(m);
    } else {
      OverCapRefused(m, []);
      assert Encode(m) + [] == Encode(m);
    }
  }

  lemma PayloadRoundTrip(m: Message)
    requires WellTyped(m)
    ensures DecodePayload(ShapeOf(m), Encode(m)) == Some(m)
  {
    DecodeEncoded(m, []);
    assert Encode(m) + [] == Encode(m);
  }

  /** No strict prefix and no strict extension of an encoding is accepted. */
  lemma PayloadExact(m: Message, s: seq<Byte>)
    requires WellTyped(m) && s != Encode(m) && (s <= Encode(m) || Encode(m) <= s)
    ensures DecodePayload(ShapeOf(m), s) == None
  {
    var e := Encode(m);
    if e <= s {
      var t := s[|e|..];
      assert s == e + t;
      DecodeEncoded(m, t);
    } else {
      var t := e[|s|..];
      assert e == s + t && e == e + [];
      DecodeEncoded(m, []);
      if Decode(ShapeOf(m), s).Some? { DecodeExtend(ShapeOf(m), s, t); }
    }
  }

  lemma {:induction false} ComponentKindsPlain(n: nat)
    ensures KBool !in ComponentKinds(n) && ByteEnums(ComponentKinds(n)) && |ComponentKinds(n)| == 3 * n
  {
    if n > 0 { ComponentKindsPlain(n - 1); }
  }

  lemma {:induction false} ComponentsExact(fs: seq<Field>, n: nat)
    requires AllFit(ComponentKinds(n), fs)
    ensures |ComponentsFrom(fs)| == n && ComponentFields(ComponentsFrom(fs)) == fs
  {
    if n > 0 {
      assert AllFit(ComponentKinds(n - 1), fs[3..]) by {
        forall i | 0 <= i < |fs| - 3 ensures Fits(ComponentKinds(n - 1)[i], fs[3..][i]) {
          assert ComponentKinds(n)[i + 3] == ComponentKinds(n - 1)[i];
        }
      }
      ComponentsExact(fs[3..], n - 1);
      assert Fits(ComponentKinds(n)[0], fs[0]) && Fits(ComponentKinds(n)[1], fs[1])
          && Fits(ComponentKinds(n)[2], fs[2]);
      assert ComponentsFrom(fs)[1..] == ComponentsFrom(fs[3..]);
    }
  }

  lemma FixedExact(shape: Shape, fs: seq<Field>, cs: seq<Component>)
    requires AllFit(FixedKinds(shape), fs) && |cs| == Announced(shape, fs)
    ensures var m := MessageFrom(shape, fs, cs);
            ShapeOf(m) == shape && FixedFields(m) == fs && (shape.MasterShape? ==> Components(m) == cs)
            && (!shape.MasterShape? ==> Components(m) == [])
  {
  }

  lemma FixedKindsPlain(shape: Shape)
    ensures ByteEnums(FixedKinds(shape))
    ensures KBool in FixedKinds(shape) <==> shape.SubscriptionShape? || shape.PresenceShape?
  {
    if shape.SubscriptionShape? { assert FixedKinds(shape)[3] == KBool; }
    if shape.PresenceShape? { assert FixedKinds(shape)[1] == KBool; }
  }

  /** The announced components are the rest of an accepted master payload, byte for byte. */
  lemma ComponentsReencode(s: seq<Byte>, n: nat)
    requires |s| <= MAX_PAYLOAD && DecodeFields(ComponentKinds(n), s).Some?
    requires DecodeFields(ComponentKinds(n), s).value.rest == []
    ensures var fs := DecodeFields(ComponentKinds(n), s).value.value;
            && AllFit(ComponentKinds(n), fs) && EncodeFields(ComponentKinds(n), fs) == s
            && |ComponentsFrom(fs)| == n && ComponentFields(ComponentsFrom(fs)) == fs
  {
    var ks := ComponentKinds(n);
    var fs := DecodeFields(ks, s).value.value;
    ComponentKindsPlain(n);
    FieldsReencode(ks, s);
    CanonicalOnlyBooleans(ks, s);
    ComponentsExact(fs, n);
    assert EncodeFields(ks, fs) + [] == EncodeFields(ks, fs);
  }

  /** Any accepted payload within the size limit is the encoding of what it decodes to, up to non-zero booleans. */
  lemma PayloadReencodes(shape: Shape, s: seq<Byte>)
    requires |s| <= MAX_PAYLOAD && DecodePayload(shape, s).Some?
    ensures var m := DecodePayload(shape, s).value;
            ShapeOf(m) == shape && WellTyped(m) && Encode(m) == Canonical(FixedKinds(shape), s)
  {
    var ks := FixedKinds(shape);
    var p := DecodeFields(ks, s).value;
    FixedKindsPlain(shape);
    FieldsReencode(ks, s);
    var n := Announced(shape, p.value);
    ComponentsReencode(p.rest, n);
    FixedExact(shape, p.value, ComponentsFrom(DecodeFields(ComponentKinds(n), p.rest).value.value));
  }

  /** So the re-encoding has the same length and differs only where a boolean byte was neither 0 nor 1. */
  lemma PayloadReencodesBytes(shape: Shape, s: seq<Byte>)
    requires |s| <= MAX_PAYLOAD && DecodePayload(shape, s).Some?
    ensures var m := DecodePayload(shape, s).value;
            WellTyped(m) &&
            var e := Encode(m);
            && |e| == |s|
            && (forall i :: 0 <= i < |s| ==> WrittenAt(FixedKinds(shape), s, i, e[i]))
            && (!shape.SubscriptionShape? && !shape.PresenceShape? ==> e == s)
  {
    PayloadReencodes(shape, s);
    FixedKindsPlain(shape);
    CanonicalOnlyBooleans(FixedKinds(shape), s);
  }

  // ---------------------------------------------------------------- frames

  datatype MessageType =
    | TSubscription | TPair | TPairUpdate | TPresence | TMaster | TUpdate | TRemove | TRemoved

  datatype Header = Header(ty: MessageType, length: nat, subscriber: int)

  /** A message under the type it travels as: `Pair` and `PairUpdate` share a payload, so do the removals. */
  datatype Typed = Typed(ty: MessageType, msg: Message)

  function Code(t: MessageType): nat {
    match t
    case TSubscription => 1 case TPair => 2 case TPairUpdate => 3 case TPresence => 4
    case TMaster => 5 case TUpdate => 6 case TRemove => 7 case TRemoved => 8
  }

  function TypeOf(code: int): Option<MessageType> {
    match code
    case 1 => Some(TSubscription) case 2 => Some(TPair) case 3 => Some(TPairUpdate) case 4 => Some(TPresence)
    case 5 => Some(TMaster) case 6 => Some(TUpdate) case 7 => Some(TRemove) case 8 => Some(TRemoved)
    case _ => None
  }

  function ShapeFor(t: MessageType): Shape {
    match t
    case TSubscription => SubscriptionShape
    case TPair => PairShape
    case TPairUpdate => PairShape
    case TPresence => PresenceShape
    case TMaster => MasterShape
    case TUpdate => UpdateShape
    case TRemove => RemoveShape
    case TRemoved => RemoveShape
  }

  const HEADER_KINDS := [U32, KInt(1, false), KInt(1, false), KInt(2, false), U32, I32]

  function HeaderFields(h: Header): seq<Field> {
    [FInt(MAGIC), FInt(VERSION), FInt(Code(h.ty)), FInt(0), FInt(h.length), FInt(h.subscriber)]
  }

  predicate HeaderFits(h: Header) { h.length <= MAX_PAYLOAD && InRange(4, true, h.subscriber) }

  lemma HeaderFieldsFit(h: Header)
    requires HeaderFits(h)
    ensures AllFit(HEADER_KINDS, HeaderFields(h))
  {
    Pow256Of4();
    assert Pow256(2) == 65536;
  }

  function EncodeHeader(h: Header): (r: seq<Byte>)
    requires HeaderFits(h)
  {
    HeaderFieldsFit(h);
    EncodeFields(HEADER_KINDS, HeaderFields(h))
  }

  function DecodeHeader(s: seq<Byte>): Option<Header> {
    if |s| != HEADER_SIZE then None
    else
      var r := DecodeFields(HEADER_KINDS, s);
      if r.None? then None
      else
        var fs := r.value.value;
        var ty := TypeOf(IntOf(fs[2]));
        if IntOf(fs[0]) != MAGIC || IntOf(fs[1]) != VERSION || ty.None? then None
        else if !(0 <= IntOf(fs[4]) <= MAX_PAYLOAD) then None
        else Some(Header(ty.value, IntOf(fs[4]), IntOf(fs[5])))
  }

  lemma HeaderRoundTrip(h: Header)
    requires HeaderFits(h)
    ensures |EncodeHeader(h)| == HEADER_SIZE && DecodeHeader(EncodeHeader(h)) == Some(h)
  {
    HeaderFieldsFit(h);
    FieldsRoundTrip(HEADER_KINDS, HeaderFields(h), []);
    assert EncodeHeader(h) + [] == EncodeHeader(h);
    HeaderSize(HeaderFields(h));
  }

  lemma HeaderSize(fs: seq<Field>)
    requires AllFit(HEADER_KINDS, fs)
    ensures |EncodeFields(HEADER_KINDS, fs)| == HEADER_SIZE
  {
    var ks := HEADER_KINDS;
    assert |EncodeFields(ks[5..], fs[5..])| == 4;
    assert |EncodeFields(ks[4..], fs[4..])| == 8 by { assert ks[4..][1..] == ks[5..] && fs[4..][1..] == fs[5..]; }
    assert |EncodeFields(ks[3..], fs[3..])| == 10 by { assert ks[3..][1..] == ks[4..] && fs[3..][1..] == fs[4..]; }
    assert |EncodeFields(ks[2..], fs[2..])| == 11 by { assert ks[2..][1..] == ks[3..] && fs[2..][1..] == fs[3..]; }
    assert |EncodeFields(ks[1..], fs[1..])| == 12 by { assert ks[1..][1..] == ks[2..] && fs[1..][1..] == fs[2..]; }
  }

  /** A message that `frameOf` accepts: its payload is within the limit and of the type's shape. */
  predicate Framable(t: Typed) {
    ShapeOf(t.msg) == ShapeFor(t.ty) && Encodable(t.msg) && |Encode(t.msg)| <= MAX_PAYLOAD
  }

  /** And which a reader accepts too. */
  predicate Sendable(t: Typed) { Framable(t) && WellTyped(t.msg) }

  function FrameOf(t: Typed): seq<Byte>
    requires Framable(t)
  {
    Pow256Of4();
    EncodeHeader(Header(t.ty, |Encode(t.msg)|, -1)) + Encode(t.msg)
  }

  // ---------------------------------------------------------------- streams

  /** One turn of the read loop: header, then exactly the announced payload. */
  function ReadFrame(s: seq<Byte>): (r: Option<Parsed<Typed>>)
    ensures r.Some? ==> |r.value.rest| < |s|
  {
    if |s| < HEADER_SIZE then None
    else
      var h := DecodeHeader(s[..HEADER_SIZE]);
      if h.None? || |s| < HEADER_SIZE + h.value.length then None
      else
        var end := HEADER_SIZE + h.value.length;
        var m := DecodePayload(ShapeFor(h.value.ty), s[HEADER_SIZE..end]);
        if m.None? then None else Some(Parsed(Typed(h.value.ty, m.value), s[end..]))
  }

  /** Everything a peer reads off the socket, if all of it is well formed. */
  function ReadStream(s: seq<Byte>): Option<seq<Typed>>
    decreases |s|
  {
    if s == [] then Some([])
    else
      var first := ReadFrame(s);
      if first.None? then None
      else
        var others := ReadStream(first.value.rest);
        if others.None? then None else Some([first.value.value] + others.value)
  }

  function StreamOf(ts: seq<Typed>): seq<Byte>
    requires forall i :: 0 <= i < |ts| ==> Sendable(ts[i])
  {
    if ts == [] then [] else assert Sendable(ts[0]); FrameOf(ts[0]) + StreamOf(ts[1..])
  }

  lemma FrameRoundTrip(t: Typed, rest: seq<Byte>)
    requires Sendable(t)
    ensures ReadFrame(FrameOf(t) + rest) == Some(Parsed(t, rest))
  {
    FrameReadsBackIff(t, rest);
  }

  /** Every frame that can be made reads back, exactly if its component count is within the reader's cap. */
  lemma FrameReadsBackIff(t: Typed, rest: seq<Byte>)
    requires Framable(t)
    ensures ReadFrame(FrameOf(t) + rest) == Some(Parsed(t, rest)) <==> |Components(t.msg)| <= MAX_COMPONENTS
    ensures |Components(t.msg)| > MAX_COMPONENTS ==> ReadFrame(FrameOf(t) + rest) == None
  {
    Pow256Of4();
    var body := Encode(t.msg);
    var h := Header(t.ty, |body|, -1);
    HeaderRoundTrip(h);
    var s := FrameOf(t) + rest;
    assert s[..HEADER_SIZE] == EncodeHeader(h);
    assert s[HEADER_SIZE..HEADER_SIZE + |body|] == body;
    assert s[HEADER_SIZE + |body|..] == rest;
    PayloadRoundTripIff(t.msg);
  }

  lemma ReadAfter(t: Typed, rest: seq<Byte>, ts: seq<Typed>)
    requires Sendable(t) && ReadStream(rest) == Some(ts)
    ensures ReadStream(FrameOf(t) + rest) == Some([t] + ts)
  {
    FrameRoundTrip(t, rest);
  }

  /** Reading the concatenated frames of any sequence of in-limit messages returns exactly that sequence. */
  lemma {:induction false} StreamRoundTrip(ts: seq<Typed>)
    requires forall i :: 0 <= i < |ts| ==> Sendable(ts[i])
    ensures ReadStream(StreamOf(ts)) == Some(ts)
  {
    if ts != [] {
      StreamRoundTrip(ts[1..]);
      ReadAfter(ts[0], StreamOf(ts[1..]), ts[1..]);
      assert ts == [ts[0]] + ts[1..];
    }
  }
}
