/** The format byte by byte, written out apart from the encoder and the decoder, and both proved against it. */
module WireFormat {
  import opened Base
  import opened Fields
  import opened Codec

  // ---------------------------------------------------------------- integers

  lemma AtLeastOnce(d: int, x: int)
    requires d > 0 && x >= 1
    ensures d * x >= d
  {
  }

  lemma DivUnique(v: int, d: int, q: int, r: int)
    requires v == d * q + r && 0 <= r < d
    ensures v / d == q
  {
    var p, m := v / d, v % d;
    assert v == d * p + m && 0 <= m < d;
    assert d * (p - q) == r - m;
    if p > q { AtLeastOnce(d, p - q); }
    if p < q { AtLeastOnce(d, q - p); }
  }

  /** Dividing by 256 first. */
  lemma DivTwice(v: int, p: int)
    requires p >= 1
    ensures v / (256 * p) == v / 256 / p
  {
    var h := v / 256;
    var q, m := h / p, h % p;
    assert h == p * q + m;
    assert 256 * (p * q) == 256 * p * q;
    DivUnique(v, 256 * p, q, 256 * m + v % 256);
  }

  /** The least significant byte comes first. `w` is `v`, or for a negative `v` its two's complement. */
  lemma {:induction false} LittleEndianByte(n: nat, w: nat, v: int, c: int, i: nat)
    requires w == v + c * Pow256(n) && i < n
    ensures ToLittleEndian(n, w)[i] == v / Pow256(i) % 256
  {
    Shift(w, v, c, Pow256(n - 1));
    if i > 0 {
      LittleEndianByte(n - 1, w / 256, v / 256, c, i - 1);
      DivTwice(v, Pow256(i - 1));
    }
  }

  lemma Shift(w: int, v: int, c: int, p: int)
    requires w == v + c * (256 * p)
    ensures w / 256 == v / 256 + c * p && w % 256 == v % 256
  {
    assert c * (256 * p) == 256 * (c * p);
  }

  lemma Pow256Values()
    ensures Pow256(0) == 1 && Pow256(1) == 0x100 && Pow256(2) == 0x1_0000 && Pow256(3) == 0x100_0000
    ensures Pow256(4) == 0x1_0000_0000 && Pow256(5) == 0x100_0000_0000 && Pow256(6) == 0x1_0000_0000_0000
    ensures Pow256(7) == 0x100_0000_0000_0000 && Pow256(8) == 0x1_0000_0000_0000_0000
  {
    assert Pow256(2) == 0x1_0000;
    assert Pow256(4) == 0x1_0000_0000;
    assert Pow256(6) == 0x1_0000_0000_0000;
  }

  /** The `n` low bytes of a number, least significant first; of a negative one, in two's complement. */
  function LowBytes(n: nat, v: int): seq<Byte> {
    seq(n, i requires 0 <= i < n => v / Pow256(i) % 256)
  }

  /** They are what is written for it. */
  lemma IntWritten(n: nat, signed: bool, v: int)
    requires InRange(n, signed, v)
    ensures EncodeInt(n, signed, v) == LowBytes(n, v)
  {
    forall i | 0 <= i < n ensures EncodeInt(n, signed, v)[i] == LowBytes(n, v)[i] {
      LittleEndianByte(n, Pattern(n, v), v, if v < 0 then 1 else 0, i);
    }
  }

  /** And what is read off `n` bytes is the number in range with those bytes. */
  lemma IntRead(s: seq<Byte>, n: nat, signed: bool)
    requires |s| == n
    ensures var v := Value(n, signed, FromLittleEndian(s)); InRange(n, signed, v) && s == LowBytes(n, v)
  {
    assert s[..n] == s;
    IntReencode(n, signed, s);
    IntWritten(n, signed, Value(n, signed, FromLittleEndian(s)));
  }

  function Bytes4(v: int): seq<Byte> {
    [v % 256, v / 0x100 % 256, v / 0x1_0000 % 256, v / 0x100_0000 % 256]
  }

  function Bytes8(v: int): seq<Byte> {
    Bytes4(v)
    + [v / 0x1_0000_0000 % 256, v / 0x100_0000_0000 % 256, v / 0x1_0000_0000_0000 % 256,
       v / 0x100_0000_0000_0000 % 256]
  }

  lemma FewBytes(v: int)
    ensures LowBytes(1, v) == [v % 256] && LowBytes(2, v) == [v % 256, v / 0x100 % 256] && LowBytes(4, v) == Bytes4(v)
  {
    Pow256Values();
  }

  lemma EightBytes(v: int)
    ensures LowBytes(8, v) == Bytes8(v)
  {
    Pow256Values();
  }

  lemma IntBytes(n: nat, signed: bool, v: int)
    requires InRange(n, signed, v)
    ensures n == 1 ==> EncodeInt(n, signed, v) == [v % 256]
    ensures n == 2 ==> EncodeInt(n, signed, v) == [v % 256, v / 0x100 % 256]
    ensures n == 4 ==> EncodeInt(n, signed, v) == Bytes4(v)
    ensures n == 8 ==> EncodeInt(n, signed, v) == Bytes8(v)
  {
    IntWritten(n, signed, v);
    FewBytes(v);
    EightBytes(v);
  }

  lemma Range(v: int)
    ensures InRange(4, true, v) <==> -0x8000_0000 <= v < 0x8000_0000
    ensures InRange(4, false, v) <==> 0 <= v < 0x1_0000_0000
    ensures InRange(8, true, v) <==> -0x8000_0000_0000_0000 <= v < 0x8000_0000_0000_0000
  {
    Pow256Values();
  }

  /** What two and four bytes stand for. */
  function Number2(a: nat, b: nat): nat { a + 0x100 * b }

  function Number4(a: nat, b: nat, c: nat, d: nat): nat { a + 0x100 * b + 0x1_0000 * c + 0x100_0000 * d }

  lemma FromFour(s: seq<Byte>)
    requires |s| == 4
    ensures FromLittleEndian(s) == Number4(s[0], s[1], s[2], s[3])
  {
    assert s[1..][1..] == s[2..] && s[2..][1..] == s[3..] && s[3..][1..] == [];
    assert FromLittleEndian(s[3..]) == s[3];
    assert FromLittleEndian(s[2..]) == Number2(s[2], s[3]);
    assert FromLittleEndian(s[1..]) == s[1] + 256 * FromLittleEndian(s[2..]);
  }

  /** The same read as a signed number. */
  function Signed4(a: nat, b: nat, c: nat, d: nat): int {
    if d >= 0x80 then Number4(a, b, c, d) - 0x1_0000_0000 else Number4(a, b, c, d)
  }

  /** Reading a 32-bit integer off the front. */
  lemma Reads4(s: seq<Byte>)
    requires |s| >= 4
    ensures DecodeField(U32, s) == Some(Parsed(FInt(Number4(s[0], s[1], s[2], s[3])), s[4..]))
    ensures DecodeField(I32, s) == Some(Parsed(FInt(Signed4(s[0], s[1], s[2], s[3])), s[4..]))
  {
    FromFour(s[..4]);
    Pow256Values();
  }

  /** And one or two bytes. */
  lemma ReadsShort(s: seq<Byte>)
    requires |s| >= 2
    ensures DecodeField(KInt(1, false), s) == Some(Parsed(FInt(s[0]), s[1..]))
    ensures DecodeField(KInt(2, false), s) == Some(Parsed(FInt(Number2(s[0], s[1])), s[2..]))
  {
    assert s[..1][1..] == [] && s[..2][1..] == [s[1]];
    assert FromLittleEndian([s[1]]) == s[1];
  }

  // ---------------------------------------------------------------- headers

  const TYPES: seq<MessageType> := [TSubscription, TPair, TPairUpdate, TPresence, TMaster, TUpdate, TRemove, TRemoved]

  lemma TypeCodes(code: int, ty: MessageType)
    ensures TypeOf(code) == Some(ty) <==> 1 <= code <= 8 && TYPES[code - 1] == ty
    ensures 1 <= Code(ty) <= 8 && TYPES[Code(ty) - 1] == ty
  {
  }

  /** The last three fields of sixteen bytes, from the seventh byte on. */
  lemma HeaderTailRead(s: seq<Byte>)
    requires |s| == 10
    ensures var r := DecodeFields([KInt(2, false), U32, I32], s);
            && r.Some? && |r.value.value| == 3
            && r.value.value[1] == FInt(Number4(s[2], s[3], s[4], s[5]))
            && r.value.value[2] == FInt(Signed4(s[6], s[7], s[8], s[9]))
  {
    var ks := [KInt(2, false), U32, I32];
    assert ks[1..] == [U32, I32] && [U32, I32][1..] == [I32] && [I32][1..] == [];
    ReadsShort(s);
    Reads4(s[2..]);
    Reads4(s[6..]);
    assert s[2..][4..] == s[6..];
    assert DecodeFields([I32], s[6..]).Some?;
    assert DecodeFields([U32, I32], s[2..]).Some?;
  }

  lemma HeaderFieldsRead(s: seq<Byte>)
    requires |s| == HEADER_SIZE
    ensures var r := DecodeFields(HEADER_KINDS, s);
            && r.Some? && |r.value.value| == 6 && var fs := r.value.value;
            && fs[0] == FInt(Number4(s[0], s[1], s[2], s[3])) && fs[1] == FInt(s[4]) && fs[2] == FInt(s[5])
            && fs[4] == FInt(Number4(s[8], s[9], s[10], s[11]))
            && fs[5] == FInt(Signed4(s[12], s[13], s[14], s[15]))
  {
    var ks := HEADER_KINDS;
    assert ks[1..][1..] == ks[2..] && ks[2..][1..] == ks[3..] && ks[3..] == [KInt(2, false), U32, I32];
    assert s[4..][1..] == s[5..] && s[5..][1..] == s[6..];
    Reads4(s);
    ReadsShort(s[4..]);
    ReadsShort(s[5..]);
    HeaderTailRead(s[6..]);
    assert DecodeFields(ks[2..], s[5..]).Some?;
    assert DecodeFields(ks[1..], s[4..]).Some?;
  }

  /** These sixteen bytes are a header of this protocol, and this one. The flags may be anything. */
  predicate IsHeader(s: seq<Byte>, h: Header) {
    && |s| == 16 && s[..4] == [0x53, 0x52, 0x4E, 0x50] && s[4] == 2
    && 1 <= s[5] <= 8 && TYPES[s[5] - 1] == h.ty
    && h.length == Number4(s[8], s[9], s[10], s[11]) <= 0x100_0000
    && h.subscriber == Signed4(s[12], s[13], s[14], s[15])
  }

  lemma MagicBytes(s: seq<Byte>)
    requires |s| >= 4
    ensures Number4(s[0], s[1], s[2], s[3]) == MAGIC <==> s[..4] == [0x53, 0x52, 0x4E, 0x50]
  {
  }

  /** Exactly the headers are accepted, and each is read as the header it is. */
  lemma DecodeHeaderIff(s: seq<Byte>, h: Header)
    ensures DecodeHeader(s) == Some(h) <==> IsHeader(s, h)
  {
    if |s| == HEADER_SIZE {
      HeaderFieldsRead(s);
      MagicBytes(s);
      TypeCodes(s[5], h.ty);
    }
  }

  /** So a header of another version, kind of frame or size is refused. */
  lemma HeaderRefused(s: seq<Byte>)
    requires |s| != 16 || s[..4] != [0x53, 0x52, 0x4E, 0x50] || s[4] != 2 || s[5] == 0 || s[5] > 8
             || Number4(s[8], s[9], s[10], s[11]) > 0x100_0000
    ensures DecodeHeader(s) == None
  {
    if DecodeHeader(s).Some? { DecodeHeaderIff(s, DecodeHeader(s).value); }
  }

  // ---------------------------------------------------------------- fields one after another

  lemma One(a: Kind, x: Field)
    ensures AllFit([a], [x]) <==> Fits(a, x)
    ensures Fits(a, x) ==> EncodeFields([a], [x]) == EncodeField(a, x)
  {
    assert [a][1..] == [] && [x][1..] == [];
    if AllFit([a], [x]) { assert Fits([a][0], [x][0]); }
  }

  lemma Two(a: Kind, b: Kind, x: Field, y: Field)
    ensures AllFit([a, b], [x, y]) <==> Fits(a, x) && Fits(b, y)
    ensures AllFit([a, b], [x, y]) ==> EncodeFields([a, b], [x, y]) == EncodeField(a, x) + EncodeField(b, y)
  {
    var ks, fs := [a, b], [x, y];
    if AllFit(ks, fs) { assert Fits(ks[0], fs[0]) && Fits(ks[1], fs[1]); }
    One(b, y);
    assert ks[1..] == [b] && fs[1..] == [y];
  }

  lemma Three(a: Kind, b: Kind, c: Kind, x: Field, y: Field, z: Field)
    ensures AllFit([a, b, c], [x, y, z]) <==> Fits(a, x) && Fits(b, y) && Fits(c, z)
    ensures AllFit([a, b, c], [x, y, z]) ==>
              EncodeFields([a, b, c], [x, y, z]) == EncodeField(a, x) + EncodeField(b, y) + EncodeField(c, z)
  {
    var ks, fs := [a, b, c], [x, y, z];
    if AllFit(ks, fs) {
      assert Fits(ks[0], fs[0]) && Fits(ks[1], fs[1]) && Fits(ks[2], fs[2]);
      Associative(EncodeField(a, x), EncodeField(b, y), EncodeField(c, z));
    }
    Two(b, c, y, z);
    assert ks[1..] == [b, c] && fs[1..] == [y, z];
  }

  /** The first half of a header, and the second. */
  lemma HeaderHead(ty: MessageType)
    ensures var ks, fs := [U32, KInt(1, false), KInt(1, false)], [FInt(MAGIC), FInt(VERSION), FInt(Code(ty))];
            AllFit(ks, fs) && EncodeFields(ks, fs) == [0x53, 0x52, 0x4E, 0x50, 2, Code(ty)]
  {
    Pow256Values();
    Three(U32, KInt(1, false), KInt(1, false), FInt(MAGIC), FInt(VERSION), FInt(Code(ty)));
    IntBytes(4, false, MAGIC);
    IntBytes(1, false, VERSION);
    IntBytes(1, false, Code(ty));
    assert Bytes4(MAGIC) == [0x53, 0x52, 0x4E, 0x50];
  }

  lemma HeaderTail(h: Header)
    requires HeaderFits(h)
    ensures var ks, fs := [KInt(2, false), U32, I32], [FInt(0), FInt(h.length), FInt(h.subscriber)];
            AllFit(ks, fs) && EncodeFields(ks, fs) == [0, 0] + Bytes4(h.length) + Bytes4(h.subscriber)
  {
    Pow256Values();
    Three(KInt(2, false), U32, I32, FInt(0), FInt(h.length), FInt(h.subscriber));
    IntBytes(2, false, 0);
    IntBytes(4, false, h.length);
    IntBytes(4, true, h.subscriber);
  }

  lemma HeaderShape(c: Byte, a: seq<Byte>, b: seq<Byte>)
    ensures [0x53, 0x52, 0x4E, 0x50, 2, c] + ([0, 0] + a + b) == [0x53, 0x52, 0x4E, 0x50, 2, c, 0, 0] + a + b
  {
  }

  /** Every byte of a header that is written. */
  lemma HeaderBytes(h: Header)
    requires HeaderFits(h)
    ensures 1 <= Code(h.ty) <= 8 && TYPES[Code(h.ty) - 1] == h.ty
    ensures EncodeHeader(h) ==
            [0x53, 0x52, 0x4E, 0x50, 2, Code(h.ty), 0, 0] + Bytes4(h.length) + Bytes4(h.subscriber)
  {
    TypeCodes(0, h.ty);
    HeaderHead(h.ty);
    HeaderTail(h);
    HeaderShape(Code(h.ty), Bytes4(h.length), Bytes4(h.subscriber));
    var u8 := KInt(1, false);
    var fs, fs' := [FInt(MAGIC), FInt(VERSION), FInt(Code(h.ty))], [FInt(0), FInt(h.length), FInt(h.subscriber)];
    FieldsConcat([U32, u8, u8], fs, [KInt(2, false), U32, I32], fs');
    assert HEADER_KINDS == [U32, u8, u8] + [KInt(2, false), U32, I32] && HeaderFields(h) == fs + fs';
  }

  // ---------------------------------------------------------------- payloads

  /** A 32-bit length, then the characters. */
  function TextBytes(t: Text): seq<Byte> { Bytes4(|t|) + t }

  predicate Fits32(v: int) { -0x8000_0000 <= v < 0x8000_0000 }

  predicate Fits64(v: int) { -0x8000_0000_0000_0000 <= v < 0x8000_0000_0000_0000 }

  predicate FitsText(t: Text) { |t| <= 0x100_0000 }

  function ComponentBytes(c: Component): seq<Byte> { Bytes4(c.owner) + TextBytes(c.ip) + TextBytes(c.port) }

  function ComponentListBytes(cs: seq<Component>): seq<Byte> {
    if cs == [] then [] else ComponentBytes(cs[0]) + ComponentListBytes(cs[1..])
  }

  predicate FitsComponent(c: Component) { Fits32(c.owner) && FitsText(c.ip) && FitsText(c.port) }

  /** What each message must keep to, field by field. */
  predicate Limits(m: Message) {
    match m
    case PairMsg(o, k, v, ty, w, e) => Fits32(o) && FitsText(k) && FitsText(v) && ty <= 3 && Fits64(w) && Fits64(e)
    case SubscriptionMsg(k, o, s, _) => FitsText(k) && Fits32(o) && Fits32(s)
    case RemoveMsg(o, k) => Fits32(o) && FitsText(k)
    case PresenceMsg(p, _, o) => FitsText(p) && Fits32(o)
    case ComponentMsg(c) => FitsComponent(c)
    case UpdateMsg(op, c) => op <= 1 && FitsComponent(c)
    case MasterMsg(o, cs) =>
      Fits32(o) && |cs| < 0x1_0000_0000 && forall i :: 0 <= i < |cs| ==> FitsComponent(cs[i])
  }

  function Flag(b: bool): Byte { if b then 1 else 0 }

  /** And its bytes. */
  function PayloadBytes(m: Message): seq<Byte>
    requires Limits(m)
  {
    match m
    case PairMsg(o, k, v, ty, w, e) => Bytes4(o) + TextBytes(k) + TextBytes(v) + [ty] + Bytes8(w) + Bytes8(e)
    case SubscriptionMsg(k, o, s, r) => TextBytes(k) + Bytes4(o) + Bytes4(s) + [Flag(r)]
    case RemoveMsg(o, k) => Bytes4(o) + TextBytes(k)
    case PresenceMsg(p, f, o) => TextBytes(p) + [Flag(f)] + Bytes4(o)
    case ComponentMsg(c) => ComponentBytes(c)
    case UpdateMsg(op, c) => [op] + ComponentBytes(c)
    case MasterMsg(o, cs) => Bytes4(o) + Bytes4(|cs|) + ComponentListBytes(cs)
  }

  lemma FitsField(v: int, t: Text, n: nat)
    ensures Fits(I32, FInt(v)) <==> Fits32(v)
    ensures Fits(U32, FInt(n)) <==> n < 0x1_0000_0000
    ensures Fits(I64, FInt(v)) <==> Fits64(v)
    ensures Fits(KText, FText(t)) <==> FitsText(t)
    ensures Fits32(v) ==> EncodeField(I32, FInt(v)) == Bytes4(v)
    ensures n < 0x1_0000_0000 ==> EncodeField(U32, FInt(n)) == Bytes4(n)
    ensures Fits64(v) ==> EncodeField(I64, FInt(v)) == Bytes8(v)
    ensures FitsText(t) ==> EncodeField(KText, FText(t)) == TextBytes(t)
  {
    Range(v);
    Range(n);
    Range(|t|);
    if Fits32(v) { IntBytes(4, true, v); }
    if n < 0x1_0000_0000 { IntBytes(4, false, n); }
    if Fits64(v) { IntBytes(8, true, v); }
    if FitsText(t) { IntBytes(4, false, |t|); }
  }

  /** Without components the fixed fields are everything. */
  lemma FixedOnly(m: Message)
    requires Components(m) == []
    ensures Encodable(m) <==> AllFit(FixedKinds(ShapeOf(m)), FixedFields(m))
    ensures Encodable(m) ==> Encode(m) == EncodeFields(FixedKinds(ShapeOf(m)), FixedFields(m))
  {
    assert ComponentKinds(0) == [] && ComponentFields([]) == [];
    if Encodable(m) {
      var e := EncodeFields(FixedKinds(ShapeOf(m)), FixedFields(m));
      assert e + [] == e;
    }
  }

  lemma AllFitConcatIff(a: seq<Kind>, b: seq<Kind>, x: seq<Field>, y: seq<Field>)
    requires |a| == |x| && |b| == |y|
    ensures AllFit(a + b, x + y) <==> AllFit(a, x) && AllFit(b, y)
    ensures AllFit(a, x) && AllFit(b, y) ==> EncodeFields(a + b, x + y) == EncodeFields(a, x) + EncodeFields(b, y)
  {
    if AllFit(a + b, x + y) { AllFitSplit(a, x, b, y); }
    if AllFit(a, x) && AllFit(b, y) { FieldsConcat(a, x, b, y); }
  }

  lemma ComponentLayout(c: Component)
    ensures var ks, fs := [I32, KText, KText], [FInt(c.owner), FText(c.ip), FText(c.port)];
            && (AllFit(ks, fs) <==> FitsComponent(c))
            && (FitsComponent(c) ==> EncodeFields(ks, fs) == ComponentBytes(c))
  {
    var fs := [FInt(c.owner), FText(c.ip), FText(c.port)];
    FitsField(c.owner, c.ip, 0);
    FitsField(c.owner, c.port, 0);
    Three(I32, KText, KText, fs[0], fs[1], fs[2]);
  }

  lemma TimesLayout(ty: nat, w: int, e: int)
    ensures var ks, fs := [KEnum(3), I64, I64], [FEnum(ty), FInt(w), FInt(e)];
            && (AllFit(ks, fs) <==> ty <= 3 && Fits64(w) && Fits64(e))
            && (AllFit(ks, fs) ==> EncodeFields(ks, fs) == [ty] + Bytes8(w) + Bytes8(e))
  {
    FitsField(w, [], 0);
    FitsField(e, [], 0);
    Three(KEnum(3), I64, I64, FEnum(ty), FInt(w), FInt(e));
  }

  lemma PairLayout(m: Message)
    requires m.PairMsg?
    ensures Encodable(m) <==> Limits(m)
    ensures Limits(m) ==> Encode(m) == PayloadBytes(m)
  {
    var a, b := [I32, KText, KText], [KEnum(3), I64, I64];
    var x, y := [FInt(m.owner), FText(m.key), FText(m.value)],
                [FEnum(m.ty), FInt(m.writeTime), FInt(m.expiryTime)];
    FixedOnly(m);
    assert FixedKinds(PairShape) == a + b && FixedFields(m) == x + y;
    AllFitConcatIff(a, b, x, y);
    ComponentLayout(Component(m.owner, m.key, m.value));
    TimesLayout(m.ty, m.writeTime, m.expiryTime);
    if Limits(m) {
      assert Encode(m) == (Bytes4(m.owner) + TextBytes(m.key) + TextBytes(m.value))
                          + ([m.ty] + Bytes8(m.writeTime) + Bytes8(m.expiryTime));
    }
  }

  lemma SubscriptionLayout(m: Message)
    requires m.SubscriptionMsg?
    ensures Encodable(m) <==> Limits(m)
    ensures Limits(m) ==> Encode(m) == PayloadBytes(m)
  {
    var a, x := [KText, I32, I32], [FText(m.key), FInt(m.ownerId), FInt(m.subscriber)];
    FixedOnly(m);
    assert FixedKinds(SubscriptionShape) == a + [KBool] && FixedFields(m) == x + [FBool(m.registering)];
    AllFitConcatIff(a, [KBool], x, [FBool(m.registering)]);
    FitsField(m.ownerId, m.key, 0);
    FitsField(m.subscriber, m.key, 0);
    One(KBool, FBool(m.registering));
    Three(KText, I32, I32, x[0], x[1], x[2]);
  }

  lemma SmallLayout(m: Message)
    requires m.RemoveMsg? || m.PresenceMsg? || m.ComponentMsg? || m.UpdateMsg?
    ensures Encodable(m) <==> Limits(m)
    ensures Limits(m) ==> Encode(m) == PayloadBytes(m)
  {
    FixedOnly(m);
    var fs := FixedFields(m);
    match m {
      case RemoveMsg(o, k) =>
        FitsField(o, k, 0);
        Two(I32, KText, fs[0], fs[1]);
      case PresenceMsg(p, f, o) =>
        FitsField(o, p, 0);
        Three(KText, KBool, I32, fs[0], fs[1], fs[2]);
      case ComponentMsg(c) => ComponentLayout(c);
      case UpdateMsg(op, c) => UpdateLayout(op, c);
    }
  }

  lemma UpdateLayout(op: nat, c: Component)
    ensures var ks, fs := FixedKinds(UpdateShape), FixedFields(UpdateMsg(op, c));
            && (AllFit(ks, fs) <==> op <= 1 && FitsComponent(c))
            && (op <= 1 && FitsComponent(c) ==> EncodeFields(ks, fs) == [op] + ComponentBytes(c))
  {
    var b, y := [I32, KText, KText], [FInt(c.owner), FText(c.ip), FText(c.port)];
    assert FixedKinds(UpdateShape) == [KEnum(1)] + b && FixedFields(UpdateMsg(op, c)) == [FEnum(op)] + y;
    AllFitConcatIff([KEnum(1)], b, [FEnum(op)], y);
    ComponentLayout(c);
    One(KEnum(1), FEnum(op));
  }

  lemma {:induction false} ComponentListLayout(cs: seq<Component>)
    ensures AllFit(ComponentKinds(|cs|), ComponentFields(cs)) <==> forall i :: 0 <= i < |cs| ==> FitsComponent(cs[i])
    ensures AllFit(ComponentKinds(|cs|), ComponentFields(cs)) ==>
              EncodeFields(ComponentKinds(|cs|), ComponentFields(cs)) == ComponentListBytes(cs)
  {
    if cs != [] {
      var a, x := [I32, KText, KText], [FInt(cs[0].owner), FText(cs[0].ip), FText(cs[0].port)];
      ComponentListLayout(cs[1..]);
      ComponentsRoundTrip(cs[1..]);
      ComponentLayout(cs[0]);
      AllFitConcatIff(a, ComponentKinds(|cs| - 1), x, ComponentFields(cs[1..]));
      assert cs == [cs[0]] + cs[1..];
    }
  }

  lemma MasterLayout(m: Message)
    requires m.MasterMsg?
    ensures Encodable(m) <==> Limits(m)
    ensures Limits(m) ==> Encode(m) == PayloadBytes(m)
  {
    var fs := FixedFields(m);
    FitsField(m.owner, [], |m.components|);
    ComponentListLayout(m.components);
    Two(I32, U32, fs[0], fs[1]);
  }

  /** Exactly the messages within these limits can be encoded, and these are their bytes. */
  lemma EncodeIsLayout(m: Message)
    ensures Encodable(m) <==> Limits(m)
    ensures Limits(m) ==> Encode(m) == PayloadBytes(m)
  {
    match m {
      case PairMsg(_, _, _, _, _, _) => PairLayout(m);
      case SubscriptionMsg(_, _, _, _) => SubscriptionLayout(m);
      case MasterMsg(_, _) => MasterLayout(m);
      case _ => SmallLayout(m);
    }
  }

  /** A master message reads back exactly with at most 16 MiB divided by 72 components. */
  lemma MasterCap(m: Message)
    requires m.MasterMsg? && Limits(m)
    ensures Encodable(m) && (DecodePayload(MasterShape, Encode(m)) == Some(m) <==> |m.components| <= 233016)
  {
    EncodeIsLayout(m);
    PayloadRoundTripIff(m);
  }

  // ---------------------------------------------------------------- frames

  /** What the payload of each kind of frame holds, in the order of `TYPES`. */
  const SHAPES: seq<Shape> :=
    [SubscriptionShape, PairShape, PairShape, PresenceShape, MasterShape, UpdateShape, RemoveShape, RemoveShape]

  /** Every byte of a frame. */
  lemma FrameBytes(t: Typed)
    requires Framable(t)
    ensures Limits(t.msg) && 1 <= Code(t.ty) <= 8 && TYPES[Code(t.ty) - 1] == t.ty
    ensures ShapeOf(t.msg) == SHAPES[Code(t.ty) - 1]
    ensures var body := PayloadBytes(t.msg);
            FrameOf(t) == [0x53, 0x52, 0x4E, 0x50, 2, Code(t.ty), 0, 0] + Bytes4(|body|) + [255, 255, 255, 255] + body
  {
    EncodeIsLayout(t.msg);
    Pow256Values();
    HeaderBytes(Header(t.ty, |Encode(t.msg)|, -1));
    assert Bytes4(-1) == [255, 255, 255, 255];
  }

  /** A frame `t` comes first in `s`: a header, and the whole payload it announces, decoded as its kind says. */
  predicate StartsFrame(s: seq<Byte>, t: Typed, rest: seq<Byte>) {
    && |s| >= 16 && s[..4] == [0x53, 0x52, 0x4E, 0x50] && s[4] == 2 && 1 <= s[5] <= 8 && TYPES[s[5] - 1] == t.ty
    && var n := Number4(s[8], s[9], s[10], s[11]);
    && n <= 0x100_0000 && |s| >= 16 + n && rest == s[16 + n..]
    && DecodePayload(SHAPES[s[5] - 1], s[16..16 + n]) == Some(t.msg)
  }

  /** The sixteen bytes at the front of `s`. */
  lemma HeaderAt(s: seq<Byte>)
    requires |s| >= 16
    ensures var n := Number4(s[8], s[9], s[10], s[11]);
            var d := DecodeHeader(s[..16]);
            && (d.Some? <==>
                  s[..4] == [0x53, 0x52, 0x4E, 0x50] && s[4] == 2 && 1 <= s[5] <= 8 && n <= 0x100_0000)
            && (d.Some? ==> d.value.ty == TYPES[s[5] - 1] && d.value.length == n
                            && ShapeFor(d.value.ty) == SHAPES[s[5] - 1])
  {
    var a := s[..16];
    assert a[..4] == s[..4];
    var d := DecodeHeader(a);
    if d.Some? { DecodeHeaderIff(a, d.value); }
    if 1 <= s[5] <= 8 {
      DecodeHeaderIff(a, Header(TYPES[s[5] - 1], Number4(s[8], s[9], s[10], s[11]),
                                Signed4(s[12], s[13], s[14], s[15])));
    }
  }

  /** One turn of the read loop takes exactly such a frame off the front. */
  lemma ReadFrameIff(s: seq<Byte>, t: Typed, rest: seq<Byte>)
    ensures ReadFrame(s) == Some(Parsed(t, rest)) <==> StartsFrame(s, t, rest)
  {
    if |s| >= 16 { HeaderAt(s); }
  }
}
