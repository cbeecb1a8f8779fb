/** The primitive encodings of wire.h, and messages as sequences of typed fields. */
module Fields {
  import opened Base

  type Byte = x: int | 0 <= x < 256

  const MAX_PAYLOAD: nat := 16 * 1024 * 1024

  // ---------------------------------------------------------------- little-endian integers

  function Pow256(n: nat): (p: int)
    ensures p >= 1
  {
    if n == 0 then 1 else 256 * Pow256(n - 1)
  }

  function ToLittleEndian(n: nat, v: nat): (r: seq<Byte>)
    ensures |r| == n
  {
    if n == 0 then [] else [v % 256] + ToLittleEndian(n - 1, v / 256)
  }

  function FromLittleEndian(s: seq<Byte>): nat {
    if s == [] then 0 else s[0] + 256 * FromLittleEndian(s[1..])
  }

  lemma {:induction false} LittleEndianRoundTrip(n: nat, v: nat)
    requires v < Pow256(n)
    ensures FromLittleEndian(ToLittleEndian(n, v)) == v
  {
    if n > 0 {
      LittleEndianRoundTrip(n - 1, v / 256);
      assert ToLittleEndian(n, v)[1..] == ToLittleEndian(n - 1, v / 256);
    }
  }

  lemma {:induction false} LittleEndianExact(s: seq<Byte>)
    ensures FromLittleEndian(s) < Pow256(|s|)
    ensures ToLittleEndian(|s|, FromLittleEndian(s)) == s
  {
    if s != [] {
      LittleEndianExact(s[1..]);
      assert s == [s[0]] + s[1..];
    }
  }

  /** Two's complement: the bit pattern of an `n`-byte integer, as an unsigned number, and back. */
  function Pattern(n: nat, v: int): int { if v < 0 then v + Pow256(n) else v }

  function Value(n: nat, signed: bool, pattern: nat): int {
    if signed && 2 * pattern >= Pow256(n) then pattern - Pow256(n) else pattern
  }

  predicate InRange(n: nat, signed: bool, v: int) {
    if signed then -Pow256(n) <= 2 * v < Pow256(n) else 0 <= v < Pow256(n)
  }

  // ---------------------------------------------------------------- fields

  datatype Kind = KInt(size: nat, signed: bool) | KEnum(highest: nat) | KBool | KText

  datatype Field = FInt(v: int) | FEnum(e: nat) | FBool(b: bool) | FText(text: seq<Byte>)

  /** `rest` is what the reader has not consumed yet. */
  datatype Parsed<T> = Parsed(value: T, rest: seq<Byte>)

  predicate Fits(k: Kind, f: Field) {
    match k
    case KInt(n, signed) => f.FInt? && InRange(n, signed, f.v)
    case KEnum(highest) => f.FEnum? && f.e <= highest < 256
    case KBool => f.FBool?
    case KText => f.FText? && |f.text| <= MAX_PAYLOAD
  }

  function EncodeInt(n: nat, signed: bool, v: int): (r: seq<Byte>)
    requires InRange(n, signed, v)
  {
    ToLittleEndian(n, Pattern(n, v))
  }

  function EncodeField(k: Kind, f: Field): seq<Byte>
    requires Fits(k, f)
  {
    match k
    case KInt(n, signed) => EncodeInt(n, signed, f.v)
    case KEnum(_) => [f.e]
    case KBool => [if f.b then 1 else 0]
    case KText => TextPrefix(|f.text|) + f.text
  }

  /** The 32-bit length in front of a string. */
  function TextPrefix(n: nat): (r: seq<Byte>)
    ensures |r| == 4
  {
    ToLittleEndian(4, n)
  }

  function DecodeField(k: Kind, s: seq<Byte>): Option<Parsed<Field>> {
    match k
    case KInt(n, signed) =>
      if |s| < n then None
      else Some(Parsed(FInt(Value(n, signed, FromLittleEndian(s[..n]))), s[n..]))
    case KEnum(highest) => if |s| < 1 || s[0] > highest then None else Some(Parsed(FEnum(s[0]), s[1..]))
    case KBool => if |s| < 1 then None else Some(Parsed(FBool(s[0] != 0), s[1..]))
    case KText =>
      if |s| < 4 then None
      else
        var n := FromLittleEndian(s[..4]);
        if |s| < 4 + n then None else Some(Parsed(FText(s[4..4 + n]), s[4 + n..]))
  }

  /** A boolean byte as the writer would have written it; every other field is its own canonical form. */
  function CanonicalField(k: Kind, raw: seq<Byte>): seq<Byte> {
    if k.KBool? then seq(|raw|, i requires 0 <= i < |raw| => if raw[i] == 0 then 0 else 1) else raw
  }

  lemma IntRoundTrip(n: nat, signed: bool, v: int)
    requires InRange(n, signed, v)
    ensures Value(n, signed, FromLittleEndian(EncodeInt(n, signed, v))) == v
  {
    LittleEndianRoundTrip(n, Pattern(n, v));
  }

  lemma Pow256Of4()
    ensures Pow256(4) == 0x1_0000_0000
  {
    assert Pow256(2) == 65536;
  }

  lemma FieldRoundTrip(k: Kind, f: Field, rest: seq<Byte>)
    requires Fits(k, f)
    ensures DecodeField(k, EncodeField(k, f) + rest) == Some(Parsed(f, rest))
  {
    var s := EncodeField(k, f) + rest;
    match k
    case KInt(n, signed) =>
      IntRoundTrip(n, signed, f.v);
      assert s[..n] == EncodeField(k, f) && s[n..] == rest;
    case KText =>
      Pow256Of4();
      LittleEndianRoundTrip(4, |f.text|);
      var n := |f.text|;
      assert s[..4] == TextPrefix(n);
      assert s[4..4 + n] == f.text && s[4 + n..] == rest;
    case _ =>
  }

  /** More input never changes what a successful read returned. */
  lemma FieldExtend(k: Kind, s: seq<Byte>, t: seq<Byte>)
    requires DecodeField(k, s).Some?
    ensures var p := DecodeField(k, s).value;
            DecodeField(k, s + t) == Some(Parsed(p.value, p.rest + t))
  {
    match k
    case KInt(n, signed) => assert (s + t)[..n] == s[..n] && (s + t)[n..] == s[n..] + t;
    case KEnum(_) => assert (s + t)[1..] == s[1..] + t;
    case KBool => assert (s + t)[1..] == s[1..] + t;
    case KText =>
      assert (s + t)[..4] == s[..4];
      var n := FromLittleEndian(s[..4]);
      assert (s + t)[4..4 + n] == s[4..4 + n] && (s + t)[4 + n..] == s[4 + n..] + t;
  }

  lemma IntReencode(n: nat, signed: bool, s: seq<Byte>)
    requires |s| >= n
    ensures var v := Value(n, signed, FromLittleEndian(s[..n]));
            InRange(n, signed, v) && EncodeInt(n, signed, v) == s[..n]
  {
    LittleEndianExact(s[..n]);
  }

  lemma TextReencode(s: seq<Byte>, n: nat)
    requires 4 + n <= |s| && n == FromLittleEndian(s[..4])
    ensures TextPrefix(n) + s[4..4 + n] == s[..4 + n]
  {
    LittleEndianExact(s[..4]);
    assert s[..4] + s[4..4 + n] == s[..4 + n];
  }

  /** What was consumed is the encoding of what was returned, up to the form of booleans. */
  lemma FieldReencode(k: Kind, s: seq<Byte>)
    requires DecodeField(k, s).Some? && |s| <= MAX_PAYLOAD && (k.KEnum? ==> k.highest < 256)
    ensures var p := DecodeField(k, s).value;
            && Fits(k, p.value) && |p.rest| <= |s|
            && s[|s| - |p.rest|..] == p.rest
            && EncodeField(k, p.value) == CanonicalField(k, s[..|s| - |p.rest|])
  {
    match k
    case KInt(n, signed) =>
      IntReencode(n, signed, s);
      assert |s| - |s[n..]| == n;
    case KText =>
      var n := FromLittleEndian(s[..4]);
      TextReencode(s, n);
      assert |s| - |s[4 + n..]| == 4 + n;
    case _ =>
  }

  // ---------------------------------------------------------------- field sequences

  predicate AllFit(ks: seq<Kind>, fs: seq<Field>) {
    |ks| == |fs| && forall i :: 0 <= i < |ks| ==> Fits(ks[i], fs[i])
  }

  function EncodeFields(ks: seq<Kind>, fs: seq<Field>): seq<Byte>
    requires AllFit(ks, fs)
  {
    if ks == [] then [] else EncodeField(ks[0], fs[0]) + EncodeFields(ks[1..], fs[1..])
  }

  function DecodeFields(ks: seq<Kind>, s: seq<Byte>): (r: Option<Parsed<seq<Field>>>)
    ensures r.Some? ==> |r.value.value| == |ks|
  {
    if ks == [] then Some(Parsed([], s))
    else
      var first := DecodeField(ks[0], s);
      if first.None? then None
      else
        var others := DecodeFields(ks[1..], first.value.rest);
        if others.None? then None
        else Some(Parsed([first.value.value] + others.value.value, others.value.rest))
  }

  ghost predicate ByteEnums(ks: seq<Kind>) {
    forall i :: 0 <= i < |ks| && ks[i].KEnum? ==> ks[i].highest < 256
  }

  /** `s` with every boolean field in the form the writer uses. */
  function Canonical(ks: seq<Kind>, s: seq<Byte>): seq<Byte> {
    if ks == [] || DecodeField(ks[0], s).None? then s
    else
      var rest := DecodeField(ks[0], s).value.rest;
      if |rest| > |s| then s
      else CanonicalField(ks[0], s[..|s| - |rest|]) + Canonical(ks[1..], rest)
  }

  lemma {:induction false} FieldsRoundTrip(ks: seq<Kind>, fs: seq<Field>, rest: seq<Byte>)
    requires AllFit(ks, fs)
    ensures DecodeFields(ks, EncodeFields(ks, fs) + rest) == Some(Parsed(fs, rest))
  {
    if ks == [] {
      assert EncodeFields(ks, fs) + rest == rest;
    } else {
      var tail := EncodeFields(ks[1..], fs[1..]);
      assert EncodeFields(ks, fs) + rest == EncodeField(ks[0], fs[0]) + (tail + rest);
      FieldRoundTrip(ks[0], fs[0], tail + rest);
      FieldsRoundTrip(ks[1..], fs[1..], rest);
      assert fs == [fs[0]] + fs[1..];
    }
  }

  lemma {:induction false} FieldsExtend(ks: seq<Kind>, s: seq<Byte>, t: seq<Byte>)
    requires DecodeFields(ks, s).Some?
    ensures var p := DecodeFields(ks, s).value;
            DecodeFields(ks, s + t) == Some(Parsed(p.value, p.rest + t))
  {
    if ks != [] {
      FieldExtend(ks[0], s, t);
      FieldsExtend(ks[1..], DecodeField(ks[0], s).value.rest, t);
    }
  }

  /** The fields read re-encode to the bytes read, up to the form of booleans. */
  lemma {:induction false} FieldsReencode(ks: seq<Kind>, s: seq<Byte>)
    requires DecodeFields(ks, s).Some? && |s| <= MAX_PAYLOAD && ByteEnums(ks)
    ensures var p := DecodeFields(ks, s).value;
            && AllFit(ks, p.value) && |p.rest| <= |s|
            && EncodeFields(ks, p.value) + p.rest == Canonical(ks, s)
  {
    if ks == [] {
      assert [] + s == s;
    } else {
      FieldReencode(ks[0], s);
      var rest := DecodeField(ks[0], s).value.rest;
      FieldsReencode(ks[1..], rest);
      var p, others := DecodeFields(ks, s).value, DecodeFields(ks[1..], rest).value;
      assert p.value[1..] == others.value;
      Associative(EncodeField(ks[0], p.value[0]), EncodeFields(ks[1..], others.value), others.rest);
    }
  }

  /** Byte `i` of `s` is read as a boolean field. */
  predicate BooleanAt(ks: seq<Kind>, s: seq<Byte>, i: int) {
    if ks == [] || DecodeField(ks[0], s).None? then false
    else
      var rest := DecodeField(ks[0], s).value.rest;
      if i < |s| - |rest| then ks[0].KBool? else BooleanAt(ks[1..], rest, i - (|s| - |rest|))
  }

  /** Byte `i` in the form the writer uses. */
  predicate WrittenAt(ks: seq<Kind>, s: seq<Byte>, i: int, b: Byte)
    requires 0 <= i < |s|
  {
    b == if BooleanAt(ks, s, i) && s[i] != 0 then 1 else s[i]
  }

  /** One field in front of the rest. */
  lemma WrittenFirst(ks: seq<Kind>, s: seq<Byte>, rest: seq<Byte>, head: seq<Byte>, tail: seq<Byte>, i: nat)
    requires ks != [] && DecodeField(ks[0], s).Some? && rest == DecodeField(ks[0], s).value.rest && |rest| <= |s|
    requires s[|s| - |rest|..] == rest && head == CanonicalField(ks[0], s[..|s| - |rest|]) && |tail| == |rest|
    requires forall j :: 0 <= j < |rest| ==> WrittenAt(ks[1..], rest, j, tail[j])
    requires i < |s|
    ensures WrittenAt(ks, s, i, (head + tail)[i])
  {
    var n := |s| - |rest|;
    assert |head| == n;
    if i >= n {
      assert s[i] == rest[i - n] && (head + tail)[i] == tail[i - n];
      assert WrittenAt(ks[1..], rest, i - n, tail[i - n]);
    }
  }

  /** Exactly the boolean bytes are rewritten, and those only from non-zero to one. */
  lemma {:induction false} CanonicalOnlyBooleans(ks: seq<Kind>, s: seq<Byte>)
    requires |s| <= MAX_PAYLOAD && ByteEnums(ks)
    ensures |Canonical(ks, s)| == |s|
    ensures forall i :: 0 <= i < |s| ==> WrittenAt(ks, s, i, Canonical(ks, s)[i])
    ensures KBool !in ks ==> Canonical(ks, s) == s
  {
    if ks != [] && DecodeField(ks[0], s).Some? {
      FieldReencode(ks[0], s);
      var rest := DecodeField(ks[0], s).value.rest;
      var head, tail := CanonicalField(ks[0], s[..|s| - |rest|]), Canonical(ks[1..], rest);
      CanonicalOnlyBooleans(ks[1..], rest);
      assert s == s[..|s| - |rest|] + rest;
      assert Canonical(ks, s) == head + tail && |head| + |tail| == |s|;
      forall i | 0 <= i < |s| ensures WrittenAt(ks, s, i, (head + tail)[i]) {
        WrittenFirst(ks, s, rest, head, tail, i);
      }
    }
  }

  lemma Associative(a: seq<Byte>, b: seq<Byte>, c: seq<Byte>)
    ensures (a + b) + c == a + (b + c)
  {
  }

  lemma EncodeCons(k: Kind, f: Field, ks: seq<Kind>, fs: seq<Field>)
    requires Fits(k, f) && AllFit(ks, fs)
    ensures AllFit([k] + ks, [f] + fs)
    ensures EncodeFields([k] + ks, [f] + fs) == EncodeField(k, f) + EncodeFields(ks, fs)
  {
    assert ([k] + ks)[1..] == ks && ([f] + fs)[1..] == fs;
  }

  lemma ConsSplit<T>(a: seq<T>, b: seq<T>)
    requires a != []
    ensures a + b == [a[0]] + (a[1..] + b) && a == [a[0]] + a[1..]
  {
  }

  lemma AllFitConcat(ks: seq<Kind>, fs: seq<Field>, ks': seq<Kind>, fs': seq<Field>)
    requires AllFit(ks, fs) && AllFit(ks', fs')
    ensures AllFit(ks + ks', fs + fs')
  {
  }

  lemma AllFitSplit(ks: seq<Kind>, fs: seq<Field>, ks': seq<Kind>, fs': seq<Field>)
    requires |ks| == |fs| && AllFit(ks + ks', fs + fs')
    ensures AllFit(ks, fs) && AllFit(ks', fs')
  {
    forall i | 0 <= i < |ks| ensures Fits(ks[i], fs[i]) {
      assert (ks + ks')[i] == ks[i] && (fs + fs')[i] == fs[i];
    }
    forall i | 0 <= i < |ks'| ensures Fits(ks'[i], fs'[i]) {
      assert (ks + ks')[|ks| + i] == ks'[i] && (fs + fs')[|fs| + i] == fs'[i];
    }
  }

  lemma ConcatStep(k: Kind, f: Field, ks: seq<Kind>, fs: seq<Field>, ks': seq<Kind>, fs': seq<Field>)
    requires Fits(k, f) && AllFit(ks, fs) && AllFit(ks', fs') && AllFit(ks + ks', fs + fs')
    requires EncodeFields(ks + ks', fs + fs') == EncodeFields(ks, fs) + EncodeFields(ks', fs')
    ensures AllFit([k] + ks, [f] + fs) && AllFit([k] + (ks + ks'), [f] + (fs + fs'))
    ensures EncodeFields([k] + (ks + ks'), [f] + (fs + fs')) ==
        EncodeFields([k] + ks, [f] + fs) + EncodeFields(ks', fs')
  {
    EncodeCons(k, f, ks, fs);
    EncodeCons(k, f, ks + ks', fs + fs');
    Associative(EncodeField(k, f), EncodeFields(ks, fs), EncodeFields(ks', fs'));
  }

  lemma {:induction false} FieldsConcat(ks: seq<Kind>, fs: seq<Field>, ks': seq<Kind>, fs': seq<Field>)
    requires AllFit(ks, fs) && AllFit(ks', fs')
    ensures AllFit(ks + ks', fs + fs')
    ensures EncodeFields(ks + ks', fs + fs') == EncodeFields(ks, fs) + EncodeFields(ks', fs')
  {
    AllFitConcat(ks, fs, ks', fs');
    if ks == [] {
      assert ks + ks' == ks' && fs + fs' == fs';
      assert EncodeFields(ks, fs) == [];
    } else {
      assert AllFit(ks[1..], fs[1..]);
      FieldsConcat(ks[1..], fs[1..], ks', fs');
      ConcatStep(ks[0], fs[0], ks[1..], fs[1..], ks', fs');
      ConsSplit(ks, ks');
      ConsSplit(fs, fs');
    }
  }

  lemma AssociativeFields(a: seq<Field>, b: seq<Field>, c: seq<Field>)
    ensures (a + b) + c == a + (b + c)
  {
  }

  /** Reading two groups of fields is reading the first and then, from where it stopped, the second. */
  lemma {:induction false} DecodeConcat(ks: seq<Kind>, ks': seq<Kind>, s: seq<Byte>)
    ensures var a := DecodeFields(ks, s);
            DecodeFields(ks + ks', s) ==
              if a.None? then None
              else
                var b := DecodeFields(ks', a.value.rest);
                if b.None? then None else Some(Parsed(a.value.value + b.value.value, b.value.rest))
  {
    if ks == [] {
      assert ks + ks' == ks';
      var b := DecodeFields(ks', s);
      if b.Some? { assert [] + b.value.value == b.value.value; }
    } else {
      assert (ks + ks')[1..] == ks[1..] + ks';
      var first := DecodeField(ks[0], s);
      if first.Some? {
        var rest := first.value.rest;
        DecodeConcat(ks[1..], ks', rest);
        var a := DecodeFields(ks[1..], rest);
        if a.Some? && DecodeFields(ks', a.value.rest).Some? {
          AssociativeFields([first.value.value], a.value.value, DecodeFields(ks', a.value.rest).value.value);
        }
      }
    }
  }
}
