/** Which texts are pointers, said apart from the parsers: words, numbers and the two kinds of pointer, all exactly. */
module MetaGrammar {
  import opened Base
  import opened MetaText

  // ---------------------------------------------------------------- words

  predicate OnlyParens(w: string) { forall i :: 0 <= i < |w| ==> IsParen(w[i]) }

  /** The parts between spaces. */
  function Parts(t: string): (ps: seq<string>)
    ensures ps != []
    decreases |t|
  {
    var i := FirstSpace(t);
    if i == |t| then [t] else [t[..i]] + Parts(t[i + 1..])
  }

  function Join(ps: seq<string>): string
    requires ps != []
  {
    if |ps| == 1 then ps[0] else ps[0] + " " + Join(ps[1..])
  }

  /** They hold no space, and with spaces in between they make up the text. */
  lemma {:induction false} PartsJoin(t: string)
    ensures Join(Parts(t)) == t
    ensures forall i :: 0 <= i < |Parts(t)| ==> ' ' !in Parts(t)[i]
    decreases |t|
  {
    var i := FirstSpace(t);
    if i < |t| {
      PartsJoin(t[i + 1..]);
      assert Parts(t)[1..] == Parts(t[i + 1..]);
      assert t == t[..i] + " " + t[i + 1..];
    }
  }

  /** A part is a plain word in parentheses, any number on either side, or nothing but parentheses. */
  predicate Wraps(part: string, word: string) {
    exists a, b :: 0 <= a <= b <= |part| && OnlyParens(part[..a]) && part[a..b] == word && OnlyParens(part[b..])
  }

  lemma {:induction false} FrontParens(w: string)
    ensures var s := StripFront(w);
            && |s| <= |w| && s == w[|w| - |s|..] && OnlyParens(w[..|w| - |s|]) && (s != "" ==> !IsParen(s[0]))
    decreases |w|
  {
    if w != "" && IsParen(w[0]) {
      FrontParens(w[1..]);
      var s := StripFront(w);
      assert w[..|w| - |s|] == [w[0]] + w[1..][..|w| - 1 - |s|];
    }
  }

  lemma {:induction false} BackParens(w: string)
    ensures var s := StripBack(w);
            && |s| <= |w| && s == w[..|s|] && OnlyParens(w[|s|..]) && (s != "" ==> !IsParen(s[|s| - 1]))
    decreases |w|
  {
    if w != "" && IsParen(w[|w| - 1]) {
      BackParens(w[..|w| - 1]);
      var s := StripBack(w);
      assert w[|s|..] == w[..|w| - 1][|s|..] + [w[|w| - 1]];
    }
  }

  lemma KeptOf(part: string)
    requires ' ' !in part
    ensures Keep(part) == [] ==> OnlyParens(part)
    ensures Keep(part) != [] ==> |Keep(part)| == 1 && Plain(Keep(part)[0]) && Wraps(part, Keep(part)[0])
  {
    FrontParens(part);
    var f := StripFront(part);
    BackParens(f);
    var s, a := StripBack(f), |part| - |f|;
    assert part == part[..a] + s + f[|s|..];
    if s != "" {
      KeepPlain(part);
      assert Keep(part) == [s] && s in Keep(part);
      assert part[a..a + |s|] == s && part[a + |s|..] == f[|s|..];
    }
  }

  /** What is kept of the parts, in order. */
  function Kept(ps: seq<string>): seq<string> {
    if ps == [] then [] else Keep(ps[0]) + Kept(ps[1..])
  }

  lemma KeptCons(p: string, ps: seq<string>)
    ensures Kept([p] + ps) == Keep(p) + Kept(ps) && Kept([p]) == Keep(p)
  {
    assert ([p] + ps)[1..] == ps && [p][1..] == [];
  }

  lemma {:induction false} WordsOfParts(t: string)
    ensures Words(t) == Kept(Parts(t))
    decreases |t|
  {
    WordsNext(t);
    var i := FirstSpace(t);
    if i == |t| {
      KeptCons(t, []);
    } else {
      var rest := t[i + 1..];
      KeptCons(t[..i], Parts(rest));
      assert Parts(t) == [t[..i]] + Parts(rest);
      WordsOfParts(rest);
    }
  }

  lemma {:induction false} WordsNext(t: string)
    ensures var i := FirstSpace(t); Words(t) == if i == |t| then Keep(t) else Keep(t[..i]) + Words(t[i + 1..])
  {
  }

  // ---------------------------------------------------------------- numbers

  predicate AllDigits(ds: string) { forall i :: 0 <= i < |ds| ==> IsDigit(ds[i]) }

  function Pow10(n: nat): nat { if n == 0 then 1 else 10 * Pow10(n - 1) }

  /** Each digit with the value of its place. */
  function PlaceValue(ds: string): nat
    requires AllDigits(ds)
  {
    if ds == "" then 0
    else
      assert IsDigit(ds[0]);
      (ds[0] as int - '0' as int) * Pow10(|ds| - 1) + PlaceValue(ds[1..])
  }

  lemma {:induction false} PlaceValueSnoc(ds: string, c: char)
    requires AllDigits(ds) && IsDigit(c)
    ensures AllDigits(ds + [c])
    ensures PlaceValue(ds + [c]) == 10 * PlaceValue(ds) + (c as int - '0' as int)
  {
    var t := ds + [c];
    if ds == "" {
      assert t[1..] == "" && Pow10(0) == 1;
    } else {
      PlaceValueSnoc(ds[1..], c);
      assert t[1..] == ds[1..] + [c];
      var d := ds[0] as int - '0' as int;
      assert Pow10(|t| - 1) == 10 * Pow10(|ds| - 1);
      assert d * (10 * Pow10(|ds| - 1)) == 10 * (d * Pow10(|ds| - 1));
    }
  }

  lemma {:induction false} MagnitudeIsPlaceValue(ds: string)
    requires AllDigits(ds)
    ensures Magnitude(ds) == PlaceValue(ds)
  {
    if ds != "" {
      var n := |ds| - 1;
      MagnitudeIsPlaceValue(ds[..n]);
      PlaceValueSnoc(ds[..n], ds[n]);
      assert ds == ds[..n] + [ds[n]];
    }
  }

  /** The whole text is a number, and this one: a minus perhaps, then digits, within 32 bits. */
  predicate IsNumber(t: string, v: int) {
    var neg := t != "" && t[0] == '-';
    var ds := if neg then t[1..] else t;
    && ds != "" && AllDigits(ds)
    && (if neg then v + PlaceValue(ds) == 0 else v == PlaceValue(ds)) && -0x8000_0000 <= v <= 0x7FFF_FFFF
  }

  /** The text starts with that number, and no digit follows it. */
  predicate StartsWithNumber(t: string, v: int, stop: nat) {
    stop <= |t| && IsNumber(t[..stop], v) && (stop < |t| ==> !IsDigit(t[stop]))
  }

  lemma FromCharsIff(t: string, v: int, stop: nat)
    ensures FromChars(t) == Some(Number(v, stop)) <==> StartsWithNumber(t, v, stop)
  {
    var neg := t != "" && t[0] == '-';
    var body := if neg then t[1..] else t;
    var n, sign := DigitRun(body), if neg then 1 else 0;
    MagnitudeIsPlaceValue(body[..n]);
    if FromChars(t) == Some(Number(v, stop)) {
      assert stop == sign + n;
      if neg { assert t[..stop][1..] == body[..n]; } else { assert t[..stop] == body[..n]; }
    }
    if StartsWithNumber(t, v, stop) { NumberRun(t, v, stop); }
  }

  lemma RunIs(t: string, n: nat)
    requires n <= |t| && (forall i :: 0 <= i < n ==> IsDigit(t[i])) && (n < |t| ==> !IsDigit(t[n]))
    ensures DigitRun(t) == n
  {
  }

  /** The number a text starts with is made of all the digits there. */
  lemma NumberRun(t: string, v: int, stop: nat)
    requires StartsWithNumber(t, v, stop)
    ensures FromChars(t) == Some(Number(v, stop))
  {
    var u := t[..stop];
    assert u != "" && u[0] == t[0];
    var neg := t[0] == '-';
    var body, sign := if neg then t[1..] else t, if neg then 1 else 0;
    var ds := if neg then u[1..] else u;
    assert body[..stop - sign] == ds;
    assert AllDigits(ds);
    forall i | 0 <= i < stop - sign ensures IsDigit(body[i]) { assert body[i] == ds[i]; }
    RunIs(body, stop - sign);
    MagnitudeIsPlaceValue(ds);
  }

  lemma ParseIntIff(t: string, v: int)
    ensures ParseInt(t) == Some(v) <==> IsNumber(t, v)
  {
    FromCharsIff(t, v, |t|);
    assert t[..|t|] == t;
  }

  /** What is printed is the number, without a zero in front. */
  lemma DecimalIsNumber(v: int)
    requires IsInt(v)
    ensures IsNumber(Decimal(v), v)
    ensures var ds := if v < 0 then Decimal(v)[1..] else Decimal(v); |ds| > 1 ==> ds[0] != '0'
    ensures Decimal(v)[0] == '-' <==> v < 0
  {
    DecimalRoundTrip(v);
    ParseIntIff(Decimal(v), v);
    NoZeroFirst(if v < 0 then -v else v);
  }

  lemma {:induction false} NoZeroFirst(n: nat)
    ensures |Digits(n)| > 1 ==> n >= 10
    ensures n > 0 ==> Digits(n)[0] != '0'
  {
    if n >= 10 { NoZeroFirst(n / 10); }
  }

  // ---------------------------------------------------------------- pointers

  /** The client follows exactly the values of three words: META, a whole number, and a key. */
  lemma ParseMetaIff(value: string, k: PairKey)
    ensures ParseMeta(value) == Some(k) <==>
              var w := Words(value); |w| == 3 && w[0] == "META" && IsNumber(w[1], k.owner) && w[2] == k.key
  {
    var w := Words(value);
    if |w| == 3 { ParseIntIff(w[1], k.owner); }
  }

  /** The tracker, those whose second word starts with a number, but for the null pointer. */
  lemma ParseTrackedIff(value: string, k: PairKey)
    ensures ParseTracked(value) == Some(k) <==>
              var w := Words(value);
              && |w| == 3 && w[0] == "META" && (exists stop :: StartsWithNumber(w[1], k.owner, stop)) && w[2] == k.key
              && !(k.owner == -1 && k.key == "NULL")
  {
    var w := Words(value);
    if |w| == 3 {
      var n := FromChars(w[1]);
      if n.Some? { FromCharsIff(w[1], n.value.value, n.value.stop); }
      if stop :| StartsWithNumber(w[1], k.owner, stop) { FromCharsIff(w[1], k.owner, stop); }
    }
  }

  /** An ordinary value points nowhere. */
  lemma OrdinaryValue(value: string)
    requires |Words(value)| != 3 || Words(value)[0] != "META"
    ensures ParseMeta(value) == None && ParseTracked(value) == None
  {
    if k :| ParseMeta(value) == Some(k) { ParseMetaIff(value, k); }
    if k :| ParseTracked(value) == Some(k) { ParseTrackedIff(value, k); }
  }
}
