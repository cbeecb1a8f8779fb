/** Meta-pair pointers as text: the printer of `setMetaPair` and the two parsers that read it back. */
module MetaText {
  import opened Base

  // ---------------------------------------------------------------- words

  predicate IsParen(c: char) { c == '(' || c == ')' }

  function StripFront(w: string): string {
    if w != "" && IsParen(w[0]) then StripFront(w[1..]) else w
  }

  function StripBack(w: string): string {
    if w != "" && IsParen(w[|w| - 1]) then StripBack(w[..|w| - 1]) else w
  }

  /** The word without the parentheses around it, or nothing if nothing is left. */
  function Keep(w: string): seq<string> {
    var s := StripBack(StripFront(w));
    if s == "" then [] else [s]
  }

  function FirstSpace(t: string): (i: nat)
    ensures i <= |t| && (forall j :: 0 <= j < i ==> t[j] != ' ') && (i < |t| ==> t[i] == ' ')
  {
    if t == "" || t[0] == ' ' then 0 else 1 + FirstSpace(t[1..])
  }

  /** `extractStrings`. */
  function Words(t: string): seq<string>
    decreases |t|
  {
    var i := FirstSpace(t);
    if i == |t| then Keep(t) else Keep(t[..i]) + Words(t[i + 1..])
  }

  /** What a key must look like to survive being printed: non-empty, no space, no parenthesis at either end. */
  predicate Plain(w: string) {
    w != "" && ' ' !in w && !IsParen(w[0]) && !IsParen(w[|w| - 1])
  }

  lemma {:induction false} StripFrontTail(w: string)
    ensures var s := StripFront(w);
            && |s| <= |w| && s == w[|w| - |s|..] && (s != "" ==> !IsParen(s[0]))
    decreases |w|
  {
    if w != "" && IsParen(w[0]) { StripFrontTail(w[1..]); }
  }

  lemma {:induction false} StripBackHead(w: string)
    ensures var s := StripBack(w);
            && |s| <= |w| && s == w[..|s|] && (s != "" ==> !IsParen(s[|s| - 1]))
    decreases |w|
  {
    if w != "" && IsParen(w[|w| - 1]) { StripBackHead(w[..|w| - 1]); }
  }

  lemma KeepPlain(w: string)
    requires ' ' !in w
    ensures forall s :: s in Keep(w) ==> Plain(s)
  {
    StripFrontTail(w);
    var f := StripFront(w);
    StripBackHead(f);
    var s := StripBack(f);
    if s != "" {
      assert s[0] == f[0];
      forall c | c in s ensures c in w { assert c in f; }
    }
  }

  /** Every word found in any text is plain. */
  lemma {:induction false} WordsPlain(t: string)
    ensures forall s :: s in Words(t) ==> Plain(s)
    decreases |t|
  {
    var i := FirstSpace(t);
    if i == |t| {
      KeepPlain(t);
    } else {
      KeepPlain(t[..i]);
      WordsPlain(t[i + 1..]);
    }
  }

  lemma WordsFirst(a: string, b: string)
    requires ' ' !in a
    ensures Words(a + " " + b) == Keep(a) + Words(b)
  {
    var t := a + " " + b;
    assert t[|a|] == ' ';
    assert forall j :: 0 <= j < |a| ==> t[j] == a[j];
    assert FirstSpace(t) == |a|;
    assert t[..|a|] == a && t[|a| + 1..] == b;
  }

  lemma KeepSelf(w: string)
    requires Plain(w)
    ensures Keep(w) == [w]
  {
  }

  /** A closing parenthesis after a plain word is stripped, and nothing else. */
  lemma KeepClosed(w: string)
    requires Plain(w)
    ensures Keep(w + ")") == [w]
  {
    var t := w + ")";
    assert t[0] == w[0];
    assert StripFront(t) == t;
    assert t[..|t| - 1] == w;
    assert StripBack(t) == StripBack(w);
  }

  // ---------------------------------------------------------------- decimal integers

  const INT_MIN := -0x8000_0000
  const INT_MAX := 0x7FFF_FFFF

  predicate IsInt(v: int) { INT_MIN <= v <= INT_MAX }

  predicate IsDigit(c: char) { '0' <= c <= '9' }

  function Digits(n: nat): (s: string)
    ensures s != "" && forall i :: 0 <= i < |s| ==> IsDigit(s[i])
  {
    var d := ['0' + (n % 10) as char];
    if n < 10 then d else Digits(n / 10) + d
  }

  /** `std::format("{}", v)`. */
  function Decimal(v: int): string {
    if v < 0 then "-" + Digits(-v) else Digits(v)
  }

  function Magnitude(ds: string): nat
    requires forall i :: 0 <= i < |ds| ==> IsDigit(ds[i])
  {
    if ds == "" then 0
    else
      var last := ds[|ds| - 1];
      assert IsDigit(last);
      10 * Magnitude(ds[..|ds| - 1]) + (last as int - '0' as int)
  }

  function DigitRun(t: string): (n: nat)
    ensures n <= |t| && (forall i :: 0 <= i < n ==> IsDigit(t[i])) && (n < |t| ==> !IsDigit(t[n]))
  {
    if t == "" || !IsDigit(t[0]) then 0 else 1 + DigitRun(t[1..])
  }

  datatype Number = Number(value: int, stop: nat)

  /** `std::from_chars` for a 32-bit int: an optional minus, then at least one digit, in range. */
  function FromChars(t: string): Option<Number> {
    var neg := t != "" && t[0] == '-';
    var body := if neg then t[1..] else t;
    var n := DigitRun(body);
    if n == 0 then None
    else
      var m := Magnitude(body[..n]);
      var v: int := if neg then 0 - m else m;
      if IsInt(v) then Some(Number(v, n + if neg then 1 else 0)) else None
  }

  /** The whole text as an int, or nothing. */
  function ParseInt(t: string): Option<int> {
    var r := FromChars(t);
    if r.Some? && r.value.stop == |t| then Some(r.value.value) else None
  }

  lemma {:induction false} MagnitudeOfDigits(n: nat)
    ensures Magnitude(Digits(n)) == n
  {
    var s := Digits(n);
    if n < 10 {
      assert s[..0] == "";
    } else {
      MagnitudeOfDigits(n / 10);
      assert s[..|s| - 1] == Digits(n / 10);
    }
  }

  /** Every int reads back as itself, and its text is one plain word. */
  lemma DecimalRoundTrip(v: int)
    requires IsInt(v)
    ensures ParseInt(Decimal(v)) == Some(v) && FromChars(Decimal(v)).Some? && FromChars(Decimal(v)).value.value == v
    ensures Plain(Decimal(v))
  {
    var m: nat := if v < 0 then -v else v;
    MagnitudeOfDigits(m);
    var t, ds := Decimal(v), Digits(m);
    if v < 0 { assert t[1..] == ds; } else { assert ds[0] != '-'; }
    assert DigitRun(ds) == |ds|;
    assert ds[..|ds|] == ds;
  }

  // ---------------------------------------------------------------- pointers

  /** What `setMetaPair` publishes. */
  function Pointer(owner: int, key: string): string {
    "(META " + Decimal(owner) + " " + key + ")"
  }

  /** `parseMetaValue` of the client. */
  function ParseMeta(value: string): Option<PairKey> {
    var parts := Words(value);
    if |parts| != 3 || parts[0] != "META" then None
    else
      var owner := ParseInt(parts[1]);
      if owner.None? then None else Some(PairKey(owner.value, parts[2]))
  }

  /** `parseMetaValue` of the tracker: tolerates text after the number, knows the null pointer. */
  function ParseTracked(value: string): Option<PairKey> {
    var parts := Words(value);
    if |parts| != 3 || parts[0] != "META" then None
    else
      var owner := FromChars(parts[1]);
      if owner.None? || (owner.value.value == ANY_OWNER && parts[2] == "NULL") then None
      else Some(PairKey(owner.value.value, parts[2]))
  }

  lemma PointerWords(owner: int, key: string)
    requires IsInt(owner)
    ensures Words(Pointer(owner, key)) == ["META", Decimal(owner)] + Words(key + ")")
  {
    var d := Decimal(owner);
    DecimalRoundTrip(owner);
    PointerShape(d, key);
    WordsFirst("(META", d + " " + (key + ")"));
    WordsFirst(d, key + ")");
    KeepSelf(d);
    MetaWord();
    Regroup(["META"], [d], Words(key + ")"));
  }

  lemma PointerShape(d: string, key: string)
    ensures "(META " + d + " " + key + ")" == "(META" + " " + (d + " " + (key + ")"))
  {
    assert "(META " == "(META" + " ";
  }

  lemma MetaWord()
    ensures Keep("(META") == ["META"]
  {
    assert "(META"[1..] == "META";
    assert StripFront("META") == "META";
    assert StripBack("META") == "META";
  }

  /** A key is the one word left after its closing parenthesis exactly when it is plain. */
  lemma KeyWord(key: string)
    ensures Words(key + ")") == [key] <==> Plain(key)
  {
    var t := key + ")";
    WordsPlain(t);
    assert Words(t) == [key] ==> Words(t)[0] in Words(t);
    if Plain(key) {
      assert t[|key|] == ')';
      assert forall j :: 0 <= j < |key| ==> t[j] == key[j];
      assert FirstSpace(t) == |t|;
      KeepClosed(key);
    }
  }

  /** Parsing what was printed gives the pointer back, for every 32-bit owner, if and only if the key is plain. */
  lemma PointerRoundTrip(owner: int, key: string)
    requires IsInt(owner)
    ensures ParseMeta(Pointer(owner, key)) == Some(PairKey(owner, key)) <==> Plain(key)
  {
    PointerWords(owner, key);
    KeyWord(key);
    DecimalRoundTrip(owner);
    var parts, rest := Words(Pointer(owner, key)), Words(key + ")");
    if |parts| == 3 { assert rest == [parts[2]]; }
  }

  /** The tracker's parser agrees, except that it reads the null pointer as pointing nowhere. */
  lemma TrackedRoundTrip(owner: int, key: string)
    requires IsInt(owner)
    ensures ParseTracked(Pointer(owner, key)) == Some(PairKey(owner, key))
            <==> Plain(key) && !(owner == ANY_OWNER && key == "NULL")
  {
    PointerWords(owner, key);
    KeyWord(key);
    DecimalRoundTrip(owner);
    var parts, rest := Words(Pointer(owner, key)), Words(key + ")");
    if |parts| == 3 { assert rest == [parts[2]]; }
  }

  // ---------------------------------------------------------------- the loop of extractStrings

  method Strip(word: string) returns (kept: seq<string>)
    ensures kept == Keep(word)
  {
    var lo := 0;
    while lo < |word| && IsParen(word[lo])
      invariant 0 <= lo <= |word| && StripFront(word[lo..]) == StripFront(word)
    {
      assert word[lo..][1..] == word[lo + 1..];
      lo := lo + 1;
    }
    var front := word[lo..];
    assert StripFront(front) == front;
    var hi := |front|;
    assert front[..hi] == front;
    while hi > 0 && IsParen(front[hi - 1])
      invariant 0 <= hi <= |front| && StripBack(front[..hi]) == StripBack(front)
    {
      assert front[..hi][..hi - 1] == front[..hi - 1];
      hi := hi - 1;
    }
    kept := if hi == 0 then [] else [front[..hi]];
  }

  lemma WordsStep(text: string, start: nat, end: nat)
    requires start <= end <= |text| && (forall j :: start <= j < end ==> text[j] != ' ')
    requires end < |text| ==> text[end] == ' '
    ensures Words(text[start..]) == Keep(text[start..end]) + (if end == |text| then [] else Words(text[end + 1..]))
  {
    var rest := text[start..];
    assert FirstSpace(rest) == end - start;
    assert rest[..end - start] == text[start..end];
    if end < |text| {
      assert rest[end - start + 1..] == text[end + 1..];
    } else {
      assert rest == text[start..end];
      assert Keep(rest) + [] == Keep(rest);
    }
  }

  lemma Regroup(a: seq<string>, b: seq<string>, c: seq<string>)
    ensures (a + b) + c == a + (b + c)
  {
  }

  /** One part between spaces, stripped; `kept` is what it adds to the words. */
  method NextPart(text: string, start: nat) returns (end: nat, kept: seq<string>)
    requires start <= |text|
    ensures start <= end <= |text|
    ensures Words(text[start..]) == kept + (if end == |text| then [] else Words(text[end + 1..]))
  {
    end := start;
    while end < |text| && text[end] != ' '
      invariant start <= end <= |text| && forall j :: start <= j < end ==> text[j] != ' '
    {
      end := end + 1;
    }
    kept := Strip(text[start..end]);
    WordsStep(text, start, end);
  }

  method ExtractStrings(text: string) returns (words: seq<string>)
    ensures words == Words(text)
  {
    words := [];
    var start := 0;
    assert text[0..] == text;
    while true
      invariant 0 <= start <= |text|
      invariant words + Words(text[start..]) == Words(text)
      decreases |text| - start
    {
      var end, kept := NextPart(text, start);
      Regroup(words, kept, if end == |text| then [] else Words(text[end + 1..]));
      words := words + kept;
      if end == |text| { return; }
      start := end + 1;
    }
  }
}
