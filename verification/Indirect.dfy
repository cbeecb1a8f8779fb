/** Reading and writing through a meta-pair: the printer, the parser and the pair space together. */
module Indirect {
  import opened Base
  import opened M = PairSpaceModel
  import opened MetaText
  import opened Node
  import G = MetaGrammar
  import Mirror

  /** `getPairIndirectly`. */
  function GetIndirectly(s: Space, mk: PairKey): Option<(string, PairType)> {
    var meta := ShownAt(s, mk);
    if meta.None? then None
    else
      var target := ParseMeta(meta.value.0);
      if target.None? then None else ShownAt(s, target.value)
  }

  /** Setting a pair of our own, or asking its owner to. */
  function SetAt(self: Self, k: PairKey, value: string, ty: PairType): Call {
    if k.owner == self.id then SetPair(k.key, value, ty) else SetRemotePair(k.owner, k.key, value, ty)
  }

  /** `setMetaPair`. */
  function SetMeta(self: Self, mk: PairKey, target: PairKey): Call {
    SetAt(self, mk, Pointer(target.owner, target.key), Text)
  }

  /** `initMetaPair`. */
  function InitMeta(self: Self, mk: PairKey): Call { SetAt(self, mk, "(META -1 NULL)", Meta) }

  /** `setPairIndirectly`: the call it comes down to, or nothing if there is no pointer to follow. */
  function SetIndirectly(self: Self, s: Space, mk: PairKey, value: string): Option<Call> {
    var meta := ShownAt(s, mk);
    if meta.None? then None
    else
      var target := ParseMeta(meta.value.0);
      if target.None? then None else Some(SetAt(self, target.value, value, Text))
  }

  /** What is shown after an own call. */
  lemma OwnSet(self: Self, s: Space, key: string, value: string, ty: PairType, k: PairKey)
    requires ty != Invalid
    ensures ShownAt(Perform(self, s, SetPair(key, value, ty)).0, k) ==
              if k == PairKey(self.id, key) then Some((value, ty)) else ShownAt(s, k)
  {
    Mirror.HappensIsOp(self, s, Mirror.Called(SetPair(key, value, ty)));
    ShownStep(s, Publish(Pair(self.id, key, value, ty)), k);
  }

  /** A pointer leads to its target, exactly if the key survives being printed. */
  lemma PointerLeads(self: Self, s: Space, mk: PairKey, target: PairKey, value: string)
    requires mk.owner == self.id && -0x8000_0000 <= target.owner <= 0x7FFF_FFFF && target != mk
    ensures var r := Perform(self, s, SetMeta(self, mk, target)).0;
            && ShownAt(r, mk) == Some(("(META " + Decimal(target.owner) + " " + target.key + ")", Text))
            && (ParseMeta(ShownAt(r, mk).value.0) == Some(target) <==> Plain(target.key))
            && (Plain(target.key) ==>
                  && GetIndirectly(r, mk) == ShownAt(s, target)
                  && SetIndirectly(self, r, mk, value) == Some(SetAt(self, target, value, Text)))
  {
    OwnSet(self, s, mk.key, Pointer(target.owner, target.key), Text, mk);
    OwnSet(self, s, mk.key, Pointer(target.owner, target.key), Text, target);
    PointerRoundTrip(target.owner, target.key);
  }

  /** What is written through a pointer is read back through it, if the target is our own. */
  lemma WriteThroughOwn(self: Self, s: Space, mk: PairKey, target: PairKey, value: string)
    requires mk.owner == self.id && target.owner == self.id && -0x8000_0000 <= self.id <= 0x7FFF_FFFF && target != mk
    requires Plain(target.key)
    ensures var r := Perform(self, s, SetMeta(self, mk, target)).0;
            && SetIndirectly(self, r, mk, value).Some?
            && var t := Perform(self, r, SetIndirectly(self, r, mk, value).value).0;
            GetIndirectly(t, mk) == Some((value, Text)) && ShownAt(t, target) == Some((value, Text))
  {
    PointerLeads(self, s, mk, target, value);
    var r := Perform(self, s, SetMeta(self, mk, target)).0;
    OwnSet(self, r, target.key, value, Text, mk);
    OwnSet(self, r, target.key, value, Text, target);
  }

  /** And if it is somebody else's, they are asked for it and then show it. */
  lemma WriteThroughRemote(self: Self, s: Space, mk: PairKey, owner: Self, own: Space, key: string, value: string)
    requires mk.owner == self.id && owner.id != self.id && owner.id in self.peers
    requires -0x8000_0000 <= owner.id <= 0x7FFF_FFFF && Plain(key)
    ensures var target := PairKey(owner.id, key);
            var r := Perform(self, s, SetMeta(self, mk, target)).0;
            && SetIndirectly(self, r, mk, value).Some?
            && var (t, out) := Perform(self, r, SetIndirectly(self, r, mk, value).value);
            && t == r && out == [Sent(owner.id, Push(Pair(owner.id, key, value, Text)))]
            && ShownAt(Handle(owner, own, out[0].msg, []).0, target) == Some((value, Text))
  {
    var target := PairKey(owner.id, key);
    PointerLeads(self, s, mk, target, value);
    Mirror.HandleShows(owner, own, Push(Pair(owner.id, key, value, Text)), [], target);
  }

  /**
   * The null pointer is nothing to the tracker, but the client reads it as the key NULL of component -1: so what is
   * read through it is nothing as long as that component publishes no such pair, and a write is sent to it.
   */
  lemma NullPointer(self: Self, s: Space, mk: PairKey, value: string)
    requires mk.owner == self.id && self.id != -1 && mk != PairKey(-1, "NULL")
    ensures var r := Perform(self, s, InitMeta(self, mk)).0;
            && ShownAt(r, mk) == Some(("(META -1 NULL)", Meta)) && ParseTracked(ShownAt(r, mk).value.0) == None
            && GetIndirectly(r, mk) == ShownAt(s, PairKey(-1, "NULL"))
            && SetIndirectly(self, r, mk, value) == Some(SetRemotePair(-1, "NULL", value, Text))
  {
    OwnSet(self, s, mk.key, "(META -1 NULL)", Meta, mk);
    OwnSet(self, s, mk.key, "(META -1 NULL)", Meta, PairKey(-1, "NULL"));
    NullParses();
  }

  lemma NullText()
    ensures Pointer(-1, "NULL") == "(META -1 NULL)" && Plain("NULL")
  {
    assert Digits(1) == "1";
    assert Decimal(-1) == "-1";
    assert "(META " + "-1" + " " + "NULL" + ")" == "(META -1 NULL)";
  }

  lemma NullParses()
    ensures ParseMeta("(META -1 NULL)") == Some(PairKey(-1, "NULL")) && ParseTracked("(META -1 NULL)") == None
  {
    NullText();
    PointerRoundTrip(-1, "NULL");
    TrackedRoundTrip(-1, "NULL");
    PointerOrNothing(-1, "NULL");
  }

  /** The tracker reads a printed pointer as that pointer or as none. */
  lemma PointerOrNothing(owner: int, key: string)
    requires IsInt(owner) && Plain(key)
    ensures ParseTracked(Pointer(owner, key)) == None || ParseTracked(Pointer(owner, key)) == Some(PairKey(owner, key))
  {
    var v := Pointer(owner, key);
    PointerRoundTrip(owner, key);
    G.ParseMetaIff(v, PairKey(owner, key));
    if k :| ParseTracked(v) == Some(k) {
      G.ParseTrackedIff(v, k);
      var w := Words(v)[1];
      assert w[..|w|] == w;
      G.FromCharsIff(w, owner, |w|);
      var stop :| G.StartsWithNumber(w, k.owner, stop);
      G.FromCharsIff(w, k.owner, stop);
    }
  }
}
