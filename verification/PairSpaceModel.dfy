/** The pair space as a value: what every `PairSpace` mutator does, and what any sequence of them keeps. */
module PairSpaceModel {
  import opened Base

  /** A callback is opaque: it is only stored and handed back. */
  type Callback = nat

  datatype Entry = Entry(pair: Pair, subscribers: seq<int>, callbacks: map<nat, Callback>)

  datatype Space = Space(
    pairs: map<PairKey, Entry>,
    wildcard: seq<int>,                       // u_subscribers_
    owners: map<nat, PairKey>,                // callback_owners_
    universal: map<nat, Callback>,            // universal_callbacks_
    lastHandle: nat)                          // next_callback_handle_

  const EMPTY_SPACE := Space(map[], [], map[], map[], 0)

  // ---------------------------------------------------------------- operations

  function AddPair(s: Space, p: Pair): Space {
    var k := p.Id();
    if k in s.pairs then
      s.(pairs := s.pairs[k := s.pairs[k].(pair := s.pairs[k].pair.(value := p.value, ty := p.ty))])
    else
      s.(pairs := s.pairs[k := Entry(p, s.wildcard, map[])])
  }

  function Placeholder(k: PairKey): Pair { Pair(k.owner, k.key, "", Invalid) }

  /** The entry for `k`, created as a placeholder when it is missing. */
  function Ensure(s: Space, k: PairKey): (r: Space)
    ensures k in r.pairs
  {
    if k in s.pairs then s else AddPair(s, Placeholder(k))
  }

  function RemovePair(s: Space, k: PairKey): Space {
    if k !in s.pairs then s
    else
      var e := s.pairs[k];
      if e.subscribers == [] && e.callbacks == map[] then s.(pairs := s.pairs - {k})
      else s.(pairs := s.pairs[k := e.(pair := e.pair.(value := "", ty := Invalid))])
  }

  function AddCallback(s: Space, k: PairKey, cb: Callback): Space {
    var h := s.lastHandle + 1;
    var r := Ensure(s.(lastHandle := h, owners := s.owners[h := k]), k);
    r.(pairs := r.pairs[k := r.pairs[k].(callbacks := r.pairs[k].callbacks[h := cb])])
  }

  function AddCallbackToAll(s: Space, cb: Callback): Space {
    var h := s.lastHandle + 1;
    s.(lastHandle := h, universal := s.universal[h := cb])
  }

  function RemoveCallback(s: Space, h: nat): Space {
    if h !in s.owners then s.(universal := s.universal - {h})
    else
      var k := s.owners[h];
      var pairs := if k in s.pairs then s.pairs[k := s.pairs[k].(callbacks := s.pairs[k].callbacks - {h})] else s.pairs;
      s.(pairs := pairs, owners := s.owners - {h})
  }

  function AddOnce(list: seq<int>, x: int): seq<int> {
    if x in list then list else list + [x]
  }

  function AddSubscription(s: Space, k: PairKey, x: int): Space {
    var r := Ensure(s, k);
    r.(pairs := r.pairs[k := r.pairs[k].(subscribers := AddOnce(r.pairs[k].subscribers, x))])
  }

  function RemoveSubscription(s: Space, k: PairKey, x: int): Space {
    if k !in s.pairs then s
    else s.(pairs := s.pairs[k := s.pairs[k].(subscribers := Erase(s.pairs[k].subscribers, x))])
  }

  function AddSubscriptionToAll(s: Space, x: int): Space {
    if x in s.wildcard then s
    else s.(wildcard := s.wildcard + [x],
            pairs := map k | k in s.pairs :: s.pairs[k].(subscribers := AddOnce(s.pairs[k].subscribers, x)))
  }

  function RemoveSubscriptionToAll(s: Space, x: int): Space {
    s.(wildcard := Erase(s.wildcard, x),
       pairs := map k | k in s.pairs :: s.pairs[k].(subscribers := Erase(s.pairs[k].subscribers, x)))
  }

  // ---------------------------------------------------------------- operation sequences

  datatype Op =
    | Publish(pair: Pair)
    | Remove(id: PairKey)
    | Watch(id: PairKey, cb: Callback)
    | WatchAll(cb: Callback)
    | Unwatch(handle: nat)
    | Subscribe(id: PairKey, who: int)
    | Unsubscribe(id: PairKey, who: int)
    | SubscribeAll(who: int)
    | UnsubscribeAll(who: int)

  function Apply(s: Space, op: Op): Space {
    match op
    case Publish(p) => AddPair(s, p)
    case Remove(k) => RemovePair(s, k)
    case Watch(k, cb) => AddCallback(s, k, cb)
    case WatchAll(cb) => AddCallbackToAll(s, cb)
    case Unwatch(h) => RemoveCallback(s, h)
    case Subscribe(k, x) => AddSubscription(s, k, x)
    case Unsubscribe(k, x) => RemoveSubscription(s, k, x)
    case SubscribeAll(x) => AddSubscriptionToAll(s, x)
    case UnsubscribeAll(x) => RemoveSubscriptionToAll(s, x)
  }

  /** The space after a whole sequence of operations. */
  function Run(s: Space, ops: seq<Op>): Space {
    if ops == [] then s else Apply(Run(s, ops[..|ops| - 1]), ops[|ops| - 1])
  }

  /** The handles those operations returned, oldest first. */
  function Issued(s: Space, ops: seq<Op>): seq<nat> {
    if ops == [] then []
    else
      var n := |ops| - 1;
      var before := Issued(s, ops[..n]);
      if ops[n].Watch? || ops[n].WatchAll? then before + [Run(s, ops).lastHandle] else before
  }

  // ---------------------------------------------------------------- callback indices

  function CallbacksOn(s: Space, k: PairKey): map<nat, Callback> {
    if k in s.pairs then s.pairs[k].callbacks else map[]
  }

  function SubscribersOn(s: Space, k: PairKey): seq<int> {
    if k in s.pairs then s.pairs[k].subscribers else []
  }

  /** `callback_owners_` is exactly the inverse of the per-entry callback maps. */
  ghost predicate IndicesAgree(s: Space) {
    && (forall h, k :: h in CallbacksOn(s, k) <==> h in s.owners && s.owners[h] == k)
    && s.owners.Keys !! s.universal.Keys
    && (forall h :: h in s.owners || h in s.universal ==> 1 <= h <= s.lastHandle)
  }

  ghost predicate KeysMatch(s: Space) {
    forall k :: k in s.pairs ==> s.pairs[k].pair.Id() == k
  }

  /** No subscriber list holds a duplicate. */
  ghost predicate ListsDistinct(s: Space) {
    && NoDup(s.wildcard)
    && forall k :: k in s.pairs ==> NoDup(s.pairs[k].subscribers)
  }

  ghost predicate WellFormed(s: Space) {
    IndicesAgree(s) && KeysMatch(s) && ListsDistinct(s)
  }

  /** What each operation does to the callbacks of each key. */
  lemma CallbacksStep(s: Space, op: Op, k: PairKey)
    ensures CallbacksOn(Apply(s, op), k) ==
            match op
            case Watch(id, cb) => if k == id then CallbacksOn(s, k)[s.lastHandle + 1 := cb] else CallbacksOn(s, k)
            case Unwatch(h) => if h in s.owners && s.owners[h] == k then CallbacksOn(s, k) - {h} else CallbacksOn(s, k)
            case _ => CallbacksOn(s, k)
  {
  }

  /** What each operation does to the subscribers of each key. */
  lemma SubscribersStep(s: Space, op: Op, k: PairKey)
    ensures var now := SubscribersOn(Apply(s, op), k);
            var was := if k in s.pairs then SubscribersOn(s, k) else s.wildcard;
            k in Apply(s, op).pairs ==>
              now == match op
                     case Subscribe(id, x) => if id == k then AddOnce(was, x) else was
                     case Unsubscribe(id, x) => if id == k then Erase(was, x) else was
                     case SubscribeAll(x) => if x in s.wildcard then was else AddOnce(was, x)
                     case UnsubscribeAll(x) => Erase(was, x)
                     case _ => was
  {
  }

  /** What each operation does to the handle tables. */
  lemma HandlesStep(s: Space, op: Op)
    ensures var r := Apply(s, op);
            match op
            case Watch(id, cb) => r.owners == s.owners[s.lastHandle + 1 := id] && r.universal == s.universal
                && r.lastHandle == s.lastHandle + 1
            case WatchAll(cb) => r.owners == s.owners && r.universal == s.universal[s.lastHandle + 1 := cb]
                && r.lastHandle == s.lastHandle + 1
            case Unwatch(h) => r.owners == s.owners - {h} && r.lastHandle == s.lastHandle
                               && r.universal == (if h in s.owners then s.universal else s.universal - {h})
            case _ => r.owners == s.owners && r.universal == s.universal && r.lastHandle == s.lastHandle
  {
  }

  lemma StepKeepsIndices(s: Space, op: Op)
    requires IndicesAgree(s)
    ensures IndicesAgree(Apply(s, op))
  {
    var r := Apply(s, op);
    HandlesStep(s, op);
    forall h, k
      ensures h in CallbacksOn(r, k) <==> h in r.owners && r.owners[h] == k
    {
      InverseStep(s, op, h, k);
    }
  }

  lemma InverseStep(s: Space, op: Op, h: nat, k: PairKey)
    requires IndicesAgree(s)
    ensures var r := Apply(s, op); h in CallbacksOn(r, k) <==> h in r.owners && r.owners[h] == k
  {
    CallbacksStep(s, op, k);
    HandlesStep(s, op);
    assert h in CallbacksOn(s, k) <==> h in s.owners && s.owners[h] == k;
  }

  lemma StepKeepsLists(s: Space, op: Op)
    requires ListsDistinct(s)
    ensures ListsDistinct(Apply(s, op))
  {
    var r := Apply(s, op);
    forall k | k in r.pairs
      ensures NoDup(r.pairs[k].subscribers)
    {
      SubscribersStep(s, op, k);
      assert NoDup(if k in s.pairs then SubscribersOn(s, k) else s.wildcard);
    }
  }

  lemma StepKeepsKeys(s: Space, op: Op)
    requires KeysMatch(s)
    ensures KeysMatch(Apply(s, op))
  {
  }

  /** Every sequence of operations leaves both callback indices in agreement and all lists free of duplicates. */
  lemma {:induction false} RunWellFormed(ops: seq<Op>)
    ensures WellFormed(Run(EMPTY_SPACE, ops))
  {
    if ops != [] {
      var n := |ops| - 1;
      RunWellFormed(ops[..n]);
      StepKeepsIndices(Run(EMPTY_SPACE, ops[..n]), ops[n]);
      StepKeepsLists(Run(EMPTY_SPACE, ops[..n]), ops[n]);
      StepKeepsKeys(Run(EMPTY_SPACE, ops[..n]), ops[n]);
    }
  }

  /** The n-th registration returns handle n: never zero, never reissued, whatever was cancelled in between. */
  lemma {:induction false} HandlesNeverReissued(ops: seq<Op>)
    ensures var issued := Issued(EMPTY_SPACE, ops);
            && |issued| == Run(EMPTY_SPACE, ops).lastHandle
            && forall i :: 0 <= i < |issued| ==> issued[i] == i + 1
  {
    if ops != [] { HandlesNeverReissued(ops[..|ops| - 1]); }
  }

  // ---------------------------------------------------------------- registrations survive

  ghost predicate Cancels(op: Op, k: PairKey, x: int) {
    op == Unsubscribe(k, x) || op == UnsubscribeAll(x)
  }

  /** A subscriber stays on its entry through any publishes and removals until it cancels. */
  lemma {:induction false} SubscriberSurvives(s: Space, ops: seq<Op>, k: PairKey, x: int)
    requires x in SubscribersOn(s, k)
    requires forall i :: 0 <= i < |ops| ==> !Cancels(ops[i], k, x)
    ensures x in SubscribersOn(Run(s, ops), k)
  {
    if ops != [] {
      var n := |ops| - 1;
      SubscriberSurvives(s, ops[..n], k, x);
      SubscribersStep(Run(s, ops[..n]), ops[n], k);
    }
  }

  /** So does a callback, until its own handle is cancelled. */
  lemma {:induction false} CallbackSurvives(s: Space, ops: seq<Op>, k: PairKey, h: nat)
    requires IndicesAgree(s) && h in CallbacksOn(s, k)
    requires Unwatch(h) !in ops
    ensures var r := Run(s, ops);
            IndicesAgree(r) && h in CallbacksOn(r, k) && CallbacksOn(r, k)[h] == CallbacksOn(s, k)[h]
  {
    if ops != [] {
      var n := |ops| - 1;
      CallbackSurvives(s, ops[..n], k, h);
      StepKeepsIndices(Run(s, ops[..n]), ops[n]);
      CallbacksStep(Run(s, ops[..n]), ops[n], k);
      assert h in Run(s, ops[..n]).owners;
    }
  }

  /** Exactly when an operation erases an entry: it removes a pair nobody is registered on. */
  lemma ErasesOnlyUnregistered(s: Space, op: Op, k: PairKey)
    requires k in s.pairs
    ensures k !in Apply(s, op).pairs <==>
              op == Remove(k) && s.pairs[k].subscribers == [] && s.pairs[k].callbacks == map[]
  {
  }

  // ---------------------------------------------------------------- wildcard subscribers

  /** Every wildcard subscriber is on every entry. */
  ghost predicate WildcardEverywhere(s: Space) {
    forall k, x :: k in s.pairs && x in s.wildcard ==> x in s.pairs[k].subscribers
  }

  /** A wildcard subscriber cancelling one published or placeholder key. */
  ghost predicate SingleKeyCancel(s: Space, op: Op) {
    op.Unsubscribe? && op.who in s.wildcard && op.id in s.pairs
  }

  /** The one operation that takes a wildcard subscriber off an entry, and it always does. */
  lemma WildcardKeptIff(s: Space, op: Op)
    requires WildcardEverywhere(s)
    ensures WildcardEverywhere(Apply(s, op)) <==> !SingleKeyCancel(s, op)
  {
    if SingleKeyCancel(s, op) {
      var r := Apply(s, op);
      assert op.id in r.pairs && op.who in r.wildcard && op.who !in r.pairs[op.id].subscribers;
    }
  }

  lemma {:induction false} WildcardInEveryRun(ops: seq<Op>)
    requires forall i :: 0 <= i < |ops| ==> !SingleKeyCancel(Run(EMPTY_SPACE, ops[..i]), ops[i])
    ensures WildcardEverywhere(Run(EMPTY_SPACE, ops))
  {
    if ops != [] {
      var n := |ops| - 1;
      forall i | 0 <= i < n ensures !SingleKeyCancel(Run(EMPTY_SPACE, ops[..n][..i]), ops[..n][i]) {
        assert ops[..n][..i] == ops[..i];
      }
      WildcardInEveryRun(ops[..n]);
      WildcardKeptIff(Run(EMPTY_SPACE, ops[..n]), ops[n]);
    }
  }

  // ---------------------------------------------------------------- placeholders are invisible

  /** What `getPair` and `snapshotPairs` show. */
  function Visible(s: Space): map<PairKey, (string, PairType)> {
    map k | k in s.pairs && s.pairs[k].pair.ty != Invalid :: (s.pairs[k].pair.value, s.pairs[k].pair.ty)
  }

  /** A plain blackboard: no registrations, no placeholders. */
  function PlainApply(m: map<PairKey, (string, PairType)>, op: Op): map<PairKey, (string, PairType)> {
    match op
    case Publish(p) => m[p.Id() := (p.value, p.ty)]
    case Remove(k) => m - {k}
    case _ => m
  }

  function PlainRun(ops: seq<Op>): map<PairKey, (string, PairType)> {
    if ops == [] then map[] else PlainApply(PlainRun(ops[..|ops| - 1]), ops[|ops| - 1])
  }

  function ShownAt(s: Space, k: PairKey): Option<(string, PairType)> {
    if k in s.pairs && s.pairs[k].pair.ty != Invalid then Some((s.pairs[k].pair.value, s.pairs[k].pair.ty)) else None
  }

  /** What one operation does to what is shown under one key. */
  lemma ShownStep(s: Space, op: Op, k: PairKey)
    ensures ShownAt(Apply(s, op), k) ==
            match op
            case Publish(p) => if k == p.Id() then (if p.ty == Invalid then None else Some((p.value, p.ty)))
                else ShownAt(s, k)
            case Remove(id) => if k == id then None else ShownAt(s, k)
            case _ => ShownAt(s, k)
  {
  }

  lemma VisibleAt(s: Space, op: Op, k: PairKey)
    requires !(op.Publish? && op.pair.ty == Invalid)
    ensures var r, m := Visible(Apply(s, op)), PlainApply(Visible(s), op);
            (k in r <==> k in m) && (k in r ==> r[k] == m[k])
  {
    ShownStep(s, op, k);
    assert ShownAt(s, k).Some? <==> k in Visible(s);
    assert ShownAt(Apply(s, op), k).Some? <==> k in Visible(Apply(s, op));
  }

  /** Registrations never show; only publishing an `Invalid` pair departs from the plain map. */
  lemma VisibleStep(s: Space, op: Op)
    ensures Visible(Apply(s, op)) == PlainApply(Visible(s), op)
            <==> !(op.Publish? && op.pair.ty == Invalid)
  {
    var r, m := Visible(Apply(s, op)), PlainApply(Visible(s), op);
    if op.Publish? && op.pair.ty == Invalid {
      assert op.pair.Id() in m && op.pair.Id() !in r;
    } else {
      forall k ensures (k in r <==> k in m) && (k in r ==> r[k] == m[k]) { VisibleAt(s, op, k); }
      assert r == m;
    }
  }

  /** With no `Invalid` pair published, the space refines the plain map; registrations never show. */
  lemma {:induction false} VisibleRefinesPlain(ops: seq<Op>)
    requires forall i :: 0 <= i < |ops| && ops[i].Publish? ==> ops[i].pair.ty != Invalid
    ensures Visible(Run(EMPTY_SPACE, ops)) == PlainRun(ops)
  {
    if ops != [] {
      var n := |ops| - 1;
      VisibleRefinesPlain(ops[..n]);
      VisibleStep(Run(EMPTY_SPACE, ops[..n]), ops[n]);
    }
  }
}
