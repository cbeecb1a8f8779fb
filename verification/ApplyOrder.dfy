/**
 * Any number of threads changing pairs on one component. A call takes the pair-space lock, applies and
 * reads the subscriber list. A locked call (`setPair`, `removePair`) then hands one frame to each connected
 * subscriber's session before it releases; a split one (`applyAndNotify`, `handleRemovePair`) releases first.
 */
module ApplyOrder {
  import opened Base

  /** A publish of a value, or a removal. */
  datatype Op = Op(key: string, value: Option<string>)

  /** Where a call stands; a thread without an entry is outside. `number`: of the application it made. */
  datatype Pc =
    | Waiting(op: Op, split: bool)
    | Locked(op: Op, split: bool)
    | Fanning(number: nat, left: seq<int>, split: bool)

  /** An application, with the subscribers read under the same lock. */
  datatype Applied = Applied(op: Op, subscribers: seq<int>)

  /**
   * `applied`: history, numbered from zero. `handed`: numbers of the applications whose frames each session
   * was handed. `overtaken`: sessions handed a frame while an earlier one was still owed to them.
   */
  datatype State = State(
    holder: Option<nat>, threads: map<nat, Pc>,
    store: map<string, Option<string>>, subscribers: map<string, seq<int>>, connected: set<int>,
    applied: seq<Applied>, handed: map<int, seq<nat>>, overtaken: set<int>)

  function Init(connected: set<int>): State {
    State(None, map[], map[], map[], connected, [], map[], {})
  }

  datatype Step =
    | Call(t: nat, op: Op, split: bool)
    | Acquire(t: nat)
    | Apply(t: nat)
    | Hand(t: nat)
    | Release(t: nat)
    | Resubscribe(key: string, subscribers: seq<int>)

  function SubscribersOf(s: State, key: string): seq<int> {
    if key in s.subscribers then s.subscribers[key] else []
  }

  function HandedTo(s: State, x: int): seq<nat> {
    if x in s.handed then s.handed[x] else []
  }

  predicate Enabled(s: State, step: Step) {
    match step
    case Call(t, _, _) => t !in s.threads
    case Acquire(t) => t in s.threads && s.threads[t].Waiting? && s.holder.None?
    case Apply(t) => t in s.threads && s.threads[t].Locked?
    case Hand(t) => t in s.threads && s.threads[t].Fanning? && s.threads[t].left != []
    case Release(t) => t in s.threads && s.threads[t].Fanning? && s.threads[t].left == []
    case Resubscribe(_, subscribers) =>
      s.holder.None? && forall i, j :: 0 <= i < j < |subscribers| ==> subscribers[i] != subscribers[j]
  }

  /** Thread `t` still has to hand the frame of application `n` to `x`. */
  predicate Owes(s: State, t: nat, n: nat, x: int) {
    t in s.threads && s.threads[t].Fanning? && s.threads[t].number == n && x in s.threads[t].left
  }

  /** A frame of an application before `n` is still owed to `x`. */
  ghost predicate OwedEarlier(s: State, n: nat, x: int) {
    exists m: nat :: m < n && Owed(s, m, x)
  }

  ghost predicate Owed(s: State, n: nat, x: int) {
    exists t: nat :: Owes(s, t, n, x)
  }

  ghost function Next(s: State, step: Step): State
    requires Enabled(s, step)
  {
    match step
    case Call(t, op, split) => s.(threads := s.threads[t := Waiting(op, split)])
    case Acquire(t) => s.(holder := Some(t), threads := s.threads[t := Locked(s.threads[t].op, s.threads[t].split)])
    case Apply(t) =>
      var pc := s.threads[t];
      var to := SubscribersOf(s, pc.op.key);
      s.(store := s.store[pc.op.key := pc.op.value], applied := s.applied + [Applied(pc.op, to)],
         threads := s.threads[t := Fanning(|s.applied|, to, pc.split)], holder := if pc.split then None else s.holder)
    case Hand(t) => HandOver(s, t)
    case Release(t) => s.(threads := s.threads - {t}, holder := if s.threads[t].split then s.holder else None)
    case Resubscribe(key, subscribers) => s.(subscribers := s.subscribers[key := subscribers])
  }

  ghost function HandOver(s: State, t: nat): State
    requires Enabled(s, Hand(t))
  {
    var pc := s.threads[t];
    var x := pc.left[0];
    s.(threads := s.threads[t := pc.(left := pc.left[1..])],
       handed := if x in s.connected then s.handed[x := HandedTo(s, x) + [pc.number]] else s.handed,
       overtaken := if OwedEarlier(s, pc.number, x) then s.overtaken + {x} else s.overtaken)
  }

  ghost predicate IsRun(connected: set<int>, states: seq<State>, steps: seq<Step>) {
    && |states| == |steps| + 1 && states[0] == Init(connected)
    && forall i :: 0 <= i < |steps| ==> Enabled(states[i], steps[i]) && states[i + 1] == Next(states[i], steps[i])
  }

  /** The numbers of the applications addressed to `x`, in the order the pair space made them. */
  function AppliedFor(applied: seq<Applied>, x: int): seq<nat> {
    if applied == [] then []
    else
      var n := |applied| - 1;
      var before := AppliedFor(applied[..n], x);
      if x in applied[n].subscribers then before + [n] else before
  }

  /** What applying everything in order leaves in the store. */
  function Stored(applied: seq<Applied>): map<string, Option<string>> {
    if applied == [] then map[]
    else
      var last := applied[|applied| - 1].op;
      Stored(applied[..|applied| - 1])[last.key := last.value]
  }

  // ---------------------------------------------------------------- invariant

  predicate Inside(pc: Pc) { pc.Locked? || (pc.Fanning? && !pc.split) }

  /** Exactly the lock's holder is in the critical section. */
  ghost predicate LockOk(s: State) {
    && (forall t :: t in s.threads && Inside(s.threads[t]) ==> s.holder == Some(t))
    && (s.holder.Some? ==> s.holder.value in s.threads && Inside(s.threads[s.holder.value]))
  }

  /** Each call fans out an application of its own, to distinct subscribers. */
  ghost predicate FansOk(s: State) {
    && (forall k :: k in s.subscribers ==> NoDup(s.subscribers[k]))
    && (forall t :: t in s.threads && s.threads[t].Fanning? ==>
          NoDup(s.threads[t].left) && s.threads[t].number < |s.applied|)
    && (forall t, u :: t in s.threads && u in s.threads && t != u && s.threads[t].Fanning? && s.threads[u].Fanning? ==>
          s.threads[t].number != s.threads[u].number)
  }

  /** Every application addressed to `x` was handed to it or is still owed, and not both. */
  ghost predicate Accounted(s: State, x: int) {
    forall n: nat ::
      && (n in AppliedFor(s.applied, x) <==> n in HandedTo(s, x) || Owed(s, n, x))
      && (Owed(s, n, x) ==> n !in HandedTo(s, x))
  }

  ghost predicate OrderOk(s: State, x: int) {
    HandedTo(s, x) <= AppliedFor(s.applied, x) <==> x !in s.overtaken
  }

  ghost predicate Inv(s: State) {
    && LockOk(s) && FansOk(s) && s.store == Stored(s.applied)
    && forall x :: x in s.connected ==> Accounted(s, x) && OrderOk(s, x)
  }

  // ---------------------------------------------------------------- facts about AppliedFor

  lemma {:induction false} AppliedSnoc(applied: seq<Applied>, a: Applied, x: int)
    ensures AppliedFor(applied + [a], x) ==
              AppliedFor(applied, x) + if x in a.subscribers then [|applied|] else []
    ensures Stored(applied + [a]) == Stored(applied)[a.op.key := a.op.value]
  {
    assert (applied + [a])[..|applied|] == applied;
  }

  lemma LongerPrefix(a: seq<nat>, b: seq<nat>, n: nat)
    ensures a <= b + [n] && |a| > |b| ==> n in a
  {
    if a <= b + [n] && |a| > |b| { assert a[|b|] == (b + [n])[|b|]; }
  }

  lemma InPrefix(a: seq<nat>, b: seq<nat>, i: nat)
    requires a <= b && i < |b|
    ensures i < |a| ==> b[i] in a
  {
    if i < |a| { assert a[i] == b[i]; }
  }

  ghost predicate Increasing(b: seq<nat>) { forall i, j :: 0 <= i < j < |b| ==> b[i] < b[j] }

  /** Numbers grow along the list. */
  lemma {:induction false} AppliedGrows(applied: seq<Applied>, x: int)
    ensures forall i :: 0 <= i < |AppliedFor(applied, x)| ==> AppliedFor(applied, x)[i] < |applied|
    ensures Increasing(AppliedFor(applied, x))
  {
    if applied != [] { AppliedGrows(applied[..|applied| - 1], x); }
  }

  /** Extending the longer side keeps a prefix a prefix, and a mismatch a mismatch once the shorter side fits. */
  lemma PrefixGrows(a: seq<nat>, b: seq<nat>, n: nat)
    requires forall i :: 0 <= i < |a| ==> a[i] != n
    ensures a <= b + [n] <==> a <= b
  {
    LongerPrefix(a, b, n);
  }

  /** What follows a prefix is not in it. */
  lemma NextIsNew(a: seq<nat>, b: seq<nat>)
    requires a <= b && Increasing(b)
    ensures |a| < |b| ==> b[|a|] !in a
  {
    forall j | 0 <= j < |a| && |a| < |b| ensures a[j] != b[|a|] { assert a[j] == b[j]; }
  }

  lemma ShorterPrefix(a: seq<nat>, b: seq<nat>, n: nat)
    ensures a + [n] <= b ==> a <= b
  {
    if a + [n] <= b { assert a == (a + [n])[..|a|]; }
  }

  /**
   * Handing over `n` after `a`, where `a` and the rest of `b` share nothing: still a prefix of `b` exactly
   * when `a` was and `n` is the earliest number of `b` not handed over yet.
   */
  lemma HandNext(a: seq<nat>, b: seq<nat>, n: nat, owed: set<nat>)
    requires Increasing(b) && n in owed
    requires forall m :: m in b <==> m in a || m in owed
    requires forall m :: m in owed ==> m !in a
    ensures a + [n] <= b <==> a <= b && forall m :: m in owed ==> n <= m
  {
    ShorterPrefix(a, b, n);
    if a <= b {
      var i :| 0 <= i < |b| && b[i] == n;
      InPrefix(a, b, i);
      NextIsNew(a, b);
      var first := b[|a|];
      assert first in b && first in owed;
      forall m | m in owed ensures first <= m {
        var j :| 0 <= j < |b| && b[j] == m;
        InPrefix(a, b, j);
      }
      assert a + [n] <= b <==> first == n;
    }
  }

  // ---------------------------------------------------------------- one step

  lemma ApplyAccounts(s: State, t: nat, x: int)
    requires Inv(s) && Enabled(s, Apply(t)) && x in s.connected
    ensures Accounted(Next(s, Apply(t)), x) && OrderOk(Next(s, Apply(t)), x)
  {
    var s', pc := Next(s, Apply(t)), s.threads[t];
    var a := Applied(pc.op, SubscribersOf(s, pc.op.key));
    var n := |s.applied|;
    AppliedSnoc(s.applied, a, x);
    AppliedGrows(s.applied, x);
    assert HandedTo(s', x) == HandedTo(s, x);
    forall m: nat ensures Owed(s', m, x) <==> Owed(s, m, x) || (m == n && x in a.subscribers) {
      if u: nat :| Owes(s, u, m, x) { assert u != t && Owes(s', u, m, x); }
      if u: nat :| Owes(s', u, m, x) { assert u != t ==> Owes(s, u, m, x); }
      if m == n && x in a.subscribers { assert Owes(s', t, m, x); }
    }
    assert n !in HandedTo(s, x) && !Owed(s, n, x) by { assert n !in AppliedFor(s.applied, x); }
    if x in a.subscribers { PrefixGrows(HandedTo(s, x), AppliedFor(s.applied, x), n); }
  }

  lemma HandOwes(s: State, t: nat, u: nat, m: nat, y: int)
    requires FansOk(s) && Enabled(s, Hand(t))
    ensures Owes(HandOver(s, t), u, m, y) <==> Owes(s, u, m, y) && !(u == t && y == s.threads[t].left[0])
  {
    var left := s.threads[t].left;
    assert y in left <==> y == left[0] || y in left[1..];
    assert left[0] !in left[1..];
  }

  lemma HandAccounts(s: State, t: nat, x: int)
    requires Inv(s) && Enabled(s, Hand(t)) && x in s.connected
    ensures Accounted(HandOver(s, t), x) && OrderOk(HandOver(s, t), x)
  {
    var s', pc := HandOver(s, t), s.threads[t];
    if x == pc.left[0] {
      HandedAccounts(s, t, x);
      HandedOrder(s, t, x);
    } else {
      assert HandedTo(s', x) == HandedTo(s, x) && (x in s'.overtaken <==> x in s.overtaken);
      forall m: nat ensures Owed(s', m, x) <==> Owed(s, m, x) {
        if u: nat :| Owes(s, u, m, x) { HandOwes(s, t, u, m, x); }
        if u: nat :| Owes(s', u, m, x) { HandOwes(s, t, u, m, x); }
      }
    }
  }

  lemma HandedAccounts(s: State, t: nat, x: int)
    requires Inv(s) && Enabled(s, Hand(t)) && x in s.connected && x == s.threads[t].left[0]
    ensures Accounted(HandOver(s, t), x)
  {
    var s', n := HandOver(s, t), s.threads[t].number;
    assert HandedTo(s', x) == HandedTo(s, x) + [n];
    assert Owes(s, t, n, x);
    forall m: nat ensures Owed(s', m, x) <==> Owed(s, m, x) && m != n {
      if u: nat :| Owes(s, u, m, x) { HandOwes(s, t, u, m, x); assert u == t ==> m == n; }
      if u: nat :| Owes(s', u, m, x) { HandOwes(s, t, u, m, x); assert u == t <==> m == n; }
    }
  }

  lemma HandedOrder(s: State, t: nat, x: int)
    requires Inv(s) && Enabled(s, Hand(t)) && x in s.connected && x == s.threads[t].left[0]
    ensures OrderOk(HandOver(s, t), x)
  {
    var s', n := HandOver(s, t), s.threads[t].number;
    var a, b := HandedTo(s, x), AppliedFor(s.applied, x);
    var owed := set m | m in b && m !in a;
    assert Owes(s, t, n, x);
    assert n in owed;
    AppliedGrows(s.applied, x);
    HandNext(a, b, n, owed);
    assert (forall m :: m in owed ==> n <= m) <==> !OwedEarlier(s, n, x) by {
      if m :| m in owed && m < n { assert Owed(s, m, x); }
      if OwedEarlier(s, n, x) { var m: nat :| m < n && Owed(s, m, x); assert m in owed; }
    }
    assert HandedTo(s', x) == a + [n] && s'.applied == s.applied;
  }

  lemma OtherAccounts(s: State, step: Step, x: int)
    requires Inv(s) && Enabled(s, step) && !step.Apply? && !step.Hand? && x in s.connected
    ensures Accounted(Next(s, step), x) && OrderOk(Next(s, step), x)
  {
    var s' := Next(s, step);
    forall m: nat ensures Owed(s', m, x) <==> Owed(s, m, x) {
      if u: nat :| Owes(s, u, m, x) { assert Owes(s', u, m, x); }
      if u: nat :| Owes(s', u, m, x) { assert Owes(s, u, m, x); }
    }
    assert HandedTo(s', x) == HandedTo(s, x) && s'.applied == s.applied && s'.overtaken == s.overtaken;
  }

  lemma StepInv(s: State, step: Step)
    requires Inv(s) && Enabled(s, step)
    ensures Inv(Next(s, step)) && Next(s, step).connected == s.connected
  {
    var s' := Next(s, step);
    assert LockOk(s') && FansOk(s');
    if step.Apply? {
      var pc := s.threads[step.t];
      AppliedSnoc(s.applied, Applied(pc.op, SubscribersOf(s, pc.op.key)), 0);
    }
    forall x | x in s'.connected ensures Accounted(s', x) && OrderOk(s', x) {
      if step.Apply? { ApplyAccounts(s, step.t, x); }
      else if step.Hand? { HandAccounts(s, step.t, x); }
      else { OtherAccounts(s, step, x); }
    }
  }

  lemma {:induction false} RunInv(connected: set<int>, states: seq<State>, steps: seq<Step>, i: nat)
    requires IsRun(connected, states, steps) && i < |states|
    ensures Inv(states[i]) && states[i].connected == connected
  {
    if i > 0 {
      RunInv(connected, states, steps, i - 1);
      StepInv(states[i - 1], steps[i - 1]);
    }
  }

  // ---------------------------------------------------------------- theorems over every run

  /**
   * In every interleaving of locked and split calls: what a connected subscriber's session was handed is a
   * prefix of the applications addressed to it, in the order they were made, if and only if no frame was
   * handed to it while an earlier one was still owed. Nothing is handed twice or forgotten.
   */
  lemma OrderKeptIff(connected: set<int>, states: seq<State>, steps: seq<Step>, i: nat, x: int)
    requires IsRun(connected, states, steps) && i < |states| && x in connected
    ensures var s := states[i];
            && s.store == Stored(s.applied)
            && (HandedTo(s, x) <= AppliedFor(s.applied, x) <==> x !in s.overtaken)
            && ((forall n: nat :: !Owed(s, n, x)) ==>
                  && (HandedTo(s, x) == AppliedFor(s.applied, x) <==> x !in s.overtaken)
                  && forall n: nat :: n in HandedTo(s, x) <==> n in AppliedFor(s.applied, x))
  {
    RunInv(connected, states, steps, i);
    var s := states[i];
    var a, b := HandedTo(s, x), AppliedFor(s.applied, x);
    assert Accounted(s, x) && OrderOk(s, x);
    AppliedGrows(s.applied, x);
    if a <= b {
      NextIsNew(a, b);
      assert |a| < |b| ==> b[|a|] in b;
    }
  }

  /** Locked calls are never overtaken, whatever other locked calls do. */
  lemma {:induction false} LockedNeverOvertaken(connected: set<int>, states: seq<State>, steps: seq<Step>, i: nat)
    requires IsRun(connected, states, steps) && i < |states|
    requires forall j :: 0 <= j < i && steps[j].Call? ==> !steps[j].split
    ensures states[i].overtaken == {} && forall t :: t in states[i].threads ==> !states[i].threads[t].split
  {
    if i > 0 {
      LockedNeverOvertaken(connected, states, steps, i - 1);
      RunInv(connected, states, steps, i - 1);
      var s, step := states[i - 1], steps[i - 1];
      if step.Hand? { OnlyOneFans(s, step.t, s.threads[step.t].left[0]); }
    }
  }

  lemma OnlyOneFans(s: State, t: nat, x: int)
    requires LockOk(s) && (forall u :: u in s.threads ==> !s.threads[u].split)
    requires t in s.threads && s.threads[t].Fanning?
    ensures !OwedEarlier(s, s.threads[t].number, x)
  {
    assert s.holder == Some(t);
    forall m: nat | m < s.threads[t].number ensures !Owed(s, m, x) {
      forall u: nat ensures !Owes(s, u, m, x) { assert u != t && u in s.threads ==> !Inside(s.threads[u]); }
    }
  }

  /** So among `setPair` and `removePair` alone, queue order is apply order, and complete whenever the lock is free. */
  lemma QueueOrderIsApplyOrder(connected: set<int>, states: seq<State>, steps: seq<Step>, i: nat, x: int)
    requires IsRun(connected, states, steps) && i < |states| && x in connected
    requires forall j :: 0 <= j < i && steps[j].Call? ==> !steps[j].split
    ensures var s := states[i];
            && HandedTo(s, x) <= AppliedFor(s.applied, x)
            && (s.holder.None? ==> HandedTo(s, x) == AppliedFor(s.applied, x))
  {
    LockedNeverOvertaken(connected, states, steps, i);
    OrderKeptIff(connected, states, steps, i, x);
    RunInv(connected, states, steps, i);
    if states[i].holder.None? {
      forall n: nat ensures !Owed(states[i], n, x) {}
    }
  }

  // ---------------------------------------------------------------- the condition can fail

  lemma Extend(connected: set<int>, states: seq<State>, steps: seq<Step>, step: Step)
    returns (states': seq<State>, steps': seq<Step>)
    requires IsRun(connected, states, steps) && Enabled(states[|steps|], step)
    ensures IsRun(connected, states', steps') && states'[|steps'|] == Next(states[|steps|], step)
  {
    states', steps' := states + [Next(states[|steps|], step)], steps + [step];
  }

  /** A split call applies, then a locked one applies and fans out: the split one now owes an older frame. */
  lemma BothApplied(x: int, key: string, v: string, w: string) returns (states: seq<State>, steps: seq<Step>)
    ensures IsRun({x}, states, steps)
    ensures var s := states[|steps|];
            && s.threads == map[0 := Fanning(0, [x], true), 1 := Fanning(1, [x], false)]
            && s.applied == [Applied(Op(key, Some(v)), [x]), Applied(Op(key, Some(w)), [x])]
            && s.store == map[key := Some(w)] && s.handed == map[] && s.connected == {x}
  {
    states, steps := [Init({x})], [];
    states, steps := Extend({x}, states, steps, Resubscribe(key, [x]));
    states, steps := Extend({x}, states, steps, Call(0, Op(key, Some(v)), true));
    states, steps := Extend({x}, states, steps, Acquire(0));
    states, steps := Extend({x}, states, steps, Apply(0));
    states, steps := Extend({x}, states, steps, Call(1, Op(key, Some(w)), false));
    states, steps := Extend({x}, states, steps, Acquire(1));
    states, steps := Extend({x}, states, steps, Apply(1));
  }

  /** A published value and a `setPair` of the same key: the subscriber is handed the older one last. */
  lemma SplitGoesStale(x: int, key: string, v: string, w: string) returns (states: seq<State>, steps: seq<Step>)
    ensures IsRun({x}, states, steps)
    ensures var s := states[|steps|];
            && s.threads == map[] && s.store == map[key := Some(w)]
            && s.applied == [Applied(Op(key, Some(v)), [x]), Applied(Op(key, Some(w)), [x])]
            && HandedTo(s, x) == [1, 0]
  {
    states, steps := BothApplied(x, key, v, w);
    states, steps := Extend({x}, states, steps, Hand(1));
    states, steps := Extend({x}, states, steps, Hand(0));
    states, steps := Extend({x}, states, steps, Release(0));
    states, steps := Extend({x}, states, steps, Release(1));
    assert states[|steps|].threads == map[];
  }
}
