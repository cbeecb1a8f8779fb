/** Vocabulary shared by every component. */
module Base {

  datatype Option<+T> = None | Some(value: T)

  /** The owner and the key: what no two pairs share. */
  datatype PairKey = PairKey(owner: int, key: string)

  /** `Text` stands for the source's `Pair::Type::String`. */
  datatype PairType = Invalid | Text | Bytes | Meta

  /** A published pair. Wall-clock times live only in the wire format. */
  datatype Pair = Pair(owner: int, key: string, value: string, ty: PairType) {
    function Id(): PairKey { PairKey(owner, key) }
  }

  const ANY_OWNER := -1
  const WILDCARD_KEY := "*"

  /** How many frames a session holds for a component that has not connected yet. */
  const MAX_PENDING_FRAMES := 1024

  /** The queue of such a session: at the cap the oldest frame makes room. */
  function HoldBack<T>(pending: seq<T>, f: T): seq<T> {
    (if |pending| >= MAX_PENDING_FRAMES then pending[1..] else pending) + [f]
  }

  /** `s` without the element at `i`. */
  function RemoveAt<T>(s: seq<T>, i: nat): (r: seq<T>)
    requires i < |s|
    ensures |r| == |s| - 1
    ensures forall j {:trigger r[j]} :: 0 <= j < |r| ==> r[j] == if j < i then s[j] else s[j + 1]
  {
    s[..i] + s[i + 1..]
  }

  lemma SplitAt<T>(s: seq<T>, i: nat)
    requires i < |s|
    ensures s == s[..i] + ([s[i]] + s[i + 1..])
  {
  }

  lemma SplitUpdate<T>(s: seq<T>, i: nat, x: T)
    requires i < |s|
    ensures s[i := x] == s[..i] + ([x] + s[i + 1..])
  {
  }

  lemma RemoveMiddle<T>(a: seq<T>, x: T, b: seq<T>)
    ensures RemoveAt(a + ([x] + b), |a|) == a + b
  {
  }

  lemma AppendBehind<T>(a: seq<T>, b: seq<T>, x: T)
    ensures a + (b + [x]) == (a + b) + [x]
  {
  }

  lemma UpdateBehind<T>(a: seq<T>, b: seq<T>, i: nat, x: T)
    requires i < |b|
    ensures a + b[i := x] == (a + b)[|a| + i := x]
  {
  }

  /** Removing from the second of two sequences, then appending. */
  lemma RemoveBehind<T>(a: seq<T>, b: seq<T>, i: nat, x: T)
    requires i < |b|
    ensures a + (RemoveAt(b, i) + [x]) == RemoveAt(a + b, |a| + i) + [x]
  {
  }

  ghost predicate NoDup<T>(s: seq<T>) {
    forall i, j :: 0 <= i < j < |s| ==> s[i] != s[j]
  }

  /** Every occurrence of `x` dropped, as `std::erase` does. */
  function Erase(s: seq<int>, x: int): (r: seq<int>)
    ensures x !in r
    ensures forall y :: y != x ==> (y in r <==> y in s)
    ensures NoDup(s) ==> NoDup(r)
    ensures |r| <= |s|
  {
    if s == [] then []
    else
      var rest := Erase(s[1..], x);
      assert NoDup(s) ==> NoDup(s[1..]) && s[0] !in rest;
      if s[0] == x then rest else [s[0]] + rest
  }

  /** `a` can be obtained from `b` by deleting elements. */
  ghost predicate Subsequence<T>(a: seq<T>, b: seq<T>)
    decreases |b|
  {
    a == [] ||
    (b != [] &&
     ((a[|a| - 1] == b[|b| - 1] && Subsequence(a[..|a| - 1], b[..|b| - 1]))
      || Subsequence(a, b[..|b| - 1])))
  }

  lemma {:induction false} SubsequenceGrow<T>(a: seq<T>, b: seq<T>, x: T)
    requires Subsequence(a, b)
    ensures Subsequence(a, b + [x])
    ensures Subsequence(a + [x], b + [x])
  {
    assert (b + [x])[..|b|] == b;
    assert (a + [x])[..|a|] == a;
  }

  lemma {:induction false} SubsequenceDropLast<T>(a: seq<T>, b: seq<T>)
    requires a != [] && Subsequence(a, b)
    ensures Subsequence(a[..|a| - 1], b)
    decreases |b|
  {
    if a[|a| - 1] == b[|b| - 1] && Subsequence(a[..|a| - 1], b[..|b| - 1]) {
      SubsequenceGrow(a[..|a| - 1], b[..|b| - 1], b[|b| - 1]);
      assert b[..|b| - 1] + [b[|b| - 1]] == b;
    } else {
      SubsequenceDropLast(a, b[..|b| - 1]);
      SubsequenceGrow(a[..|a| - 1], b[..|b| - 1], b[|b| - 1]);
      assert b[..|b| - 1] + [b[|b| - 1]] == b;
    }
  }

  /** Deleting any element of a subsequence leaves a subsequence. */
  lemma {:induction false} SubsequenceDelete<T>(a: seq<T>, b: seq<T>, i: nat)
    requires i < |a| && Subsequence(a, b)
    ensures Subsequence(RemoveAt(a, i), b)
    decreases |b|
  {
    if i == |a| - 1 {
      SubsequenceDropLast(a, b);
      assert RemoveAt(a, i) == a[..|a| - 1];
    } else {
      var a', b' := a[..|a| - 1], b[..|b| - 1];
      assert b == b' + [b[|b| - 1]];
      assert a == a' + [a[|a| - 1]];
      if a[|a| - 1] == b[|b| - 1] && Subsequence(a', b') {
        SubsequenceDelete(a', b', i);
        SubsequenceGrow(RemoveAt(a', i), b', b[|b| - 1]);
        assert RemoveAt(a, i) == RemoveAt(a', i) + [a[|a| - 1]];
      } else {
        SubsequenceDelete(a, b', i);
        SubsequenceGrow(RemoveAt(a, i), b', b[|b| - 1]);
      }
    }
  }
}
