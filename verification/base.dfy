/** Failure-carrying wrappers shared by every module of the model. */
module Base {

  /** A value that may be absent: JavaScript `undefined`/`null` or a missing lookup. */
  datatype Option<+T> = None | Some(value: T) {
    function GetOr(default: T): T {
      match this
      case Some(v) => v
      case None => default
    }
  }

  /** The result of a call that either returns a value or throws. */
  datatype Result<+T, +E> = Ok(value: T) | Err(error: E) {
    predicate IsFailure() { Err? }

    function PropagateFailure<U>(): Result<U, E>
      requires Err?
    {
      Err(error)
    }

    function Extract(): T
      requires Ok?
    {
      value
    }
  }

  /** The index of the first element of `s` satisfying `p`, as `Array.prototype.findIndex` finds it. */
  function FindIndex<T>(s: seq<T>, p: T -> bool): (r: Option<nat>)
    ensures r.Some? ==> r.value < |s| && p(s[r.value]) && forall j :: 0 <= j < r.value ==> !p(s[j])
    ensures r.None? ==> forall j :: 0 <= j < |s| ==> !p(s[j])
  {
    if |s| == 0 then None
    else if p(s[0]) then Some(0)
    else
      match FindIndex(s[1..], p)
      case None => None
      case Some(i) => Some(i + 1)
  }

  /** Two searches whose predicates agree position by position find the same index. */
  lemma FindIndexCongruent<T, U>(a: seq<T>, p: T -> bool, b: seq<U>, q: U -> bool)
    requires |a| == |b|
    requires forall i :: 0 <= i < |a| ==> p(a[i]) == q(b[i])
    ensures FindIndex(a, p) == FindIndex(b, q)
  {
  }

  /** The elements of `s` satisfying `p`, in order (`Array.prototype.filter`). */
  function Filter<T>(s: seq<T>, p: T -> bool): (r: seq<T>)
    ensures |r| <= |s|
    ensures forall x :: x in r ==> x in s && p(x)
    ensures forall x :: x in s && p(x) ==> x in r
  {
    if |s| == 0 then []
    else if p(s[0]) then [s[0]] + Filter(s[1..], p)
    else Filter(s[1..], p)
  }

  /** One step of `Filter`. */
  lemma FilterUnfold<T>(s: seq<T>, p: T -> bool)
    requires |s| > 0
    ensures Filter(s, p) == (if p(s[0]) then [s[0]] else []) + Filter(s[1..], p)
  {
  }

  /** A filter that every element passes keeps the whole sequence. */
  lemma {:induction false} FilterKeepsAll<T>(s: seq<T>, p: T -> bool)
    requires forall i :: 0 <= i < |s| ==> p(s[i])
    ensures Filter(s, p) == s
    decreases |s|
  {
    if |s| > 0 {
      FilterKeepsAll(s[1..], p);
      assert [s[0]] + s[1..] == s;
    }
  }

  /** A filter that no element passes keeps nothing. */
  lemma {:induction false} FilterKeepsNone<T>(s: seq<T>, p: T -> bool)
    requires forall i :: 0 <= i < |s| ==> !p(s[i])
    ensures Filter(s, p) == []
    decreases |s|
  {
    if |s| > 0 {
      FilterKeepsNone(s[1..], p);
    }
  }

  /** Filtering a concatenation filters each part. */
  lemma {:induction false} FilterAppend<T>(a: seq<T>, b: seq<T>, p: T -> bool)
    ensures Filter(a + b, p) == Filter(a, p) + Filter(b, p)
    decreases |a|
  {
    if |a| == 0 {
      assert a + b == b;
    } else {
      assert (a + b)[0] == a[0];
      assert (a + b)[1..] == a[1..] + b;
      FilterAppend(a[1..], b, p);
      FilterUnfold(a + b, p);
      FilterUnfold(a, p);
    }
  }

  /**
   * `r` lists the elements of `s` at the positions `idx`, in order and with
   * repeats, and `idx` is the increasing list of exactly the positions of
   * `s` whose element satisfies `p`.
   */
  ghost predicate SelectsInOrder<T>(r: seq<T>, s: seq<T>, p: T -> bool, idx: seq<nat>) {
    && |idx| == |r|
    && (forall k :: 0 <= k < |idx| ==> idx[k] < |s| && r[k] == s[idx[k]])
    && (forall k, l :: 0 <= k < l < |idx| ==> idx[k] < idx[l])
    && (forall i :: 0 <= i < |s| ==> (p(s[i]) <==> i in idx))
  }

  /** Positions shifted one to the right, past a new first element. */
  function Shift(idx: seq<nat>): (r: seq<nat>)
    ensures |r| == |idx| && forall k :: 0 <= k < |idx| ==> r[k] == idx[k] + 1
  {
    seq(|idx|, k requires 0 <= k < |idx| => idx[k] + 1)
  }

  /** Position `i` is in the shifted list exactly when `i - 1` was in the original. */
  lemma ShiftMembers(idx: seq<nat>, i: nat)
    ensures i in Shift(idx) <==> i > 0 && i - 1 in idx
  {
    var shifted := Shift(idx);
    if i > 0 && i - 1 in idx {
      var k :| 0 <= k < |idx| && idx[k] == i - 1;
      assert shifted[k] == i;
    }
  }

  /** The coverage clause of a selection carries over to `s` when the first element is accounted for. */
  lemma SelectsConsCovers<T>(s: seq<T>, p: T -> bool, rest: seq<nat>, idx: seq<nat>)
    requires |s| > 0
    requires forall i :: 0 <= i < |s| - 1 ==> (p(s[1..][i]) <==> i in rest)
    requires forall i: nat :: i in idx <==> (i == 0 && p(s[0])) || i in Shift(rest)
    ensures forall i :: 0 <= i < |s| ==> (p(s[i]) <==> i in idx)
  {
    forall i | 0 <= i < |s| ensures p(s[i]) <==> i in idx {
      ShiftMembers(rest, i);
      if i > 0 {
        assert s[i] == s[1..][i - 1];
      }
    }
  }

  /** A shifted selection from `s[1..]` lists its elements at positions of `s`, in increasing order. */
  lemma ShiftedPositions<T>(s: seq<T>, tail: seq<T>, rest: seq<nat>)
    requires |s| > 0 && |rest| == |tail|
    requires forall k :: 0 <= k < |rest| ==> rest[k] < |s| - 1 && tail[k] == s[1..][rest[k]]
    requires forall k, l :: 0 <= k < l < |rest| ==> rest[k] < rest[l]
    ensures forall k :: 0 <= k < |rest| ==> Shift(rest)[k] < |s| && tail[k] == s[Shift(rest)[k]]
    ensures forall k, l :: 0 <= k < l < |rest| ==> Shift(rest)[k] < Shift(rest)[l]
  {
    var shifted := Shift(rest);
    forall k | 0 <= k < |rest| ensures shifted[k] < |s| && tail[k] == s[shifted[k]] {
      assert s[shifted[k]] == s[1..][rest[k]];
    }
  }

  /** Putting position 0 in front of positions that are all at least 1 keeps them listed and increasing. */
  lemma PrependFirst<T>(s: seq<T>, tail: seq<T>, shifted: seq<nat>)
    requires |s| > 0 && |shifted| == |tail|
    requires forall k :: 0 <= k < |shifted| ==> 0 < shifted[k] < |s| && tail[k] == s[shifted[k]]
    requires forall k, l :: 0 <= k < l < |shifted| ==> shifted[k] < shifted[l]
    ensures var idx, r := [0] + shifted, [s[0]] + tail;
      && (forall k :: 0 <= k < |idx| ==> idx[k] < |s| && r[k] == s[idx[k]])
      && (forall k, l :: 0 <= k < l < |idx| ==> idx[k] < idx[l])
  {
    var idx, r := [0] + shifted, [s[0]] + tail;
    forall k | 0 <= k < |idx| ensures idx[k] < |s| && r[k] == s[idx[k]] {
      if k > 0 {
        assert idx[k] == shifted[k - 1] && r[k] == tail[k - 1];
      }
    }
    forall k, l | 0 <= k < l < |idx| ensures idx[k] < idx[l] {
      assert idx[l] == shifted[l - 1];
      if k > 0 {
        assert idx[k] == shifted[k - 1];
      }
    }
  }

  /** A selection from `s[1..]`, shifted, selects from `s` once the first element is accounted for. */
  lemma SelectsCons<T>(s: seq<T>, p: T -> bool, tail: seq<T>, rest: seq<nat>, r: seq<T>)
    requires |s| > 0 && SelectsInOrder(tail, s[1..], p, rest)
    requires r == (if p(s[0]) then [s[0]] else []) + tail
    ensures SelectsInOrder(r, s, p, if p(s[0]) then [0] + Shift(rest) else Shift(rest))
  {
    var shifted := Shift(rest);
    ShiftedPositions(s, tail, rest);
    if p(s[0]) {
      PrependFirst(s, tail, shifted);
      var idx := [0] + shifted;
      assert forall i: nat :: i in idx <==> i == 0 || i in shifted;
      SelectsConsCovers(s, p, rest, idx);
    } else {
      assert r == tail;
      SelectsConsCovers(s, p, rest, shifted);
    }
  }

  /** `Filter` keeps the passing elements in their original order and multiplicity. */
  lemma {:induction false} FilterSelects<T>(s: seq<T>, p: T -> bool)
    ensures exists idx :: SelectsInOrder(Filter(s, p), s, p, idx)
    decreases |s|
  {
    if |s| == 0 {
      assert SelectsInOrder(Filter(s, p), s, p, []);
    } else {
      FilterSelects(s[1..], p);
      var rest :| SelectsInOrder(Filter(s[1..], p), s[1..], p, rest);
      FilterUnfold(s, p);
      SelectsCons(s, p, Filter(s[1..], p), rest, Filter(s, p));
    }
  }

  /** No value occurs twice in `s`. */
  predicate Distinct<T(==)>(s: seq<T>) {
    forall i, j :: 0 <= i < j < |s| ==> s[i] != s[j]
  }

  /** Filtering keeps a duplicate-free sequence duplicate-free. */
  lemma {:induction false} FilterDistinct<T>(s: seq<T>, p: T -> bool)
    requires Distinct(s)
    ensures Distinct(Filter(s, p))
    decreases |s|
  {
    if |s| > 0 {
      FilterDistinct(s[1..], p);
    }
  }

  /** Dispatching `actions` in order to a reducer `step`, starting from `s`. */
  function Fold<S, A>(step: (S, A) -> S, s: S, actions: seq<A>): S
    decreases |actions|
  {
    if |actions| == 0 then s else Fold(step, step(s, actions[0]), actions[1..])
  }

  lemma FoldTwo<S, A>(step: (S, A) -> S, s: S, a: A, b: A)
    ensures Fold(step, s, [a, b]) == step(step(s, a), b)
  {
    assert [a, b][0] == a && [a, b][1..] == [b];
    assert [b][0] == b && [b][1..] == [];
    calc {
      Fold(step, s, [a, b]);
      Fold(step, step(s, a), [b]);
      Fold(step, step(step(s, a), b), []);
    }
  }

  lemma {:induction false} FoldAppend<S, A>(step: (S, A) -> S, s: S, xs: seq<A>, ys: seq<A>)
    ensures Fold(step, s, xs + ys) == Fold(step, Fold(step, s, xs), ys)
    decreases |xs|
  {
    if |xs| == 0 {
      assert xs + ys == ys;
    } else {
      assert (xs + ys)[0] == xs[0];
      assert (xs + ys)[1..] == xs[1..] + ys;
      FoldAppend(step, step(s, xs[0]), xs[1..], ys);
    }
  }

  /** A property every step preserves holds after any number of steps. */
  lemma {:induction false} FoldPreserves<S, A>(step: (S, A) -> S, inv: S -> bool, s: S, actions: seq<A>)
    requires inv(s)
    requires forall t, a :: inv(t) ==> inv(step(t, a))
    ensures inv(Fold(step, s, actions))
    decreases |actions|
  {
    if |actions| > 0 {
      FoldPreserves(step, inv, step(s, actions[0]), actions[1..]);
    }
  }
}
