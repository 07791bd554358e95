/**
 * The two array combinators the state handlers of App.tsx rely on:
 * `Array.prototype.filter` (asset visibility, deletion by id) and
 * `Array.prototype.map` with a conditional replacement (edit by id).
 */
module Seqs {

  /** The elements of `s` that satisfy `p`, in their original order. */
  function Filter<T(!new)>(s: seq<T>, p: T -> bool): (r: seq<T>)
    ensures |r| <= |s|
    ensures forall x :: x in r <==> x in s && p(x)
    decreases |s|
  {
    if s == [] then []
    else if p(s[0]) then [s[0]] + Filter(s[1..], p)
    else Filter(s[1..], p)
  }

  /**
   * `r` is the subsequence of `s` taken at the strictly increasing positions
   * `idx`, and those positions are exactly the ones whose element satisfies `p`.
   */
  ghost predicate Selects<T>(s: seq<T>, p: T -> bool, r: seq<T>, idx: seq<int>)
  {
    && |idx| == |r|
    && (forall k :: 0 <= k < |idx| ==> 0 <= idx[k] < |s| && r[k] == s[idx[k]])
    && (forall k, l :: 0 <= k < l < |idx| ==> idx[k] < idx[l])
    && (forall i :: 0 <= i < |s| ==> (p(s[i]) <==> i in idx))
  }

  /** Every position shifted one to the right. */
  function Shift(idx: seq<int>): (r: seq<int>)
    ensures |r| == |idx|
    ensures forall k :: 0 <= k < |idx| ==> r[k] == idx[k] + 1
  {
    seq(|idx|, k requires 0 <= k < |idx| => idx[k] + 1)
  }

  /** A position is in the shifted list exactly when its predecessor was in the original. */
  lemma ShiftMembers(idx: seq<int>, i: int)
    ensures (i in Shift(idx)) <==> (i - 1 in idx)
  {
    var sh := Shift(idx);
    if i in sh {
      var k :| 0 <= k < |sh| && sh[k] == i;
      assert idx[k] == i - 1;
    }
    if i - 1 in idx {
      var k :| 0 <= k < |idx| && idx[k] == i - 1;
      assert sh[k] == i;
    }
  }

  /** Extending the input by a rejected head: the same selection, shifted by one. */
  lemma SelectsSkip<T>(s: seq<T>, p: T -> bool, r: seq<T>, idx: seq<int>)
    requires s != [] && !p(s[0])
    requires Selects(s[1..], p, r, idx)
    ensures Selects(s, p, r, Shift(idx))
  {
    var sh := Shift(idx);
    forall i | 0 <= i < |s|
      ensures p(s[i]) <==> i in sh
    {
      ShiftMembers(idx, i);
      if i > 0 {
        assert s[i] == s[1..][i - 1];
      } else {
        assert forall k :: 0 <= k < |idx| ==> 0 <= idx[k];
      }
    }
  }

  /** Extending the input by a kept head: the head is selected at position 0, the rest shifted. */
  lemma SelectsKeep<T>(s: seq<T>, p: T -> bool, r: seq<T>, idx: seq<int>)
    requires s != [] && p(s[0])
    requires Selects(s[1..], p, r, idx)
    ensures Selects(s, p, [s[0]] + r, [0] + Shift(idx))
  {
    KeepPicksElements(s, r, idx);
    KeepIncreasing(idx);
    KeepMembers(s, p, idx);
  }

  lemma KeepPicksElements<T>(s: seq<T>, r: seq<T>, idx: seq<int>)
    requires s != [] && |idx| == |r|
    requires forall k :: 0 <= k < |idx| ==> 0 <= idx[k] < |s[1..]| && r[k] == s[1..][idx[k]]
    ensures forall k :: 0 <= k < |idx| + 1 ==>
              0 <= ([0] + Shift(idx))[k] < |s| && ([s[0]] + r)[k] == s[([0] + Shift(idx))[k]]
  {
    var idx2 := [0] + Shift(idx);
    var r2 := [s[0]] + r;
    forall k | 0 <= k < |idx2|
      ensures 0 <= idx2[k] < |s| && r2[k] == s[idx2[k]]
    {
      if k > 0 {
        assert idx2[k] == idx[k - 1] + 1;
        assert r2[k] == r[k - 1] == s[1..][idx[k - 1]];
      }
    }
  }

  lemma KeepIncreasing(idx: seq<int>)
    requires forall k :: 0 <= k < |idx| ==> 0 <= idx[k]
    requires forall k, l :: 0 <= k < l < |idx| ==> idx[k] < idx[l]
    ensures forall k, l :: 0 <= k < l < |idx| + 1 ==> ([0] + Shift(idx))[k] < ([0] + Shift(idx))[l]
  {
    var idx2 := [0] + Shift(idx);
    forall k, l | 0 <= k < l < |idx2|
      ensures idx2[k] < idx2[l]
    {
      assert idx2[l] == idx[l - 1] + 1;
      if k > 0 {
        assert idx2[k] == idx[k - 1] + 1;
      }
    }
  }

  lemma KeepMembers<T>(s: seq<T>, p: T -> bool, idx: seq<int>)
    requires s != [] && p(s[0])
    requires forall i :: 0 <= i < |s[1..]| ==> (p(s[1..][i]) <==> i in idx)
    ensures forall i :: 0 <= i < |s| ==> (p(s[i]) <==> i in [0] + Shift(idx))
  {
    var sh := Shift(idx);
    forall i | 0 <= i < |s|
      ensures p(s[i]) <==> i in [0] + sh
    {
      ShiftMembers(idx, i);
      if i > 0 {
        assert s[i] == s[1..][i - 1];
        assert (i in [0] + sh) <==> (i in sh);
      }
    }
  }

  /** Filter keeps exactly the satisfying elements, in their original relative order. */
  lemma {:induction false} FilterSelects<T(!new)>(s: seq<T>, p: T -> bool)
    ensures exists idx :: Selects(s, p, Filter(s, p), idx)
    decreases |s|
  {
    if s == [] {
      assert Selects(s, p, Filter(s, p), []);
    } else {
      FilterSelects(s[1..], p);
      var idx :| Selects(s[1..], p, Filter(s[1..], p), idx);
      if p(s[0]) {
        SelectsKeep(s, p, Filter(s[1..], p), idx);
        assert Selects(s, p, Filter(s, p), [0] + Shift(idx));
      } else {
        SelectsSkip(s, p, Filter(s[1..], p), idx);
        assert Selects(s, p, Filter(s, p), Shift(idx));
      }
    }
  }

  /** When every element satisfies `p`, Filter gives back the input unchanged. */
  lemma {:induction false} FilterKeepsAll<T(!new)>(s: seq<T>, p: T -> bool)
    requires forall i :: 0 <= i < |s| ==> p(s[i])
    ensures Filter(s, p) == s
    decreases |s|
  {
    if s != [] {
      FilterKeepsAll(s[1..], p);
      assert s == [s[0]] + s[1..];
    }
  }

  /**
   * `s` with every element selected by `sel` replaced by `f` of it; the
   * others stay where they are.
   */
  function MapWhere<T>(s: seq<T>, sel: T -> bool, f: T -> T): (r: seq<T>)
    ensures |r| == |s|
    ensures forall i :: 0 <= i < |s| && !sel(s[i]) ==> r[i] == s[i]
    ensures forall i :: 0 <= i < |s| && sel(s[i]) ==> r[i] == f(s[i])
    decreases |s|
  {
    if s == [] then []
    else [if sel(s[0]) then f(s[0]) else s[0]] + MapWhere(s[1..], sel, f)
  }
}
