/** Order-preserving selection over sequences: the eager counterpart of a
    Python loop that filters an iterable and yields a transformed element
    for each item it keeps. */
module Seqs {

  /** The images under `f` of the elements of `s` that satisfy `p`, in the
      order of `s`. */
  function Select<T, U>(p: T -> bool, f: T -> U, s: seq<T>): (r: seq<U>)
    ensures |r| <= |s|
    decreases |s|
  {
    if |s| == 0 then []
    else (if p(s[0]) then [f(s[0])] else []) + Select(p, f, s[1..])
  }

  /** Select keeps the image of every satisfying element and produces
      nothing else. */
  lemma {:induction false} SelectMembers<T, U>(p: T -> bool, f: T -> U, s: seq<T>)
    ensures forall x :: x in s && p(x) ==> f(x) in Select(p, f, s)
    ensures forall y :: y in Select(p, f, s) ==> exists x :: x in s && p(x) && y == f(x)
    decreases |s|
  {
    if |s| > 0 {
      SelectMembers(p, f, s[1..]);
      var r := Select(p, f, s);
      var rt := Select(p, f, s[1..]);
      assert r == (if p(s[0]) then [f(s[0])] else []) + rt;
      forall x | x in s && p(x)
        ensures f(x) in r
      {
        if x != s[0] {
          assert x in s[1..];
        }
      }
      forall y | y in r
        ensures exists x :: x in s && p(x) && y == f(x)
      {
        if y !in rt {
          assert p(s[0]) && y == f(s[0]);
        } else {
          var x :| x in s[1..] && p(x) && y == f(x);
          assert x in s;
        }
      }
    }
  }

  /** `idx` lists, in strictly increasing order, exactly the positions of
      `s` whose element satisfies `p`, and `r` holds their images under `f`. */
  ghost predicate OrderedSelection<T, U>(idx: seq<int>, p: T -> bool, f: T -> U, s: seq<T>, r: seq<U>)
  {
    && |idx| == |r|
    && (forall k :: 0 <= k < |idx| ==> 0 <= idx[k] < |s| && r[k] == f(s[idx[k]]))
    && Increasing(idx)
    && (forall i :: 0 <= i < |s| ==> (p(s[i]) <==> i in idx))
  }

  /** Select keeps every satisfying element, drops every other one, and
      keeps the survivors in their original order. */
  lemma {:induction false} SelectIsOrdered<T, U>(p: T -> bool, f: T -> U, s: seq<T>)
    returns (idx: seq<int>)
    ensures OrderedSelection(idx, p, f, s, Select(p, f, s))
    decreases |s|
  {
    if |s| == 0 {
      idx := [];
    } else {
      var tail := SelectIsOrdered(p, f, s[1..]);
      idx := SelectConsOrdered(p, f, s, tail);
    }
  }

  /** The positions of `s[1..]` as positions of `s`, behind position 0
      when `s[0]` is kept. */
  function ConsPositions<T>(p: T -> bool, s: seq<T>, tail: seq<int>): (idx: seq<int>)
    requires |s| > 0
  {
    (if p(s[0]) then [0] else []) + Shift(tail)
  }

  /** The inductive step of SelectIsOrdered. */
  lemma SelectConsOrdered<T, U>(p: T -> bool, f: T -> U, s: seq<T>, tail: seq<int>)
    returns (idx: seq<int>)
    requires |s| > 0
    requires OrderedSelection(tail, p, f, s[1..], Select(p, f, s[1..]))
    ensures OrderedSelection(idx, p, f, s, Select(p, f, s))
  {
    idx := ConsPositions(p, s, tail);
    ConsPositionsImages(p, f, s, tail);
    ConsPositionsIncreasing(p, s, tail);
    ConsPositionsMembers(p, s, tail);
  }

  lemma ConsPositionsImages<T, U>(p: T -> bool, f: T -> U, s: seq<T>, tail: seq<int>)
    requires |s| > 0
    requires |tail| == |Select(p, f, s[1..])|
    requires forall k :: 0 <= k < |tail| ==>
               0 <= tail[k] < |s| - 1 && Select(p, f, s[1..])[k] == f(s[1..][tail[k]])
    ensures var idx := ConsPositions(p, s, tail);
            && |idx| == |Select(p, f, s)|
            && forall k :: 0 <= k < |idx| ==> 0 <= idx[k] < |s| && Select(p, f, s)[k] == f(s[idx[k]])
  {
    var rt := Select(p, f, s[1..]);
    var shifted := Shift(tail);
    ShiftedImages(f, s, tail, rt);
    var head: seq<int> := if p(s[0]) then [0] else [];
    var hd := if p(s[0]) then [f(s[0])] else [];
    assert Select(p, f, s) == hd + rt;
    assert ConsPositions(p, s, tail) == head + shifted;
    ConcatImages(f, s, head, hd, shifted, rt);
  }

  /** The images of `s[1..]` at `tail` are the images of `s` at the shifted
      positions. */
  lemma ShiftedImages<T, U>(f: T -> U, s: seq<T>, tail: seq<int>, rt: seq<U>)
    requires |s| > 0 && |tail| == |rt|
    requires forall k :: 0 <= k < |tail| ==> 0 <= tail[k] < |s| - 1 && rt[k] == f(s[1..][tail[k]])
    ensures forall k :: 0 <= k < |tail| ==> 0 <= Shift(tail)[k] < |s| && rt[k] == f(s[Shift(tail)[k]])
  {
    forall k | 0 <= k < |tail|
      ensures 0 <= Shift(tail)[k] < |s| && rt[k] == f(s[Shift(tail)[k]])
    {
      assert s[1..][tail[k]] == s[tail[k] + 1];
    }
  }

  /** Pairing two aligned position/image lists end to end keeps them aligned. */
  lemma ConcatImages<T, U>(f: T -> U, s: seq<T>, i1: seq<int>, r1: seq<U>, i2: seq<int>, r2: seq<U>)
    requires |i1| == |r1| && |i2| == |r2|
    requires forall k :: 0 <= k < |i1| ==> 0 <= i1[k] < |s| && r1[k] == f(s[i1[k]])
    requires forall k :: 0 <= k < |i2| ==> 0 <= i2[k] < |s| && r2[k] == f(s[i2[k]])
    ensures |i1 + i2| == |r1 + r2|
    ensures forall k :: 0 <= k < |i1 + i2| ==> 0 <= (i1 + i2)[k] < |s| && (r1 + r2)[k] == f(s[(i1 + i2)[k]])
  {
    forall k | 0 <= k < |i1 + i2|
      ensures 0 <= (i1 + i2)[k] < |s| && (r1 + r2)[k] == f(s[(i1 + i2)[k]])
    {
      if k >= |i1| {
        assert (i1 + i2)[k] == i2[k - |i1|];
        assert (r1 + r2)[k] == r2[k - |i1|];
      }
    }
  }

  lemma ConsPositionsIncreasing<T>(p: T -> bool, s: seq<T>, tail: seq<int>)
    requires |s| > 0
    requires forall k :: 0 <= k < |tail| ==> 0 <= tail[k]
    requires Increasing(tail)
    ensures Increasing(ConsPositions(p, s, tail))
  {
    ShiftMembers(tail);
    if p(s[0]) {
      PrependZero(Shift(tail));
    }
  }

  lemma ConsPositionsMembers<T>(p: T -> bool, s: seq<T>, tail: seq<int>)
    requires |s| > 0
    requires forall k :: 0 <= k < |tail| ==> 0 <= tail[k]
    requires forall i :: 0 <= i < |s| - 1 ==> (p(s[1..][i]) <==> i in tail)
    ensures forall i :: 0 <= i < |s| ==> (p(s[i]) <==> i in ConsPositions(p, s, tail))
  {
    ShiftMembers(tail);
    var head := if p(s[0]) then [0] else [];
    var shifted := Shift(tail);
    assert ConsPositions(p, s, tail) == head + shifted;
    forall i | 0 <= i < |s|
      ensures p(s[i]) <==> i in head + shifted
    {
      if i == 0 {
        assert 0 !in shifted;
      } else {
        assert s[i] == s[1..][i - 1];
        assert i in shifted <==> i - 1 in tail;
        assert i !in head;
      }
    }
  }

  /** The entries of `idx` strictly increase. */
  ghost predicate Increasing(idx: seq<int>)
  {
    forall k, l :: 0 <= k < l < |idx| ==> idx[k] < idx[l]
  }

  lemma PrependZero(idx: seq<int>)
    requires Increasing(idx)
    requires forall k :: 0 <= k < |idx| ==> 0 < idx[k]
    ensures Increasing([0] + idx)
  {
    var r := [0] + idx;
    forall k, l | 0 <= k < l < |r|
      ensures r[k] < r[l]
    {
      assert r[l] == idx[l - 1];
      if k > 0 {
        assert r[k] == idx[k - 1];
      }
    }
  }

  /** Every index of `idx` moved one position to the right. */
  function Shift(idx: seq<int>): (r: seq<int>)
    ensures |r| == |idx|
    ensures forall k :: 0 <= k < |r| ==> r[k] == idx[k] + 1
  {
    seq(|idx|, k requires 0 <= k < |idx| => idx[k] + 1)
  }

  /** Shifting non-negative indices moves every member up by one and keeps
      them increasing. */
  lemma ShiftMembers(idx: seq<int>)
    requires forall k :: 0 <= k < |idx| ==> 0 <= idx[k]
    ensures 0 !in Shift(idx)
    ensures forall i :: i in Shift(idx) <==> i - 1 in idx
    ensures Increasing(idx) ==> Increasing(Shift(idx))
  {
    var r := Shift(idx);
    forall i
      ensures i in r <==> i - 1 in idx
    {
      if i in r {
        var k :| 0 <= k < |r| && r[k] == i;
        assert idx[k] == i - 1;
      }
      if i - 1 in idx {
        var k :| 0 <= k < |idx| && idx[k] == i - 1;
        assert r[k] == i;
      }
    }
  }

  /** The images under `f` of the elements of `s`, in order. */
  function Map<T, U>(f: T -> U, s: seq<T>): (r: seq<U>)
    ensures |r| == |s|
    ensures forall i :: 0 <= i < |s| ==> r[i] == f(s[i])
  {
    seq(|s|, i requires 0 <= i < |s| => f(s[i]))
  }

  /** The elements of `s` that satisfy `p`, in order. */
  function Filter<T>(p: T -> bool, s: seq<T>): (r: seq<T>)
    ensures forall x :: x in r ==> x in s && p(x)
    ensures forall x :: x in s && p(x) ==> x in r
  {
    SelectMembers(p, x => x, s);
    Select(p, x => x, s)
  }

  /** Filter keeps exactly the satisfying positions, in increasing order. */
  lemma FilterIsOrdered<T>(p: T -> bool, s: seq<T>) returns (idx: seq<int>)
    ensures OrderedSelection(idx, p, x => x, s, Filter(p, s))
  {
    idx := SelectIsOrdered(p, x => x, s);
  }

  /** Filtering and then transforming every survivor is a selection. */
  lemma {:induction false} MapFilter<T, U>(p: T -> bool, f: T -> U, s: seq<T>)
    ensures Map(f, Filter(p, s)) == Select(p, f, s)
    decreases |s|
  {
    if |s| > 0 {
      MapFilter(p, f, s[1..]);
      MapAppend(f, if p(s[0]) then [s[0]] else [], Filter(p, s[1..]));
    }
  }

  lemma MapAppend<T, U>(f: T -> U, a: seq<T>, b: seq<T>)
    ensures Map(f, a + b) == Map(f, a) + Map(f, b)
  {
  }
}
