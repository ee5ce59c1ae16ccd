/**
  Order-preserving filtering of sequences, the model of Swift's `Array.filter`.
  Both the dessert list and the instruction steps are filtered this way.
 */
module Seqs {

  /** The elements of `s` that satisfy `p`, in their original order. */
  function Filter<T>(p: T -> bool, s: seq<T>): (r: seq<T>)
    ensures |r| <= |s|
    ensures forall x :: x in r ==> x in s && p(x)
    decreases |s|
  {
    if s == [] then []
    else
      var tail := Filter(p, s[1..]);
      assert forall x :: x in tail ==> x in s;
      (if p(s[0]) then [s[0]] else []) + tail
  }

  /** Every position of `q` moved one place to the right. */
  function Shift(q: seq<nat>): (r: seq<nat>)
    ensures |r| == |q|
    ensures forall k :: 0 <= k < |q| ==> r[k] == q[k] + 1
  {
    seq(|q|, k requires 0 <= k < |q| => q[k] + 1)
  }

  /** The indices of the elements of `s` that satisfy `p`, in ascending order. */
  function Positions<T>(p: T -> bool, s: seq<T>): seq<nat>
    decreases |s|
  {
    if s == [] then []
    else (if p(s[0]) then [0] else []) + Shift(Positions(p, s[1..]))
  }

  /** `r` is the subsequence of `s` picked out by the strictly ascending indices `pos`. */
  ghost predicate PicksOut<T>(pos: seq<nat>, r: seq<T>, s: seq<T>)
  {
    && |pos| == |r|
    && (forall k :: 0 <= k < |pos| ==> pos[k] < |s| && s[pos[k]] == r[k])
    && (forall k, l :: 0 <= k < l < |pos| ==> pos[k] < pos[l])
  }

  lemma ShiftMembers(q: seq<nat>, i: int)
    ensures i in Shift(q) <==> i >= 1 && i - 1 in q
  {
    if i in Shift(q) {
      var k :| 0 <= k < |q| && Shift(q)[k] == i;
      assert q[k] == i - 1;
    }
    if i >= 1 && i - 1 in q {
      var k :| 0 <= k < |q| && q[k] == i - 1;
      assert Shift(q)[k] == i;
    }
  }

  /** Picking out of `s` still works, one place further right, after an element is put in front. */
  lemma PicksOutShifted<T>(pos: seq<nat>, r: seq<T>, x: T, s: seq<T>)
    requires PicksOut(pos, r, s)
    ensures PicksOut(Shift(pos), r, [x] + s)
  {
    forall k | 0 <= k < |pos|
      ensures Shift(pos)[k] < |[x] + s| && ([x] + s)[Shift(pos)[k]] == r[k]
    {
      assert ([x] + s)[pos[k] + 1] == s[pos[k]];
    }
  }

  /** The front element can be picked out too, at position 0. */
  lemma PicksOutFront<T>(pos: seq<nat>, r: seq<T>, s: seq<T>)
    requires s != [] && PicksOut(pos, r, s)
    requires forall k :: 0 <= k < |pos| ==> pos[k] > 0
    ensures PicksOut([0] + pos, [s[0]] + r, s)
  {
  }

  /**
    Filtering keeps exactly the elements at the positions that satisfy `p`,
    in ascending order of position: the result is an order-preserving
    subsequence of `s`, and no satisfying element is dropped.
   */
  lemma {:induction false} FilterPicksOutPositions<T>(p: T -> bool, s: seq<T>)
    ensures PicksOut(Positions(p, s), Filter(p, s), s)
    ensures forall i :: 0 <= i < |s| ==> (p(s[i]) <==> i in Positions(p, s))
    decreases |s|
  {
    if s != [] {
      var t := s[1..];
      FilterPicksOutPositions(p, t);
      var q := Positions(p, t);
      assert s == [s[0]] + t;
      PicksOutShifted(q, Filter(p, t), s[0], t);
      if p(s[0]) {
        PicksOutFront(Shift(q), Filter(p, t), s);
        assert Filter(p, s) == [s[0]] + Filter(p, t);
        assert Positions(p, s) == [0] + Shift(q);
      } else {
        assert Filter(p, s) == Filter(p, t);
        assert Positions(p, s) == Shift(q);
      }
      forall i | 0 <= i < |s|
        ensures p(s[i]) <==> i in Positions(p, s)
      {
        ShiftMembers(q, i);
        if i > 0 {
          assert s[i] == t[i - 1];
        }
      }
    }
  }

  /** An element is kept exactly when it occurs in `s` and satisfies `p`. */
  lemma {:induction false} FilterMembers<T>(p: T -> bool, s: seq<T>, x: T)
    ensures x in Filter(p, s) <==> x in s && p(x)
    decreases |s|
  {
    if s != [] {
      FilterMembers(p, s[1..], x);
      assert s == [s[0]] + s[1..];
    }
  }

  /** Filtering keeps every copy of a satisfying element and no copy of any other. */
  lemma {:induction false} FilterMultiplicity<T>(p: T -> bool, s: seq<T>, x: T)
    ensures multiset(Filter(p, s))[x] == if p(x) then multiset(s)[x] else 0
    decreases |s|
  {
    if s != [] {
      FilterMultiplicity(p, s[1..], x);
      assert s == [s[0]] + s[1..];
    }
  }

  /** A sequence all of whose elements satisfy `p` is left as it is. */
  lemma {:induction false} FilterKeepsAll<T>(p: T -> bool, s: seq<T>)
    requires forall x :: x in s ==> p(x)
    ensures Filter(p, s) == s
    decreases |s|
  {
    if s != [] {
      assert s[0] in s;
      assert forall x :: x in s[1..] ==> x in s;
      FilterKeepsAll(p, s[1..]);
    }
  }

  /** Filtering twice with the same predicate is filtering once. */
  lemma FilterIdempotent<T>(p: T -> bool, s: seq<T>)
    ensures Filter(p, Filter(p, s)) == Filter(p, s)
  {
    FilterKeepsAll(p, Filter(p, s));
  }
}
