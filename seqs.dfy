/**
 * The JavaScript array methods the handlers use (`filter`, `find`, `map` with a
 * condition, `slice(0, n)`), as functions on sequences with the contracts the
 * handlers rely on.
 */
module Seqs {
  import opened Wrappers

  function Min(a: int, b: int): int { if a <= b then a else b }

  /**
   * r picks the elements of s at the positions idx, in rising order: r is a
   * subsequence of s, each pick taken once.
   */
  ghost predicate PicksAt<T>(r: seq<T>, s: seq<T>, idx: seq<nat>) {
    && |idx| == |r|
    && (forall k :: 0 <= k < |idx| ==> idx[k] < |s| && r[k] == s[idx[k]])
    && (forall k, l :: 0 <= k < l < |idx| ==> idx[k] < idx[l])
  }

  /** The positions of s whose elements satisfy p, in rising order, counted from base. */
  ghost function PositionsFrom<T>(s: seq<T>, p: T -> bool, base: nat): (idx: seq<nat>)
    ensures forall k :: 0 <= k < |idx| ==> base <= idx[k] < base + |s|
    ensures forall k, l :: 0 <= k < l < |idx| ==> idx[k] < idx[l]
    ensures forall i :: 0 <= i < |s| ==> (base + i in idx <==> p(s[i]))
  {
    if s == [] then []
    else
      var rest := PositionsFrom(s[1..], p, base + 1);
      assert forall i :: 1 <= i < |s| ==> s[i] == s[1..][i - 1];
      (if p(s[0]) then [base] else []) + rest
  }

  /** The positions of s whose elements satisfy p, in rising order. */
  ghost function Positions<T>(s: seq<T>, p: T -> bool): seq<nat> {
    PositionsFrom(s, p, 0)
  }

  /**
   * `array.filter(p)`: the elements satisfying p, in their original order
   * (FilterInOrder states which positions it keeps).
   */
  function Filter<T>(s: seq<T>, p: T -> bool): (r: seq<T>)
    ensures |r| <= |s|
    ensures forall i :: 0 <= i < |r| ==> r[i] in s && p(r[i])
    ensures forall i :: 0 <= i < |s| && p(s[i]) ==> s[i] in r
  {
    if s == [] then [] else (if p(s[0]) then [s[0]] else []) + Filter(s[1..], p)
  }

  /** Picking position b before picks that all lie beyond it keeps the picks in order. */
  lemma PicksAtCons<T>(r: seq<T>, s: seq<T>, idx: seq<nat>, b: nat)
    requires b < |s| && PicksAt(r, s, idx)
    requires forall k :: 0 <= k < |idx| ==> b < idx[k]
    ensures PicksAt([s[b]] + r, s, [b] + idx)
  {
    var r', idx' := [s[b]] + r, [b] + idx;
    forall k | 1 <= k < |idx'| ensures idx'[k] < |s| && r'[k] == s[idx'[k]] {
      assert idx'[k] == idx[k - 1] && r'[k] == r[k - 1];
    }
  }

  /** Filtering the suffix of s from base keeps the suffix's passing positions, in order. */
  lemma {:induction false} FilterPicksFrom<T>(s: seq<T>, p: T -> bool, base: nat)
    requires base <= |s|
    ensures PicksAt(Filter(s[base..], p), s, PositionsFrom(s[base..], p, base))
    decreases |s| - base
  {
    var t := s[base..];
    if t != [] {
      assert t[1..] == s[base + 1..];
      FilterPicksFrom(s, p, base + 1);
      var tail := Filter(t[1..], p);
      var rest := PositionsFrom(t[1..], p, base + 1);
      if p(t[0]) {
        PicksAtCons(tail, s, rest, base);
        assert Filter(t, p) == [s[base]] + tail;
        assert PositionsFrom(t, p, base) == [base] + rest;
      } else {
        assert Filter(t, p) == tail;
        assert PositionsFrom(t, p, base) == rest;
      }
    }
  }

  /**
   * r is the subsequence of s at exactly the positions whose elements satisfy
   * p: in the order s holds them, nothing repeated and nothing lost.
   */
  ghost predicate SelectsInOrder<T>(r: seq<T>, s: seq<T>, p: T -> bool) {
    exists idx :: PicksAt(r, s, idx) && forall i :: 0 <= i < |s| ==> (i in idx <==> p(s[i]))
  }

  /** filter keeps exactly the positions whose elements satisfy p, in rising order. */
  lemma FilterInOrder<T>(s: seq<T>, p: T -> bool)
    ensures SelectsInOrder(Filter(s, p), s, p)
  {
    assert s[0..] == s;
    FilterPicksFrom(s, p, 0);
    assert PicksAt(Filter(s, p), s, Positions(s, p));
  }

  /** Two tests that agree on every element of s select the same subsequence. */
  lemma SelectsInOrderSameTest<T>(r: seq<T>, s: seq<T>, p: T -> bool, q: T -> bool)
    requires SelectsInOrder(r, s, p)
    requires forall i :: 0 <= i < |s| ==> (p(s[i]) <==> q(s[i]))
    ensures SelectsInOrder(r, s, q)
  {
    var idx :| PicksAt(r, s, idx) && forall i :: 0 <= i < |s| ==> (i in idx <==> p(s[i]));
    assert forall i :: 0 <= i < |s| ==> (i in idx <==> q(s[i]));
  }

  /** The positions in s of the picks that outer makes from the picks inner made. */
  function ComposePositions(inner: seq<nat>, outer: seq<nat>): (c: seq<nat>)
    requires forall k :: 0 <= k < |outer| ==> outer[k] < |inner|
    ensures |c| == |outer| && forall k :: 0 <= k < |c| ==> c[k] == inner[outer[k]]
  {
    seq(|outer|, k requires 0 <= k < |outer| => inner[outer[k]])
  }

  /** Picks from picks are picks from the original, in order. */
  lemma PicksAtCompose<T>(r: seq<T>, m: seq<T>, s: seq<T>, inner: seq<nat>, outer: seq<nat>)
    requires PicksAt(m, s, inner) && PicksAt(r, m, outer)
    ensures PicksAt(r, s, ComposePositions(inner, outer))
  {
    var c := ComposePositions(inner, outer);
    forall k, l | 0 <= k < l < |c| ensures c[k] < c[l] {
      assert outer[k] < outer[l];
    }
  }

  /** A composed position comes from an element that passed both tests. */
  lemma ComposedPositionPasses<T>(m: seq<T>, s: seq<T>, inner: seq<nat>, outer: seq<nat>,
                                  p: T -> bool, q: T -> bool, k: nat)
    requires PicksAt(m, s, inner) && forall i :: 0 <= i < |s| ==> (i in inner <==> p(s[i]))
    requires forall j :: 0 <= j < |outer| ==> outer[j] < |m|
    requires forall j :: 0 <= j < |m| ==> (j in outer <==> q(m[j]))
    requires k < |outer|
    ensures p(s[inner[outer[k]]]) && q(s[inner[outer[k]]])
  {
    assert outer[k] in outer && inner[outer[k]] in inner;
  }

  /** An element that passed both tests sits at a composed position. */
  lemma PassingIsComposed<T>(m: seq<T>, s: seq<T>, inner: seq<nat>, outer: seq<nat>,
                             p: T -> bool, q: T -> bool, i: nat)
    requires PicksAt(m, s, inner) && forall i :: 0 <= i < |s| ==> (i in inner <==> p(s[i]))
    requires forall j :: 0 <= j < |outer| ==> outer[j] < |m|
    requires forall j :: 0 <= j < |m| ==> (j in outer <==> q(m[j]))
    requires i < |s| && p(s[i]) && q(s[i])
    ensures i in ComposePositions(inner, outer)
  {
    var j :| 0 <= j < |inner| && inner[j] == i;
    assert m[j] == s[i];
    var k :| 0 <= k < |outer| && outer[k] == j;
    assert ComposePositions(inner, outer)[k] == i;
  }

  /** Selecting by q from a selection by p selects by both tests from the original. */
  lemma SelectsInOrderCompose<T>(r: seq<T>, m: seq<T>, s: seq<T>, p: T -> bool, q: T -> bool)
    requires SelectsInOrder(m, s, p) && SelectsInOrder(r, m, q)
    ensures SelectsInOrder(r, s, (x: T) => p(x) && q(x))
  {
    var inner :| PicksAt(m, s, inner) && forall i :: 0 <= i < |s| ==> (i in inner <==> p(s[i]));
    var outer :| PicksAt(r, m, outer) && forall j :: 0 <= j < |m| ==> (j in outer <==> q(m[j]));
    PicksAtCompose(r, m, s, inner, outer);
    var c := ComposePositions(inner, outer);
    forall i | 0 <= i < |s| ensures i in c <==> p(s[i]) && q(s[i]) {
      if i in c {
        var k :| 0 <= k < |c| && c[k] == i;
        ComposedPositionPasses(m, s, inner, outer, p, q, k);
      }
      if p(s[i]) && q(s[i]) {
        PassingIsComposed(m, s, inner, outer, p, q, i);
      }
    }
    assert PicksAt(r, s, c);
  }

  /** Filtering distributes over concatenation, so the kept elements keep their order. */
  lemma {:induction false} FilterAppend<T>(a: seq<T>, b: seq<T>, p: T -> bool)
    ensures Filter(a + b, p) == Filter(a, p) + Filter(b, p)
  {
    if a == [] {
      assert a + b == b;
    } else {
      assert (a + b)[0] == a[0] && (a + b)[1..] == a[1..] + b;
      FilterAppend(a[1..], b, p);
    }
  }

  /** A filter that every element passes returns the sequence unchanged. */
  lemma {:induction false} FilterKeepsAll<T>(s: seq<T>, p: T -> bool)
    requires forall i :: 0 <= i < |s| ==> p(s[i])
    ensures Filter(s, p) == s
  {
    if s != [] {
      FilterKeepsAll(s[1..], p);
    }
  }

  /** An element of s that satisfies p survives the filter. */
  lemma {:induction false} FilterKeepsMember<T>(s: seq<T>, p: T -> bool, x: T)
    requires x in s && p(x)
    ensures x in Filter(s, p)
  {
    var i :| 0 <= i < |s| && s[i] == x;
  }

  /** Filtering twice with the same predicate is filtering once. */
  lemma FilterIdempotent<T>(s: seq<T>, p: T -> bool)
    ensures Filter(Filter(s, p), p) == Filter(s, p)
  {
    FilterKeepsAll(Filter(s, p), p);
  }

  /** `array.findIndex(p)`: the first index whose element satisfies p, if any. */
  function FindFirst<T>(s: seq<T>, p: T -> bool): (r: Option<nat>)
    ensures r.Some? ==> r.value < |s| && p(s[r.value])
    ensures r.Some? ==> forall j :: 0 <= j < r.value ==> !p(s[j])
    ensures r.None? <==> forall j :: 0 <= j < |s| ==> !p(s[j])
  {
    if s == [] then None
    else if p(s[0]) then Some(0)
    else match FindFirst(s[1..], p)
      case None => None
      case Some(k) => Some(k + 1)
  }

  /** `array.some(p)`: the scan for a first element satisfying p finds one. */
  function Any<T>(s: seq<T>, p: T -> bool): (r: bool)
    ensures r <==> exists i :: 0 <= i < |s| && p(s[i])
  {
    FindFirst(s, p).Some?
  }

  /** Any index that is the first to satisfy p is the one FindFirst returns. */
  lemma FindFirstIsFirst<T>(s: seq<T>, p: T -> bool, i: nat)
    requires i < |s| && p(s[i])
    requires forall j :: 0 <= j < i ==> !p(s[j])
    ensures FindFirst(s, p) == Some(i)
  {
  }

  /** `array.map(x => p(x) ? f(x) : x)`: rewrites exactly the elements satisfying p. */
  function ReplaceWhere<T>(s: seq<T>, p: T -> bool, f: T -> T): (r: seq<T>)
    ensures |r| == |s|
    ensures forall i :: 0 <= i < |s| ==> r[i] == if p(s[i]) then f(s[i]) else s[i]
  {
    seq(|s|, i requires 0 <= i < |s| => if p(s[i]) then f(s[i]) else s[i])
  }

  /** `array.slice(0, n)`: the first n elements, or all of them when there are fewer. */
  function Take<T>(s: seq<T>, n: nat): (r: seq<T>)
    ensures |r| == Min(|s|, n)
    ensures r <= s
  {
    if |s| <= n then s else s[..n]
  }
}
