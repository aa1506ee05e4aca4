/** Order-preserving, first-occurrence vertex deduplication (the "enumerate unique
    vertices" loop of WigTemplate.Initialize).

    The equality test is the engine's overloaded vector `==`, a tolerance test; it is
    taken here as an arbitrary relation `same(kept, candidate)`, and nothing below
    assumes it is reflexive, symmetric or transitive. */
module Dedup {

  /** `kept.Any(k => same(k, v))`: some vertex kept so far matches `v`. Nothing matches
      while nothing is kept, so the first vertex is always kept. */
  predicate AnySame<T>(same: (T, T) -> bool, kept: seq<T>, v: T): (b: bool)
    ensures b ==> |kept| > 0
  {
    exists k | 0 <= k < |kept| :: same(kept[k], v)
  }

  /** Appending a vertex to the kept list adds exactly one candidate to the test: `v` is
      matched afterwards when it was matched before or the new vertex matches it. */
  lemma AnySameAppend<T>(same: (T, T) -> bool, kept: seq<T>, w: T, v: T)
    ensures AnySame(same, kept + [w], v) <==> AnySame(same, kept, v) || same(w, v)
  {
    if AnySame(same, kept, v) {
      var k :| 0 <= k < |kept| && same(kept[k], v);
      assert (kept + [w])[k] == kept[k];
    }
    if same(w, v) {
      assert (kept + [w])[|kept|] == w;
    }
  }

  /** Every index of `idx` points into a sequence of length `n`. */
  predicate InRange(idx: seq<nat>, n: nat)
  {
    forall k | 0 <= k < |idx| :: idx[k] < n
  }

  predicate Increasing(idx: seq<nat>)
  {
    forall j, k | 0 <= j < k < |idx| :: idx[j] < idx[k]
  }

  /** The elements of `xs` at the positions `idx`, in that order. */
  function Select<T>(xs: seq<T>, idx: seq<nat>): seq<T>
    requires InRange(idx, |xs|)
  {
    seq(|idx|, k requires 0 <= k < |idx| => xs[idx[k]])
  }

  /** The positions among the first n of `vs` whose vertex is kept: position i is kept
      when no vertex kept from positions before i matches it. The result holds at most
      n positions, all below n, and position 0 is always kept. */
  function KeptUpTo<T>(same: (T, T) -> bool, vs: seq<T>, n: nat): (p: seq<nat>)
    requires n <= |vs|
    ensures InRange(p, n) && |p| <= n
    ensures n > 0 ==> |p| > 0 && p[0] == 0
  {
    if n == 0 then []
    else
      var prev := KeptUpTo(same, vs, n - 1);
      if AnySame(same, Select(vs, prev), vs[n - 1]) then prev else prev + [n - 1]
  }

  /** The kept positions are increasing, so the kept vertices form a subsequence of
      the input in input order. */
  lemma {:induction false} KeptIncreasing<T>(same: (T, T) -> bool, vs: seq<T>, n: nat)
    requires n <= |vs|
    ensures Increasing(KeptUpTo(same, vs, n))
  {
    if n > 0 {
      KeptIncreasing(same, vs, n - 1);
    }
  }

  /** The kept positions of the whole input. */
  function Kept<T>(same: (T, T) -> bool, vs: seq<T>): seq<nat>
  {
    KeptUpTo(same, vs, |vs|)
  }

  /** The kept vertices, in input order. */
  function Unique<T>(same: (T, T) -> bool, vs: seq<T>): seq<T>
  {
    Select(vs, Kept(same, vs))
  }

  /** No element matches an earlier element. */
  predicate Distinct<T>(same: (T, T) -> bool, w: seq<T>)
  {
    forall j, k | 0 <= j < k < |w| :: !same(w[j], w[k])
  }

  /** Some position of `p` before j holds a vertex that matches vs[j]. */
  predicate MatchedBefore<T>(same: (T, T) -> bool, vs: seq<T>, p: seq<nat>, j: nat)
    requires InRange(p, |vs|) && j < |vs|
  {
    exists m | 0 <= m < |p| && p[m] < j :: same(vs[p[m]], vs[j])
  }

  /** One step of KeptUpTo: position n - 1 is appended exactly when no vertex kept from
      the earlier positions matches it. */
  lemma KeptStep<T>(same: (T, T) -> bool, vs: seq<T>, n: nat)
    requires 0 < n <= |vs|
    ensures var prev := KeptUpTo(same, vs, n - 1);
      KeptUpTo(same, vs, n) == if MatchedBefore(same, vs, prev, n - 1) then prev else prev + [n - 1]
  {
    var prev := KeptUpTo(same, vs, n - 1);
    if AnySame(same, Select(vs, prev), vs[n - 1]) {
      var k :| 0 <= k < |prev| && same(Select(vs, prev)[k], vs[n - 1]);
      assert prev[k] < n - 1 && same(vs[prev[k]], vs[n - 1]);
    } else {
      forall m | 0 <= m < |prev| && prev[m] < n - 1
        ensures !same(vs[prev[m]], vs[n - 1])
      {
        assert Select(vs, prev)[m] == vs[prev[m]];
      }
    }
  }

  /** Position j below n is kept exactly when no kept position before j holds a vertex
      that matches vs[j]. */
  lemma {:induction false} KeptUpToIff<T>(same: (T, T) -> bool, vs: seq<T>, n: nat, j: nat)
    requires j < n <= |vs|
    ensures var p := KeptUpTo(same, vs, n);
      j in p <==> !MatchedBefore(same, vs, p, j)
  {
    var prev := KeptUpTo(same, vs, n - 1);
    var p := KeptUpTo(same, vs, n);
    KeptStep(same, vs, n);
    if j == n - 1 {
      if p == prev + [j] {
        assert !MatchedBefore(same, vs, prev, j);
        assert forall m | 0 <= m < |p| && p[m] < j :: m < |prev|;
      } else {
        assert j !in prev;
      }
    } else {
      KeptUpToIff(same, vs, n - 1, j);
      assert j in p <==> j in prev;
      assert forall m | 0 <= m < |p| && p[m] < j :: m < |prev| && p[m] == prev[m];
    }
  }

  /** Position j is kept exactly when no kept position before j holds a vertex that
      matches vs[j]. */
  lemma KeptIff<T>(same: (T, T) -> bool, vs: seq<T>, j: nat)
    requires j < |vs|
    ensures j in Kept(same, vs) <==> !MatchedBefore(same, vs, Kept(same, vs), j)
  {
    KeptUpToIff(same, vs, |vs|, j);
  }

  /** No kept vertex matches any vertex kept before it. */
  lemma UniqueIsDistinct<T>(same: (T, T) -> bool, vs: seq<T>)
    ensures Distinct(same, Unique(same, vs))
  {
    var p := Kept(same, vs);
    var u := Unique(same, vs);
    forall j, k | 0 <= j < k < |u|
      ensures !same(u[j], u[k])
    {
      KeptIff(same, vs, p[k]);
      KeptIncreasing(same, vs, |vs|);
      assert p[j] < p[k];
      assert !MatchedBefore(same, vs, p, p[k]);
    }
  }

  /** Every input position that is not kept is matched by a vertex kept from an
      earlier position. */
  lemma DroppedIsMatched<T>(same: (T, T) -> bool, vs: seq<T>, j: nat)
    requires j < |vs| && j !in Kept(same, vs)
    ensures var p := Kept(same, vs);
      exists m | 0 <= m < |p| :: p[m] < j && same(vs[p[m]], vs[j])
  {
    KeptIff(same, vs, j);
  }

  /** A list whose elements match no earlier element keeps every position. */
  lemma {:induction false} KeptOfDistinct<T>(same: (T, T) -> bool, w: seq<T>, n: nat)
    requires Distinct(same, w) && n <= |w|
    ensures KeptUpTo(same, w, n) == seq(n, i => i)
  {
    if n > 0 {
      KeptOfDistinct(same, w, n - 1);
      var prev := KeptUpTo(same, w, n - 1);
      assert Select(w, prev) == w[..n - 1];
      assert !AnySame(same, w[..n - 1], w[n - 1]);
    }
  }

  /** Deduplicating the output of a deduplication returns it unchanged. */
  lemma UniqueIdempotent<T>(same: (T, T) -> bool, vs: seq<T>)
    ensures Unique(same, Unique(same, vs)) == Unique(same, vs)
  {
    var u := Unique(same, vs);
    UniqueIsDistinct(same, vs);
    KeptOfDistinct(same, u, |u|);
    assert Select(u, seq(|u|, i => i)) == u;
  }

  /** The loop of WigTemplate.Initialize: scan the input once, appending a vertex and
      the normal at the same position when no vertex kept so far matches it. */
  method EnumerateUnique<T>(same: (T, T) -> bool, inVertices: seq<T>, inNormals: seq<T>)
    returns (outVertices: seq<T>, outNormals: seq<T>)
    requires |inVertices| <= |inNormals|
    ensures outVertices == Unique(same, inVertices)
    ensures outNormals == Select(inNormals, Kept(same, inVertices))
  {
    outVertices, outNormals := [], [];
    ghost var kept: seq<nat> := [];
    for i := 0 to |inVertices|
      invariant kept == KeptUpTo(same, inVertices, i)
      invariant outVertices == Select(inVertices, kept)
      invariant outNormals == Select(inNormals, kept)
    {
      if !AnySame(same, outVertices, inVertices[i]) {
        outVertices := outVertices + [inVertices[i]];
        outNormals := outNormals + [inNormals[i]];
        kept := kept + [i];
      }
    }
  }

  /** A position that no kept vertex matches is appended. */
  lemma KeptExtend<T>(same: (T, T) -> bool, vs: seq<T>, n: nat, p: seq<nat>)
    requires 0 < n <= |vs| && KeptUpTo(same, vs, n - 1) == p
    requires forall m | 0 <= m < |p| :: !same(vs[p[m]], vs[n - 1])
    ensures KeptUpTo(same, vs, n) == p + [n - 1]
  {
    KeptStep(same, vs, n);
  }

  /** A position that a kept vertex matches is dropped. */
  lemma KeptSkip<T>(same: (T, T) -> bool, vs: seq<T>, n: nat, p: seq<nat>, m: nat)
    requires 0 < n <= |vs| && KeptUpTo(same, vs, n - 1) == p
    requires m < |p| && same(vs[p[m]], vs[n - 1])
    ensures KeptUpTo(same, vs, n) == p
  {
    KeptStep(same, vs, n);
  }

  /** Three leading vertices none of which matches an earlier one are all kept. */
  lemma FirstThreeKept<T>(same: (T, T) -> bool, vs: seq<T>)
    requires |vs| >= 3
    requires !same(vs[0], vs[1]) && !same(vs[0], vs[2]) && !same(vs[1], vs[2])
    ensures KeptUpTo(same, vs, 3) == [0, 1, 2]
  {
    var p1 := KeptUpTo(same, vs, 1);
    assert p1 == [0];
    var p2 := KeptUpTo(same, vs, 2);
    assert p2 == [0, 1] by {
      KeptExtend(same, vs, 2, p1);
    }
    KeptExtend(same, vs, 3, p2);
  }

  /** Five input vertices of which the fourth repeats the second keep four. */
  lemma FiveVertexExample<T>(same: (T, T) -> bool, a: T, b: T, c: T, d: T)
    requires same(b, b)
    requires !same(a, b) && !same(a, c) && !same(b, c)
    requires !same(a, d) && !same(b, d) && !same(c, d)
    ensures Kept(same, [a, b, c, b, d]) == [0, 1, 2, 4]
  {
    var vs := [a, b, c, b, d];
    FirstThreeKept(same, vs);
    KeptSkip(same, vs, 4, [0, 1, 2], 1);
    KeptExtend(same, vs, 5, [0, 1, 2]);
  }
}
