/** The template mesh of WigTemplate.RebuildMesh: F filaments (F is the foundation
    width) of L vertices each, L being the segment count clamped to [3, 64]. Vertex
    i1 * L + i2 sits at (i1 / F, i2 / L, 0); the index buffer is a line list joining
    vertex i2 to vertex i2 + 1 of every filament, and never two filaments.

    The specification functions are written the way the loops build the lists: filament
    after filament, and within a filament vertex after vertex and segment after
    segment. The lemmas then state the closed form. */
module TemplateMesh {
  import opened Engine

  const MinSegments: int := 3
  const MaxSegments: int := 64

  /** The engine's integer clamp: a value below `min` becomes `min`, one above `max`
      becomes `max`, and one in range is kept. */
  function Clamp(value: int, min: int, max: int): (r: int)
    requires min <= max
    ensures min <= r <= max
    ensures value < min ==> r == min
    ensures value > max ==> r == max
    ensures min <= value <= max ==> r == value
  {
    if value < min then min else if value > max then max else value
  }

  function Abs(x: int): nat
  {
    if x < 0 then -x else x
  }

  /** The clamped value is the point of [min, max] nearest to `value`. */
  lemma ClampIsNearest(value: int, min: int, max: int, w: int)
    requires min <= max && min <= w <= max
    ensures Abs(Clamp(value, min, max) - value) <= Abs(w - value)
  {
  }

  // ----- Vertices -----

  /** Vertex i2 of filament i1: (i1 / F, i2 / L, 0), with exact division. */
  function GridPoint(F: nat, L: nat, i1: nat, i2: nat): Vec3
    requires i1 < F && i2 < L
  {
    Vec3(i1 as real / F as real, i2 as real / L as real, 0.0)
  }

  /** The first n vertices of filament i1, as the inner vertex loop appends them. */
  function FilamentVertices(F: nat, L: nat, i1: nat, n: nat): seq<Vec3>
    requires i1 < F && n <= L
  {
    if n == 0 then [] else FilamentVertices(F, L, i1, n - 1) + [GridPoint(F, L, i1, n - 1)]
  }

  /** The vertices of the first n filaments. */
  function GridVertices(F: nat, L: nat, n: nat): seq<Vec3>
    requires n <= F
  {
    if n == 0 then [] else GridVertices(F, L, n - 1) + FilamentVertices(F, L, n - 1, L)
  }

  /** The vertex list of the template for F filaments of length L. */
  function TemplateVertices(F: nat, L: nat): seq<Vec3>
  {
    GridVertices(F, L, F)
  }

  lemma {:induction false} FilamentVerticesAt(F: nat, L: nat, i1: nat, n: nat, i2: nat)
    requires i1 < F && i2 < n <= L
    ensures |FilamentVertices(F, L, i1, n)| == n
    ensures FilamentVertices(F, L, i1, n)[i2] == GridPoint(F, L, i1, i2)
  {
    if i2 < n - 1 {
      FilamentVerticesAt(F, L, i1, n - 1, i2);
    } else {
      FilamentVerticesLength(F, L, i1, n - 1);
    }
  }

  lemma {:induction false} FilamentVerticesLength(F: nat, L: nat, i1: nat, n: nat)
    requires i1 < F && n <= L
    ensures |FilamentVertices(F, L, i1, n)| == n
  {
    if n > 0 {
      FilamentVerticesLength(F, L, i1, n - 1);
    }
  }

  /** The first n filaments hold n * L vertices. */
  lemma {:induction false} GridVerticesLength(F: nat, L: nat, n: nat)
    requires n <= F
    ensures |GridVertices(F, L, n)| == n * L
  {
    if n > 0 {
      GridVerticesLength(F, L, n - 1);
      FilamentVerticesLength(F, L, n - 1, L);
      assert (n - 1) * L + L == n * L;
    }
  }

  /** Vertex i1 * L + i2 of the grid is vertex i2 of filament i1. */
  lemma {:induction false} GridVerticesAt(F: nat, L: nat, n: nat, i1: nat, i2: nat)
    requires n <= F && i1 < n && i2 < L
    ensures i1 * L + i2 < |GridVertices(F, L, n)|
    ensures GridVertices(F, L, n)[i1 * L + i2] == GridPoint(F, L, i1, i2)
  {
    GridVerticesLength(F, L, n - 1);
    GridVerticesLength(F, L, n);
    if i1 < n - 1 {
      GridVerticesAt(F, L, n - 1, i1, i2);
    } else {
      FilamentVerticesAt(F, L, i1, L, i2);
    }
  }

  /** The template has F * L vertices, vertex i1 * L + i2 being (i1 / F, i2 / L, 0). */
  lemma TemplateVertexAt(F: nat, L: nat, i1: nat, i2: nat)
    requires i1 < F && i2 < L
    ensures |TemplateVertices(F, L)| == F * L
    ensures TemplateVertices(F, L)[i1 * L + i2] == GridPoint(F, L, i1, i2)
  {
    GridVerticesLength(F, L, F);
    GridVerticesAt(F, L, F, i1, i2);
  }

  // ----- Line indices -----

  /** The first n segments of filament i1: the pairs (i1 * L + i2, i1 * L + i2 + 1). */
  function FilamentLines(L: nat, i1: nat, n: nat): seq<int>
  {
    if n == 0 then [] else FilamentLines(L, i1, n - 1) + [i1 * L + (n - 1), i1 * L + (n - 1) + 1]
  }

  /** The index list of the first n filaments, each with L - 1 segments. */
  function GridLines(L: nat, n: nat): seq<int>
    requires L >= 1
  {
    if n == 0 then [] else GridLines(L, n - 1) + FilamentLines(L, n - 1, L - 1)
  }

  /** The index list of the template for F filaments of length L. */
  function TemplateIndices(F: nat, L: nat): seq<int>
    requires L >= 1
  {
    GridLines(L, F)
  }

  lemma {:induction false} FilamentLinesAt(L: nat, i1: nat, n: nat, i2: nat)
    requires i2 < n
    ensures |FilamentLines(L, i1, n)| == 2 * n
    ensures FilamentLines(L, i1, n)[2 * i2] == i1 * L + i2
    ensures FilamentLines(L, i1, n)[2 * i2 + 1] == i1 * L + i2 + 1
  {
    FilamentLinesLength(L, i1, n - 1);
    if i2 < n - 1 {
      FilamentLinesAt(L, i1, n - 1, i2);
    }
  }

  lemma {:induction false} FilamentLinesLength(L: nat, i1: nat, n: nat)
    ensures |FilamentLines(L, i1, n)| == 2 * n
  {
    if n > 0 {
      FilamentLinesLength(L, i1, n - 1);
    }
  }

  /** The first n filaments contribute n * (L - 1) * 2 indices. */
  lemma {:induction false} GridLinesLength(L: nat, n: nat)
    requires L >= 1
    ensures |GridLines(L, n)| == n * (L - 1) * 2
  {
    if n > 0 {
      GridLinesLength(L, n - 1);
      FilamentLinesLength(L, n - 1, L - 1);
      assert (n - 1) * (L - 1) * 2 + 2 * (L - 1) == n * (L - 1) * 2;
    }
  }

  /** Segment i2 of filament i1 is the pair at positions 2 * (i1 * (L - 1) + i2) and
      the one after it, and joins vertex i1 * L + i2 to vertex i1 * L + i2 + 1. */
  lemma {:induction false} GridLinesAt(L: nat, n: nat, i1: nat, i2: nat)
    requires L >= 1 && i1 < n && i2 < L - 1
    ensures 2 * (i1 * (L - 1) + i2) + 1 < |GridLines(L, n)|
    ensures GridLines(L, n)[2 * (i1 * (L - 1) + i2)] == i1 * L + i2
    ensures GridLines(L, n)[2 * (i1 * (L - 1) + i2) + 1] == i1 * L + i2 + 1
  {
    var m := L - 1;
    GridLinesLength(L, n - 1);
    GridLinesLength(L, n);
    assert n * m == (n - 1) * m + m;
    if i1 < n - 1 {
      GridLinesAt(L, n - 1, i1, i2);
    } else {
      assert |GridLines(L, n - 1)| == 2 * (i1 * m);
      FilamentLinesAt(L, i1, m, i2);
    }
  }

  /** Every index of the first n filaments names one of their n * L vertices. */
  lemma {:induction false} GridLinesInRange(L: nat, n: nat)
    requires L >= 1
    ensures forall j | 0 <= j < |GridLines(L, n)| :: 0 <= GridLines(L, n)[j] < n * L
  {
    if n > 0 {
      GridLinesInRange(L, n - 1);
      FilamentLinesInRange(L, n - 1, L - 1);
      assert (n - 1) * L + L == n * L;
    }
  }

  lemma {:induction false} FilamentLinesInRange(L: nat, i1: nat, n: nat)
    requires n < L
    ensures forall j | 0 <= j < |FilamentLines(L, i1, n)| ::
      i1 * L <= FilamentLines(L, i1, n)[j] < i1 * L + L
  {
    if n > 0 {
      FilamentLinesInRange(L, i1, n - 1);
    }
  }

  /** Euclidean division of a * L + b by L, for 0 <= b < L. */
  lemma DivMulAdd(a: int, b: int, L: int)
    requires L > 0 && 0 <= b < L
    ensures (a * L + b) / L == a
  {
    var q := (a * L + b) / L;
    var r := (a * L + b) % L;
    assert q * L + r == a * L + b;
    assert (q - a) * L == b - r;
    if q > a {
      MulAtLeast(q - a, L);
    } else if q < a {
      MulAtLeast(a - q, L);
    }
  }

  lemma MulAtLeast(k: int, L: int)
    requires k >= 1 && L > 0
    ensures k * L >= L
  {
  }

  /** Line p of the template (indices 2p and 2p + 1) joins two consecutive vertices of
      one filament: the second index is the first plus one, both are below F * L, and
      both lie in filament (index / L). */
  lemma TemplateLineAt(F: nat, L: nat, p: nat)
    requires L >= 2 && p < F * (L - 1)
    ensures |TemplateIndices(F, L)| == F * (L - 1) * 2
    ensures var idx := TemplateIndices(F, L);
      0 <= idx[2 * p] && idx[2 * p + 1] == idx[2 * p] + 1 && idx[2 * p + 1] < F * L &&
      idx[2 * p] / L == idx[2 * p + 1] / L
  {
    GridLinesLength(L, F);
    var i1, i2 := Decompose(p, L - 1, F);
    GridLinesAt(L, F, i1, i2);
    DivMulAdd(i1, i2, L);
    DivMulAdd(i1, i2 + 1, L);
    GridLinesInRange(L, F);
  }

  /** Splits p < n * m into a row i1 < n and a column i2 < m. */
  lemma Decompose(p: nat, m: nat, n: nat) returns (i1: nat, i2: nat)
    requires p < n * m
    ensures i1 < n && i2 < m && p == i1 * m + i2
  {
    assert m > 0;
    i1, i2 := p / m, p % m;
    if i1 >= n {
      MulMono(n, i1, m);
    }
  }

  lemma MulMono(a: nat, b: nat, m: nat)
    requires a <= b
    ensures a * m <= b * m
  {
  }

  /** The template has F * L vertices and F * (L - 1) * 2 indices, that is F * (L - 1)
      lines. */
  lemma TemplateSizes(F: nat, L: nat)
    requires L >= 1
    ensures |TemplateVertices(F, L)| == F * L
    ensures |TemplateIndices(F, L)| == F * (L - 1) * 2
  {
    GridVerticesLength(F, L, F);
    GridLinesLength(L, F);
  }

  /** The nested loops of RebuildMesh: for each filament, append its vertices, then its
      segments. The vertex list has vcount * length entries, the index list
      vcount * (length - 1) * 2, and every index names a vertex of the list. */
  method Build(vcount: nat, length: nat) returns (vertices: seq<Vec3>, indices: seq<int>)
    requires length >= 1
    ensures vertices == TemplateVertices(vcount, length)
    ensures indices == TemplateIndices(vcount, length)
    ensures |vertices| == vcount * length && |indices| == vcount * (length - 1) * 2
    ensures forall k | 0 <= k < |indices| :: 0 <= indices[k] < |vertices|
  {
    vertices, indices := [], [];
    for i1 := 0 to vcount
      invariant vertices == GridVertices(vcount, length, i1)
      invariant indices == GridLines(length, i1)
    {
      var u := i1 as real / vcount as real;
      for i2 := 0 to length
        invariant vertices == GridVertices(vcount, length, i1) + FilamentVertices(vcount, length, i1, i2)
      {
        var v := i2 as real / length as real;
        vertices := vertices + [Vec3(u, v, 0.0)];
      }
      for i2 := 0 to length - 1
        invariant indices == GridLines(length, i1) + FilamentLines(length, i1, i2)
      {
        var i := i1 * length + i2;
        indices := indices + [i, i + 1];
      }
    }
    TemplateSizes(vcount, length);
    GridLinesInRange(length, vcount);
  }
}
