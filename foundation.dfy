/** The foundation layout: the kept vertices go into a texture of width N and height 2,
    one column per vertex. Row 0 holds the position with alpha 1, row 1 the normal with
    alpha 0. Grids are written as rows: g[y][x] is the pixel at column x of row y. */
module Foundation {
  import opened Engine

  /** Row 0 pixel of a vertex: (x, y, z, 1). */
  function PositionPixel(v: Vec3): Color
  {
    Color(v.x, v.y, v.z, 1.0)
  }

  /** Row 1 pixel of a vertex: (nx, ny, nz, 0). */
  function NormalPixel(n: Vec3): Color
  {
    Color(n.x, n.y, n.z, 0.0)
  }

  /** Two rows of equal width. */
  predicate IsGrid(g: seq<seq<Color>>)
  {
    |g| == 2 && |g[0]| == |g[1]|
  }

  /** A two-row grid whose row-0 alphas are 1 and whose row-1 alphas are 0. */
  predicate IsFoundation(g: seq<seq<Color>>)
  {
    IsGrid(g) && forall i | 0 <= i < |g[0]| :: g[0][i].a == 1.0 && g[1][i].a == 0.0
  }

  /** Reads the positions back from row 0 and the normals from row 1. */
  function Decode(g: seq<seq<Color>>): (r: (seq<Vec3>, seq<Vec3>))
    requires IsGrid(g)
    ensures |r.0| == |r.1| == |g[0]|
  {
    (seq(|g[0]|, i requires 0 <= i < |g[0]| => Vec3(g[0][i].r, g[0][i].g, g[0][i].b)),
     seq(|g[1]|, i requires 0 <= i < |g[1]| => Vec3(g[1][i].r, g[1][i].g, g[1][i].b)))
  }

  /** Lays out the kept vertices: column i holds vertex i's position and normal. The
      result is a foundation grid of width N from which Decode reads back exactly the
      given positions and normals. */
  function Encode(vs: seq<Vec3>, ns: seq<Vec3>): (g: seq<seq<Color>>)
    requires |vs| == |ns|
    ensures IsFoundation(g) && |g[0]| == |vs|
    ensures forall i | 0 <= i < |vs| :: g[0][i] == PositionPixel(vs[i]) && g[1][i] == NormalPixel(ns[i])
    ensures Decode(g) == (vs, ns)
  {
    var g := [seq(|vs|, i requires 0 <= i < |vs| => PositionPixel(vs[i])),
              seq(|ns|, i requires 0 <= i < |ns| => NormalPixel(ns[i]))];
    assert Decode(g).0 == vs && Decode(g).1 == ns;
    g
  }

  /** Every foundation grid is the encoding of what it decodes to. */
  lemma EncodeDecode(g: seq<seq<Color>>)
    requires IsFoundation(g)
    ensures Encode(Decode(g).0, Decode(g).1) == g
  {
    var e := Encode(Decode(g).0, Decode(g).1);
    assert e[0] == g[0];
    assert e[1] == g[1];
  }
}
