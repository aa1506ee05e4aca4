/** The engine types the asset works with: vectors, colours, a 2-D texture and a mesh.
    Floating-point components are modelled as reals; the engine calls that only upload
    data to the GPU or set sampling flags are not modelled. */
module Engine {

  /** A 3-D vector (position or normal). */
  datatype Vec3 = Vec3(x: real, y: real, z: real)

  /** An RGBA pixel of a floating-point texture. */
  datatype Color = Color(r: real, g: real, b: real, a: real)

  /** The primitive kind an index buffer is read as. */
  datatype Topology = Triangles | Lines

  /** A width x height texture whose pixels are written one at a time. */
  class Texture {
    const width: nat
    const height: nat
    const pixels: array2<Color>

    ghost predicate Valid()
    {
      pixels.Length0 == width && pixels.Length1 == height
    }

    constructor (width: nat, height: nat)
      ensures Valid() && fresh(pixels)
      ensures this.width == width && this.height == height
    {
      this.width := width;
      this.height := height;
      pixels := new Color[width, height]((x, y) => Color(0.0, 0.0, 0.0, 0.0));
    }

    /** Writes pixel (x, y); every other pixel keeps its colour. */
    method SetPixel(x: nat, y: nat, c: Color)
      requires Valid() && x < width && y < height
      modifies pixels
      ensures pixels[x, y] == c
      ensures forall i, j | 0 <= i < width && 0 <= j < height && (i != x || j != y) ::
        pixels[i, j] == old(pixels[i, j])
    {
      pixels[x, y] := c;
    }

    /** The texture holds grid `g`, read as rows: pixel (x, y) is g[y][x]. */
    ghost predicate Holds(g: seq<seq<Color>>)
      reads pixels
      requires Valid()
    {
      |g| == height &&
      (forall y | 0 <= y < height :: |g[y]| == width) &&
      forall x, y | 0 <= x < width && 0 <= y < height :: pixels[x, y] == g[y][x]
    }
  }

  /** A mesh asset: vertex positions, normals and one index buffer with its topology. */
  class Mesh {
    var vertices: seq<Vec3>
    var normals: seq<Vec3>
    var indices: seq<int>
    var topology: Topology

    constructor ()
      ensures vertices == [] && normals == [] && indices == [] && topology == Triangles
    {
      vertices, normals, indices, topology := [], [], [], Triangles;
    }

    /** Empties every buffer of the mesh. */
    method Clear()
      modifies this
      ensures vertices == [] && normals == [] && indices == [] && topology == old(topology)
    {
      vertices, normals, indices := [], [], [];
    }

    method SetVertices(vs: seq<Vec3>)
      modifies this`vertices
      ensures vertices == vs
    {
      vertices := vs;
    }

    /** Replaces the index buffer; the engine refuses an index outside the vertex buffer. */
    method SetIndices(xs: seq<int>, t: Topology)
      requires forall k | 0 <= k < |xs| :: 0 <= xs[k] < |vertices|
      modifies this`indices, this`topology
      ensures indices == xs && topology == t
    {
      indices, topology := xs, t;
    }
  }
}
