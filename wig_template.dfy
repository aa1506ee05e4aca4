/** The WigTemplate asset: a foundation texture made once from a source mesh, a segment
    count, and the template mesh rebuilt from the two. */
module Kvant {
  import opened Engine
  import Dedup
  import Foundation
  import TemplateMesh

  /** The segment count of a new asset. */
  const DefaultSegmentCount: int := 8

  class WigTemplate {
    /** Number of segments per filament, as edited; the rebuild clamps it. */
    var segmentCount: int
    /** Absent until Initialize has run; then a width-N, height-2 texture. */
    var foundation: Texture?
    /** The template mesh asset, rebuilt in place. */
    var mesh: Mesh

    ghost predicate Valid()
      reads this
    {
      foundation != null ==> foundation.Valid() && foundation.height == 2 && foundation.width >= 1
    }

    /** A new asset, once the engine has created its template mesh. */
    constructor ()
      ensures Valid() && foundation == null && segmentCount == DefaultSegmentCount
      ensures fresh(mesh) && mesh.vertices == [] && mesh.normals == [] && mesh.indices == []
    {
      segmentCount := DefaultSegmentCount;
      foundation := null;
      mesh := new Mesh();
    }

    /** Number of filaments: the foundation width, at least one once initialised. */
    function FilamentCount(): (r: nat)
      reads this
      requires Valid() && foundation != null
      ensures r >= 1
    {
      foundation.width
    }

    /** The segment count the rebuild uses: always within [3, 64], and the edited
        count itself when that is already in range. */
    function Length(): (r: int)
      reads this
      ensures TemplateMesh.MinSegments <= r <= TemplateMesh.MaxSegments
      ensures TemplateMesh.MinSegments <= segmentCount <= TemplateMesh.MaxSegments ==> r == segmentCount
    {
      TemplateMesh.Clamp(segmentCount, TemplateMesh.MinSegments, TemplateMesh.MaxSegments)
    }

    /** The mesh holds exactly the template of FilamentCount() filaments of Length()
        vertices, as a line list, and nothing from earlier contents. */
    ghost predicate MeshIsTemplate()
      reads this, mesh
      requires Valid() && foundation != null
    {
      mesh.vertices == TemplateMesh.TemplateVertices(FilamentCount(), Length()) &&
      mesh.indices == TemplateMesh.TemplateIndices(FilamentCount(), Length()) &&
      mesh.normals == [] && mesh.topology == Lines
    }

    /** One-shot initialisation. On an asset that already has a foundation nothing
        changes. Otherwise the source vertices are deduplicated, the kept positions and
        their normals are stored in a new 2-row texture, and the mesh is rebuilt. */
    method Initialize(source: Mesh, same: (Vec3, Vec3) -> bool)
      requires Valid()
      requires foundation == null ==> 1 <= |source.vertices| <= |source.normals|
      modifies this, mesh
      ensures Valid() && foundation != null
      ensures mesh == old(mesh) && segmentCount == old(segmentCount)
      ensures old(foundation) != null ==>
        foundation == old(foundation) && unchanged(foundation.pixels) && unchanged(mesh)
      ensures old(foundation) == null ==>
        var kept := Dedup.Kept(same, old(source.vertices));
        fresh(foundation) && foundation.width == |kept| &&
        foundation.Holds(Foundation.Encode(Dedup.Select(old(source.vertices), kept),
                                           Dedup.Select(old(source.normals), kept))) &&
        MeshIsTemplate()
    {
      if foundation != null {
        return;
      }

      var inVertices := source.vertices;
      var inNormals := source.normals;
      var outVertices, outNormals := Dedup.EnumerateUnique(same, inVertices, inNormals);

      var tex := new Texture(|outVertices|, 2);
      ghost var g := Foundation.Encode(outVertices, outNormals);
      for i := 0 to |outVertices|
        modifies tex.pixels
        invariant forall x, y | 0 <= x < i && 0 <= y < 2 :: tex.pixels[x, y] == g[y][x]
      {
        var v := outVertices[i];
        var n := outNormals[i];
        tex.SetPixel(i, 0, Color(v.x, v.y, v.z, 1.0));
        tex.SetPixel(i, 1, Color(n.x, n.y, n.z, 0.0));
      }
      foundation := tex;

      RebuildMesh();
    }

    /** Clears the mesh and fills it with the template for the current foundation width
        and clamped segment count. */
    method RebuildMesh()
      requires Valid() && foundation != null
      modifies mesh
      ensures MeshIsTemplate()
    {
      mesh.Clear();
      var vcount := FilamentCount();
      var length := Length();
      var vertices, indices := TemplateMesh.Build(vcount, length);
      mesh.SetVertices(vertices);
      mesh.SetIndices(indices, Lines);
    }
  }

  /** Two rebuilds in a row leave the mesh as the first one left it. */
  method RebuildTwice(t: WigTemplate) returns (vertices: seq<Vec3>, indices: seq<int>)
    requires t.Valid() && t.foundation != null
    modifies t.mesh
    ensures t.MeshIsTemplate()
    ensures t.mesh.vertices == vertices && t.mesh.indices == indices
  {
    t.RebuildMesh();
    vertices, indices := t.mesh.vertices, t.mesh.indices;
    t.RebuildMesh();
  }
}
