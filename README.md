# Kvant Wig template asset, in Dafny

This project models `Kvant.WigTemplate`, the Unity asset behind the Wig hair/fur
renderer. The asset has three pieces of state:

- a **foundation** texture, absent until initialisation;
- a **segment count**, 8 by default;
- a **template mesh**.

It also has two operations:

- **`Initialize(source)`** runs once. It keeps the first occurrence of every source
  vertex, in input order. Two vertices are duplicates when the engine's vector `==`
  says so. It takes the normal found at the same input position as each kept vertex.
  It stores the kept vertices in a texture N pixels wide and 2 high: row 0 holds
  `(x, y, z, 1)` and row 1 holds `(nx, ny, nz, 0)`. Then it rebuilds the mesh. If a
  foundation already exists, it changes nothing.
- **`RebuildMesh()`** clamps the segment count to [3, 64], giving L. It clears the
  mesh and fills it with F filaments of L vertices each, where F is the foundation
  width. Vertex `i1 * L + i2` lies at `(i1 / F, i2 / L, 0)`. The mesh gets a line-list
  index buffer that joins each vertex of a filament to the next one. No line joins two
  filaments.

Files and modules:

- `engine.dfy` (`Engine`): the engine types used. These are `Vec3` and `Color` as
  values with real components. `Texture` is a class over an `array2` of pixels, written
  by `SetPixel`. `Mesh` is a class whose buffers are replaced by `Clear`,
  `SetVertices` and `SetIndices`.
- `dedup.dfy` (`Dedup`): the deduplication loop. `EnumerateUnique` is the loop itself.
  `KeptUpTo`/`Kept` give the kept input positions. The lemmas characterise them.
- `foundation.dfy` (`Foundation`): the two-row layout (`Encode`), its inverse
  (`Decode`), and the round trips in both directions.
- `template_mesh.dfy` (`TemplateMesh`): `Clamp`. It also has the vertex and index
  lists, defined the way the loops build them, and the nested loops (`Build`). Lemmas
  give the closed form: sizes, vertex positions, line pairs, index bounds, and that no
  line crosses a filament.
- `wig_template.dfy` (`Kvant`): the `WigTemplate` class with `Initialize` and
  `RebuildMesh`. It also has a client that rebuilds twice.

The vector `==` at line 63 is Unity's overloaded `Vector3 ==`. It compares within a
tolerance, not by exact component equality. The model passes it to `Initialize` as an
arbitrary relation `same(kept, candidate)`. Every dedup property below holds for any
such relation: none needs reflexivity, symmetry or transitivity.

## Model

| member | source | states |
|---|---|---|
| `Engine.Texture.constructor` | Assets/Kvant/Wig/WigTemplate.cs:71 | a new texture has the requested width and height and a fresh pixel array of that size |
| `Engine.Texture.SetPixel` | Assets/Kvant/Wig/WigTemplate.cs:81-82 | pixel (x, y) takes the colour; every other pixel keeps its colour |
| `Engine.Mesh.constructor` | Assets/Kvant/Wig/WigTemplate.cs:141-142 | a new mesh has empty vertex, normal and index buffers |
| `Engine.Mesh.Clear` | Assets/Kvant/Wig/WigTemplate.cs:98 | clearing empties the vertex, normal and index buffers |
| `Engine.Mesh.SetVertices` | Assets/Kvant/Wig/WigTemplate.cs:127 | the vertex buffer becomes the given list; nothing else changes |
| `Engine.Mesh.SetIndices` | Assets/Kvant/Wig/WigTemplate.cs:128 | the index buffer and topology become the given ones, and every index must name an existing vertex |
| `Dedup.AnySame` | Assets/Kvant/Wig/WigTemplate.cs:63 | the duplicate test; an empty kept list matches nothing, so the first vertex is always kept |
| `Dedup.AnySameAppend` | Assets/Kvant/Wig/WigTemplate.cs:63-65 | after a vertex is appended to the kept list, a candidate is matched exactly when it was matched before or the new vertex matches it (both directions) |
| `Dedup.KeptUpTo` | Assets/Kvant/Wig/WigTemplate.cs:61-68 | the kept positions among the first n are at most n and all below n; position 0 is always kept |
| `Dedup.KeptIncreasing` | Assets/Kvant/Wig/WigTemplate.cs:61-68 | the kept positions are strictly increasing, so the kept vertices are a subsequence of the input in input order |
| `Dedup.KeptStep` | Assets/Kvant/Wig/WigTemplate.cs:63-67 | position n-1 is appended to the kept positions exactly when no vertex kept from earlier positions matches it |
| `Dedup.KeptExtend` | Assets/Kvant/Wig/WigTemplate.cs:63-67 | a position that no kept vertex matches is appended to the kept positions |
| `Dedup.KeptSkip` | Assets/Kvant/Wig/WigTemplate.cs:63 | a position that some kept vertex matches leaves the kept positions unchanged |
| `Dedup.KeptUpToIff` | Assets/Kvant/Wig/WigTemplate.cs:61-68 | position j is kept exactly when no kept position before j holds a matching vertex (both directions) |
| `Dedup.KeptIff` | Assets/Kvant/Wig/WigTemplate.cs:61-68 | the same characterisation for the whole input: first-occurrence order |
| `Dedup.UniqueIsDistinct` | Assets/Kvant/Wig/WigTemplate.cs:61-68 | no kept vertex matches any vertex kept before it |
| `Dedup.DroppedIsMatched` | Assets/Kvant/Wig/WigTemplate.cs:61-68 | every dropped input position is matched by a vertex kept from an earlier position |
| `Dedup.KeptOfDistinct` | Assets/Kvant/Wig/WigTemplate.cs:61-68 | on a list where no element matches an earlier one, every position is kept |
| `Dedup.UniqueIdempotent` | Assets/Kvant/Wig/WigTemplate.cs:61-68 | deduplicating the output of a deduplication returns it unchanged |
| `Dedup.EnumerateUnique` | Assets/Kvant/Wig/WigTemplate.cs:57-68 | the loop returns the vertices at the kept positions, and the normals at the same positions, so normals stay index-aligned |
| `Dedup.FiveVertexExample` | Assets/Kvant/Wig/WigTemplate.cs:61-68 | five vertices whose fourth repeats the second keep positions 0, 1, 2 and 4 |
| `Foundation.Decode` | Assets/Kvant/Wig/WigTemplate.cs:77-83 | reading a two-row grid back gives as many positions and normals as the grid is wide |
| `Foundation.Encode` | Assets/Kvant/Wig/WigTemplate.cs:71-83 | the grid is 2 rows of width N; column i holds (pos_i, 1) in row 0 and (normal_i, 0) in row 1; decoding it gives back the positions and normals exactly |
| `Foundation.EncodeDecode` | Assets/Kvant/Wig/WigTemplate.cs:77-83 | every two-row grid with alphas 1 and 0 is the encoding of what it decodes to |
| `TemplateMesh.Clamp` | Assets/Kvant/Wig/WigTemplate.cs:102 | the result lies in [min, max]; below min gives min, above max gives max, and an in-range value is unchanged |
| `TemplateMesh.ClampIsNearest` | Assets/Kvant/Wig/WigTemplate.cs:102 | the clamped value is the point of [min, max] nearest to the requested value |
| `TemplateMesh.FilamentVerticesLength` | Assets/Kvant/Wig/WigTemplate.cs:112-116 | the inner vertex loop appends one vertex per segment index |
| `TemplateMesh.FilamentVerticesAt` | Assets/Kvant/Wig/WigTemplate.cs:112-116 | vertex i2 of filament i1 is (i1 / F, i2 / L, 0) |
| `TemplateMesh.GridVerticesLength` | Assets/Kvant/Wig/WigTemplate.cs:108-116 | n filaments contribute n * L vertices |
| `TemplateMesh.GridVerticesAt` | Assets/Kvant/Wig/WigTemplate.cs:108-116 | entry i1 * L + i2 of the vertex list is vertex i2 of filament i1 |
| `TemplateMesh.TemplateVertexAt` | Assets/Kvant/Wig/WigTemplate.cs:105-116 | the template has F * L vertices, and vertex i1 * L + i2 is (i1 / F, i2 / L, 0) |
| `TemplateMesh.FilamentLinesLength` | Assets/Kvant/Wig/WigTemplate.cs:118-123 | each segment appends two indices |
| `TemplateMesh.FilamentLinesAt` | Assets/Kvant/Wig/WigTemplate.cs:118-123 | segment i2 of filament i1 is the pair (i1 * L + i2, i1 * L + i2 + 1) |
| `TemplateMesh.GridLinesLength` | Assets/Kvant/Wig/WigTemplate.cs:106-124 | n filaments contribute n * (L - 1) * 2 indices |
| `TemplateMesh.GridLinesAt` | Assets/Kvant/Wig/WigTemplate.cs:118-123 | indices 2 * (i1 * (L - 1) + i2) and the next one are i1 * L + i2 and i1 * L + i2 + 1 |
| `TemplateMesh.FilamentLinesInRange` | Assets/Kvant/Wig/WigTemplate.cs:118-123 | every index of filament i1 lies in that filament's block [i1 * L, i1 * L + L) |
| `TemplateMesh.GridLinesInRange` | Assets/Kvant/Wig/WigTemplate.cs:108-124 | every index of n filaments is below n * L |
| `TemplateMesh.TemplateLineAt` | Assets/Kvant/Wig/WigTemplate.cs:118-123 | line p joins index a to a + 1, both below F * L and in the same filament (same index / L) |
| `TemplateMesh.TemplateSizes` | Assets/Kvant/Wig/WigTemplate.cs:105-106 | the template has F * L vertices and F * (L - 1) * 2 indices (so 4 filaments of 10 segments give 40 vertices and 72 indices, 36 lines) |
| `TemplateMesh.Build` | Assets/Kvant/Wig/WigTemplate.cs:101-124 | the nested loops build exactly the template vertex and index lists: F * L vertices, F * (L - 1) * 2 indices, each naming a vertex |
| `Kvant.WigTemplate.constructor` | Assets/Kvant/Wig/WigTemplate.cs:16 | a new asset has no foundation, segment count 8 and a mesh with empty vertex, normal and index buffers |
| `Kvant.WigTemplate.FilamentCount` | Assets/Kvant/Wig/WigTemplate.cs:19-21 | the filament count is the foundation width, which is at least one once a foundation exists |
| `Kvant.WigTemplate.Length` | Assets/Kvant/Wig/WigTemplate.cs:102 | the segment count the rebuild uses always lies in [3, 64], and equals the edited count when that is already in range |
| `Kvant.WigTemplate.Initialize` | Assets/Kvant/Wig/WigTemplate.cs:44-91 | with a foundation present, foundation, its pixels, mesh and segment count are unchanged; otherwise a fresh texture holds the encoding of the kept vertices and their normals, with width equal to their count, and the mesh is the template |
| `Kvant.WigTemplate.RebuildMesh` | Assets/Kvant/Wig/WigTemplate.cs:96-131 | the mesh becomes exactly the line-list template for the foundation width and the clamped segment count, and nothing from earlier contents remains |
| `Kvant.RebuildTwice` | Assets/Kvant/Wig/WigTemplate.cs:96-131 | a second rebuild leaves the mesh as the first one left it |

## Left out

- Vector equality: Unity's tolerance-based `Vector3 ==` is a parameter `same`, not a definition. No property relies on its tolerance.
- Floating point: positions, normals and the `(float)i1 / vcount` and `(float)i2 / length` coordinates are exact reals. Rounding of the float division is not modelled.
- Engine calls with no effect on the modelled lists are left out: the texture name, `RGBAFloat` format, mip flag, point filtering, clamp wrap mode and `Apply(false, true)`. So are `Mesh.Optimize()`, which may reorder GPU-side buffers, and `UploadMeshData(true)`. The mesh properties are stated about the lists the loops build.
- `Debug.LogError` on re-initialisation is not modelled; the model only aborts with no change.
- The ScriptableObject lifecycle, serialisation and the editor-only compilation guard are left out. The constructor stands for a new asset after `OnEnable` has created its mesh, which is why `mesh` is never null.
- Kvant.WigTemplate.Initialize: requires at least one source vertex and at least as many normals as vertices. The source indexes the normals at line 66, and a texture of width 0 is invalid. These requirements apply only when no foundation exists yet.
- Kvant.WigTemplate.RebuildMesh: requires a foundation. The source dereferences it at line 101 and does not guard the call.
- The segment count has no setter in the source; the inspector edits the serialised field. The model exposes it as a public field.
