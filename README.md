# Marching squares chunk builder and streamer

This project models the two scripts of a Unity terrain demo.

The first is the marching-squares mesh builder of one chunk (`MarchingSquares`). It samples a density field on a `(fieldSize+1)²` lattice through a lazily filled cache. It classifies each cell by which of its four corners lie strictly above the threshold `step`. It looks the 4-bit code up in a constant 16-entry table of triangle lists over eight vertex slots, and fills the slots the entry's mask selects: corners get lattice points, edges get a clamped linear interpolation. It then appends one vertex per table index, scaled by `1/fieldSize`, together with the running index to the triangle list.

The second is the chunk streamer (`MeshGeneratorManager`). It keeps a map from integer cells to chunks and the last focal cell, which starts at a sentinel. On each frame whose focal cell differs from the last one, it creates and builds the missing chunks of the 3×3 block around the new cell, then records that cell.

The model has three modules:

- `Contour` (`contour.dfy`) holds the pure definitions:
  - the density samples;
  - the cell code and its bits;
  - the interpolation fraction and the slot positions;
  - the table, kept as `TrisTable` plus `Mask`;
  - the vertex buffer a complete build produces (`CellVertices`, `RowVertices`, `GridVertices`, `MeshVertices`).

  Its lemmas prove:
  - the table facts;
  - that no emitted interpolation divides by zero;
  - the bounds of every vertex;
  - the vertex count.
- `Marching` (`marching_squares.dfy`) holds the class `MarchingSquares`. It has the sample cache as an `array2`, the reused 8-slot array, and the vertex and triangle buffers as `seq` fields. Every method is proved against `Contour`. `MakeMesh` ends with the buffers equal to `MeshVertices` and the triangle list `0 .. n-1`.
- `Streaming` (`mesh_generator_manager.dfy`) holds the class `MeshGeneratorManager` with its `map` of chunks and the focal cell. `Update` is proved against the key-set function `TickKeys`, and lemmas about `TickKeys` state the streaming properties.

## Model

| member | source | states |
|---|---|---|
| Contour.Sample | Assets/MarchingSquares.cs:134-136 | a density sample lies in [0,1], the range of the density field |
| Contour.SampleCoordinates | Assets/MarchingSquares.cs:134-136 | the sample of lattice point (x, y) is the field read at (x·scale/fieldSize + Offset.x, y·scale/fieldSize + Offset.y) |
| Contour.LatticeSamples | Assets/MarchingSquares.cs:134-136 | the lattice table has (fieldSize+1)×(fieldSize+1) entries; entry (x, y) is the field read at (x·scale/fieldSize + Offset.x, y·scale/fieldSize + Offset.y), and every entry lies in [0,1] |
| Contour.SquareIndex | Assets/MarchingSquares.cs:163-170 | the cell code lies in [0,15] |
| Contour.SquareIndexBits | Assets/MarchingSquares.cs:157-168 | bit k of the code is set exactly when corner sample pk is strictly above `step`, with p0..p3 at (i,j), (i+1,j), (i,j+1), (i+1,j+1) |
| Contour.Clamp01 | Assets/MarchingSquares.cs:121 | the clamp lands in [0,1], keeps values already there, and maps values below to 0 and above to 1 |
| Contour.Tris | Assets/MarchingSquares.cs:173-191 | every triangle list of the table `squares` holds whole triangles over the slots 0..7 |
| Contour.Mask | Assets/MarchingSquares.cs:173-191 | the fill mask of every entry of `squares` selects each slot its triangle list reads |
| Contour.EdgeFraction | Assets/MarchingSquares.cs:118-123 | `f` lies in [0,1] whenever it is a number, and it is NaN (`None`) exactly when both samples equal the threshold; with equal samples on one side of it, the clamp of ±∞ gives 1 or 0 |
| Contour.EdgeFractionCrossing | Assets/MarchingSquares.cs:118-123 | when the threshold lies between the two samples, `f` is the exact point where their linear interpolation reaches it |
| Contour.SlotValue | Assets/MarchingSquares.cs:92-116 | a corner slot is always defined; an edge slot is undefined (NaN) exactly when both its end samples equal `step`; every defined slot lies in the cell's unit box |
| Contour.TableConsistent | Assets/MarchingSquares.cs:173-191 | every entry has a length that is a multiple of 3 and uses slots 0..7 only; each slot it uses has its mask bit set and is needed by the code's bits; each slot the bits need is used |
| Contour.SlotUsage | Assets/MarchingSquares.cs:163-168 | slot s occurs in the entry of a cell's code exactly when the cell needs it: corner slots 0/2/6/4 when p0/p1/p2/p3 is above `step`, and edge slots 1/3/5/7 when (p0,p1)/(p1,p3)/(p2,p3)/(p0,p2) classify differently |
| Contour.EmittedSlotsDefined | Assets/MarchingSquares.cs:62-67 | every slot the selected entry lists is in 0..7, is filled under the entry's mask, and holds a defined position, so no emitted interpolation divides by zero |
| Contour.EdgeVertexOnContour | Assets/MarchingSquares.cs:97-123 | an emitted edge vertex lies on its edge, at parameter in [0,1], exactly where the interpolated density equals `step`; the clamp never moves it |
| Contour.CellVertices | Assets/MarchingSquares.cs:62-71 | a cell contributes one vertex per index of its table entry, a whole number of triangles, every vertex inside the cell [i/n,(i+1)/n] × [j/n,(j+1)/n], n = fieldSize |
| Contour.AirCellEmpty | Assets/MarchingSquares.cs:57-60 | a cell with code 0 appends nothing |
| Contour.SolidCellCovered | Assets/MarchingSquares.cs:190 | a cell with code 15 appends exactly six vertices, the scaled corners of two triangles |
| Contour.GridVertexCount | Assets/MarchingSquares.cs:51-78 | the vertices appended over the cells, i outer and j inner, number the sum of the selected table list lengths |
| Contour.MeshWholeTriangles | Assets/MarchingSquares.cs:51-78 | a complete build's vertex count is that sum over all cells and a multiple of 3 |
| Contour.MeshInUnitSquare | Assets/MarchingSquares.cs:68-69 | every vertex of a complete build lies in [0,1] × [0,1] |
| Marching.ResizeCheckAlwaysFires | Assets/MarchingSquares.cs:143 | the resize test as written fires on a cache that already has the right shape, while the intended test does not |
| Marching.ResizeChecksDiffer | Assets/MarchingSquares.cs:143 | the written and the intended resize test disagree exactly on caches whose first dimension is fieldSize+1 and whose second is fieldSize or fieldSize+1 |
| Marching.MarchingSquares.ResetSDFCache | Assets/MarchingSquares.cs:141-153 | afterwards the cache is (fieldSize+1)×(fieldSize+1), every slot is unset, and a cache of the right shape is reused while any other is replaced by a new one |
| Marching.MarchingSquares.SDF | Assets/MarchingSquares.cs:127-139 | returns the density sample of (x, y) and leaves it stored; a stored value is returned unchanged; no other slot changes |
| Marching.MarchingSquares.GetSquareIndex | Assets/MarchingSquares.cs:155-171 | returns the cell's code computed from its four samples |
| Marching.MarchingSquares.BottomEdge | Assets/MarchingSquares.cs:97-98 | returns slot 1's value: the interpolated point on the edge from p0 to p1 |
| Marching.MarchingSquares.RightEdge | Assets/MarchingSquares.cs:103-104 | returns slot 3's value: the interpolated point on the edge from p1 to p3 |
| Marching.MarchingSquares.TopEdge | Assets/MarchingSquares.cs:109-110 | returns slot 5's value: the interpolated point on the edge from p2 to p3 |
| Marching.MarchingSquares.LeftEdge | Assets/MarchingSquares.cs:115-116 | returns slot 7's value: the interpolated point on the edge from p0 to p2 |
| Marching.MarchingSquares.SlotPosition | Assets/MarchingSquares.cs:92-116 | the value written into slot s is the slot position of the cell's corners |
| Marching.MarchingSquares.FillVertices | Assets/MarchingSquares.cs:90-124 | exactly the slots whose mask bit is set are written with their slot position; the others keep what earlier cells left; the cache stays valid |
| Marching.MarchingSquares.GatherVertices | Assets/MarchingSquares.cs:64-71 | the gathered list has one entry per table index: the slot it names, divided by fieldSize |
| Marching.MarchingSquares.AppendCell | Assets/MarchingSquares.cs:54-77 | the vertex buffer grows by exactly the cell's vertices, and the triangle list stays 0 .. count-1 |
| Marching.MarchingSquares.AppendRow | Assets/MarchingSquares.cs:52-78 | the inner loop appends the vertices of cells (i,0) .. (i,fieldSize-1) in order |
| Marching.MarchingSquares.AppendGrid | Assets/MarchingSquares.cs:51-78 | the outer loop over rows 0 .. fieldSize-1, started from empty buffers, leaves the vertex buffer equal to the complete build, with the triangle list 0 .. count-1 and the cache still valid |
| Marching.MarchingSquares.BuildBuffers | Assets/MarchingSquares.cs:45-78 | after clearing and the nested loop, the vertex buffer is the complete build and the triangle list has the same length with entry k equal to k |
| Marching.MarchingSquares.MakeMesh | Assets/MarchingSquares.cs:25-88 | the cache is reset first; with a mesh filter the buffers hold the complete build, without one they are left as they were |
| Marching.RebuildIsDeterministic | Assets/MarchingSquares.cs:25-78 | two builds with the same density and configuration give identical buffers |
| Marching.MarchingSquares.constructor | Assets/MeshGeneratorManager.cs:44-46 | a chunk starts with the prefab's settings, the given offset and position, the density samples of its lattice under that offset, empty buffers and no cache |
| Streaming.Block | Assets/MeshGeneratorManager.cs:26-29 | the block holds nine pairwise distinct cells, and a cell is in it exactly when it is c+(i,j) for some i, j in {−1,0,1} |
| Streaming.BlockSize | Assets/MeshGeneratorManager.cs:26-29 | the nine cells of a block are distinct |
| Streaming.TickKeys | Assets/MeshGeneratorManager.cs:24-35 | the key set after a tick contains the old one, adds only cells of the new focal cell's block, and equals the old one when the focal cell is unchanged |
| Streaming.TickCoversBlock | Assets/MeshGeneratorManager.cs:22-38 | a tick at the unchanged focal cell changes nothing; a tick at a new cell leaves all nine block cells present |
| Streaming.TickAddsAtMostNine | Assets/MeshGeneratorManager.cs:26-35 | one tick adds at most nine chunks |
| Streaming.TickFromEmpty | Assets/MeshGeneratorManager.cs:26-35 | a tick at a new focal cell on an empty map adds exactly the nine block cells |
| Streaming.FirstTickPopulates | Assets/MeshGeneratorManager.cs:12 | starting from the sentinel, the first tick at any other cell populates its whole block with nine chunks |
| Streaming.MeshGeneratorManager.constructor | Assets/MeshGeneratorManager.cs:11-12 | the manager starts with no chunks and the sentinel focal cell |
| Streaming.MeshGeneratorManager.CreateNew | Assets/MeshGeneratorManager.cs:42-51 | a new chunk for cell c has the prefab's settings, position (c.x, c.y), offset c·scale, and a complete build |
| Streaming.MeshGeneratorManager.Add | Assets/MeshGeneratorManager.cs:34 | the dictionary insertion requires an absent key and adds exactly that entry |
| Streaming.MeshGeneratorManager.EnsureChunk | Assets/MeshGeneratorManager.cs:29-35 | a block cell gets a fresh, built chunk exactly when it had none; existing chunks are kept |
| Streaming.MeshGeneratorManager.EnsureColumn | Assets/MeshGeneratorManager.cs:27-36 | the inner loop adds the three cells (i,−1), (i,0), (i,1) of the block and keeps existing chunks |
| Streaming.MeshGeneratorManager.Update | Assets/MeshGeneratorManager.cs:20-40 | the new key set is `TickKeys` of the old one; the focal cell becomes the tick's cell; existing chunks are neither removed nor replaced; every added chunk is fresh and built for its cell |

## Left out

- Unity plumbing is not modelled: `MeshFilter`/`Mesh` handling, `SetVertices`/`SetTriangles`, `Profiler`, `OnValidate`, `Start`, `Instantiate`, `GetComponent` and the shared-mesh reset in `CreateNew`. A missing mesh filter is the boolean `hasMeshFilter`.
- The density field (`Mathf.PerlinNoise`) is a parameter: any deterministic function with values in [0,1].
- Marching.MarchingSquares.SDF: a chunk reads the density at its lattice points from the table `Contour.LatticeSamples`, fixed when the chunk is set up, rather than by calling the external field on a cache miss. The table entries are exactly the field's values there (the contract of `Contour.LatticeSamples`). The cache protocol itself is modelled: unset slots, filling on a miss, returning a stored value unchanged.
- Floats are reals. NaN as the unset cache marker becomes `Option`. For an edge whose two samples are equal, the source's `f` divides by zero: the resulting ±∞ is clamped to 1 or 0, which the model reproduces, and NaN (both samples equal to `step`) becomes an undefined (`None`) slot. Only the mask fills such a slot; no triangle list reads it (`Contour.EmittedSlotsDefined`).
- Vectors keep x and y only; z is always 0 in the source.
- Contour.Sample: the coordinate is written as x repeated additions of scale/fieldSize. `Contour.SampleCoordinates` proves it equal to the source's x·scale/fieldSize over the reals; float rounding is not modelled.
- Marching.MarchingSquares.SDF: the model does not count how often the density field is evaluated. It states that a stored sample is returned unchanged, not that the field is read at most once per point between resets.
- Marching.MarchingSquares.ResetSDFCache: it uses the intended resize test. The written test is kept and compared under "## Findings".
- Marching.MarchingSquares.BottomEdge, RightEdge, TopEdge and LeftEdge are the four edge branches of `FillVertices`, one method each. `SlotPosition` dispatches to them inside the slot loop.
- A chunk's configuration (`fieldSize`, `step`, `scale`, `Offset`) is fixed when the chunk is created. In the source these are inspector fields that can change between builds. The streamer sets `Offset` and the position right after instantiation and before the build, which the constructor arguments reproduce.
- `fieldSize <= 0` is excluded (`fieldSize >= 1` is required). In the source, fieldSize 0 or -1 allocates a 1×1 or 0×0 cache, the reset and build loops run zero times and the mesh is empty; fieldSize -2 or less throws on the negative array dimension. The model does not cover these degenerate chunks.
- Streaming.MeshGeneratorManager.Update: the focal cell is an input. Flooring the target's float position (`Vector2Int.FloorToInt`) is not modelled.
- Streaming.MeshGeneratorManager.Update: `int` overflow of the sentinel or of a cell plus a neighbour offset is not modelled, because cells are unbounded integers. A tick at the sentinel cell itself does nothing, as in the source.
- Streaming.MeshGeneratorManager.CreateNew: the prefab is assumed to carry a mesh filter, because the source dereferences it unconditionally when it clears the shared mesh.
- `CameraMovement` and the `Perlin` editor hook are not part of this model: they are input handling and a debug wrapper.

## Findings

| source | as written | input that shows it | evidently intended | confidence | as-written member | corrected member |
|---|---|---|---|---|---|---|
| Assets/MarchingSquares.cs:143 | the resize test compares the cache's second dimension with `fieldSize` | a cache already of shape (fieldSize+1)×(fieldSize+1): the test fires and a new cache is allocated on every reset | compare both dimensions with `fieldSize + 1`, so that a cache of the right shape is reused | high (not executed) | Marching.ResizeCheckAlwaysFires | Marching.MarchingSquares.ResetSDFCache |
