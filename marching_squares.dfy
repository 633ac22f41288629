/** The mesh builder of one chunk: a lazily filled cache of density samples,
    the cell classifier, the slot filler working on a reused 8-element
    array, and the build loop that appends vertices and triangle indices.
    Every method is proved against the pure definitions of module Contour. */
module Marching {
  import opened Contour

  /** The resize test of the cache as the source writes it: it compares the
      second dimension against `fieldSize` instead of `fieldSize + 1`. */
  predicate ReallocAsWritten(len0: int, len1: int, fieldSize: int)
  {
    len0 != fieldSize + 1 || len1 != fieldSize
  }

  /** The intended resize test: reallocate only when a dimension is not
      `fieldSize + 1`. */
  predicate NeedsRealloc(len0: int, len1: int, fieldSize: int)
  {
    len0 != fieldSize + 1 || len1 != fieldSize + 1
  }

  /** The test as written fires on a cache that already has the right shape,
      so every reset allocates a new cache. */
  lemma ResizeCheckAlwaysFires(fieldSize: int)
    ensures ReallocAsWritten(fieldSize + 1, fieldSize + 1, fieldSize)
    ensures !NeedsRealloc(fieldSize + 1, fieldSize + 1, fieldSize)
  {
  }

  /** The two tests agree on every shape except the right one and the one
      whose second dimension is `fieldSize`. */
  lemma ResizeChecksDiffer(len0: int, len1: int, fieldSize: int)
    ensures ReallocAsWritten(len0, len1, fieldSize) != NeedsRealloc(len0, len1, fieldSize) <==>
      len0 == fieldSize + 1 && (len1 == fieldSize || len1 == fieldSize + 1)
  {
  }

  /** The triangle buffer of a build: the k-th index is k, one per vertex. */
  predicate IndexedInOrder(tris: seq<int>, count: int)
  {
    |tris| == count && forall k :: 0 <= k < |tris| ==> tris[k] == k
  }

  class MarchingSquares {
    const fieldSize: int
    const step: real
    const scale: real
    const offset: Vec2
    /** The chunk's world position (its transform); z is always 0. */
    var position: Vec2
    /** The density field at the chunk's lattice points. The source reads
        the external field lazily, through the cache; the model fixes the
        values it would read when the chunk is set up. */
    const samples: Field
    /** Whether the chunk's object carries a mesh filter. */
    var hasMeshFilter: bool
    var allTriangles: seq<int>
    var allVertices: seq<Vec2>
    /** The sample cache; None plays the role of the source's NaN marker. */
    var sdfCache: array2?<Option<real>>

    /** A chunk as the streamer sets it up: its configuration, its offset in
        the density field and its world position, before any build. It
        records the samples of the density at its lattice points. */
    constructor(noise: Density, fieldSize: int, step: real, scale: real, offset: Vec2,
                position: Vec2, hasMeshFilter: bool)
      requires fieldSize >= 1
      ensures this.fieldSize == fieldSize && this.step == step
      ensures this.scale == scale && this.offset == offset && this.position == position
      ensures samples == LatticeSamples(noise, Cfg())
      ensures this.hasMeshFilter == hasMeshFilter
      ensures allTriangles == [] && allVertices == [] && sdfCache == null
    {
      this.fieldSize := fieldSize;
      this.step := step;
      this.scale := scale;
      this.offset := offset;
      this.position := position;
      this.hasMeshFilter := hasMeshFilter;
      samples := LatticeSamples(noise, Config(fieldSize, step, scale, offset));
      allTriangles := [];
      allVertices := [];
      sdfCache := null;
    }

    function Cfg(): Config
    {
      Config(fieldSize, step, scale, offset)
    }

    /** Lattice point (x, y) of the chunk is in the cache's range. */
    predicate InGrid(x: int, y: int)
    {
      0 <= x <= fieldSize && 0 <= y <= fieldSize
    }

    /** The cache has (fieldSize+1)^2 slots, and a filled slot holds the
        density sample of its lattice point. */
    ghost predicate CacheValid()
      reads this`sdfCache, sdfCache
    {
      sdfCache != null && fieldSize >= 1 &&
      sdfCache.Length0 == fieldSize + 1 && sdfCache.Length1 == fieldSize + 1 &&
      (forall x, y {:trigger sdfCache[x, y]} :: 0 <= x <= fieldSize && 0 <= y <= fieldSize ==>
        sdfCache[x, y].Some? ==> sdfCache[x, y].value == At(samples, x, y))
    }

    /** The vertex and triangle buffers hold a complete build. */
    predicate MeshBuilt()
      reads this
    {
      fieldSize >= 1 &&
      allVertices == MeshVertices(samples, Cfg()) && IndexedInOrder(allTriangles, |allVertices|)
    }

    /** Gives the cache (fieldSize+1)^2 slots, all unset. An existing cache
        of the right shape is reused. */
    method ResetSDFCache()
      requires fieldSize >= 1
      modifies this`sdfCache, sdfCache
      ensures CacheValid()
      ensures forall x, y :: 0 <= x <= fieldSize && 0 <= y <= fieldSize ==> sdfCache[x, y].None?
      ensures old(sdfCache) != null &&
              !NeedsRealloc(old(sdfCache).Length0, old(sdfCache).Length1, fieldSize)
              ==> sdfCache == old(sdfCache)
      ensures old(sdfCache) == null ||
              NeedsRealloc(old(sdfCache).Length0, old(sdfCache).Length1, fieldSize)
              ==> fresh(sdfCache)
    {
      if sdfCache == null || NeedsRealloc(sdfCache.Length0, sdfCache.Length1, fieldSize) {
        sdfCache := new Option<real>[fieldSize + 1, fieldSize + 1]((_, _) => Some(0.0));
      }
      var cache := sdfCache;
      for i := 0 to fieldSize + 1
        invariant sdfCache == cache
        invariant forall x, y :: 0 <= x < i && 0 <= y <= fieldSize ==> cache[x, y].None?
      {
        for j := 0 to fieldSize + 1
          invariant sdfCache == cache
          invariant forall x, y :: 0 <= x < i && 0 <= y <= fieldSize ==> cache[x, y].None?
          invariant forall y :: 0 <= y < j ==> cache[i, y].None?
        {
          cache[i, j] := None;
        }
      }
    }

    /** The density at lattice point (x, y), evaluated on first use and read
        from the cache afterwards. */
    method SDF(x: int, y: int) returns (r: real)
      requires CacheValid() && InGrid(x, y)
      modifies sdfCache
      ensures CacheValid()
      ensures r == At(samples, x, y)
      ensures sdfCache[x, y] == Some(r)
      ensures old(sdfCache[x, y]).Some? ==>
        r == old(sdfCache[x, y]).value
      ensures forall u, v :: InGrid(u, v) && (u, v) != (x, y) ==> sdfCache[u, v] == old(sdfCache[u, v])
    {
      if sdfCache[x, y].Some? {
        return sdfCache[x, y].value;
      }
      r := At(samples, x, y);
      sdfCache[x, y] := Some(r);
    }

    /** The configuration code of cell (i, j). */
    method GetSquareIndex(i: int, j: int) returns (r: int)
      requires CacheValid() && 0 <= i < fieldSize && 0 <= j < fieldSize
      modifies sdfCache
      ensures CacheValid()
      ensures r == CellCode(samples, Cfg(), i, j)
    {
      var p0 := SDF(i, j);
      var p1 := SDF(i + 1, j);
      var p2 := SDF(i, j + 1);
      var p3 := SDF(i + 1, j + 1);
      r := SquareIndex(Corners(p0, p1, p2, p3), step);
    }

    /** Slot 1, on the bottom edge from p0 to p1. */
    method BottomEdge(i: int, j: int) returns (v: Option<Vec2>)
      requires CacheValid() && 0 <= i < fieldSize && 0 <= j < fieldSize
      modifies sdfCache
      ensures CacheValid()
      ensures v == SlotValue(CellCorners(samples, Cfg(), i, j), i, j, step, 1)
    {
      var a := SDF(i, j);
      var b := SDF(i + 1, j);
      v := EdgePoint(Vec2(i as real, j as real), Right, EdgeFraction(a, b, step));
    }

    /** Slot 3, on the right edge from p1 to p3. */
    method RightEdge(i: int, j: int) returns (v: Option<Vec2>)
      requires CacheValid() && 0 <= i < fieldSize && 0 <= j < fieldSize
      modifies sdfCache
      ensures CacheValid()
      ensures v == SlotValue(CellCorners(samples, Cfg(), i, j), i, j, step, 3)
    {
      var a := SDF(i + 1, j);
      var b := SDF(i + 1, j + 1);
      v := EdgePoint(Vec2(i as real + 1.0, j as real), Up, EdgeFraction(a, b, step));
    }

    /** Slot 5, on the top edge from p2 to p3. */
    method TopEdge(i: int, j: int) returns (v: Option<Vec2>)
      requires CacheValid() && 0 <= i < fieldSize && 0 <= j < fieldSize
      modifies sdfCache
      ensures CacheValid()
      ensures v == SlotValue(CellCorners(samples, Cfg(), i, j), i, j, step, 5)
    {
      var a := SDF(i, j + 1);
      var b := SDF(i + 1, j + 1);
      v := EdgePoint(Vec2(i as real, j as real + 1.0), Right, EdgeFraction(a, b, step));
    }

    /** Slot 7, on the left edge from p0 to p2. */
    method LeftEdge(i: int, j: int) returns (v: Option<Vec2>)
      requires CacheValid() && 0 <= i < fieldSize && 0 <= j < fieldSize
      modifies sdfCache
      ensures CacheValid()
      ensures v == SlotValue(CellCorners(samples, Cfg(), i, j), i, j, step, 7)
    {
      var a := SDF(i, j);
      var b := SDF(i, j + 1);
      v := EdgePoint(Vec2(i as real, j as real), Up, EdgeFraction(a, b, step));
    }

    /** The position FillVertices writes into slot s of cell (i, j): a
        lattice corner for an even slot, an interpolated edge point for an
        odd one. */
    method SlotPosition(i: int, j: int, s: int) returns (v: Option<Vec2>)
      requires CacheValid() && 0 <= i < fieldSize && 0 <= j < fieldSize && 0 <= s < 8
      modifies sdfCache
      ensures CacheValid()
      ensures v == SlotValue(CellCorners(samples, Cfg(), i, j), i, j, step, s)
    {
      var offset := Vec2(i as real, j as real);
      match s
      case 0 => v := Some(offset);
      case 1 => v := BottomEdge(i, j);
      case 2 => v := Some(Vec2(offset.x + 1.0, offset.y));
      case 3 => v := RightEdge(i, j);
      case 4 => v := Some(Vec2(offset.x + 1.0, offset.y + 1.0));
      case 5 => v := TopEdge(i, j);
      case 6 => v := Some(Vec2(offset.x, offset.y + 1.0));
      case 7 => v := LeftEdge(i, j);
    }

    /** Writes the slots of cell (i, j) selected by the mask into the reused
        array, in slot order; the other slots keep what earlier cells left
        there. */
    method FillVertices(i: int, j: int, vertCache: array<Option<Vec2>>, vertMask: bv32)
      requires CacheValid() && 0 <= i < fieldSize && 0 <= j < fieldSize
      requires vertCache.Length == 8
      modifies vertCache, sdfCache
      ensures CacheValid()
      ensures forall s :: 0 <= s < 8 ==>
                vertCache[s] == if MaskHas(vertMask, s)
                                then SlotValue(CellCorners(samples, Cfg(), i, j), i, j, step, s)
                                else old(vertCache[s])
    {
      for s := 0 to 8
        invariant CacheValid()
        invariant forall t :: 0 <= t < s ==>
                    vertCache[t] == if MaskHas(vertMask, t)
                                    then SlotValue(CellCorners(samples, Cfg(), i, j), i, j, step, t)
                                    else old(vertCache[t])
        invariant forall t :: s <= t < 8 ==> vertCache[t] == old(vertCache[t])
      {
        if MaskHas(vertMask, s) {
          var v := SlotPosition(i, j, s);
          vertCache[s] := v;
        }
      }
    }

    /** The source's trsCache loop: one copy of the slot named by each
        index of the triangle list, scaled down by fieldSize. */
    method GatherVertices(localTris: seq<int>, vertCache: array<Option<Vec2>>)
        returns (trsCache: seq<Vec2>)
      requires fieldSize >= 1
      requires forall k :: 0 <= k < |localTris| ==>
                 0 <= localTris[k] < vertCache.Length && vertCache[localTris[k]].Some?
      ensures |trsCache| == |localTris|
      ensures forall k :: 0 <= k < |localTris| ==>
                trsCache[k] == Scaled(vertCache[localTris[k]].value, fieldSize)
    {
      trsCache := [];
      for k := 0 to |localTris|
        invariant |trsCache| == k
        invariant forall m :: 0 <= m < k ==>
                    trsCache[m] == Scaled(vertCache[localTris[m]].value, fieldSize)
      {
        var p := vertCache[localTris[k]];
        trsCache := trsCache + [Scaled(p.value, fieldSize)];
      }
    }

    /** The body of the build loop for cell (i, j): classify the cell, fill
        the slots its table entry asks for, and append one scaled vertex and
        one running index per entry of its triangle list. */
    method AppendCell(i: int, j: int, vertCache: array<Option<Vec2>>)
      requires CacheValid() && 0 <= i < fieldSize && 0 <= j < fieldSize
      requires vertCache.Length == 8
      requires IndexedInOrder(allTriangles, |allVertices|)
      modifies vertCache, sdfCache, this`allVertices, this`allTriangles
      ensures CacheValid()
      ensures allVertices == old(allVertices) + CellVertices(samples, Cfg(), i, j)
      ensures IndexedInOrder(allTriangles, |allVertices|)
    {
      var ind := GetSquareIndex(i, j);
      var localTris := Tris(ind);
      var vertMask := Mask(ind);
      if |localTris| == 0 {
        return;
      }
      FillVertices(i, j, vertCache, vertMask);
      EmittedSlotsDefined(CellCorners(samples, Cfg(), i, j), i, j, step);
      var trsCache := GatherVertices(localTris, vertCache);
      assert trsCache == CellVertices(samples, Cfg(), i, j);
      allVertices := allVertices + trsCache;
      for k := 0 to |trsCache|
        invariant CacheValid()
        invariant allVertices == old(allVertices) + trsCache
        invariant IndexedInOrder(allTriangles, |allVertices| - |trsCache| + k)
      {
        allTriangles := allTriangles + [|allTriangles|];
      }
    }

    /** One pass of the build's inner loop: cells (i, 0) .. (i, fieldSize-1)
        in order. */
    method AppendRow(i: int, vertCache: array<Option<Vec2>>)
      requires CacheValid() && 0 <= i < fieldSize
      requires vertCache.Length == 8
      requires IndexedInOrder(allTriangles, |allVertices|)
      modifies vertCache, sdfCache, this`allVertices, this`allTriangles
      ensures CacheValid()
      ensures allVertices == old(allVertices) + RowVertices(samples, Cfg(), i, fieldSize)
      ensures IndexedInOrder(allTriangles, |allVertices|)
    {
      for j := 0 to fieldSize
        invariant CacheValid()
        invariant allVertices == old(allVertices) + RowVertices(samples, Cfg(), i, j)
        invariant IndexedInOrder(allTriangles, |allVertices|)
      {
        AppendCell(i, j, vertCache);
        RowExtend(samples, Cfg(), i, j, old(allVertices));
      }
    }

    /** The part of the build after the reset: clear both buffers and run
        the nested loop over the cells with a fresh 8-slot array. */
    method BuildBuffers()
      requires CacheValid()
      modifies sdfCache, this`allVertices, this`allTriangles
      ensures CacheValid()
      ensures MeshBuilt()
    {
      allTriangles := [];
      allVertices := [];
      var vertCache := new Option<Vec2>[8];
      AppendGrid(vertCache);
    }

    /** The outer loop of the build: rows 0 .. fieldSize-1 in order, each
        appended to the buffers cleared just before. */
    method AppendGrid(vertCache: array<Option<Vec2>>)
      requires CacheValid() && vertCache.Length == 8
      requires allVertices == [] && allTriangles == []
      modifies vertCache, sdfCache, this`allVertices, this`allTriangles
      ensures CacheValid()
      ensures MeshBuilt()
    {
      for i := 0 to fieldSize
        invariant CacheValid()
        invariant allVertices == GridVertices(samples, Cfg(), i)
        invariant IndexedInOrder(allTriangles, |allVertices|)
      {
        AppendRow(i, vertCache);
        GridExtend(samples, Cfg(), i);
      }
    }

    /** Rebuilds the chunk's vertex and triangle buffers from scratch. Without
        a mesh filter the build stops right after the cache reset. */
    method MakeMesh()
      requires fieldSize >= 1
      modifies this`sdfCache, sdfCache, this`allVertices, this`allTriangles
      ensures CacheValid()
      ensures sdfCache == old(sdfCache) || fresh(sdfCache)
      ensures hasMeshFilter ==> MeshBuilt()
      ensures !hasMeshFilter ==> allVertices == old(allVertices) && allTriangles == old(allTriangles)
    {
      ResetSDFCache();
      if !hasMeshFilter {
        return;
      }
      BuildBuffers();
    }
  }

  /** Building twice with the same density and configuration yields the same
      buffers: the reset discards everything a previous build cached. */
  method RebuildIsDeterministic(g: MarchingSquares)
      returns (firstVerts: seq<Vec2>, firstTris: seq<int>)
    requires g.fieldSize >= 1 && g.hasMeshFilter
    modifies g, g.sdfCache
    ensures firstVerts == g.allVertices && firstTris == g.allTriangles
    ensures g.MeshBuilt()
  {
    g.MakeMesh();
    firstVerts, firstTris := g.allVertices, g.allTriangles;
    g.MakeMesh();
  }
}
