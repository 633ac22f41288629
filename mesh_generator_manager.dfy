/** The chunk streamer: a map from integer grid cells to chunk builders,
    populated around a moving focal cell. Chunks are only ever added; each
    is set up from one prefab and built once, when it is created. */
module Streaming {
  import opened Contour
  import opened Marching

  /** An integer grid cell, the key of the chunk map. */
  type Cell = (int, int)

  /** The focal cell before the first tick: (int.MaxValue, int.MaxValue). */
  const Sentinel: Cell := (0x7FFF_FFFF, 0x7FFF_FFFF)

  /** The settings every chunk copies from the prefab it is instantiated
      from. */
  datatype Prefab = Prefab(noise: Density, fieldSize: int, step: real, scale: real)

  /** The cell at offset (i, j) from c. */
  function Neighbour(c: Cell, i: int, j: int): Cell
  {
    (c.0 + i, c.1 + j)
  }

  /** The elements of a sequence, as a set. */
  function Elems<T(==)>(s: seq<T>): set<T>
  {
    set x | x in s
  }

  /** Whether no element of s occurs twice. */
  predicate Distinct<T(==)>(s: seq<T>)
  {
    forall a, b :: 0 <= a < b < |s| ==> s[a] != s[b]
  }

  /** A sequence without repetitions has exactly as many distinct elements
      as positions. */
  lemma {:induction false} DistinctElemsCount<T>(s: seq<T>)
    requires Distinct(s)
    ensures |Elems(s)| == |s|
  {
    if s != [] {
      var init := s[..|s| - 1];
      DistinctElemsCount(init);
      assert Elems(s) == Elems(init) + {s[|s| - 1]};
      assert s[|s| - 1] !in Elems(init) by {
        forall a | 0 <= a < |init|
          ensures init[a] != s[|s| - 1]
        {
          assert init[a] == s[a];
        }
      }
    }
  }

  /** The 3x3 block around c, in the order a tick visits it: the x offset
      i outer and the y offset j inner, each from -1 to 1. It holds nine
      distinct cells, which are exactly the cells at offsets (i, j) with
      i, j in {-1, 0, 1}. */
  function Block(c: Cell): (r: seq<Cell>)
    ensures |r| == 9 && Distinct(r)
    ensures forall i, j :: -1 <= i <= 1 && -1 <= j <= 1 ==> Neighbour(c, i, j) in r
    ensures forall x :: x in r ==>
      exists i, j :: -1 <= i <= 1 && -1 <= j <= 1 && x == Neighbour(c, i, j)
  {
    var r := seq(9, k requires 0 <= k < 9 => Neighbour(c, k / 3 - 1, k % 3 - 1));
    BlockOffsets(c, r);
    r
  }

  /** A sequence whose element k is at offset (k / 3 - 1, k % 3 - 1) from c
      holds each of the nine offsets once and nothing else. */
  lemma BlockOffsets(c: Cell, r: seq<Cell>)
    requires |r| == 9
    requires forall k :: 0 <= k < 9 ==> r[k] == Neighbour(c, k / 3 - 1, k % 3 - 1)
    ensures Distinct(r)
    ensures forall i, j :: -1 <= i <= 1 && -1 <= j <= 1 ==> Neighbour(c, i, j) in r
    ensures forall x :: x in r ==>
      exists i, j :: -1 <= i <= 1 && -1 <= j <= 1 && x == Neighbour(c, i, j)
  {
    forall a, e | 0 <= a < e < 9
      ensures r[a] != r[e]
    {
      assert r[a] == Neighbour(c, a / 3 - 1, a % 3 - 1);
      assert r[e] == Neighbour(c, e / 3 - 1, e % 3 - 1);
    }
    forall i, j | -1 <= i <= 1 && -1 <= j <= 1
      ensures Neighbour(c, i, j) in r
    {
      var k := 3 * (i + 1) + (j + 1);
      assert k / 3 == i + 1 && k % 3 == j + 1;
      assert r[k] == Neighbour(c, i, j);
    }
    forall x | x in r
      ensures exists i, j :: -1 <= i <= 1 && -1 <= j <= 1 && x == Neighbour(c, i, j)
    {
      var k :| 0 <= k < 9 && r[k] == x;
      assert x == Neighbour(c, k / 3 - 1, k % 3 - 1);
    }
  }

  /** A block covers nine cells. */
  lemma BlockSize(c: Cell)
    ensures |Elems(Block(c))| == 9
  {
    DistinctElemsCount(Block(c));
  }

  /** The cells (i, -1) .. (i, j-1) of the block around c, relative to c. */
  function Column(c: Cell, i: int, j: int): set<Cell>
  {
    set b | -1 <= b < j :: Neighbour(c, i, b)
  }

  /** The cells at x offsets -1 .. i-1 and y offsets -1 .. 1 from c: the
      columns of the block a tick has visited before column i. */
  function Columns(c: Cell, i: int): set<Cell>
  {
    set a, b | -1 <= a < i && -1 <= b <= 1 :: Neighbour(c, a, b)
  }

  /** Visiting column i adds its three cells. */
  lemma ColumnsStep(c: Cell, i: int)
    requires -1 <= i
    ensures Columns(c, i + 1) == Columns(c, i) + Column(c, i, 2)
  {
    forall x | x in Columns(c, i + 1)
      ensures x in Columns(c, i) + Column(c, i, 2)
    {
      var a, b :| -1 <= a < i + 1 && -1 <= b <= 1 && x == Neighbour(c, a, b);
      if a < i {
        assert x in Columns(c, i);
      } else {
        assert x in Column(c, i, 2);
      }
    }
    forall x | x in Column(c, i, 2)
      ensures x in Columns(c, i + 1)
    {
      var b :| -1 <= b < 2 && x == Neighbour(c, i, b);
      assert x == Neighbour(c, i, b);
    }
  }

  /** All three columns together are the block. */
  lemma BlockIsColumns(c: Cell)
    ensures Elems(Block(c)) == Columns(c, 2)
  {
  }

  /** The key set of the chunk map after a tick with focal cell `cell`,
      from key set `keys` and previous focal cell `current`. A tick never
      removes a key, adds only cells of the new focal cell's block, and adds
      nothing when the focal cell is unchanged. */
  function TickKeys(keys: set<Cell>, current: Cell, cell: Cell): (r: set<Cell>)
    ensures keys <= r
    ensures r - keys <= Elems(Block(cell))
    ensures cell == current ==> r == keys
  {
    if cell == current then keys else keys + Elems(Block(cell))
  }

  /** A tick at the unchanged focal cell changes nothing; a tick at a new
      one leaves all nine cells around it present. */
  lemma TickCoversBlock(keys: set<Cell>, current: Cell, cell: Cell)
    ensures cell == current ==> TickKeys(keys, current, cell) == keys
    ensures cell != current ==>
      forall i, j :: -1 <= i <= 1 && -1 <= j <= 1 ==>
        Neighbour(cell, i, j) in TickKeys(keys, current, cell)
  {
  }

  /** One tick adds at most nine chunks. */
  lemma TickAddsAtMostNine(keys: set<Cell>, current: Cell, cell: Cell)
    ensures |TickKeys(keys, current, cell) - keys| <= 9
  {
    var added := TickKeys(keys, current, cell) - keys;
    BlockSize(cell);
    SubsetCount(added, Elems(Block(cell)));
  }

  /** A tick at a new focal cell on an empty map adds exactly nine chunks. */
  lemma TickFromEmpty(current: Cell, cell: Cell)
    requires cell != current
    ensures TickKeys({}, current, cell) == Elems(Block(cell))
    ensures |TickKeys({}, current, cell)| == 9
  {
    BlockSize(cell);
  }

  /** The first tick at any cell other than the sentinel populates the
      block around it. */
  lemma FirstTickPopulates(cell: Cell)
    requires cell != Sentinel
    ensures |TickKeys({}, Sentinel, cell)| == 9
    ensures forall i, j :: -1 <= i <= 1 && -1 <= j <= 1 ==>
      Neighbour(cell, i, j) in TickKeys({}, Sentinel, cell)
  {
    TickFromEmpty(Sentinel, cell);
    TickCoversBlock({}, Sentinel, cell);
  }

  /** A subset has at most as many elements as its superset. */
  lemma {:induction false} SubsetCount<T>(a: set<T>, b: set<T>)
    requires a <= b
    ensures |a| <= |b|
  {
    if a != {} {
      var x :| x in a;
      SubsetCount(a - {x}, b - {x});
    }
  }

  class MeshGeneratorManager {
    const prefab: Prefab
    var generators: map<Cell, MarchingSquares>
    var currentCell: Cell

    /** A manager with no chunks, whose focal cell is the sentinel. */
    constructor(prefab: Prefab)
      ensures this.prefab == prefab
      ensures generators == map[] && currentCell == Sentinel
    {
      this.prefab := prefab;
      generators := map[];
      currentCell := Sentinel;
    }

    /** Chunk g was set up for cell c: the prefab's settings, world position
        (c.x, c.y), density offset c * scale, and a complete build. */
    ghost predicate ChunkFor(g: MarchingSquares, c: Cell)
      reads g
    {
      g.fieldSize >= 1 && g.fieldSize == prefab.fieldSize && g.step == prefab.step && g.scale == prefab.scale &&
      g.position == Vec2(c.0 as real, c.1 as real) &&
      g.offset == Vec2(c.0 as real * prefab.scale, c.1 as real * prefab.scale) &&
      g.samples == LatticeSamples(prefab.noise, g.Cfg()) &&
      g.MeshBuilt()
    }

    /** Instantiates a chunk from the prefab for cell c, places it and
        builds its mesh. The prefab carries a mesh filter, which the source
        dereferences to drop the shared mesh before the build. */
    method CreateNew(c: Cell) returns (g: MarchingSquares)
      requires prefab.fieldSize >= 1
      ensures fresh(g)
      ensures ChunkFor(g, c)
    {
      g := new MarchingSquares(prefab.noise, prefab.fieldSize, prefab.step, prefab.scale,
                               Vec2(c.0 as real * prefab.scale, c.1 as real * prefab.scale),
                               Vec2(c.0 as real, c.1 as real), true);
      g.MakeMesh();
    }

    /** Dictionary insertion, which refuses a key that is already present. */
    method Add(c: Cell, g: MarchingSquares)
      requires c !in generators
      modifies this`generators
      ensures generators == old(generators)[c := g]
    {
      generators := generators[c := g];
    }

    /** The body of the tick's nested loop for one cell of the block:
        create and add its chunk unless the map already holds one. */
    method EnsureChunk(c: Cell)
      requires prefab.fieldSize >= 1
      modifies this`generators
      ensures generators.Keys == old(generators).Keys + {c}
      ensures forall k :: k in old(generators) ==> generators[k] == old(generators)[k]
      ensures c !in old(generators) ==> fresh(generators[c]) && ChunkFor(generators[c], c)
    {
      if c !in generators {
        var g := CreateNew(c);
        Add(c, g);
      }
    }

    /** The tick's inner loop for offset i: the cells (i, -1), (i, 0), (i, 1)
        of the block around `cell`. */
    method EnsureColumn(cell: Cell, i: int)
      requires prefab.fieldSize >= 1 && -1 <= i <= 1
      modifies this`generators
      ensures generators.Keys == old(generators).Keys + Column(cell, i, 2)
      ensures forall c :: c in old(generators) ==> generators[c] == old(generators)[c]
      ensures forall c :: c in generators && c !in old(generators) ==>
                fresh(generators[c]) && ChunkFor(generators[c], c)
    {
      for j := -1 to 2
        invariant generators.Keys == old(generators).Keys + Column(cell, i, j)
        invariant forall c :: c in old(generators) ==> generators[c] == old(generators)[c]
        invariant forall c :: c in generators && c !in old(generators) ==>
                    fresh(generators[c]) && ChunkFor(generators[c], c)
      {
        assert Column(cell, i, j + 1) == Column(cell, i, j) + {Neighbour(cell, i, j)};
        EnsureChunk(Neighbour(cell, i, j));
      }
    }

    /** One frame: when the focal cell has changed, create the chunks missing
        from the block around it, in block order, then record the new focal
        cell. Existing chunks are neither replaced nor touched. */
    method Update(cell: Cell)
      requires prefab.fieldSize >= 1
      modifies this`generators, this`currentCell
      ensures generators.Keys == TickKeys(old(generators).Keys, old(currentCell), cell)
      ensures currentCell == cell
      ensures forall c :: c in old(generators) ==> c in generators && generators[c] == old(generators)[c]
      ensures forall c :: c in generators && c !in old(generators) ==>
                fresh(generators[c]) && ChunkFor(generators[c], c)
    {
      if cell == currentCell {
        return;
      }
      for i := -1 to 2
        invariant generators.Keys == old(generators).Keys + Columns(cell, i)
        invariant forall c :: c in old(generators) ==> generators[c] == old(generators)[c]
        invariant forall c :: c in generators && c !in old(generators) ==>
                    fresh(generators[c]) && ChunkFor(generators[c], c)
      {
        ColumnsStep(cell, i);
        EnsureColumn(cell, i);
      }
      BlockIsColumns(cell);
      currentCell := cell;
    }
  }
}
