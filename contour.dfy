/** Pure part of the marching-squares contouring of one chunk: the density
    samples, the per-cell configuration code, the edge interpolation, the
    constant 16-entry triangle table and the vertex buffer that a full build
    of a chunk produces. The stateful builder (module Marching) is proved
    against the functions defined here. */
module Contour {

  datatype Option<T> = None | Some(value: T)

  /** A vertex position. Every vector the builder writes has z == 0, so only
      x and y are kept. */
  datatype Vec2 = Vec2(x: real, y: real)

  /** The external density field: deterministic, with values in [0,1]. */
  type Density = f: (real, real) -> real | forall u: real, v: real :: 0.0 <= f(u, v) <= 1.0
    witness (u: real, v: real) => 0.0

  /** The configuration a chunk is built with: grid resolution, solid/air
      threshold, world-to-sample scale and the chunk's sample-space offset. */
  datatype Config = Config(fieldSize: int, step: real, scale: real, offset: Vec2)

  /** k * s, written as repeated addition: the sample coordinates then stay
      linear in the verification conditions. TimesIsProduct relates it to
      the product. */
  function Times(k: nat, s: real): real
  {
    if k == 0 then 0.0 else Times(k - 1, s) + s
  }

  lemma {:induction false} TimesIsProduct(k: nat, s: real)
    ensures Times(k, s) == k as real * s
  {
    if k > 0 {
      TimesIsProduct(k - 1, s);
    }
  }

  /** The density sample at lattice point (x, y) of a chunk: the field is
      read at (x * scale / fieldSize + offset.x, y * scale / fieldSize + offset.y),
      here written as x steps of scale / fieldSize (equal over the reals). */
  function Sample(noise: Density, cfg: Config, x: nat, y: nat): (r: real)
    requires cfg.fieldSize >= 1
    ensures 0.0 <= r <= 1.0
  {
    var n := cfg.fieldSize as real;
    noise(Times(x, cfg.scale / n) + cfg.offset.x, Times(y, cfg.scale / n) + cfg.offset.y)
  }

  /** The sample is the field read at the source's sample coordinates. */
  lemma SampleCoordinates(noise: Density, cfg: Config, x: nat, y: nat)
    requires cfg.fieldSize >= 1
    ensures var n := cfg.fieldSize as real;
      Sample(noise, cfg, x, y) ==
        noise(x as real * cfg.scale / n + cfg.offset.x, y as real * cfg.scale / n + cfg.offset.y)
  {
    var n := cfg.fieldSize as real;
    StepsAreProduct(x, cfg.scale, n);
    StepsAreProduct(y, cfg.scale, n);
  }

  /** k steps of scale / n reach k * scale / n. */
  lemma StepsAreProduct(k: nat, scale: real, n: real)
    requires n > 0.0
    ensures Times(k, scale / n) == k as real * scale / n
  {
    TimesIsProduct(k, scale / n);
  }

  /** The density samples of one chunk, point (x, y) of its lattice at
      [x][y]. The builder reads the external field only at these points. */
  type Field = seq<seq<real>>

  /** The sample of lattice point (x, y); 0 outside the field, where the
      builder never reads. */
  function At(field: Field, x: nat, y: nat): real
  {
    if x < |field| && y < |field[x]| then field[x][y] else 0.0
  }

  /** The samples a chunk with configuration cfg reads from the density
      field, one per lattice point: (fieldSize+1)^2 of them, entry (x, y)
      being the field at (x * scale / fieldSize + offset.x,
      y * scale / fieldSize + offset.y), so every entry lies in [0,1]. */
  function LatticeSamples(noise: Density, cfg: Config): (f: Field)
    requires cfg.fieldSize >= 1
    ensures |f| == cfg.fieldSize + 1
    ensures forall x :: 0 <= x < |f| ==> |f[x]| == cfg.fieldSize + 1
    ensures forall x: nat, y: nat :: x <= cfg.fieldSize && y <= cfg.fieldSize ==>
      var n := cfg.fieldSize as real;
      At(f, x, y) == noise(x as real * cfg.scale / n + cfg.offset.x, y as real * cfg.scale / n + cfg.offset.y)
    ensures forall x: nat, y: nat :: 0.0 <= At(f, x, y) <= 1.0
  {
    LatticeCoordinates(noise, cfg);
    seq(cfg.fieldSize + 1, x requires 0 <= x <= cfg.fieldSize =>
      seq(cfg.fieldSize + 1, y requires 0 <= y <= cfg.fieldSize => Sample(noise, cfg, x, y)))
  }

  /** SampleCoordinates at every lattice point. */
  lemma LatticeCoordinates(noise: Density, cfg: Config)
    requires cfg.fieldSize >= 1
    ensures forall x: nat, y: nat :: x <= cfg.fieldSize && y <= cfg.fieldSize ==>
      var n := cfg.fieldSize as real;
      Sample(noise, cfg, x, y) ==
        noise(x as real * cfg.scale / n + cfg.offset.x, y as real * cfg.scale / n + cfg.offset.y)
  {
    forall x: nat, y: nat | x <= cfg.fieldSize && y <= cfg.fieldSize {
      SampleCoordinates(noise, cfg, x, y);
    }
  }

  /** The four corner samples of a cell: p0 = (i,j), p1 = (i+1,j),
      p2 = (i,j+1), p3 = (i+1,j+1). */
  datatype Corners = Corners(p0: real, p1: real, p2: real, p3: real)

  function CellCorners(field: Field, cfg: Config, i: nat, j: nat): Corners
    requires cfg.fieldSize >= 1
  {
    Corners(At(field, i, j), At(field, i + 1, j), At(field, i, j + 1), At(field, i + 1, j + 1))
  }

  /** Corner sample pk. */
  function Corner(c: Corners, k: int): real
    requires 0 <= k < 4
  {
    match k
    case 0 => c.p0
    case 1 => c.p1
    case 2 => c.p2
    case 3 => c.p3
  }

  /** Bit k of a non-negative number: the source's `(n & (1 << k)) == (1 << k)`. */
  predicate Bit(n: int, k: int)
    requires 0 <= k < 8
  {
    match k
    case 0 => n % 2 == 1
    case 1 => (n / 2) % 2 == 1
    case 2 => (n / 4) % 2 == 1
    case 3 => (n / 8) % 2 == 1
    case 4 => (n / 16) % 2 == 1
    case 5 => (n / 32) % 2 == 1
    case 6 => (n / 64) % 2 == 1
    case 7 => (n / 128) % 2 == 1
  }

  /** The configuration code of a cell. Bit k is set exactly when corner
      pk lies strictly above the threshold. The source composes
      `r3 << 3 | r2 << 2 | r1 << 1 | r0`; the bits are disjoint, so the sum
      below is the same number. */
  function SquareIndex(c: Corners, step: real): (r: int)
    ensures 0 <= r < 16
  {
    var r0 := if c.p0 > step then 1 else 0;
    var r1 := if c.p1 > step then 1 else 0;
    var r2 := if c.p2 > step then 1 else 0;
    var r3 := if c.p3 > step then 1 else 0;
    r3 * 8 + r2 * 4 + r1 * 2 + r0
  }

  /** Bit k of the code is set exactly when corner sample pk is above the
      threshold. */
  lemma SquareIndexBits(c: Corners, step: real)
    ensures var r := SquareIndex(c, step);
      (Bit(r, 0) <==> c.p0 > step) && (Bit(r, 1) <==> c.p1 > step) &&
      (Bit(r, 2) <==> c.p2 > step) && (Bit(r, 3) <==> c.p3 > step)
  {
  }

  function CellCode(field: Field, cfg: Config, i: nat, j: nat): int
    requires cfg.fieldSize >= 1
  {
    SquareIndex(CellCorners(field, cfg, i, j), cfg.step)
  }

  function Clamp01(v: real): (r: real)
    ensures 0.0 <= r <= 1.0
    ensures 0.0 <= v <= 1.0 ==> r == v
    ensures v < 0.0 ==> r == 0.0
    ensures v > 1.0 ==> r == 1.0
  {
    if v < 0.0 then 0.0 else if v > 1.0 then 1.0 else v
  }

  /** The builder's local `f`: the fraction of the way from a to b at which
      the threshold s is crossed, clamped to [0,1]. With a == b the source's
      division gives +infinity when s > a and -infinity when s < a, which the
      clamp turns into 1 and 0; with s == a == b it gives NaN, written None. */
  function EdgeFraction(a: real, b: real, s: real): (r: Option<real>)
    ensures r.None? <==> a == b == s
    ensures r.Some? ==> 0.0 <= r.value <= 1.0
  {
    if a != b then Some(Clamp01((s - a) / (b - a)))
    else if s > a then Some(1.0)
    else if s < a then Some(0.0)
    else None
  }

  /** When the threshold lies between the two samples, the fraction is the
      exact crossing point of the linear interpolation: the clamp does not
      change it. */
  lemma EdgeFractionCrossing(a: real, b: real, s: real)
    requires a != b && (a <= s <= b || b <= s <= a)
    ensures a + EdgeFraction(a, b, s).value * (b - a) == s
  {
    FractionBetween(a, b, s);
  }

  /** When s lies between a and b, (s - a) / (b - a) is already in [0,1]
      and places s exactly on the segment from a to b. */
  lemma FractionBetween(a: real, b: real, s: real)
    requires a != b
    ensures (a <= s <= b || b <= s <= a) ==>
      0.0 <= (s - a) / (b - a) <= 1.0 && a + (s - a) / (b - a) * (b - a) == s
  {
    var d := b - a;
    var t := (s - a) / d;
    var u := t - 1.0;
    assert t * d == s - a;
    assert u * d == s - b;
    ProductSign(t, d);
    ProductSign(u, d);
  }

  lemma ProductSign(x: real, y: real)
    ensures x * y > 0.0 <==> (x > 0.0 && y > 0.0) || (x < 0.0 && y < 0.0)
    ensures x * y < 0.0 <==> (x > 0.0 && y < 0.0) || (x < 0.0 && y > 0.0)
  {
  }

  /** The two unit directions an edge runs in: `Vector3.right` and `Vector3.up`. */
  datatype Axis = Right | Up

  /** `base + dir * t` for a unit direction, undefined when t is. */
  function EdgePoint(base: Vec2, dir: Axis, t: Option<real>): Option<Vec2>
  {
    if t.None? then None
    else if dir == Right then Some(Vec2(base.x + t.value, base.y))
    else Some(Vec2(base.x, base.y + t.value))
  }

  /** The two corners joined by edge slot s: 1 bottom (p0,p1), 3 right
      (p1,p3), 5 top (p2,p3), 7 left (p0,p2). */
  function EdgeEnds(s: int): (int, int)
    requires s in {1, 3, 5, 7}
  {
    match s
    case 1 => (0, 1)
    case 3 => (1, 3)
    case 5 => (2, 3)
    case 7 => (0, 2)
  }

  /** Cell (i, j) occupies the unit square [i,i+1] x [j,j+1] of the lattice. */
  predicate InBox(v: Vec2, i: int, j: int)
  {
    i as real <= v.x <= i as real + 1.0 && j as real <= v.y <= j as real + 1.0
  }

  /** The position FillVertices writes into slot s of cell (i, j). */
  function SlotValue(c: Corners, i: int, j: int, step: real, s: int): (r: Option<Vec2>)
    requires 0 <= s < 8
    ensures s % 2 == 0 ==> r.Some?
    ensures s % 2 == 1 ==> (r.None? <==> Corner(c, EdgeEnds(s).0) == step == Corner(c, EdgeEnds(s).1))
    ensures r.Some? ==> InBox(r.value, i, j)
  {
    var origin := Vec2(i as real, j as real);
    match s
    case 0 => Some(origin)
    case 1 => EdgePoint(origin, Right, EdgeFraction(c.p0, c.p1, step))
    case 2 => Some(Vec2(origin.x + 1.0, origin.y))
    case 3 => EdgePoint(Vec2(origin.x + 1.0, origin.y), Up, EdgeFraction(c.p1, c.p3, step))
    case 4 => Some(Vec2(origin.x + 1.0, origin.y + 1.0))
    case 5 => EdgePoint(Vec2(origin.x, origin.y + 1.0), Right, EdgeFraction(c.p2, c.p3, step))
    case 6 => Some(Vec2(origin.x, origin.y + 1.0))
    case 7 => EdgePoint(origin, Up, EdgeFraction(c.p0, c.p2, step))
  }

  /** The constant table `squares` is kept as two parallel tables indexed by
      configuration code: the triangle list of each entry, over the 8 vertex
      slots, and the mask of slots FillVertices fills for it. These are the
      triangle lists, one slot index per vertex. */
  const TrisTable: seq<seq<int>> :=
    [[], [7, 1, 0], [1, 3, 2], [0, 7, 3, 0, 3, 2], [6, 5, 7], [0, 6, 5, 0, 5, 1],
     [7, 6, 5, 1, 3, 2], [0, 6, 5, 0, 5, 3, 0, 3, 2], [5, 4, 3], [0, 7, 1, 5, 4, 3],
     [1, 5, 4, 1, 4, 2], [2, 0, 7, 2, 7, 5, 2, 5, 4], [7, 6, 4, 7, 4, 3],
     [6, 4, 3, 6, 3, 1, 6, 1, 0], [4, 2, 1, 4, 1, 7, 4, 7, 6], [0, 6, 4, 0, 4, 2]]

  function Tris(code: int): (t: seq<int>)
    requires 0 <= code < 16
    ensures |t| % 3 == 0
    ensures forall k :: 0 <= k < |t| ==> 0 <= t[k] < 8
  {
    TrisTable[code]
  }

  /** The fill masks of the table `squares`: bit s set means slot s is
      filled. Every slot the triangle list of the entry reads is filled. */
  function Mask(code: int): (m: bv32)
    requires 0 <= code < 16
    ensures forall k :: 0 <= k < |Tris(code)| ==> MaskHas(m, Tris(code)[k])
  {
    match code
    case 0 => 0
    case 1 => 131
    case 2 => 14
    case 3 => 143
    case 4 => 224
    case 5 => 227
    case 6 => 238
    case 7 => 239
    case 8 => 56
    case 9 => 187
    case 10 => 62
    case 11 => 191
    case 12 => 248
    case 13 => 251
    case 14 => 254
    case 15 => 255
  }

  /** Whether a cell with configuration code `code` needs slot s: a corner
      slot when its corner is solid, an edge slot when its two corners
      classify differently. */
  predicate Referenced(code: int, s: int)
    requires 0 <= s < 8
  {
    match s
    case 0 => Bit(code, 0)
    case 1 => Bit(code, 0) != Bit(code, 1)
    case 2 => Bit(code, 1)
    case 3 => Bit(code, 1) != Bit(code, 3)
    case 4 => Bit(code, 3)
    case 5 => Bit(code, 2) != Bit(code, 3)
    case 6 => Bit(code, 2)
    case 7 => Bit(code, 0) != Bit(code, 2)
  }

  /** Whether mask m selects slot k: the source's `(m & (1 << k)) == (1 << k)`. */
  predicate MaskHas(m: bv32, k: nat)
    requires k < 8
  {
    m & (1 << k) == 1 << k
  }

  /** Table entry `code` lists whole triangles over the slots 0..7, every
      slot it lists is filled under its mask and needed by the code, and
      every slot the code needs is listed. */
  predicate EntryOk(code: int)
    requires 0 <= code < 16
  {
    var t := Tris(code);
    |t| % 3 == 0
    && (forall k :: 0 <= k < |t| ==> 0 <= t[k] < 8 && Referenced(code, t[k]) && MaskHas(Mask(code), t[k]))
    && (forall s :: 0 <= s < 8 && Referenced(code, s) ==> s in t)
  }

  lemma Entry0Ok() ensures EntryOk(0) {}
  lemma Entry1Ok() ensures EntryOk(1) {}
  lemma Entry2Ok() ensures EntryOk(2) {}
  lemma Entry3Ok() ensures EntryOk(3) {}
  lemma Entry4Ok() ensures EntryOk(4) {}
  lemma Entry5Ok() ensures EntryOk(5) {}
  lemma Entry6Ok() ensures EntryOk(6) {}
  lemma Entry7Ok() ensures EntryOk(7) {}
  lemma Entry8Ok() ensures EntryOk(8) {}
  lemma Entry9Ok() ensures EntryOk(9) {}
  lemma Entry10Ok() ensures EntryOk(10) {}
  lemma Entry11Ok() ensures EntryOk(11) {}
  lemma Entry12Ok() ensures EntryOk(12) {}
  lemma Entry13Ok() ensures EntryOk(13) {}
  lemma Entry14Ok() ensures EntryOk(14) {}
  lemma Entry15Ok() ensures EntryOk(15) {}

  lemma TableConsistent(code: int)
    requires 0 <= code < 16
    ensures EntryOk(code)
  {
    match code
    case 0 => Entry0Ok();
    case 1 => Entry1Ok();
    case 2 => Entry2Ok();
    case 3 => Entry3Ok();
    case 4 => Entry4Ok();
    case 5 => Entry5Ok();
    case 6 => Entry6Ok();
    case 7 => Entry7Ok();
    case 8 => Entry8Ok();
    case 9 => Entry9Ok();
    case 10 => Entry10Ok();
    case 11 => Entry11Ok();
    case 12 => Entry12Ok();
    case 13 => Entry13Ok();
    case 14 => Entry14Ok();
    case 15 => Entry15Ok();
  }

  /** Reference definition of the slots a cell needs, read off its corner
      samples: a corner slot when that corner is above the threshold, an
      edge slot when its two end corners lie on different sides of it. */
  predicate SlotNeeded(c: Corners, step: real, s: int)
    requires 0 <= s < 8
  {
    match s
    case 0 => c.p0 > step
    case 1 => (c.p0 > step) != (c.p1 > step)
    case 2 => c.p1 > step
    case 3 => (c.p1 > step) != (c.p3 > step)
    case 4 => c.p3 > step
    case 5 => (c.p2 > step) != (c.p3 > step)
    case 6 => c.p2 > step
    case 7 => (c.p0 > step) != (c.p2 > step)
  }

  /** The table entry selected by a cell's code lists exactly the slots the
      cell needs: corner slots 0, 2, 6, 4 follow bits 0, 1, 2, 3, and each
      edge slot follows the disagreement of its end corners. */
  lemma SlotUsage(c: Corners, step: real, s: int)
    requires 0 <= s < 8
    ensures s in Tris(SquareIndex(c, step)) <==> SlotNeeded(c, step, s)
  {
    TableConsistent(SquareIndex(c, step));
  }

  /** Every slot the selected entry lists is in range, is filled under the
      entry's mask, and holds a defined position: an edge slot is only
      listed when its end samples differ, so its interpolation never
      divides by zero. */
  lemma EmittedSlotsDefined(c: Corners, i: int, j: int, step: real)
    ensures var code := SquareIndex(c, step);
      forall k :: 0 <= k < |Tris(code)| ==>
        0 <= Tris(code)[k] < 8 && MaskHas(Mask(code), Tris(code)[k]) &&
        SlotValue(c, i, j, step, Tris(code)[k]).Some?
  {
    var code := SquareIndex(c, step);
    TableConsistent(code);
    forall k | 0 <= k < |Tris(code)|
      ensures SlotValue(c, i, j, step, Tris(code)[k]).Some?
    {
      SlotUsage(c, step, Tris(code)[k]);
    }
  }

  /** The position of a defined edge slot along its edge, measured from the
      edge's first corner (0 at that corner, 1 at the other). */
  function EdgeParam(v: Vec2, i: int, j: int, s: int): real
    requires s in {1, 3, 5, 7}
  {
    if s == 1 || s == 5 then v.x - i as real else v.y - j as real
  }

  /** The fixed coordinate of edge slot s: bottom and top edges have a fixed
      y, right and left edges a fixed x. */
  predicate OnEdge(v: Vec2, i: int, j: int, s: int)
    requires s in {1, 3, 5, 7}
  {
    match s
    case 1 => v.y == j as real
    case 3 => v.x == i as real + 1.0
    case 5 => v.y == j as real + 1.0
    case 7 => v.x == i as real
  }

  /** A needed edge slot lies on its edge exactly where the linear
      interpolation of the two end samples reaches the threshold: the clamp
      in the source's `f` never moves an emitted vertex. */
  lemma EdgeVertexOnContour(c: Corners, i: int, j: int, step: real, s: int)
    requires s in {1, 3, 5, 7} && SlotNeeded(c, step, s)
    ensures SlotValue(c, i, j, step, s).Some?
    ensures var v := SlotValue(c, i, j, step, s).value;
      var a := Corner(c, EdgeEnds(s).0);
      var b := Corner(c, EdgeEnds(s).1);
      OnEdge(v, i, j, s) && 0.0 <= EdgeParam(v, i, j, s) <= 1.0 &&
      a + EdgeParam(v, i, j, s) * (b - a) == step
  {
    var a := Corner(c, EdgeEnds(s).0);
    var b := Corner(c, EdgeEnds(s).1);
    assert a <= step <= b || b <= step <= a;
    EdgeFractionCrossing(a, b, step);
    var t := EdgeFraction(a, b, step);
    assert EdgeParam(SlotValue(c, i, j, step, s).value, i, j, s) == t.value;
  }

  /** A slot position mapped into the chunk's unit square: the source
      divides x and y by fieldSize. */
  function Scaled(v: Vec2, n: int): Vec2
    requires n >= 1
  {
    Vec2(v.x / n as real, v.y / n as real)
  }

  /** Cell (i, j) of an n x n chunk covers [i/n, (i+1)/n] x [j/n, (j+1)/n]. */
  predicate InCell(v: Vec2, i: int, j: int, n: int)
    requires n >= 1
  {
    i as real / n as real <= v.x <= (i as real + 1.0) / n as real &&
    j as real / n as real <= v.y <= (j as real + 1.0) / n as real
  }

  lemma DivMonotone(a: real, b: real, d: real)
    requires a <= b && d > 0.0
    ensures a / d <= b / d
  {
    assert b / d - a / d == (b - a) / d;
  }

  lemma ScaledInCell(v: Vec2, i: int, j: int, n: int)
    requires n >= 1 && InBox(v, i, j)
    ensures InCell(Scaled(v, n), i, j, n)
  {
    var d := n as real;
    DivMonotone(i as real, v.x, d);
    DivMonotone(v.x, i as real + 1.0, d);
    DivMonotone(j as real, v.y, d);
    DivMonotone(v.y, j as real + 1.0, d);
  }

  /** The vertices MakeMesh appends for cell (i, j): one per entry of the
      selected triangle list, read from the filled slot and scaled. They form
      whole triangles and lie inside the cell. */
  function CellVertices(field: Field, cfg: Config, i: nat, j: nat): (vs: seq<Vec2>)
    requires cfg.fieldSize >= 1
    ensures |vs| == |Tris(CellCode(field, cfg, i, j))|
    ensures |vs| % 3 == 0
    ensures forall v :: v in vs ==> InCell(v, i, j, cfg.fieldSize)
  {
    var c := CellCorners(field, cfg, i, j);
    var tris := Tris(SquareIndex(c, cfg.step));
    EmittedSlotsInCell(c, i, j, cfg.step, cfg.fieldSize);
    seq(|tris|, k requires 0 <= k < |tris| =>
      Scaled(SlotValue(c, i, j, cfg.step, tris[k]).value, cfg.fieldSize))
  }

  /** Every slot the selected entry lists is defined and, scaled, lies in
      the cell. */
  lemma EmittedSlotsInCell(c: Corners, i: int, j: int, step: real, n: int)
    requires n >= 1
    ensures var tris := Tris(SquareIndex(c, step));
      forall k :: 0 <= k < |tris| ==>
        SlotValue(c, i, j, step, tris[k]).Some? &&
        InCell(Scaled(SlotValue(c, i, j, step, tris[k]).value, n), i, j, n)
  {
    var tris := Tris(SquareIndex(c, step));
    EmittedSlotsDefined(c, i, j, step);
    forall k | 0 <= k < |tris|
      ensures InCell(Scaled(SlotValue(c, i, j, step, tris[k]).value, n), i, j, n)
    {
      ScaledInCell(SlotValue(c, i, j, step, tris[k]).value, i, j, n);
    }
  }

  /** The lattice point (x, y) of the chunk, scaled into its unit square. */
  function Lattice(x: int, y: int, n: int): Vec2
    requires n >= 1
  {
    Scaled(Vec2(x as real, y as real), n)
  }

  /** A cell whose four samples are at or below the threshold is empty. */
  lemma AirCellEmpty(field: Field, cfg: Config, i: nat, j: nat)
    requires cfg.fieldSize >= 1
    requires var c := CellCorners(field, cfg, i, j);
      c.p0 <= cfg.step && c.p1 <= cfg.step && c.p2 <= cfg.step && c.p3 <= cfg.step
    ensures CellVertices(field, cfg, i, j) == []
  {
  }

  /** A cell whose four samples are above the threshold is covered by two
      triangles on its four corners. */
  lemma SolidCellCovered(field: Field, cfg: Config, i: nat, j: nat)
    requires cfg.fieldSize >= 1
    requires var c := CellCorners(field, cfg, i, j);
      c.p0 > cfg.step && c.p1 > cfg.step && c.p2 > cfg.step && c.p3 > cfg.step
    ensures var n := cfg.fieldSize;
      CellVertices(field, cfg, i, j) ==
        [Lattice(i, j, n), Lattice(i, j + 1, n), Lattice(i + 1, j + 1, n),
         Lattice(i, j, n), Lattice(i + 1, j + 1, n), Lattice(i + 1, j, n)]
  {
  }

  /** The vertices of cells (i, 0) .. (i, j-1), in the order the inner loop
      visits them. */
  function RowVertices(field: Field, cfg: Config, i: nat, j: nat): seq<Vec2>
    requires cfg.fieldSize >= 1
  {
    if j == 0 then [] else RowVertices(field, cfg, i, j - 1) + CellVertices(field, cfg, i, j - 1)
  }

  /** Appending the vertices of cell (i, j) to a buffer ending in the first
      j cells of row i gives the buffer ending in the first j + 1 cells. */
  lemma RowExtend(field: Field, cfg: Config, i: nat, j: nat, prefix: seq<Vec2>)
    requires cfg.fieldSize >= 1
    ensures prefix + RowVertices(field, cfg, i, j) + CellVertices(field, cfg, i, j) ==
            prefix + RowVertices(field, cfg, i, j + 1)
  {
  }

  /** The vertices of rows 0 .. i-1, in the order the outer loop visits them. */
  function GridVertices(field: Field, cfg: Config, i: nat): seq<Vec2>
    requires cfg.fieldSize >= 1
  {
    if i == 0 then [] else GridVertices(field, cfg, i - 1) + RowVertices(field, cfg, i - 1, cfg.fieldSize)
  }

  /** Appending row i to the buffer of rows 0 .. i-1 gives the buffer of
      rows 0 .. i. */
  lemma GridExtend(field: Field, cfg: Config, i: nat)
    requires cfg.fieldSize >= 1
    ensures GridVertices(field, cfg, i) + RowVertices(field, cfg, i, cfg.fieldSize) ==
            GridVertices(field, cfg, i + 1)
  {
  }

  /** The vertex buffer of a complete build. */
  function MeshVertices(field: Field, cfg: Config): seq<Vec2>
    requires cfg.fieldSize >= 1
  {
    GridVertices(field, cfg, cfg.fieldSize)
  }

  /** Sum of the table list lengths of cells (i, 0) .. (i, j-1). */
  function RowTableSum(field: Field, cfg: Config, i: nat, j: nat): int
    requires cfg.fieldSize >= 1
  {
    if j == 0 then 0 else RowTableSum(field, cfg, i, j - 1) + |Tris(CellCode(field, cfg, i, j - 1))|
  }

  /** Sum of the table list lengths over rows 0 .. i-1. */
  function GridTableSum(field: Field, cfg: Config, i: nat): int
    requires cfg.fieldSize >= 1
  {
    if i == 0 then 0 else GridTableSum(field, cfg, i - 1) + RowTableSum(field, cfg, i - 1, cfg.fieldSize)
  }

  lemma {:induction false} RowVertexCount(field: Field, cfg: Config, i: nat, j: nat)
    requires cfg.fieldSize >= 1
    ensures |RowVertices(field, cfg, i, j)| == RowTableSum(field, cfg, i, j)
  {
    if j > 0 {
      RowVertexCount(field, cfg, i, j - 1);
    }
  }

  lemma SumOfMultiplesOf3(a: int, b: int)
    requires a % 3 == 0 && b % 3 == 0
    ensures (a + b) % 3 == 0
  {
  }

  lemma {:induction false} RowWholeTriangles(field: Field, cfg: Config, i: nat, j: nat)
    requires cfg.fieldSize >= 1
    ensures RowTableSum(field, cfg, i, j) % 3 == 0
  {
    if j > 0 {
      RowWholeTriangles(field, cfg, i, j - 1);
      SumOfMultiplesOf3(RowTableSum(field, cfg, i, j - 1), |Tris(CellCode(field, cfg, i, j - 1))|);
    }
  }

  /** A build appends, over the cells in visiting order, exactly as many
      vertices as the selected table lists have entries. */
  lemma {:induction false} GridVertexCount(field: Field, cfg: Config, i: nat)
    requires cfg.fieldSize >= 1
    ensures |GridVertices(field, cfg, i)| == GridTableSum(field, cfg, i)
  {
    if i > 0 {
      GridVertexCount(field, cfg, i - 1);
      RowVertexCount(field, cfg, i - 1, cfg.fieldSize);
    }
  }

  /** The sum over the grid is a whole number of triangles. */
  lemma {:induction false} GridWholeTriangles(field: Field, cfg: Config, i: nat)
    requires cfg.fieldSize >= 1
    ensures GridTableSum(field, cfg, i) % 3 == 0
  {
    if i > 0 {
      GridWholeTriangles(field, cfg, i - 1);
      RowWholeTriangles(field, cfg, i - 1, cfg.fieldSize);
      SumOfMultiplesOf3(GridTableSum(field, cfg, i - 1), RowTableSum(field, cfg, i - 1, cfg.fieldSize));
    }
  }

  /** A complete build holds whole triangles: the buffer length is the sum
      of the selected list lengths, and a multiple of 3. */
  lemma MeshWholeTriangles(field: Field, cfg: Config)
    requires cfg.fieldSize >= 1
    ensures |MeshVertices(field, cfg)| == GridTableSum(field, cfg, cfg.fieldSize)
    ensures |MeshVertices(field, cfg)| % 3 == 0
  {
    GridVertexCount(field, cfg, cfg.fieldSize);
    GridWholeTriangles(field, cfg, cfg.fieldSize);
  }

  predicate InUnitSquare(v: Vec2)
  {
    0.0 <= v.x <= 1.0 && 0.0 <= v.y <= 1.0
  }

  lemma CellInUnitSquare(v: Vec2, i: int, j: int, n: int)
    requires n >= 1 && 0 <= i < n && 0 <= j < n && InCell(v, i, j, n)
    ensures InUnitSquare(v)
  {
    var d := n as real;
    DivMonotone(0.0, i as real, d);
    DivMonotone(i as real + 1.0, d, d);
    DivMonotone(0.0, j as real, d);
    DivMonotone(j as real + 1.0, d, d);
  }

  lemma {:induction false} RowInUnitSquare(field: Field, cfg: Config, i: nat, j: nat)
    requires cfg.fieldSize >= 1 && 0 <= i < cfg.fieldSize && 0 <= j <= cfg.fieldSize
    ensures forall v :: v in RowVertices(field, cfg, i, j) ==> InUnitSquare(v)
  {
    if j > 0 {
      RowInUnitSquare(field, cfg, i, j - 1);
      forall v | v in CellVertices(field, cfg, i, j - 1)
        ensures InUnitSquare(v)
      {
        CellInUnitSquare(v, i, j - 1, cfg.fieldSize);
      }
    }
  }

  lemma {:induction false} GridInUnitSquare(field: Field, cfg: Config, i: nat)
    requires cfg.fieldSize >= 1 && 0 <= i <= cfg.fieldSize
    ensures forall v :: v in GridVertices(field, cfg, i) ==> InUnitSquare(v)
  {
    if i > 0 {
      GridInUnitSquare(field, cfg, i - 1);
      RowInUnitSquare(field, cfg, i - 1, cfg.fieldSize);
    }
  }

  /** A chunk's mesh lies in its unit square [0,1] x [0,1]. */
  lemma MeshInUnitSquare(field: Field, cfg: Config)
    requires cfg.fieldSize >= 1
    ensures forall v :: v in MeshVertices(field, cfg) ==> InUnitSquare(v)
  {
    GridInUnitSquare(field, cfg, cfg.fieldSize);
  }

}
