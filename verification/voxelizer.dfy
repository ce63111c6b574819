/**
 The voxel lattice of FloatingObject.CutIntoVoxels: the body's bounding box is
 cut into n x n x n cells, n being 1 / normalizedVoxelSize rounded to nearest,
 the cell centres are visited in (i, j, k) lexicographic order, and those that
 pass the collider's inside test are kept, mapped into the body's local space.
 */
module Voxelizer {
  import opened Geometry
  import opened UnityMath

  /** Extent of one voxel on each axis: the box size times normalizedVoxelSize. */
  function VoxelSize(b: Bounds, s: real): Vec3 {
    Vec3(b.Size().x * s, b.Size().y * s, b.Size().z * s)
  }

  /** voxelsCountForEachAxis: 1 / s rounded to nearest. */
  function AxisCount(s: real): (n: nat)
    requires s > 0.0
    ensures n as real - 0.5 <= 1.0 / s <= n as real + 0.5
  {
    RoundToInt(1.0 / s)
  }

  /** The centre of cell (i, j, k): min + voxelSize * (0.5 + index) on each axis. */
  function Centre(b: Bounds, vs: Vec3, i: int, j: int, k: int): Vec3 {
    Vec3(b.Min().x + vs.x * (0.5 + i as real),
         b.Min().y + vs.y * (0.5 + j as real),
         b.Min().z + vs.z * (0.5 + k as real))
  }

  /** The centres (i, j, 0) .. (i, j, k - 1), in that order. */
  function ZRow(b: Bounds, vs: Vec3, i: nat, j: nat, k: nat): (r: seq<Vec3>)
    ensures |r| == k
  {
    if k == 0 then [] else ZRow(b, vs, i, j, k - 1) + [Centre(b, vs, i, j, k - 1)]
  }

  /** The centres (i, 0, *) .. (i, j - 1, *), each row holding n centres. */
  function YSlab(b: Bounds, vs: Vec3, n: nat, i: nat, j: nat): seq<Vec3> {
    if j == 0 then [] else YSlab(b, vs, n, i, j - 1) + ZRow(b, vs, i, j - 1, n)
  }

  /** The centres (0, *, *) .. (i - 1, *, *), each slab holding n rows. */
  function Layers(b: Bounds, vs: Vec3, n: nat, i: nat): seq<Vec3> {
    if i == 0 then [] else Layers(b, vs, n, i - 1) + YSlab(b, vs, n, i - 1, n)
  }

  lemma {:induction false} YSlabLength(b: Bounds, vs: Vec3, n: nat, i: nat, j: nat)
    ensures |YSlab(b, vs, n, i, j)| == j * n
  {
    if j > 0 {
      YSlabLength(b, vs, n, i, j - 1);
      NextBlock(j - 1, n);
    }
  }

  lemma {:induction false} LayersLength(b: Bounds, vs: Vec3, n: nat, i: nat)
    ensures |Layers(b, vs, n, i)| == i * (n * n)
  {
    if i > 0 {
      LayersLength(b, vs, n, i - 1);
      YSlabLength(b, vs, n, i - 1, n);
      NextBlock(i - 1, n * n);
    }
  }

  /** m + 1 blocks of length len are m blocks followed by one more. */
  lemma NextBlock(m: nat, len: nat)
    ensures m * len + len == (m + 1) * len
  {
  }

  /** Every candidate centre of an n-per-axis lattice, in lexicographic order. */
  function Candidates(b: Bounds, vs: Vec3, n: nat): seq<Vec3> {
    Layers(b, vs, n, n)
  }

  /**
   The candidates that pass the inside test, each mapped to local space, in the
   order of the candidates.
   */
  function Select(cs: seq<Vec3>, inside: Vec3 -> bool, toLocal: Vec3 -> Vec3): (r: seq<Vec3>)
    ensures |r| <= |cs|
  {
    if cs == [] then []
    else
      var last := cs[|cs| - 1];
      Select(cs[..|cs| - 1], inside, toLocal) + (if inside(last) then [toLocal(last)] else [])
  }

  /** The voxels CutIntoVoxels produces for the box b and normalised voxel size s. */
  function Voxelize(b: Bounds, s: real, inside: Vec3 -> bool, toLocal: Vec3 -> Vec3): seq<Vec3>
    requires s > 0.0
  {
    Select(Candidates(b, VoxelSize(b, s), AxisCount(s)), inside, toLocal)
  }

  /**
   The triple loop of CutIntoVoxels: visits every cell in (i, j, k) order and
   appends the local position of each centre that passes the inside test. The
   loop over j is CollectSlab and the loop over k is CollectRow.
   */
  method CollectVoxels(b: Bounds, vs: Vec3, n: nat, inside: Vec3 -> bool, toLocal: Vec3 -> Vec3)
    returns (voxels: seq<Vec3>)
    ensures voxels == Select(Candidates(b, vs, n), inside, toLocal)
  {
    voxels := [];
    var i := 0;
    while i < n
      invariant 0 <= i <= n
      invariant voxels == Select(Layers(b, vs, n, i), inside, toLocal)
    {
      var slab := CollectSlab(b, vs, n, i, inside, toLocal);
      assert Layers(b, vs, n, i + 1) == Layers(b, vs, n, i) + YSlab(b, vs, n, i, n);
      SelectAppend(Layers(b, vs, n, i), YSlab(b, vs, n, i, n), inside, toLocal);
      voxels := voxels + slab;
      i := i + 1;
    }
  }

  /** The middle loop of CutIntoVoxels: the rows (i, 0, *) .. (i, n - 1, *). */
  method CollectSlab(b: Bounds, vs: Vec3, n: nat, i: nat, inside: Vec3 -> bool, toLocal: Vec3 -> Vec3)
    returns (slab: seq<Vec3>)
    ensures slab == Select(YSlab(b, vs, n, i, n), inside, toLocal)
  {
    slab := [];
    var j := 0;
    while j < n
      invariant 0 <= j <= n
      invariant slab == Select(YSlab(b, vs, n, i, j), inside, toLocal)
    {
      var row := CollectRow(b, vs, n, i, j, inside, toLocal);
      SelectAppend(YSlab(b, vs, n, i, j), ZRow(b, vs, i, j, n), inside, toLocal);
      slab := slab + row;
      j := j + 1;
    }
  }

  /** The innermost loop of CutIntoVoxels: the cells (i, j, 0) .. (i, j, n - 1). */
  method CollectRow(b: Bounds, vs: Vec3, n: nat, i: nat, j: nat, inside: Vec3 -> bool, toLocal: Vec3 -> Vec3)
    returns (row: seq<Vec3>)
    ensures row == Select(ZRow(b, vs, i, j, n), inside, toLocal)
  {
    row := [];
    var k := 0;
    while k < n
      invariant 0 <= k <= n
      invariant row == Select(ZRow(b, vs, i, j, k), inside, toLocal)
    {
      var point := Centre(b, vs, i, j, k);
      SelectAppend(ZRow(b, vs, i, j, k), [point], inside, toLocal);
      if inside(point) {
        row := row + [toLocal(point)];
      }
      k := k + 1;
    }
  }

  /** Selection distributes over concatenation, so it keeps the candidates' order. */
  lemma {:induction false} SelectAppend(a: seq<Vec3>, c: seq<Vec3>, inside: Vec3 -> bool, toLocal: Vec3 -> Vec3)
    ensures Select(a + c, inside, toLocal) == Select(a, inside, toLocal) + Select(c, inside, toLocal)
  {
    if c == [] {
      assert a + c == a;
    } else {
      var c' := c[..|c| - 1];
      assert (a + c)[..|a + c| - 1] == a + c';
      assert (a + c)[|a + c| - 1] == c[|c| - 1];
      SelectAppend(a, c', inside, toLocal);
    }
  }

  /** Every selected voxel is the local image of a candidate that passed the inside test. */
  lemma {:induction false} SelectSound(cs: seq<Vec3>, inside: Vec3 -> bool, toLocal: Vec3 -> Vec3, v: Vec3)
    requires v in Select(cs, inside, toLocal)
    ensures exists c :: c in cs && inside(c) && v == toLocal(c)
  {
    var last := cs[|cs| - 1];
    var front := cs[..|cs| - 1];
    if v in Select(front, inside, toLocal) {
      SelectSound(front, inside, toLocal, v);
      var c :| c in front && inside(c) && v == toLocal(c);
      assert c in cs;
    } else {
      assert inside(last) && v == toLocal(last);
    }
  }

  /** Every candidate that passes the inside test contributes its local image. */
  lemma {:induction false} SelectComplete(cs: seq<Vec3>, inside: Vec3 -> bool, toLocal: Vec3 -> Vec3, c: Vec3)
    requires c in cs && inside(c)
    ensures toLocal(c) in Select(cs, inside, toLocal)
  {
    var front := cs[..|cs| - 1];
    if c != cs[|cs| - 1] {
      assert cs == front + [cs[|cs| - 1]];
      assert c in front;
      SelectComplete(front, inside, toLocal, c);
    }
  }

  /** The lattice examines exactly n * n * n candidates. */
  lemma CandidatesLength(b: Bounds, vs: Vec3, n: nat)
    ensures |Candidates(b, vs, n)| == n * n * n
  {
    LayersLength(b, vs, n, n);
    CubeRegroup(n);
  }

  lemma CubeRegroup(n: nat)
    ensures n * (n * n) == n * n * n
  {
  }

  lemma {:induction false} ZRowAt(b: Bounds, vs: Vec3, i: nat, j: nat, k: nat, m: nat)
    requires m < k
    ensures |ZRow(b, vs, i, j, k)| == k && ZRow(b, vs, i, j, k)[m] == Centre(b, vs, i, j, m)
  {
    if m < k - 1 {
      ZRowAt(b, vs, i, j, k - 1, m);
    }
  }

  lemma {:induction false} YSlabAt(b: Bounds, vs: Vec3, n: nat, i: nat, j: nat, q: nat, k: nat, index: nat)
    requires q < j && k < n && index == q * n + k
    ensures index < |YSlab(b, vs, n, i, j)| && YSlab(b, vs, n, i, j)[index] == Centre(b, vs, i, q, k)
  {
    var front, row := YSlab(b, vs, n, i, j - 1), ZRow(b, vs, i, j - 1, n);
    YSlabLength(b, vs, n, i, j - 1);
    assert |front| == (j - 1) * n && |row| == n;
    assert YSlab(b, vs, n, i, j) == front + row;
    if q < j - 1 {
      RowIndexBelow(q, k, n, j - 1);
      YSlabAt(b, vs, n, i, j - 1, q, k, index);
    } else {
      assert index == |front| + k;
      ZRowAt(b, vs, i, q, n, k);
    }
  }

  lemma {:induction false} LayersAt(b: Bounds, vs: Vec3, n: nat, nn: nat, i: nat, p: nat, r: nat, index: nat)
    requires nn == n * n && p < i && r < nn && index == p * nn + r
    ensures index < |Layers(b, vs, n, i)| && r < |YSlab(b, vs, n, p, n)|
            && Layers(b, vs, n, i)[index] == YSlab(b, vs, n, p, n)[r]
  {
    YSlabLength(b, vs, n, p, n);
    var front, slab := Layers(b, vs, n, i - 1), YSlab(b, vs, n, i - 1, n);
    LayersLength(b, vs, n, i - 1);
    YSlabLength(b, vs, n, i - 1, n);
    assert |front| == (i - 1) * nn && |slab| == nn;
    assert Layers(b, vs, n, i) == front + slab;
    if p < i - 1 {
      RowIndexBelow(p, r, nn, i - 1);
      LayersAt(b, vs, n, nn, i - 1, p, r, index);
    } else {
      assert index == |front| + r;
    }
  }

  /** A flat index q * n + k with q < m and k < n stays below m * n. */
  lemma RowIndexBelow(q: nat, k: nat, n: nat, m: nat)
    requires q < m && k < n
    ensures q * n + k < m * n
  {
    assert q * n + k < q * n + n == (q + 1) * n;
    assert (q + 1) * n <= m * n;
  }

  /**
   The candidate at flat position i * n * n + j * n + k is the centre of cell
   (i, j, k): the lattice is enumerated in lexicographic (i, j, k) order.
   */
  lemma CandidateAt(b: Bounds, vs: Vec3, n: nat, i: nat, j: nat, k: nat, index: nat)
    requires i < n && j < n && k < n
    requires index == i * (n * n) + (j * n + k)
    ensures index < |Candidates(b, vs, n)| && Candidates(b, vs, n)[index] == Centre(b, vs, i, j, k)
  {
    RowIndexBelow(j, k, n, n);
    LayersAt(b, vs, n, n * n, n, i, j * n + k, index);
    YSlabAt(b, vs, n, i, n, j, k, j * n + k);
  }

  /**
   On one axis, a centre min + w * (0.5 + i) with w = size * s and 0 <= i < n lies
   in [min, min + size], because (n - 0.5) * s <= 1 when n is 1 / s rounded to nearest.
   */
  lemma AxisWithin(lo: real, size: real, s: real, w: real, n: nat, i: nat)
    requires size >= 0.0 && s > 0.0 && i < n && w == size * s
    requires n as real - 0.5 <= 1.0 / s
    ensures lo <= lo + w * (0.5 + i as real) <= lo + size
  {
    var u := 0.5 + i as real;
    assert u <= 1.0 / s;
    MulMonotonic(s, u, 1.0 / s);
    assert s * (1.0 / s) == 1.0;
    MulNonNegative(s, u);
    UnitMul(size, s * u);
    Regroup(size, s, u);
  }

  lemma Regroup(a: real, b: real, c: real)
    ensures (a * b) * c == a * (b * c)
  {
  }

  /**
   Every cell centre of a lattice with at most 1 / s + 0.5 cells per axis lies
   inside the bounding box.
   */
  lemma CentreWithin(b: Bounds, s: real, n: nat, i: nat, j: nat, k: nat)
    requires b.WellFormed() && s > 0.0 && n as real - 0.5 <= 1.0 / s
    requires i < n && j < n && k < n
    ensures b.Contains(Centre(b, VoxelSize(b, s), i, j, k))
  {
    var lo, hi, size, vs := b.Min(), b.Max(), b.Size(), VoxelSize(b, s);
    var c := Centre(b, vs, i, j, k);
    AxisOfCentre(lo.x, hi.x, size.x, s, vs.x, n, i, c.x);
    AxisOfCentre(lo.y, hi.y, size.y, s, vs.y, n, j, c.y);
    AxisOfCentre(lo.z, hi.z, size.z, s, vs.z, n, k, c.z);
  }

  /** One coordinate of a cell centre lies between the box's minimum and maximum. */
  lemma AxisOfCentre(lo: real, hi: real, size: real, s: real, w: real, n: nat, i: nat, c: real)
    requires size >= 0.0 && s > 0.0 && i < n && w == size * s
    requires n as real - 0.5 <= 1.0 / s
    requires hi == lo + size && c == lo + w * (0.5 + i as real)
    ensures lo <= c <= hi
  {
    AxisWithin(lo, size, s, w, n, i);
  }

  predicate AllWithin(b: Bounds, cs: seq<Vec3>) {
    forall c :: c in cs ==> b.Contains(c)
  }

  lemma AllWithinAppend(b: Bounds, p: seq<Vec3>, q: seq<Vec3>)
    requires AllWithin(b, p) && AllWithin(b, q)
    ensures AllWithin(b, p + q)
  {
  }

  /** Every centre of the n-per-axis lattice with voxel size vs lies in the box. */
  predicate LatticeWithin(b: Bounds, vs: Vec3, n: nat) {
    forall i: nat, j: nat, k: nat :: i < n && j < n && k < n ==> b.Contains(Centre(b, vs, i, j, k))
  }

  lemma {:induction false} ZRowWithin(b: Bounds, vs: Vec3, n: nat, i: nat, j: nat, k: nat)
    requires LatticeWithin(b, vs, n) && i < n && j < n && k <= n
    ensures AllWithin(b, ZRow(b, vs, i, j, k))
  {
    if k > 0 {
      ZRowWithin(b, vs, n, i, j, k - 1);
      AllWithinAppend(b, ZRow(b, vs, i, j, k - 1), [Centre(b, vs, i, j, k - 1)]);
    }
  }

  lemma {:induction false} YSlabWithin(b: Bounds, vs: Vec3, n: nat, i: nat, j: nat)
    requires forall q: nat :: q < j ==> AllWithin(b, ZRow(b, vs, i, q, n))
    ensures AllWithin(b, YSlab(b, vs, n, i, j))
  {
    if j > 0 {
      YSlabWithin(b, vs, n, i, j - 1);
      AllWithinAppend(b, YSlab(b, vs, n, i, j - 1), ZRow(b, vs, i, j - 1, n));
    }
  }

  lemma {:induction false} LayersWithin(b: Bounds, vs: Vec3, n: nat, i: nat)
    requires forall p: nat :: p < i ==> AllWithin(b, YSlab(b, vs, n, p, n))
    ensures AllWithin(b, Layers(b, vs, n, i))
  {
    if i > 0 {
      LayersWithin(b, vs, n, i - 1);
      AllWithinAppend(b, Layers(b, vs, n, i - 1), YSlab(b, vs, n, i - 1, n));
    }
  }

  /** When the whole lattice fits in the box, so does every candidate. */
  lemma CandidatesWithin(b: Bounds, vs: Vec3, n: nat)
    requires LatticeWithin(b, vs, n)
    ensures AllWithin(b, Candidates(b, vs, n))
  {
    forall p: nat | p < n
      ensures AllWithin(b, YSlab(b, vs, n, p, n))
    {
      forall q: nat | q < n
        ensures AllWithin(b, ZRow(b, vs, p, q, n))
      {
        ZRowWithin(b, vs, n, p, q, n);
      }
      YSlabWithin(b, vs, n, p, n);
    }
    LayersWithin(b, vs, n, n);
  }

  /** The lattice CutIntoVoxels walks fits in the bounding box it was cut from. */
  lemma VoxelLatticeWithin(b: Bounds, s: real)
    requires b.WellFormed() && s > 0.0
    ensures LatticeWithin(b, VoxelSize(b, s), AxisCount(s))
  {
    forall i: nat, j: nat, k: nat | i < AxisCount(s) && j < AxisCount(s) && k < AxisCount(s)
      ensures b.Contains(Centre(b, VoxelSize(b, s), i, j, k))
    {
      CentreWithin(b, s, AxisCount(s), i, j, k);
    }
  }

  /**
   What CutIntoVoxels produces: at most n * n * n voxels, n = AxisCount(s); each
   one the local image of a candidate inside the bounding box that passed the
   inside test; and every candidate that passes the test contributes its image.
   */
  lemma VoxelizeSpec(b: Bounds, s: real, inside: Vec3 -> bool, toLocal: Vec3 -> Vec3)
    requires b.WellFormed() && s > 0.0
    ensures |Voxelize(b, s, inside, toLocal)| <= AxisCount(s) * AxisCount(s) * AxisCount(s)
    ensures forall v :: v in Voxelize(b, s, inside, toLocal) ==>
              exists c :: c in Candidates(b, VoxelSize(b, s), AxisCount(s))
                          && b.Contains(c) && inside(c) && v == toLocal(c)
    ensures forall c :: c in Candidates(b, VoxelSize(b, s), AxisCount(s)) && inside(c) ==>
              toLocal(c) in Voxelize(b, s, inside, toLocal)
  {
    var n := AxisCount(s);
    var cs := Candidates(b, VoxelSize(b, s), n);
    CandidatesLength(b, VoxelSize(b, s), n);
    VoxelLatticeWithin(b, s);
    CandidatesWithin(b, VoxelSize(b, s), n);
    forall v | v in Voxelize(b, s, inside, toLocal)
      ensures exists c :: c in cs && b.Contains(c) && inside(c) && v == toLocal(c)
    {
      SelectSound(cs, inside, toLocal, v);
    }
    forall c | c in cs && inside(c)
      ensures toLocal(c) in Voxelize(b, s, inside, toLocal)
    {
      SelectComplete(cs, inside, toLocal, c);
    }
  }
}
