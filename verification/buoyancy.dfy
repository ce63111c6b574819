/**
 The arithmetic of one physics step of a floating object: the density derived
 in Awake, the maximum buoyant force, each voxel's submerged factor and force,
 and the averaged submerged volume that drives the drag coefficients.
 */
module Buoyancy {
  import opened Geometry
  import opened UnityMath
  import opened Engine

  /**
   Awake: with calculateDensity set, the density becomes mass / mesh volume,
   otherwise the configured density is kept.
   */
  function BodyDensity(calculateDensity: bool, configured: real, mass: real, meshVolume: real): (d: real)
    requires calculateDensity ==> meshVolume != 0.0
    ensures calculateDensity ==> d * meshVolume == mass
    ensures !calculateDensity ==> d == configured
  {
    if calculateDensity then mass / meshVolume else configured
  }

  /**
   A derived density makes the displaced volume used by the buoyant force,
   mass / density, equal to the mesh volume.
   */
  lemma DerivedDensityDisplacesMeshVolume(configured: real, mass: real, meshVolume: real)
    requires meshVolume != 0.0 && mass != 0.0
    ensures BodyDensity(true, configured, mass, meshVolume) != 0.0
    ensures mass / BodyDensity(true, configured, mass, meshVolume) == meshVolume
  {
    var d := BodyDensity(true, configured, mass, meshVolume);
    assert d * meshVolume == mass;
    assert d != 0.0;
    DivideBack(mass, d, meshVolume);
  }

  lemma DivideBack(m: real, d: real, v: real)
    requires d != 0.0 && d * v == m
    ensures m / d == v
  {
  }

  /**
   CalculateMaxBuoyancyForce: the weight of the displaced water, pointing
   against gravity. The displaced volume is mass / density.
   */
  function MaxBuoyancyForce(waterDensity: real, mass: real, density: real, gravity: Vec3): (f: Vec3)
    requires density != 0.0
    ensures Add(f, Scale(waterDensity * (mass / density), gravity)) == Zero
  {
    var objectVolume := mass / density;
    Scale(waterDensity * objectVolume, Neg(gravity))
  }

  /**
   Archimedes' principle for a derived density: the maximum buoyant force is the
   weight of water filling the mesh volume, pointing against gravity.
   */
  lemma MaxBuoyancyForceOfMeshVolume(waterDensity: real, configured: real, mass: real, meshVolume: real, gravity: Vec3)
    requires meshVolume != 0.0 && mass != 0.0
    ensures BodyDensity(true, configured, mass, meshVolume) != 0.0
    ensures MaxBuoyancyForce(waterDensity, mass, BodyDensity(true, configured, mass, meshVolume), gravity)
            == Scale(waterDensity * meshVolume, Neg(gravity))
  {
    DerivedDensityDisplacesMeshVolume(configured, mass, meshVolume);
  }

  /**
   One voxel's submerged factor: the depth of the water above the voxel's bottom
   face as a fraction of the voxel height, clamped to [0, 1]. It is 0 exactly when
   the water is at or below the bottom face and 1 exactly when it reaches the top.
   */
  function SubmergedFactor(waterLevel: real, centreY: real, voxelHeight: real): (r: real)
    requires voxelHeight > 0.0
    ensures 0.0 <= r <= 1.0
    ensures r == 0.0 <==> waterLevel <= centreY - voxelHeight / 2.0
    ensures r == 1.0 <==> waterLevel >= centreY + voxelHeight / 2.0
  {
    var deepLevel := waterLevel - centreY + voxelHeight / 2.0;
    FractionOfHeight(deepLevel, voxelHeight);
    Clamp(deepLevel / voxelHeight, 0.0, 1.0)
  }

  lemma FractionOfHeight(d: real, h: real)
    requires h > 0.0
    ensures d / h <= 0.0 <==> d <= 0.0
    ensures d / h >= 1.0 <==> d >= h
  {
    if d > 0.0 {
      assert d / h > 0.0;
    }
    if d / h >= 1.0 {
      assert d == (d / h) * h;
      MulMonotonic(h, 1.0, d / h);
    }
    if d >= h {
      assert d / h >= h / h;
    }
  }

  /** The submerged factor of every voxel, given the voxels' world positions. */
  function Factors(water: WaterVolume, points: seq<Vec3>, voxelHeight: real): (r: seq<real>)
    requires voxelHeight > 0.0
    ensures |r| == |points|
    ensures forall i :: 0 <= i < |points| ==> 0.0 <= r[i] <= 1.0
  {
    seq(|points|, i requires 0 <= i < |points| =>
      SubmergedFactor(water.waterLevel(points[i]), points[i].y, voxelHeight))
  }

  /** Running sum, accumulated front to back as the step loop does. */
  function Sum(xs: seq<real>): real {
    if xs == [] then 0.0 else Sum(xs[..|xs| - 1]) + xs[|xs| - 1]
  }

  /** The averaged submerged volume: 0 fully out of the water, 1 fully submerged. */
  function Mean(xs: seq<real>): real
    requires |xs| > 0
  {
    Sum(xs) / |xs| as real
  }

  lemma {:induction false} SumWithin(xs: seq<real>)
    requires forall i :: 0 <= i < |xs| ==> 0.0 <= xs[i] <= 1.0
    ensures 0.0 <= Sum(xs) <= |xs| as real
  {
    if xs != [] {
      SumWithin(xs[..|xs| - 1]);
    }
  }

  /** An average of values in [0, 1] lies in [0, 1]. */
  lemma MeanWithin(xs: seq<real>)
    requires |xs| > 0
    requires forall i :: 0 <= i < |xs| ==> 0.0 <= xs[i] <= 1.0
    ensures 0.0 <= Mean(xs) <= 1.0
  {
    SumWithin(xs);
    var n := |xs| as real;
    assert Sum(xs) / n <= n / n;
  }

  lemma {:induction false} SumOfConstant(xs: seq<real>, c: real)
    requires forall i :: 0 <= i < |xs| ==> xs[i] == c
    ensures Sum(xs) == |xs| as real * c
  {
    if xs != [] {
      SumOfConstant(xs[..|xs| - 1], c);
    }
  }

  lemma MeanOfConstant(xs: seq<real>, c: real)
    requires |xs| > 0
    requires forall i :: 0 <= i < |xs| ==> xs[i] == c
    ensures Mean(xs) == c
  {
    SumOfConstant(xs, c);
    var n := |xs| as real;
    assert Sum(xs) == n * c;
  }

  /**
   When the water reaches the top of every voxel the averaged submerged volume
   is 1; when it stays below the bottom of every voxel it is 0.
   */
  lemma MeanOfUniformWater(water: WaterVolume, points: seq<Vec3>, voxelHeight: real)
    requires |points| > 0 && voxelHeight > 0.0
    ensures (forall p :: p in points ==> water.waterLevel(p) >= p.y + voxelHeight / 2.0)
            ==> Mean(Factors(water, points, voxelHeight)) == 1.0
    ensures (forall p :: p in points ==> water.waterLevel(p) <= p.y - voxelHeight / 2.0)
            ==> Mean(Factors(water, points, voxelHeight)) == 0.0
  {
    var fs := Factors(water, points, voxelHeight);
    if forall p :: p in points ==> water.waterLevel(p) >= p.y + voxelHeight / 2.0 {
      forall i | 0 <= i < |fs| ensures fs[i] == 1.0 {
        assert points[i] in points;
      }
      MeanOfConstant(fs, 1.0);
    }
    if forall p :: p in points ==> water.waterLevel(p) <= p.y - voxelHeight / 2.0 {
      forall i | 0 <= i < |fs| ensures fs[i] == 0.0 {
        assert points[i] in points;
      }
      MeanOfConstant(fs, 0.0);
    }
  }

  /**
   The drag a step sets, Lerp(dry, wet, averaged submerged volume), lies between
   the dry and the in-water value; it is the dry value when no voxel touches the
   water and the in-water value when every voxel is covered.
   */
  lemma DragFollowsSubmersion(dry: real, wet: real, water: WaterVolume, points: seq<Vec3>, voxelHeight: real)
    requires |points| > 0 && voxelHeight > 0.0
    ensures var d := Lerp(dry, wet, Mean(Factors(water, points, voxelHeight)));
            (dry <= wet ==> dry <= d <= wet) && (wet <= dry ==> wet <= d <= dry)
    ensures (forall p :: p in points ==> water.waterLevel(p) <= p.y - voxelHeight / 2.0)
            ==> Lerp(dry, wet, Mean(Factors(water, points, voxelHeight))) == dry
    ensures (forall p :: p in points ==> water.waterLevel(p) >= p.y + voxelHeight / 2.0)
            ==> Lerp(dry, wet, Mean(Factors(water, points, voxelHeight))) == wet
  {
    MeanOfUniformWater(water, points, voxelHeight);
  }

  /**
   The rotation applied to a voxel's force: from the water's up axis towards the
   local surface normal, slerped back to identity by the submerged factor.
   */
  function SurfaceRotation(lib: QuaternionLib, water: WaterVolume, p: Vec3, factor: real): Quat {
    lib.slerp(lib.fromToRotation(water.up, water.surfaceNormal(p)), Identity, factor)
  }

  /** The force applied at one voxel: its share of the buoyant force, scaled and rotated. */
  function VoxelForce(lib: QuaternionLib, water: WaterVolume, p: Vec3, perVoxel: Vec3, voxelHeight: real): Vec3
    requires voxelHeight > 0.0
  {
    var factor := SubmergedFactor(water.waterLevel(p), p.y, voxelHeight);
    Rotate(SurfaceRotation(lib, water, p, factor), Scale(factor, perVoxel))
  }

  /** The AddForceAtPosition calls of one step, in voxel order. */
  function StepForces(lib: QuaternionLib, water: WaterVolume, points: seq<Vec3>, perVoxel: Vec3, voxelHeight: real)
    : (r: seq<PointForce>)
    requires voxelHeight > 0.0
    ensures |r| == |points|
    ensures forall i :: 0 <= i < |points| ==> r[i].position == points[i]
  {
    seq(|points|, i requires 0 <= i < |points| =>
      PointForce(VoxelForce(lib, water, points[i], perVoxel, voxelHeight), points[i]))
  }

  /** The vector sum of a sequence of applied forces. */
  function TotalForce(fs: seq<PointForce>): Vec3 {
    if fs == [] then Zero else Add(TotalForce(fs[..|fs| - 1]), fs[|fs| - 1].force)
  }

  lemma {:induction false} TotalOfConstant(fs: seq<PointForce>, f: Vec3)
    requires forall i :: 0 <= i < |fs| ==> fs[i].force == f
    ensures TotalForce(fs) == Scale(|fs| as real, f)
  {
    if fs != [] {
      TotalOfConstant(fs[..|fs| - 1], f);
    }
  }

  /** A voxel the water covers receives exactly its share, unrotated, when Slerp reaches its target. */
  lemma WetVoxelForce(lib: QuaternionLib, water: WaterVolume, p: Vec3, perVoxel: Vec3, voxelHeight: real)
    requires voxelHeight > 0.0 && SlerpReachesTarget(lib)
    requires water.waterLevel(p) >= p.y + voxelHeight / 2.0
    ensures VoxelForce(lib, water, p, perVoxel, voxelHeight) == perVoxel
  {
    assert SubmergedFactor(water.waterLevel(p), p.y, voxelHeight) == 1.0;
    assert SurfaceRotation(lib, water, p, 1.0) == Identity;
    assert Scale(1.0, perVoxel) == perVoxel;
  }

  /**
   A fully submerged body with Slerp reaching its target at factor 1: every voxel
   receives exactly its share, unrotated, and the shares add up to the maximum
   buoyant force.
   */
  lemma FullySubmergedForce(lib: QuaternionLib, water: WaterVolume, points: seq<Vec3>, maxForce: Vec3, voxelHeight: real)
    requires |points| > 0 && voxelHeight > 0.0
    requires SlerpReachesTarget(lib)
    requires forall p :: p in points ==> water.waterLevel(p) >= p.y + voxelHeight / 2.0
    ensures TotalForce(StepForces(lib, water, points, DivBy(maxForce, |points| as real), voxelHeight)) == maxForce
  {
    var n := |points| as real;
    var per := DivBy(maxForce, n);
    var fs := StepForces(lib, water, points, per, voxelHeight);
    forall i | 0 <= i < |fs| ensures fs[i].force == per {
      assert points[i] in points;
      WetVoxelForce(lib, water, points[i], per, voxelHeight);
    }
    TotalOfConstant(fs, per);
    ScaleDivBy(n, maxForce);
  }

  /** The water reaches the top face of every voxel. */
  predicate Covered(water: WaterVolume, points: seq<Vec3>, voxelHeight: real) {
    forall p :: p in points ==> water.waterLevel(p) >= p.y + voxelHeight / 2.0
  }

  /**
   The forces one step appends to a force log, for a fully submerged body with
   Slerp reaching its target at factor 1, add up to the maximum buoyant force.
   */
  lemma SubmergedStepAppends(lib: QuaternionLib, water: WaterVolume, points: seq<Vec3>, maxForce: Vec3,
                             voxelHeight: real, before: seq<PointForce>, after: seq<PointForce>)
    requires |points| > 0 && voxelHeight > 0.0
    requires SlerpReachesTarget(lib) && Covered(water, points, voxelHeight)
    requires after == before + StepForces(lib, water, points, DivBy(maxForce, |points| as real), voxelHeight)
    ensures TotalForce(after[|before|..]) == maxForce
  {
    assert after[|before|..] == StepForces(lib, water, points, DivBy(maxForce, |points| as real), voxelHeight);
    FullySubmergedForce(lib, water, points, maxForce, voxelHeight);
  }

  /** A voxel entirely above the water receives no force. */
  lemma DryVoxelForce(lib: QuaternionLib, water: WaterVolume, p: Vec3, perVoxel: Vec3, voxelHeight: real)
    requires voxelHeight > 0.0
    requires water.waterLevel(p) <= p.y - voxelHeight / 2.0
    ensures VoxelForce(lib, water, p, perVoxel, voxelHeight) == Zero
  {
    assert SubmergedFactor(water.waterLevel(p), p.y, voxelHeight) == 0.0;
    assert Scale(0.0, perVoxel) == Zero;
    RotateZero(SurfaceRotation(lib, water, p, 0.0));
  }

  lemma {:induction false} TotalOfZero(fs: seq<PointForce>)
    requires forall i :: 0 <= i < |fs| ==> fs[i].force == Zero
    ensures TotalForce(fs) == Zero
  {
    if fs != [] {
      TotalOfZero(fs[..|fs| - 1]);
    }
  }

  /** A body entirely above the water receives no force at all. */
  lemma DryBodyForce(lib: QuaternionLib, water: WaterVolume, points: seq<Vec3>, perVoxel: Vec3, voxelHeight: real)
    requires voxelHeight > 0.0
    requires forall p :: p in points ==> water.waterLevel(p) <= p.y - voxelHeight / 2.0
    ensures TotalForce(StepForces(lib, water, points, perVoxel, voxelHeight)) == Zero
  {
    var fs := StepForces(lib, water, points, perVoxel, voxelHeight);
    forall i | 0 <= i < |fs| ensures fs[i].force == Zero {
      assert points[i] in points;
      DryVoxelForce(lib, water, points[i], perVoxel, voxelHeight);
    }
    TotalOfZero(fs);
  }
}
