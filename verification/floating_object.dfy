/**
 The FloatingObject component: it cuts its collider into voxels the first time
 it enters a water volume, and on every physics step while in the water pushes
 each voxel up in proportion to how deep that voxel sits, then blends the body's
 drag between its dry and its in-water values by how much of it is submerged.
 */
module FloatingObjects {
  import opened Geometry
  import opened UnityMath
  import opened Engine
  import opened Voxelizer
  import opened Buoyancy

  class FloatingObject {
    const calculateDensity: bool
    /** the configured density, or mass / mesh volume when calculateDensity is set */
    const density: real
    const normalizedVoxelSize: real
    const dragInWater: real
    const angularDragInWater: real

    const collider: Collider
    const rigidbody: Rigidbody
    const transform: Transform

    var water: WaterVolume?
    var initialDrag: real
    var initialAngularDrag: real
    var voxelSize: Vec3
    /** the voxel centres in local space; null until the first water contact */
    var voxels: array?<Vec3>

    /**
     The state every handler keeps: a usable voxel size and density, and voxels
     present whenever a water volume is set (entering the water cuts them).
     */
    ghost predicate Valid()
      reads this
    {
      0.0 < normalizedVoxelSize <= 1.0 && density != 0.0 && (water != null ==> voxels != null)
    }

    /** Awake: records the rigid body's dry drag values and settles the density. */
    constructor (calculateDensity: bool, configuredDensity: real, normalizedVoxelSize: real,
                 dragInWater: real, angularDragInWater: real,
                 collider: Collider, rigidbody: Rigidbody, transform: Transform, meshVolume: real)
      requires 0.0 < normalizedVoxelSize <= 1.0
      requires calculateDensity ==> meshVolume != 0.0 && rigidbody.mass != 0.0
      requires !calculateDensity ==> configuredDensity != 0.0
      ensures Valid()
      ensures water == null && voxels == null
      ensures initialDrag == rigidbody.drag && initialAngularDrag == rigidbody.angularDrag
      ensures calculateDensity ==> density * meshVolume == rigidbody.mass
      ensures !calculateDensity ==> density == configuredDensity
      ensures this.collider == collider && this.rigidbody == rigidbody && this.transform == transform
      ensures this.normalizedVoxelSize == normalizedVoxelSize
      ensures this.dragInWater == dragInWater && this.angularDragInWater == angularDragInWater
    {
      this.calculateDensity := calculateDensity;
      this.normalizedVoxelSize := normalizedVoxelSize;
      this.dragInWater := dragInWater;
      this.angularDragInWater := angularDragInWater;
      this.collider := collider;
      this.rigidbody := rigidbody;
      this.transform := transform;
      if calculateDensity {
        DerivedDensityDisplacesMeshVolume(configuredDensity, rigidbody.mass, meshVolume);
      }
      this.density := BodyDensity(calculateDensity, configuredDensity, rigidbody.mass, meshVolume);
      this.initialDrag := rigidbody.drag;
      this.initialAngularDrag := rigidbody.angularDrag;
      water := null;
      voxels := null;
    }

    /** The ray-cast inside test of the collider with the object unrotated at position. */
    function InsideAtRest(position: Vec3): Vec3 -> bool {
      var c := collider;
      p => c.insideAt(position, Identity, p)
    }

    /** InverseTransformPoint with the object unrotated at position. */
    function ToLocalAtRest(position: Vec3): Vec3 -> Vec3 {
      var f := transform.worldToLocal;
      p => f(position, Identity, p)
    }

    /** The voxels CutIntoVoxels produces with the object at position. */
    function VoxelsAtRest(position: Vec3): (r: seq<Vec3>)
      requires 0.0 < normalizedVoxelSize
    {
      Voxelize(collider.boundsAt(position, Identity), normalizedVoxelSize,
               InsideAtRest(position), ToLocalAtRest(position))
    }

    /** collider.bounds at the current pose */
    function CurrentBounds(): Bounds
      reads transform
    {
      collider.boundsAt(transform.position, transform.rotation)
    }

    /** The height of one voxel used by a physics step. */
    function VoxelHeight(): real
      reads transform
    {
      CurrentBounds().Size().y * normalizedVoxelSize
    }

    /** FixedUpdate's guard: in a water volume and with at least one voxel. */
    predicate Floating()
      reads this
    {
      water != null && voxels != null && voxels.Length > 0
    }

    /** The voxels' world positions at the current pose. */
    ghost function WorldPoints(): seq<Vec3>
      requires voxels != null
      reads this, transform, voxels
    {
      var local, toWorld, position, rotation := voxels[..], transform.localToWorld, transform.position, transform.rotation;
      seq(|local|, i requires 0 <= i < |local| => toWorld(position, rotation, local[i]))
    }

    /**
     CutIntoVoxels: with the rotation reset to identity, the bounds of the collider
     are cut into a lattice of voxel centres, and those inside the collider are kept
     in local coordinates. The rotation is put back before returning.
     */
    method CutIntoVoxels() returns (result: array<Vec3>)
      requires 0.0 < normalizedVoxelSize
      modifies this`voxelSize, transform`rotation
      ensures fresh(result)
      ensures transform.rotation == old(transform.rotation)
      ensures voxelSize == VoxelSize(collider.boundsAt(transform.position, Identity), normalizedVoxelSize)
      ensures result[..] == VoxelsAtRest(transform.position)
    {
      var initialRotation := transform.rotation;
      transform.rotation := Identity;

      var bounds := collider.boundsAt(transform.position, transform.rotation);
      voxelSize := VoxelSize(bounds, normalizedVoxelSize);
      var voxelsCountForEachAxis := AxisCount(normalizedVoxelSize);
      var found := CollectVoxels(bounds, voxelSize, voxelsCountForEachAxis,
                                 InsideAtRest(transform.position), ToLocalAtRest(transform.position));

      transform.rotation := initialRotation;

      result := new Vec3[|found|](i requires 0 <= i < |found| => found[i]);
      assert result[..] == found;
    }

    /**
     OnTriggerEnter: a water-tagged collider becomes the current water volume, and
     the voxels are cut on the first such contact only; any other collider changes
     nothing.
     */
    method OnTriggerEnter(other: TriggerCollider)
      requires Valid()
      modifies this`water, this`voxels, this`voxelSize, transform`rotation
      ensures Valid()
      ensures transform.rotation == old(transform.rotation)
      ensures other.tag != WaterTag ==> water == old(water) && voxels == old(voxels) && voxelSize == old(voxelSize)
      ensures other.tag == WaterTag ==> water == other.waterVolume && voxels != null
      ensures old(voxels) != null ==> voxels == old(voxels) && voxels[..] == old(voxels[..]) && voxelSize == old(voxelSize)
      ensures other.tag == WaterTag && old(voxels) == null ==>
                voxelSize == VoxelSize(collider.boundsAt(transform.position, Identity), normalizedVoxelSize)
      ensures other.tag == WaterTag && old(voxels) == null ==>
                fresh(voxels) && voxels[..] == VoxelsAtRest(transform.position)
    {
      if other.tag == WaterTag {
        water := other.waterVolume;
        if voxels == null {
          voxels := CutIntoVoxels();
        }
      }
    }

    /** OnTriggerExit: leaving a water-tagged collider forgets the water volume, and nothing else. */
    method OnTriggerExit(other: TriggerCollider)
      requires Valid()
      modifies this`water
      ensures Valid()
      ensures other.tag == WaterTag ==> water == null
      ensures other.tag != WaterTag ==> water == old(water)
    {
      if other.tag == WaterTag {
        water := null;
      }
    }

    /**
     FixedUpdate: while floating, applies one force per voxel, in voxel order, and
     sets both drag coefficients from the averaged submerged volume; otherwise
     leaves the rigid body untouched.
     */
    method FixedUpdate(gravity: Vec3, lib: QuaternionLib)
      requires Valid()
      requires Floating() ==> VoxelHeight() > 0.0
      modifies rigidbody
      ensures !Floating() ==>
                rigidbody.forces == old(rigidbody.forces) &&
                rigidbody.drag == old(rigidbody.drag) &&
                rigidbody.angularDrag == old(rigidbody.angularDrag)
      ensures Floating() ==>
                rigidbody.forces == old(rigidbody.forces) +
                  StepForces(lib, water, WorldPoints(),
                             DivBy(MaxBuoyancyForce(water.density, rigidbody.mass, density, gravity), voxels.Length as real),
                             VoxelHeight())
      ensures Floating() ==>
                rigidbody.drag == Lerp(initialDrag, dragInWater, Mean(Factors(water, WorldPoints(), VoxelHeight())))
      ensures Floating() ==>
                rigidbody.angularDrag ==
                  Lerp(initialAngularDrag, angularDragInWater, Mean(Factors(water, WorldPoints(), VoxelHeight())))
      ensures Floating() && SlerpReachesTarget(lib) && Covered(water, WorldPoints(), VoxelHeight()) ==>
                TotalForce(rigidbody.forces[|old(rigidbody.forces)|..]) ==
                  MaxBuoyancyForce(water.density, rigidbody.mass, density, gravity)
    {
      if water != null && voxels.Length > 0 {
        var count := voxels.Length;
        ghost var points := WorldPoints();
        ghost var maxForce := MaxBuoyancyForce(water.density, rigidbody.mass, density, gravity);
        var forceAtSingleVoxel := DivBy(MaxBuoyancyForce(water.density, rigidbody.mass, density, gravity), count as real);
        var bounds := collider.boundsAt(transform.position, transform.rotation);
        var voxelHeight := bounds.Size().y * normalizedVoxelSize;
        assert voxelHeight == VoxelHeight();

        var submergedVolume := ApplyVoxelForces(lib, forceAtSingleVoxel, voxelHeight);
        if SlerpReachesTarget(lib) && Covered(water, points, voxelHeight) {
          SubmergedStepAppends(lib, water, points, maxForce, voxelHeight, old(rigidbody.forces), rigidbody.forces);
        }
        submergedVolume := submergedVolume / count as real;

        rigidbody.drag := Lerp(initialDrag, dragInWater, submergedVolume);
        rigidbody.angularDrag := Lerp(initialAngularDrag, angularDragInWater, submergedVolume);
      }
    }

    /**
     The loop of FixedUpdate: for each voxel in order, its submerged factor is
     added to the running total and its force is applied at its world position.
     */
    method ApplyVoxelForces(lib: QuaternionLib, forceAtSingleVoxel: Vec3, voxelHeight: real)
      returns (submergedVolume: real)
      requires water != null && voxels != null && voxelHeight > 0.0
      modifies rigidbody`forces
      ensures rigidbody.forces ==
                old(rigidbody.forces) + StepForces(lib, water, WorldPoints(), forceAtSingleVoxel, voxelHeight)
      ensures submergedVolume == Sum(Factors(water, WorldPoints(), voxelHeight))
    {
      ghost var points := WorldPoints();
      ghost var forces := StepForces(lib, water, points, forceAtSingleVoxel, voxelHeight);
      ghost var factors := Factors(water, points, voxelHeight);

      submergedVolume := 0.0;
      for i := 0 to voxels.Length
        invariant rigidbody.forces == old(rigidbody.forces) + forces[..i]
        invariant submergedVolume == Sum(factors[..i])
      {
        var worldPoint := transform.TransformPoint(voxels[i]);
        assert worldPoint == points[i];

        var waterLevel := water.waterLevel(worldPoint);
        var deepLevel := waterLevel - worldPoint.y + voxelHeight / 2.0;
        var submergedFactor := Clamp(deepLevel / voxelHeight, 0.0, 1.0);
        assert submergedFactor == factors[i];
        assert factors[..i + 1][..i] == factors[..i];
        submergedVolume := submergedVolume + submergedFactor;

        var surfaceNormal := water.surfaceNormal(worldPoint);
        var surfaceRotation := lib.fromToRotation(water.up, surfaceNormal);
        surfaceRotation := lib.slerp(surfaceRotation, Identity, submergedFactor);

        var finalVoxelForce := Rotate(surfaceRotation, Scale(submergedFactor, forceAtSingleVoxel));
        assert PointForce(finalVoxelForce, worldPoint) == forces[i];
        rigidbody.AddForceAtPosition(finalVoxelForce, worldPoint);
        assert forces[..i + 1] == forces[..i] + [forces[i]];
      }
      assert forces[..voxels.Length] == forces;
      assert factors[..voxels.Length] == factors;
    }
  }
}
