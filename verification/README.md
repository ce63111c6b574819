# FloatingObject buoyancy, modelled in Dafny

This project models the `FloatingObject` component of NaughtyWaterBuoyancy, a
Unity buoyancy controller. A rigid body carrying the component:

- on its first contact with a trigger tagged as a water volume, cuts its collider
  into voxels (`CutIntoVoxels`);
- on every physics step while it is in the water, pushes each voxel upward in
  proportion to how deep that voxel sits and tilts the push towards the local
  surface normal (`FixedUpdate`);
- blends the body's linear and angular drag between their dry values and their
  in-water values by the averaged submerged volume.

Modules, one per concern:

- `Geometry`: `Vector3`, `Quaternion` (with Unity's quaternion-times-vector
  formula) and `Bounds` over the reals.
- `UnityMath`: the `Mathf` helpers the component calls: `Clamp`, `Clamp01`,
  `Lerp` (parameter clamped to [0, 1]), `RoundToInt` (ties to even).
- `Engine`: the collaborators the component only observes. The transform and the
  rigid body are classes with mutable fields; `AddForceAtPosition` appends to a
  log of applied forces. The water volume is a class whose surface queries are
  given functions. The collider is a datatype of given functions (bounds for a
  pose and the ray-cast inside test). `Quaternion.FromToRotation` and
  `Quaternion.Slerp` are given functions.
- `Voxelizer`: the lattice of `CutIntoVoxels`. `Candidates` is the n x n x n
  lattice of cell centres in (i, j, k) order, `Select` keeps those that pass the
  inside test and maps them to local space, and `Voxelize` composes the two. The
  triple loop is a method per loop level (`CollectVoxels`, `CollectSlab`,
  `CollectRow`), each proved equal to the specification functions.
- `Buoyancy`: the arithmetic of one step: derived density, maximum buoyant force,
  submerged factor per voxel, per-voxel force, averaged submerged volume.
- `FloatingObjects`: the component itself, a class whose fields are those of the
  C# class. The constructor is `Awake`. The methods are the message handlers
  (`OnTriggerEnter`, `OnTriggerExit`, `FixedUpdate`) and `CutIntoVoxels`.
  `ApplyVoxelForces` is the per-voxel loop of `FixedUpdate`.

`Valid()` is the state every handler preserves: a voxel size in (0, 1], a
non-zero density, and voxels present whenever a water volume is set. The last
part holds because `OnTriggerEnter` cuts the voxels in the same call that sets
the water. Leaving the water clears only the water reference. The drag values
are not restored: they keep the last values a step set, as the code does.

## Model

All source paths are in `Assets/NaughtyWaterBuoyancy/Scripts/Core/FloatingObject.cs` unless stated.

| member | source | states |
|---|---|---|
| UnityMath.Clamp | Assets/NaughtyWaterBuoyancy/Scripts/Core/FloatingObject.cs:65 | the result lies in [lo, hi]; a value already inside is returned unchanged; below lo gives lo, above hi gives hi |
| UnityMath.Lerp | Assets/NaughtyWaterBuoyancy/Scripts/Core/FloatingObject.cs:80-81 | the interpolated drag lies between the dry and the in-water value (either order); a parameter at or below 0 gives the first end point, at or above 1 the second |
| UnityMath.LerpMonotonic | Assets/NaughtyWaterBuoyancy/Scripts/Core/FloatingObject.cs:80-81 | a larger submerged volume moves the drag further from the dry value towards the in-water value, never back |
| UnityMath.RoundToInt | Assets/NaughtyWaterBuoyancy/Scripts/Core/FloatingObject.cs:134 | the voxel count per axis is within 0.5 of 1 / normalizedVoxelSize, and an exact tie rounds to the even neighbour |
| Geometry.Rotate | Assets/NaughtyWaterBuoyancy/Scripts/Core/FloatingObject.cs:72 | rotating by the identity quaternion leaves a force unchanged |
| Geometry.RotateZero | Assets/NaughtyWaterBuoyancy/Scripts/Core/FloatingObject.cs:72 | proof lemma used by DryVoxelForce: any rotation of a zero force is the zero force, so a dry voxel gets no force at line 72 |
| Geometry.ScaleDivBy | Assets/NaughtyWaterBuoyancy/Scripts/Core/FloatingObject.cs:54 | proof lemma used by FullySubmergedForce: n equal shares force / n, as split at line 54, add back up to the force |
| Geometry.Bounds.Size | Assets/NaughtyWaterBuoyancy/Scripts/Core/FloatingObject.cs:131-133 | bounds.min + bounds.size is bounds.max |
| Engine.Rigidbody.AddForceAtPosition | Assets/NaughtyWaterBuoyancy/Scripts/Core/FloatingObject.cs:73 | the applied force and its position are appended to the body's force log, and nothing else changes |
| Voxelizer.AxisCount | Assets/NaughtyWaterBuoyancy/Scripts/Core/FloatingObject.cs:134 | voxelsCountForEachAxis is 1 / normalizedVoxelSize rounded to the nearest integer, hence within 0.5 of it |
| Voxelizer.Select | Assets/NaughtyWaterBuoyancy/Scripts/Core/FloatingObject.cs:148-151 | the kept voxels are never more than the candidates examined |
| Voxelizer.CollectVoxels | Assets/NaughtyWaterBuoyancy/Scripts/Core/FloatingObject.cs:137-154 | the triple loop returns exactly the local images of the inside candidates of the whole lattice, in lattice order |
| Voxelizer.CollectSlab | Assets/NaughtyWaterBuoyancy/Scripts/Core/FloatingObject.cs:139-153 | the loop over j returns the kept voxels of the slab i, in order |
| Voxelizer.CollectRow | Assets/NaughtyWaterBuoyancy/Scripts/Core/FloatingObject.cs:141-152 | the loop over k computes each centre, keeps it when the inside test passes and appends its local position, in order |
| Voxelizer.SelectAppend | Assets/NaughtyWaterBuoyancy/Scripts/Core/FloatingObject.cs:137-154 | proof lemma used by CollectVoxels, CollectSlab and CollectRow: filtering the candidates piece by piece and concatenating gives the filtered whole, so the voxel list keeps the candidates' order |
| Voxelizer.SelectSound | Assets/NaughtyWaterBuoyancy/Scripts/Core/FloatingObject.cs:148-151 | every kept voxel is the local image of a candidate that passed the inside test |
| Voxelizer.SelectComplete | Assets/NaughtyWaterBuoyancy/Scripts/Core/FloatingObject.cs:148-151 | every candidate that passes the inside test contributes its local image |
| Voxelizer.CandidatesLength | Assets/NaughtyWaterBuoyancy/Scripts/Core/FloatingObject.cs:137-141 | the loops examine exactly n * n * n candidate centres |
| Voxelizer.CandidateAt | Assets/NaughtyWaterBuoyancy/Scripts/Core/FloatingObject.cs:137-147 | the candidate at position i * n * n + j * n + k is the centre of cell (i, j, k): the loops run in (i, j, k) lexicographic order |
| Voxelizer.CentreWithin | Assets/NaughtyWaterBuoyancy/Scripts/Core/FloatingObject.cs:143-145 | every cell centre `Centre` = min + voxelSize * (0.5 + index), with `VoxelSize` = bounds size * normalizedVoxelSize, lies inside the collider's bounds |
| Voxelizer.VoxelizeSpec | Assets/NaughtyWaterBuoyancy/Scripts/Core/FloatingObject.cs:131-154 | `Voxelize`, the selection over `Candidates` (the n x n x n lattice of centres), yields at most n * n * n voxels; each is the local image of a lattice centre that lies in the bounds and passed the inside test; every such centre contributes its image |
| Buoyancy.BodyDensity | Assets/NaughtyWaterBuoyancy/Scripts/Core/FloatingObject.cs:43-47 | with calculateDensity the density times the mesh volume is the mass; otherwise the configured density is kept |
| Buoyancy.DerivedDensityDisplacesMeshVolume | Assets/NaughtyWaterBuoyancy/Scripts/Core/FloatingObject.cs:43-47 | with a derived density, the object volume mass / density used for the buoyant force equals the mesh volume |
| Buoyancy.MaxBuoyancyForce | Assets/NaughtyWaterBuoyancy/Scripts/Core/FloatingObject.cs:117-123 | the maximum buoyant force is water density * (mass / density) times gravity, reversed: added to that weight it gives zero (its physical meaning is stated by MaxBuoyancyForceOfMeshVolume and its use by FixedUpdate) |
| Buoyancy.MaxBuoyancyForceOfMeshVolume | Assets/NaughtyWaterBuoyancy/Scripts/Core/FloatingObject.cs:117-123 | Archimedes' principle: with the density Awake derives from the mesh volume (lines 43-47), the maximum buoyant force is the weight of water filling the mesh volume, pointing against gravity |
| Buoyancy.SubmergedFactor | Assets/NaughtyWaterBuoyancy/Scripts/Core/FloatingObject.cs:63-65 | the submerged factor lies in [0, 1]; it is 0 exactly when the water is at or below the voxel's bottom face and 1 exactly when it reaches the top face |
| Buoyancy.Factors | Assets/NaughtyWaterBuoyancy/Scripts/Core/FloatingObject.cs:59-66 | one submerged factor per voxel, each in [0, 1] |
| Buoyancy.SumWithin | Assets/NaughtyWaterBuoyancy/Scripts/Core/FloatingObject.cs:66 | `Sum`, the submerged volume accumulated front to back, lies between 0 and the voxel count |
| Buoyancy.MeanWithin | Assets/NaughtyWaterBuoyancy/Scripts/Core/FloatingObject.cs:78 | `Mean`, the accumulated volume divided by the voxel count, lies in [0, 1] |
| Buoyancy.MeanOfUniformWater | Assets/NaughtyWaterBuoyancy/Scripts/Core/FloatingObject.cs:58-78 | the averaged submerged volume is 1 when the water covers every voxel and 0 when no voxel reaches the water |
| Buoyancy.DragFollowsSubmersion | Assets/NaughtyWaterBuoyancy/Scripts/Core/FloatingObject.cs:78-81 | the drag a step sets lies between the dry and the in-water value; it is the dry value when no voxel touches the water and the in-water value when every voxel is covered |
| Buoyancy.StepForces | Assets/NaughtyWaterBuoyancy/Scripts/Core/FloatingObject.cs:59-73 | one applied force per voxel, in voxel order, each at that voxel's world position; the force is `VoxelForce`: the share scaled by the voxel's submerged factor and rotated by `SurfaceRotation`, FromToRotation(up, surface normal) slerped towards identity by that factor |
| Buoyancy.WetVoxelForce | Assets/NaughtyWaterBuoyancy/Scripts/Core/FloatingObject.cs:64-72 | a covered voxel receives exactly its share of the force, unrotated, when Slerp at 1 reaches its target |
| Buoyancy.FullySubmergedForce | Assets/NaughtyWaterBuoyancy/Scripts/Core/FloatingObject.cs:54-73 | with every voxel covered, the shares maxForce / voxel count applied in one step add up to the maximum buoyant force |
| Buoyancy.SubmergedStepAppends | Assets/NaughtyWaterBuoyancy/Scripts/Core/FloatingObject.cs:54-73 | for a fully submerged body (`Covered`: the water reaches the top of every voxel), the forces a step appends to the force log add up to the maximum buoyant force, when Slerp at parameter 1 returns its target |
| Buoyancy.DryVoxelForce | Assets/NaughtyWaterBuoyancy/Scripts/Core/FloatingObject.cs:64-72 | a voxel above the water receives the zero force |
| Buoyancy.DryBodyForce | Assets/NaughtyWaterBuoyancy/Scripts/Core/FloatingObject.cs:59-73 | with no voxel touching the water, the forces of one step add up to zero |
| FloatingObjects.FloatingObject.constructor | Assets/NaughtyWaterBuoyancy/Scripts/Core/FloatingObject.cs:35-48 | Awake records the rigid body's drag and angular drag as the dry values and settles the density; the object starts out of the water with no voxels, in a valid state |
| FloatingObjects.FloatingObject.CutIntoVoxels | Assets/NaughtyWaterBuoyancy/Scripts/Core/FloatingObject.cs:125-159 | the voxels are those of the lattice of the identity-rotation bounds; voxelSize is `VoxelSize`, the bounds' size times normalizedVoxelSize; the rotation is restored; the array is new |
| FloatingObjects.FloatingObject.OnTriggerEnter | Assets/NaughtyWaterBuoyancy/Scripts/Core/FloatingObject.cs:85-95 | a water-tagged collider becomes the water; voxels are cut only when there are none yet, which also sets voxelSize; existing voxels are the same array with the same contents and voxelSize is kept; any other collider changes nothing; the rotation is unchanged and the state stays valid |
| FloatingObjects.FloatingObject.OnTriggerExit | Assets/NaughtyWaterBuoyancy/Scripts/Core/FloatingObject.cs:97-103 | a water-tagged collider clears the water and nothing else; any other collider changes nothing |
| FloatingObjects.FloatingObject.FixedUpdate | Assets/NaughtyWaterBuoyancy/Scripts/Core/FloatingObject.cs:50-83 | without water or without voxels (`Floating`, line 52) the rigid body is untouched; otherwise the step's forces at the voxels' world points (`WorldPoints`, line 61) are appended, one share maxForce / voxel count per voxel with voxel height `VoxelHeight` (line 56), both drags become Lerp of the averaged submerged volume, and for a fully submerged body the appended forces add up to the maximum buoyant force, when Slerp at parameter 1 returns its target |
| FloatingObjects.FloatingObject.ApplyVoxelForces | Assets/NaughtyWaterBuoyancy/Scripts/Core/FloatingObject.cs:58-76 | the per-voxel loop appends exactly the step's forces in voxel order and returns the sum of the submerged factors |

## Left out

- The Unity engine is given, not modelled: collider bounds for a pose, the ray-cast inside test (`ColliderUtils.IsPointInsideCollider`), the transform's local/world mappings, the water's `GetWaterLevel` and `GetSurfaceNormal`, and `Quaternion.FromToRotation` and `Quaternion.Slerp` are function values. The water's up axis and its surface queries are fixed for each water-volume object, so the model does not capture a surface that deforms from one step to the next; no proved property spans two steps. Two properties are assumed of the engine, each only where stated as a precondition:
  - Slerp at parameter 1 returns its target (`SlerpReachesTarget`), in `WetVoxelForce`, `FullySubmergedForce`, `SubmergedStepAppends` and the fully submerged total of `FixedUpdate`;
  - the collider's bounds are well formed, with non-negative extents on every axis (`Bounds.WellFormed`), in `CentreWithin`, `VoxelLatticeWithin` and `VoxelizeSpec`; the containment of the voxels in the bounding box reaches the object's real voxels only under this assumption.
- `Physics.gravity` is a parameter of `FixedUpdate`.
- `MathfUtils.CalculateVolume_Mesh` is not part of this model: the mesh volume is a parameter of the constructor.
- The component lookups of `Awake` (`GetComponent`) are not modelled: the collider, rigid body and transform are passed to the constructor.
- Assets/NaughtyWaterBuoyancy/Scripts/Core/WaterVolume.cs is not part of this model. The water tag is the string "Water Volume", the value of `WaterVolume.TAG` in Assets/Water Buoyancy/Scripts/WaterVolume.cs:10.
- Floating point is modelled by the reals: no rounding, no NaN or infinity. The divisions the source may perform by zero are excluded by the preconditions below.
- FloatingObjects.FloatingObject.constructor: requires 0 < normalizedVoxelSize <= 1; the inspector range allows 0, which makes 1 / 0 at line 134.
- FloatingObjects.FloatingObject.constructor: requires a non-zero density, and for a derived density a non-zero mass and mesh volume.
- FloatingObjects.FloatingObject.FixedUpdate: requires a positive voxel height while floating; a flat collider divides by zero at line 65.
- The float-to-int conversion of `RoundToInt` for values beyond the 32-bit range is not modelled.
- FloatingObjects.FloatingObject.CutIntoVoxels: the 32-bit product n * n * n passed as the list's initial capacity at line 135 is not modelled, and the model assumes the list is created. In the source the product overflows from n = 1291 (a normalizedVoxelSize below about 0.000775). For many such n (1291 to 1625, for example) it is negative and the list constructor throws; for others it wraps to an arbitrary positive capacity (n = 1626 gives 3975080), and a very large positive capacity can exhaust memory. The model does not capture that exception path.
- `Debug.DrawLine` and `OnDrawGizmos` only draw and are left out.
- Unity's quaternion-times-vector product is the standard rotation formula, exact for unit quaternions. Quaternion normalisation is not modelled.
- FloatingObjects.FloatingObject.Valid: requires voxels whenever a water volume is set, and every handler keeps it. In the source this holds only while `CutIntoVoxels` completes. When the capacity exception above is thrown, line 89 has already set `water` and the voxels stay null. The next `FixedUpdate` then dereferences null at line 52. The model does not capture this state.
