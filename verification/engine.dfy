/**
 The Unity collaborators of the floating object, reduced to what it observes of
 them. Their behaviour is defined elsewhere (the engine, the water surface, the
 physics ray cast), so each appears as a given function value or as plain state.
 */
module Engine {
  import opened Geometry

  /** The tag carried by every water-volume trigger object (WaterVolume.TAG). */
  const WaterTag := "Water Volume"

  /**
   A water volume component. Its surface queries (GetWaterLevel, GetSurfaceNormal)
   are given functions of the queried world point.
   */
  class WaterVolume {
    const density: real
    /** transform.up of the water object */
    const up: Vec3
    const waterLevel: Vec3 -> real
    const surfaceNormal: Vec3 -> Vec3

    constructor (density: real, up: Vec3, waterLevel: Vec3 -> real, surfaceNormal: Vec3 -> Vec3)
      ensures this.density == density && this.up == up
      ensures this.waterLevel == waterLevel && this.surfaceNormal == surfaceNormal
    {
      this.density := density;
      this.up := up;
      this.waterLevel := waterLevel;
      this.surfaceNormal := surfaceNormal;
    }
  }

  /**
   The other collider of a trigger message: its tag and its WaterVolume
   component (null when it has none).
   */
  datatype TriggerCollider = TriggerCollider(tag: string, waterVolume: WaterVolume?)

  /**
   The floating object's own collider. Its world-space bounds and the ray-cast
   inside test depend on the pose (position, rotation) of the object.
   */
  datatype Collider = Collider(
    boundsAt: (Vec3, Quat) -> Bounds,
    insideAt: (Vec3, Quat, Vec3) -> bool)

  /** The object's transform: a pose the engine maps local points through. */
  class Transform {
    var position: Vec3
    var rotation: Quat
    /** the engine's local-to-world mapping for a pose */
    const localToWorld: (Vec3, Quat, Vec3) -> Vec3
    /** the engine's world-to-local mapping for a pose */
    const worldToLocal: (Vec3, Quat, Vec3) -> Vec3

    constructor (position: Vec3, rotation: Quat,
                 localToWorld: (Vec3, Quat, Vec3) -> Vec3, worldToLocal: (Vec3, Quat, Vec3) -> Vec3)
      ensures this.position == position && this.rotation == rotation
      ensures this.localToWorld == localToWorld && this.worldToLocal == worldToLocal
    {
      this.position := position;
      this.rotation := rotation;
      this.localToWorld := localToWorld;
      this.worldToLocal := worldToLocal;
    }

    function TransformPoint(p: Vec3): Vec3
      reads this
    {
      localToWorld(position, rotation, p)
    }

    function InverseTransformPoint(p: Vec3): Vec3
      reads this
    {
      worldToLocal(position, rotation, p)
    }
  }

  /** One AddForceAtPosition call: a force applied at a world position. */
  datatype PointForce = PointForce(force: Vec3, position: Vec3)

  /**
   The rigid body: its mass, its live drag coefficients and the log of the
   forces applied to it, in the order they were applied.
   */
  class Rigidbody {
    const mass: real
    var drag: real
    var angularDrag: real
    var forces: seq<PointForce>

    constructor (mass: real, drag: real, angularDrag: real)
      ensures this.mass == mass && this.drag == drag && this.angularDrag == angularDrag
      ensures forces == []
    {
      this.mass := mass;
      this.drag := drag;
      this.angularDrag := angularDrag;
      forces := [];
    }

    method AddForceAtPosition(force: Vec3, position: Vec3)
      modifies this`forces
      ensures forces == old(forces) + [PointForce(force, position)]
    {
      forces := forces + [PointForce(force, position)];
    }
  }

  /** Quaternion.FromToRotation and Quaternion.Slerp, as given functions. */
  datatype QuaternionLib = QuaternionLib(
    fromToRotation: (Vec3, Vec3) -> Quat,
    slerp: (Quat, Quat, real) -> Quat)

  /** Slerp at parameter 1 yields its target rotation. */
  ghost predicate SlerpReachesTarget(lib: QuaternionLib) {
    forall a: Quat, b: Quat :: lib.slerp(a, b, 1.0) == b
  }
}
