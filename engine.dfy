/**
 The engine-side values the controller works with. The AR framework, the
 renderer and the UI toolkit are not modelled: what they deliver each frame
 (touches, the plane raycast result, the frame time) becomes a `Frame` value,
 and a scene object becomes a small `GameObject` class holding only the state
 the controller reads or writes.
 */
module Engine {

  datatype Option<T> = None | Some(value: T)

  datatype Vec2 = Vec2(x: real, y: real)

  datatype Vec3 = Vec3(x: real, y: real, z: real)

  /** Orientation; the controller only passes it from the raycast hit to the new object. */
  datatype Quaternion = Quaternion(x: real, y: real, z: real, w: real)

  /** Position and orientation of a raycast hit on a tracked plane. */
  datatype Pose = Pose(position: Vec3, rotation: Quaternion)

  /** An RGBA colour with the engine's values for the three named colours used. */
  datatype Color = Color(r: real, g: real, b: real, a: real)

  const White := Color(1.0, 1.0, 1.0, 1.0)
  const Yellow := Color(1.0, 0.92, 0.016, 1.0)
  const Green := Color(0.0, 1.0, 0.0, 1.0)

  datatype TouchPhase = Began | Moved | Stationary | Ended | Canceled

  datatype Touch = Touch(position: Vec2, phase: TouchPhase)

  /**
   The input of one frame: the active touches in the engine's order, the
   distance between the first two touches (the engine's square root), the
   frame time, and what a plane raycast from the first touch's position
   returns (the pose of the nearest hit, or nothing).
   */
  datatype Frame = Frame(touches: seq<Touch>, pinchDistance: real, deltaTime: real, planeHit: Option<Pose>)

  /** A catalogue entry: its name and what the prefab gives a new instance. */
  datatype ModelData = ModelData(name: string, prefabScale: Vec3, prefabHasRenderer: bool, prefabColor: Color)

  /** A spawned scene object. */
  class GameObject {
    const source: ModelData
    /** Whether the object carries a renderer component whose colour can be set. */
    const hasRenderer: bool
    var pose: Pose
    /**
     Degrees turned about the world up axis since placement. The controller
     only ever rotates about that one axis, so the current orientation is
     that turn applied to the placement pose's rotation.
     */
    var worldYaw: real
    var localScale: Vec3
    var color: Color
    var destroyed: bool

    /** Instantiating a prefab at a pose. */
    constructor Instantiate(d: ModelData, at: Pose)
      ensures source == d && hasRenderer == d.prefabHasRenderer
      ensures pose == at && worldYaw == 0.0 && localScale == d.prefabScale && color == d.prefabColor
      ensures !destroyed
    {
      source := d;
      hasRenderer := d.prefabHasRenderer;
      pose := at;
      worldYaw := 0.0;
      localScale := d.prefabScale;
      color := d.prefabColor;
      destroyed := false;
    }

    /** The object is exactly as `Instantiate(d, at)` leaves it: untouched since it was placed. */
    ghost predicate AsInstantiated(d: ModelData, at: Pose)
      reads this
    {
      && source == d && hasRenderer == d.prefabHasRenderer
      && pose == at && worldYaw == 0.0 && localScale == d.prefabScale && color == d.prefabColor
      && !destroyed
    }
  }
}
