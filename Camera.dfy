/**
 * Camera poses, kept symbolic: the controller never computes a position or
 * a quaternion itself, it only records which pose it asked three.js for.
 */
module Camera {
  import opened Screens

  /** A camera position together with its orientation. */
  datatype Pose =
    | Origin
      // a fresh `Vector3` and `Quaternion`: the zero vector and the identity rotation
    | Facing(screen: Object3D, rootRotationY: real, rootScale: real, from: Pose)
      // 0.9 scene units in front of `screen`'s world position, on the line from
      // `from`, looking at the screen; the world position depends on the model
      // root's turn `rootRotationY` and uniform scale `rootScale` (its height
      // offset is the fixed -0.3 set at load)
    | Blend(start: Pose, end: Pose, w: real)
      // `lerpVectors` of the positions and `slerpQuaternions` of the orientations at weight `w`

  /** The interpolation both flights apply each frame, with the laws it obeys at its ends. */
  function Interp(a: Pose, b: Pose, w: real): (p: Pose)
    ensures w == 0.0 ==> p == a
    ensures w == 1.0 ==> p == b
    ensures a == b ==> p == a
  {
    if w == 0.0 || a == b then a
    else if w == 1.0 then b
    else Blend(a, b, w)
  }
}
