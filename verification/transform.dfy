/**
 Transform nodes as the scene graph hands them to the animation code.

 A mesh or group is reached through a React ref whose `current` slot is empty
 until the node has been mounted; `Ref` makes that empty slot explicit so that
 every update can say what it does when there is no node yet.
 */
module Transform {

  /** Euler rotation angles of a transform node, in radians, never wrapped. */
  datatype Euler = Euler(x: real, y: real, z: real)

  /** The rotation every three.js node starts with. */
  const Identity: Euler := Euler(0.0, 0.0, 0.0)

  /** A ref: either not yet attached to a node, or holding the node's current value. */
  datatype Ref<T> = Unset | Current(value: T)
}
