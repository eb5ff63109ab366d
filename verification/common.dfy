/** Shared value types for the game model: an optional value (the engine's
    nullable references), 3-vectors and colours as exact reals, and a game
    object that pairs the engine's active flag with one behaviour component. */
module Common {

  /** A reference the scene may or may not provide (`null` in the game). */
  datatype Option<+T> = None | Some(value: T) {
    function GetOr(default: T): T {
      match this
      case Some(v) => v
      case None => default
    }
  }

  datatype Vec3 = Vec3(x: real, y: real, z: real)

  const Origin: Vec3 := Vec3(0.0, 0.0, 0.0)

  function Scale(v: Vec3, k: real): Vec3 {
    Vec3(v.x * k, v.y * k, v.z * k)
  }

  datatype Color = Color(r: real, g: real, b: real, a: real)

  const Red: Color := Color(1.0, 0.0, 0.0, 1.0)
  const Yellow: Color := Color(1.0, 0.92, 0.016, 1.0)
  const White: Color := Color(1.0, 1.0, 1.0, 1.0)

  /** A scene object: whether it is active, and the behaviour it carries. */
  datatype GameObject<T> = GameObject(active: bool, comp: T)

  /** The engine's clamp to [0, 1], as applied to the `t` of a colour blend. */
  function Clamp01(t: real): (r: real)
    ensures 0.0 <= r <= 1.0
    ensures 0.0 <= t <= 1.0 ==> r == t
  {
    if t < 0.0 then 0.0 else if t > 1.0 then 1.0 else t
  }
}
