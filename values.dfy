/**
 * Plain values shared by the whole model: C# nullable references, results
 * with an error path, and the engine's vector records (as exact reals).
 */
module Values {

  /** A C# reference that may be null. */
  datatype Nullable<+T> = Null | NonNull(value: T)

  /** The outcome of an operation that can throw. */
  datatype Result<+R, +E> = Success(value: R) | Failure(error: E)

  /** UnityEngine.Vector2, with exact real components. */
  datatype Vec2 = Vec2(x: real, y: real)

  /** UnityEngine.Vector3, with exact real components. */
  datatype Vec3 = Vec3(x: real, y: real, z: real)

  const Zero3: Vec3 := Vec3(0.0, 0.0, 0.0)
  const Up3: Vec3 := Vec3(0.0, 1.0, 0.0)

  /** Unary minus on a vector. */
  function Neg(v: Vec3): (r: Vec3)
    ensures Add(v, r) == Zero3
  {
    Vec3(-v.x, -v.y, -v.z)
  }

  function Add(a: Vec3, b: Vec3): Vec3
  {
    Vec3(a.x + b.x, a.y + b.y, a.z + b.z)
  }

  /** Vector difference a - b. */
  function Sub(a: Vec3, b: Vec3): (r: Vec3)
    ensures Add(b, r) == a
  {
    Vec3(a.x - b.x, a.y - b.y, a.z - b.z)
  }

  /** Identity of a scene collider (what a raycast hit reports). */
  type ColliderId = nat

  /** Identity of a prefab asset. */
  type AssetId = nat

  /** Identity of a scene transform. */
  type TransformId = nat
}
