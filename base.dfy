/** Values shared by the whole model: an optional value, and the vectors and
    Euler angles that three.js keeps on its objects, over exact reals. */
module Base {

  /** `T | null` or `T | undefined` in the component. */
  datatype Option<+T> = None | Some(value: T)

  /** A three.js `Vector3`. */
  datatype Vec3 = Vec3(x: real, y: real, z: real)

  /** A three.js `Euler` rotation, in radians, in the default XYZ order. */
  datatype Euler = Euler(x: real, y: real, z: real)

  /** The position of a freshly built object. */
  const Origin := Vec3(0.0, 0.0, 0.0)

  /** The rotation of a freshly built object. */
  const NoRotation := Euler(0.0, 0.0, 0.0)

  /** `v.clone().multiplyScalar(k)`. */
  function Scale(v: Vec3, k: real): Vec3 {
    Vec3(v.x * k, v.y * k, v.z * k)
  }

  /** The vector `scale.set(k, k, k)` leaves behind. */
  function Uniform(k: real): Vec3 {
    Vec3(k, k, k)
  }

  /** The decimal digits of `n`, as JavaScript's number-to-string conversion
      writes a non-negative integer. */
  function Decimal(n: nat): string
    decreases n
  {
    (if n < 10 then "" else Decimal(n / 10)) + [(48 + n % 10) as char]
  }
}
