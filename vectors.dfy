/** Three-component vectors, standing in for the graphics library's Vector3.
    Components are reals: floating-point rounding is not modelled. */
module Vectors {

  datatype Vec3 = Vec3(x: real, y: real, z: real)

  /** `new Vector3()`: the zero vector. */
  const Zero: Vec3 := Vec3(0.0, 0.0, 0.0)

  /** `addVectors(u, v)` */
  function Add(u: Vec3, v: Vec3): Vec3 {
    Vec3(u.x + v.x, u.y + v.y, u.z + v.z)
  }

  /** `subVectors(u, v)`: u - v */
  function Sub(u: Vec3, v: Vec3): Vec3 {
    Vec3(u.x - v.x, u.y - v.y, u.z - v.z)
  }

  /** `multiplyScalar(k)` */
  function Scale(k: real, v: Vec3): Vec3 {
    Vec3(k * v.x, k * v.y, k * v.z)
  }

  /** `multiplyScalar(-1)` */
  function Neg(v: Vec3): Vec3 {
    Scale(-1.0, v)
  }

  /** A buffer of `n` zero vectors, as built by `n` pushes of `new Vector3()`. */
  function Zeros(n: nat): seq<Vec3> {
    seq(n, _ => Zero)
  }

  /** The sum of all vectors of a buffer. */
  function Total(buf: seq<Vec3>): Vec3 {
    if |buf| == 0 then Zero else Add(Total(buf[..|buf| - 1]), buf[|buf| - 1])
  }

  /** Adding `v` to one entry of a buffer adds `v` to the buffer's sum. */
  lemma {:induction false} TotalUpdate(buf: seq<Vec3>, i: nat, v: Vec3)
    requires i < |buf|
    ensures Total(buf[i := Add(buf[i], v)]) == Add(Total(buf), v)
  {
    var n := |buf|;
    var upd := buf[i := Add(buf[i], v)];
    if i == n - 1 {
      assert upd[..n - 1] == buf[..n - 1];
    } else {
      assert upd[..n - 1] == buf[..n - 1][i := Add(buf[i], v)];
      TotalUpdate(buf[..n - 1], i, v);
    }
  }

  /** A buffer of zero vectors sums to zero. */
  lemma {:induction false} TotalZeros(n: nat)
    ensures Total(Zeros(n)) == Zero
  {
    if n > 0 {
      assert Zeros(n)[..n - 1] == Zeros(n - 1);
      TotalZeros(n - 1);
    }
  }

  /** Scaling distributes over addition. */
  lemma ScaleAdd(k: real, u: Vec3, v: Vec3)
    ensures Scale(k, Add(u, v)) == Add(Scale(k, u), Scale(k, v))
  {
  }

  /** Scaling by three times `k` adds the `k`-scaled vector three times. */
  lemma ScaleThrice(k: real, v: Vec3)
    ensures Scale(3.0 * k, v) == Add(Add(Scale(k, v), Scale(k, v)), Scale(k, v))
  {
  }

  /** The geometry library's numerics, which this model does not look inside:
      the Euclidean `length()` of a vector, `normalize()` (whose result on the
      zero vector is the library's choice) and the normal that
      `computeFaceNormals()` gives a face with corners a, b, c. */
  datatype Numerics = Numerics(
    length: Vec3 -> real,
    normalize: Vec3 -> Vec3,
    faceNormal: (Vec3, Vec3, Vec3) -> Vec3)
}
