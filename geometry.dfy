/** The vector, box, matrix and ray shapes of the G3D library as the instance
    queries use them. Vector arithmetic is written out over `real`. The library's
    floating-point routines (Euler-angle matrices, matrix inversion, ray-box
    entry time, box containment) are not part of this model; they and the value
    a stored 4-byte float denotes are oracles, carried as function-valued fields
    of `FloatGeometry` and never given a definition. */
module Geometry {
  import opened Bytes

  /** A single-precision float kept as its four stored bytes (little-endian). */
  type Float = b: seq<byte> | |b| == 4 witness [0, 0, 0, 0]

  datatype Vector3<T> = Vector3(x: T, y: T, z: T)

  /** An axis-aligned box given by its low and high corners. */
  datatype AABox<T> = AABox(low: Vector3<T>, high: Vector3<T>)

  type Vec = Vector3<real>

  function Add(a: Vec, b: Vec): (c: Vec) { Vector3(a.x + b.x, a.y + b.y, a.z + b.z) }

  function Sub(a: Vec, b: Vec): (c: Vec) { Vector3(a.x - b.x, a.y - b.y, a.z - b.z) }

  function Scale(v: Vec, s: real): (w: Vec) { Vector3(v.x * s, v.y * s, v.z * s) }

  function Dot(a: Vec, b: Vec): (d: real) { a.x * b.x + a.y * b.y + a.z * b.z }

  /** A 3x3 matrix by rows. */
  datatype Matrix3 = Matrix3(row0: Vec, row1: Vec, row2: Vec)

  /** `m * v`: the matrix applied to a column vector. */
  function MulVec(m: Matrix3, v: Vec): (w: Vec)
  {
    Vector3(Dot(m.row0, v), Dot(m.row1, v), Dot(m.row2, v))
  }

  /** `v * m`: a row vector times the matrix, i.e. the transpose applied to `v`. */
  function VecMul(v: Vec, m: Matrix3): (w: Vec)
  {
    Add(Add(Scale(m.row0, v.x), Scale(m.row1, v.y)), Scale(m.row2, v.z))
  }

  datatype Ray = Ray(origin: Vec, direction: Vec)

  /** A ray's entry time into a box: finite, or infinite when it misses. */
  datatype Time = Finite(t: real) | Infinite

  /** The floating-point facts the queries rely on, left uninterpreted. */
  datatype FloatGeometry = FloatGeometry(
    value: Float -> real,                  // the number a stored float denotes
    pi: real,                              // G3D::pi()
    inverseEulerZYX: (real, real, real) -> Matrix3,
                                           // Matrix3::fromEulerAnglesZYX(z, y, x).inverse()
    intersectionTime: (Ray, AABox<real>) -> Time,  // Ray::intersectionTime
    contains: (AABox<real>, Vec) -> bool)  // AABox::contains

  function ValueOf(g: FloatGeometry, v: Vector3<Float>): (w: Vec)
  {
    Vector3(g.value(v.x), g.value(v.y), g.value(v.z))
  }

  function BoxValueOf(g: FloatGeometry, b: AABox<Float>): (box: AABox<real>)
  {
    AABox(ValueOf(g, b.low), ValueOf(g, b.high))
  }
}
