/** Numeric vocabulary shared by every module: bytes, IEEE results that are
    not finite, small vectors, and the transcendental functions of the C++
    standard library (which Dafny cannot define) passed in as a record. */
module MathLib {

  /** An `unsigned char` value. */
  type Byte = x: int | 0 <= x < 256

  /** A `float` / `double` result: a real number, or an infinity / NaN
      produced by a division by zero. */
  datatype Float = Finite(value: real) | NonFinite

  datatype Option<T> = None | Some(value: T)

  /** The value held, or `default` when there is none. */
  function OrElse<T>(o: Option<T>, default: T): T
  {
    if o.Some? then o.value else default
  }

  datatype Vec2 = Vec2(x: real, y: real)
  datatype Vec3 = Vec3(x: real, y: real, z: real)
  datatype Vec4 = Vec4(x: real, y: real, z: real, w: real)

  /** `glm::pi<float>()`, the single-precision value of pi. */
  const Pi: real := 3.1415927

  /** `std::sqrt`, `std::log10`, `std::sin`, `std::cos` and `std::asin`.
      Nothing is assumed about them unless a lemma asks for it (see
      SqrtSound, TrigSound, AsinInverts). */
  datatype Math = Math(
    sqrt: real -> real,
    log10: real -> real,
    sin: real -> real,
    cos: real -> real,
    asin: real -> real)

  ghost predicate SqrtSound(m: Math) {
    forall x :: 0.0 <= x ==> 0.0 <= m.sqrt(x) && m.sqrt(x) * m.sqrt(x) == x
  }

  ghost predicate TrigSound(m: Math) {
    forall t :: m.sin(t) * m.sin(t) + m.cos(t) * m.cos(t) == 1.0
  }

  ghost predicate AsinInverts(m: Math) {
    forall x :: -1.0 <= x <= 1.0 ==> m.sin(m.asin(x)) == x
  }

  function Abs(x: real): (r: real)
    ensures 0.0 <= r && (r == x || r == -x)
  {
    if x < 0.0 then -x else x
  }

  function Min(a: real, b: real): (r: real)
    ensures r <= a && r <= b && (r == a || r == b)
  {
    if b < a then b else a
  }

  function Max(a: real, b: real): (r: real)
    ensures a <= r && b <= r && (r == a || r == b)
  {
    if a < b then b else a
  }

  /** `glm::clamp(x, lo, hi)`, i.e. `min(max(x, lo), hi)`. */
  function Clamp(x: real, lo: real, hi: real): (r: real)
    requires lo <= hi
    ensures lo <= r <= hi
    ensures lo <= x <= hi ==> r == x
  {
    Min(Max(x, lo), hi)
  }

  function Add(a: Vec3, b: Vec3): Vec3 { Vec3(a.x + b.x, a.y + b.y, a.z + b.z) }
  function Sub(a: Vec3, b: Vec3): Vec3 { Vec3(a.x - b.x, a.y - b.y, a.z - b.z) }
  function Scale(k: real, a: Vec3): Vec3 { Vec3(k * a.x, k * a.y, k * a.z) }
  function Dot(a: Vec3, b: Vec3): real { a.x * b.x + a.y * b.y + a.z * b.z }

  /** `glm::length`. */
  function Length(v: Vec3, m: Math): real { m.sqrt(Dot(v, v)) }

  /** `glm::normalize`: a zero vector has no direction (the division by a
      zero length gives NaN components, modelled as None). */
  function Normalize(v: Vec3, m: Math): Option<Vec3>
  {
    var len := Length(v, m);
    if len == 0.0 then None else Some(Scale(1.0 / len, v))
  }

  /** `glm::radians` and `glm::degrees`. */
  function Radians(deg: real): real { deg * (Pi / 180.0) }
  function Degrees(rad: real): real { rad * (180.0 / Pi) }

  /** `glm::lookAt(eye, center, up)`, kept symbolic. */
  datatype View = LookAt(eye: Vec3, center: Vec3, up: Vec3)

  /** `glm::perspective(fovy, aspect, near, far)`, kept symbolic. */
  datatype Projection = Perspective(fovy: real, aspect: real, near: real, far: real)

  /** `static_cast<unsigned char>(x)` for a channel value `x` in [0, 255]:
      truncation toward zero. Outside that range the C++ conversion is
      undefined; the model saturates. */
  function ToByte(x: real): (b: Byte)
    ensures 0.0 <= x < 256.0 ==> b == x.Floor
  {
    if x < 0.0 then 0 else if x >= 255.0 then 255 else x.Floor
  }

  lemma ToByteMonotone(a: real, b: real)
    requires a <= b
    ensures ToByte(a) <= ToByte(b)
  {
    if 0.0 <= a && b < 255.0 {
      assert a.Floor as real <= a <= b;
    }
  }

  /** Multiplication by a natural number is monotone (a helper for index
      arithmetic over row-major buffers). */
  /** Multiplying by a non-negative factor keeps the order of reals. */
  lemma MulMonoReal(a: real, b: real, k: real)
    requires a <= b && 0.0 <= k
    ensures k * a <= k * b
  {
  }

  lemma MulMono(a: int, b: int, s: int)
    requires a <= b && 0 <= s
    ensures a * s <= b * s
  {
  }

  /** A row-major index `y * w + x` of a pixel of a `w` x `h` image lies
      below `h * w`. */
  lemma RowMajorBound(x: int, y: int, w: int, h: int)
    requires 0 <= x < w && 0 <= y < h
    ensures 0 <= y * w + x < h * w
  {
    MulMono(y + 1, h, w);
    MulMono(0, y, w);
  }

  /** Row-major index arithmetic: `y * w + x` with `x < w` determines
      `(x, y)`, and lies below `h * w` when `y < h`. */
  lemma RowMajor(x: int, y: int, w: int, h: int)
    requires 0 <= x < w && 0 <= y < h
    ensures 0 <= y * w + x < h * w
    ensures (y * w + x) / w == y && (y * w + x) % w == x
  {
    RowMajorBound(x, y, w, h);
    MulMono(0, y, w);
    var i := y * w + x;
    var q, r := i / w, i % w;
    assert i == q * w + r && 0 <= r < w;
    if q < y {
      MulMono(q + 1, y, w);
      assert false;
    } else if q > y {
      MulMono(y + 1, q, w);
      assert false;
    }
  }
}
