/** The hemisphere view schedule of the evaluation pipeline
    (src/Scene/CameraSampler.cpp): a Fibonacci lattice of camera positions
    on the upper half of a sphere around the normalised model, optional
    jitter, a pole guard for the up vector, and one shared projection. */
module SceneCamera {
  import opened MathLib

  /** Lowest allowed height on the unit sphere (keeps cameras off the
      equator). */
  const MinHeight: real := 0.01
  /** Cosine above which the view direction counts as parallel to +Y. */
  const PoleCosine: real := 0.99
  /** Degrees added to the framing field of view. */
  const FovMargin: real := 5.0
  const ZNear: real := 0.1
  const ZFar: real := 100.0

  const Origin: Vec3 := Vec3(0.0, 0.0, 0.0)
  const GlobalUp: Vec3 := Vec3(0.0, 1.0, 0.0)
  const PoleUp: Vec3 := Vec3(0.0, 0.0, 1.0)

  /** `pi * (3 - sqrt(5))`, the golden angle. */
  function GoldenAngle(m: Math): real { Pi * (3.0 - m.sqrt(5.0)) }

  /** The azimuth `phi * i` of sample `i`. */
  function Azimuth(phi: real, i: nat): real { phi * i as real }

  /** The full field of view (degrees) that frames a sphere of radius
      `modelRadius` seen from `cameraDistance`; 90 from inside the sphere.
      A zero distance outside a negative radius divides by zero. */
  function CalculateAdaptiveFOV(modelRadius: real, cameraDistance: real, m: Math): Float
  {
    if cameraDistance <= modelRadius then Finite(90.0)
    else if cameraDistance == 0.0 then NonFinite
    else Finite(Degrees(m.asin(modelRadius / cameraDistance)) * 2.0)
  }

  /** From inside the model the fallback of 90 degrees is used. */
  lemma FovInsideModel(modelRadius: real, cameraDistance: real, m: Math)
    requires cameraDistance <= modelRadius
    ensures CalculateAdaptiveFOV(modelRadius, cameraDistance, m) == Finite(90.0)
  {
  }

  /** Outside the model, half the field of view is the angle whose sine is
      `modelRadius / cameraDistance`: the cone just touches the sphere. */
  lemma FovFramesSphere(modelRadius: real, cameraDistance: real, m: Math)
    requires 0.0 <= modelRadius < cameraDistance
    requires AsinInverts(m)
    ensures CalculateAdaptiveFOV(modelRadius, cameraDistance, m).Finite?
    ensures m.sin(Radians(CalculateAdaptiveFOV(modelRadius, cameraDistance, m).value / 2.0))
         == modelRadius / cameraDistance
  {
    var ratio := modelRadius / cameraDistance;
    assert ratio * cameraDistance == modelRadius;
    assert 0.0 <= ratio <= 1.0;
    var a := m.asin(ratio);
    assert Radians(Degrees(a) * 2.0 / 2.0) == a;
  }

  /** The projection every sample shares: the framing angle of the unit
      sphere from the camera radius, plus the margin. */
  function SharedProjection(sphereRadius: real, aspect: real, m: Math): Projection
  {
    var fov := CalculateAdaptiveFOV(1.0, sphereRadius, m);
    assert fov.Finite?;
    Perspective(Radians(fov.value + FovMargin), aspect, ZNear, ZFar)
  }

  /** One generated view. */
  datatype Sample = Sample(index: int, position: Option<Vec3>, view: Option<View>, proj: Projection)

  /** `1 - i / (n - 1)`: 1 for the first sample and 0 for the last. With a
      single sample this is 0 / 0, a NaN (None). */
  function BaseHeight(i: nat, n: nat): Option<real>
    requires i < n
  {
    if n == 1 then None else Some(1.0 - i as real / (n - 1) as real)
  }

  /** The height on the unit sphere after jitter, clamped. */
  function FinalHeight(y: real, jitterY: real): (h: real)
    ensures MinHeight <= h <= 1.0
  {
    Clamp(y + jitterY, MinHeight, 1.0)
  }

  /** The camera position for base height `y` and azimuth `theta`. */
  function Position(y: real, theta: real, jitterY: real, jitterTheta: real, sphereRadius: real, m: Math): Vec3
  {
    Scale(sphereRadius, RingPoint(FinalHeight(y, jitterY), theta + jitterTheta, m))
  }

  /** The point at height `h` and azimuth `theta` on the unit sphere: the
      ring at that height has radius `sqrt(1 - h * h)`. */
  function RingPoint(h: real, theta: real, m: Math): Vec3
  {
    var ringRadius := m.sqrt(1.0 - h * h);
    Vec3(m.cos(theta) * ringRadius, h, m.sin(theta) * ringRadius)
  }

  /** The up vector: +Z when the view direction is within the pole cone of
      +Y, +Y otherwise (also when the direction is undefined). */
  function UpFor(position: Vec3, m: Math): Vec3
  {
    match Normalize(Sub(Origin, position), m)
    case None => GlobalUp
    case Some(forward) => if Abs(Dot(forward, GlobalUp)) > PoleCosine then PoleUp else GlobalUp
  }

  /** The two draws of sample `i` when jitter is enabled: the random source
      is the sequence `draw` of values of the uniform distribution on
      [-jitterStrength, jitterStrength], consumed two per sample. */
  function JitterY(i: nat, jitterStrength: real, draw: nat -> real): real
  {
    if jitterStrength > 0.0 then draw(2 * i) else 0.0
  }

  function JitterTheta(i: nat, jitterStrength: real, draw: nat -> real): real
  {
    if jitterStrength > 0.0 then draw(2 * i + 1) * 2.0 * Pi else 0.0
  }

  function SampleAt(i: nat, n: nat, sphereRadius: real, aspect: real, jitterStrength: real,
                    draw: nat -> real, m: Math): Sample
    requires i < n
  {
    var proj := SharedProjection(sphereRadius, aspect, m);
    match BaseHeight(i, n)
    case None => Sample(i, None, None, proj)
    case Some(y) =>
      var p := Position(y, Azimuth(GoldenAngle(m), i), JitterY(i, jitterStrength, draw),
                        JitterTheta(i, jitterStrength, draw), sphereRadius, m);
      Sample(i, Some(p), Some(LookAt(p, Origin, UpFor(p, m))), proj)
  }

  /** The schedule: `n` samples, sample `i` at position `i` with index `i`,
      all with the shared projection. */
  function Samples(n: nat, sphereRadius: real, aspect: real, jitterStrength: real,
                   draw: nat -> real, m: Math): (s: seq<Sample>)
    ensures |s| == n
    ensures forall i :: 0 <= i < n ==> s[i].index == i
    ensures forall i :: 0 <= i < n ==> s[i].proj == SharedProjection(sphereRadius, aspect, m)
  {
    seq(n, i requires 0 <= i < n => SampleAt(i, n, sphereRadius, aspect, jitterStrength, draw, m))
  }

  /** One pass of the sampling loop: sample `i`, drawing two jitter values
      from position `next` of the random source when jitter is enabled. */
  method NextSample(i: nat, sampleCount: nat, phi: real, projMatrix: Projection, sphereRadius: real,
                    aspect: real, jitterStrength: real, draw: nat -> real, next: nat, m: Math)
    returns (sample: Sample, next': nat)
    requires i < sampleCount && phi == GoldenAngle(m)
    requires projMatrix == SharedProjection(sphereRadius, aspect, m)
    requires next == if jitterStrength > 0.0 then 2 * i else 0
    ensures next' == if jitterStrength > 0.0 then 2 * (i + 1) else 0
    ensures sample == SampleAt(i, sampleCount, sphereRadius, aspect, jitterStrength, draw, m)
  {
    next' := next;
    var y := BaseHeight(i, sampleCount);
    var theta := Azimuth(phi, i);
    var jitterY := 0.0;
    var jitterTheta := 0.0;
    if jitterStrength > 0.0 {
      jitterY := draw(next');
      jitterTheta := draw(next' + 1) * 2.0 * Pi;
      next' := next' + 2;
    }
    if y.None? {
      sample := Sample(i, None, None, projMatrix);
    } else {
      var position := Position(y.value, theta, jitterY, jitterTheta, sphereRadius, m);
      var globalUp := UpFor(position, m);
      sample := Sample(i, Some(position), Some(LookAt(position, Origin, globalUp)), projMatrix);
    }
  }

  method GenerateSamples(sampleCount: nat, sphereRadius: real, aspect: real, jitterStrength: real,
                         draw: nat -> real, m: Math)
    returns (samples: seq<Sample>)
    ensures samples == Samples(sampleCount, sphereRadius, aspect, jitterStrength, draw, m)
  {
    samples := [];
    var phi := GoldenAngle(m);
    var next := 0;
    var projMatrix := SharedProjection(sphereRadius, aspect, m);
    for i := 0 to sampleCount
      invariant next == if jitterStrength > 0.0 then 2 * i else 0
      invariant |samples| == i
      invariant forall k :: 0 <= k < i ==>
                  samples[k] == SampleAt(k, sampleCount, sphereRadius, aspect, jitterStrength, draw, m)
    {
      var sample;
      sample, next := NextSample(i, sampleCount, phi, projMatrix, sphereRadius, aspect,
                                 jitterStrength, draw, next, m);
      samples := samples + [sample];
    }
  }

  /** The base heights run from 1 down to 0 and stay in [0, 1]. */
  lemma BaseHeightRange(i: nat, n: nat)
    requires i < n && 2 <= n
    ensures BaseHeight(i, n).Some?
    ensures 0.0 <= BaseHeight(i, n).value <= 1.0
    ensures i == 0 ==> BaseHeight(i, n).value == 1.0
    ensures i == n - 1 ==> BaseHeight(i, n).value == 0.0
  {
    var q := i as real / (n - 1) as real;
    assert q * (n - 1) as real == i as real;
  }

  /** Without jitter the first camera is at the top of the sphere and the
      last one at the clamped height 0.01, not on the equator. */
  lemma NoJitterHeightEnds(n: nat, jitterStrength: real, draw: nat -> real)
    requires 2 <= n && jitterStrength <= 0.0
    ensures FinalHeight(BaseHeight(0, n).value, JitterY(0, jitterStrength, draw)) == 1.0
    ensures FinalHeight(BaseHeight(n - 1, n).value, JitterY(n - 1, jitterStrength, draw)) == MinHeight
  {
    BaseHeightRange(0, n);
    BaseHeightRange(n - 1, n);
  }

  /** A non-positive jitter strength uses no random value: the schedule is
      the same for every random source. */
  lemma NoJitterIsDeterministic(n: nat, sphereRadius: real, aspect: real, jitterStrength: real,
                                draw1: nat -> real, draw2: nat -> real, m: Math)
    requires jitterStrength <= 0.0
    ensures Samples(n, sphereRadius, aspect, jitterStrength, draw1, m)
         == Samples(n, sphereRadius, aspect, jitterStrength, draw2, m)
  {
    var s1 := Samples(n, sphereRadius, aspect, jitterStrength, draw1, m);
    var s2 := Samples(n, sphereRadius, aspect, jitterStrength, draw2, m);
    forall i | 0 <= i < n ensures s1[i] == s2[i] {
      assert JitterY(i, jitterStrength, draw1) == JitterY(i, jitterStrength, draw2);
      assert JitterTheta(i, jitterStrength, draw1) == JitterTheta(i, jitterStrength, draw2);
    }
  }

  /** With jitter, sample `i` depends on the random source only through
      draws `2i` and `2i + 1`. */
  lemma SampleUsesOwnDraws(i: nat, n: nat, sphereRadius: real, aspect: real, jitterStrength: real,
                           draw1: nat -> real, draw2: nat -> real, m: Math)
    requires i < n
    requires draw1(2 * i) == draw2(2 * i) && draw1(2 * i + 1) == draw2(2 * i + 1)
    ensures SampleAt(i, n, sphereRadius, aspect, jitterStrength, draw1, m)
         == SampleAt(i, n, sphereRadius, aspect, jitterStrength, draw2, m)
  {
  }

  /** The pole guard: the up vector is +Z exactly when the normalised view
      direction has a vertical component above 0.99 in magnitude. */
  lemma UpGuard(position: Vec3, m: Math)
    ensures UpFor(position, m) == PoleUp
        <==> Normalize(Sub(Origin, position), m).Some?
             && Abs(Normalize(Sub(Origin, position), m).value.y) > PoleCosine
  {
    match Normalize(Sub(Origin, position), m)
    case None =>
    case Some(f) =>
      assert Dot(f, GlobalUp) == f.y;
  }

  /** A vector scaled by `k` has squared length `k * k` times the original. */
  lemma ScaleDot(k: real, u: Vec3)
    ensures Dot(Scale(k, u), Scale(k, u)) == (k * k) * Dot(u, u)
  {
  }

  /** The ring point lies on the unit sphere. */
  lemma RingPointIsUnit(h: real, theta: real, m: Math)
    requires SqrtSound(m) && TrigSound(m) && 0.0 <= h <= 1.0
    ensures Dot(RingPoint(h, theta, m), RingPoint(h, theta, m)) == 1.0
  {
    assert h * h <= h * 1.0;
    var r := m.sqrt(1.0 - h * h);
    var c, s := m.cos(theta), m.sin(theta);
    assert r * r == 1.0 - h * h;
    assert s * s + c * c == 1.0;
    assert (c * r) * (c * r) + (s * r) * (s * r) == (c * c + s * s) * (r * r);
  }

  /** Every camera is at distance `sphereRadius` from the origin, given a
      sound square root and sin^2 + cos^2 = 1. */
  lemma PositionOnSphere(y: real, theta: real, jitterY: real, jitterTheta: real, sphereRadius: real, m: Math)
    requires SqrtSound(m) && TrigSound(m)
    ensures Dot(Position(y, theta, jitterY, jitterTheta, sphereRadius, m),
                Position(y, theta, jitterY, jitterTheta, sphereRadius, m))
         == sphereRadius * sphereRadius
  {
    var u := RingPoint(FinalHeight(y, jitterY), theta + jitterTheta, m);
    RingPointIsUnit(FinalHeight(y, jitterY), theta + jitterTheta, m);
    ScaleDot(sphereRadius, u);
  }
}
