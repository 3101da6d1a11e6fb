/** The legacy view schedule (src/Core/CameraSampler.cpp): the same
    Fibonacci lattice as SceneCamera, but the two jitter values are drawn for
    every sample whatever the strength, and the up vector is always +Y. */
module CoreCamera {
  import opened MathLib
  import SceneCamera

  /** One generated view of the legacy sampler. */
  datatype CameraSample = CameraSample(id: int, position: Option<Vec3>, view: Option<View>, projection: Projection)

  /** The legacy framing angle: 90 degrees from inside the sphere, else twice
      the angle whose sine is `modelRadius / cameraDistance`. */
  function CalculateAdaptiveFOV(modelRadius: real, cameraDistance: real, m: Math): Float
  {
    if cameraDistance <= modelRadius then Finite(90.0)
    else if cameraDistance == 0.0 then NonFinite
    else Finite(Degrees(m.asin(modelRadius / cameraDistance)) * 2.0)
  }

  /** Both samplers frame the model with the same angle. */
  lemma FovAgreesWithScene(modelRadius: real, cameraDistance: real, m: Math)
    ensures CalculateAdaptiveFOV(modelRadius, cameraDistance, m)
         == SceneCamera.CalculateAdaptiveFOV(modelRadius, cameraDistance, m)
  {
  }

  /** The projection every legacy sample shares. */
  function SharedProjection(sphereRadius: real, aspect: real, m: Math): Projection
  {
    var fov := CalculateAdaptiveFOV(1.0, sphereRadius, m);
    assert fov.Finite?;
    Perspective(Radians(fov.value + SceneCamera.FovMargin), aspect, SceneCamera.ZNear, SceneCamera.ZFar)
  }

  /** Sample `i`: the random source `draw` holds values of the uniform
      distribution on [-jitterStrength, jitterStrength]; draws `2i` and
      `2i + 1` are the height and azimuth jitter. */
  function SampleAt(i: nat, n: nat, sphereRadius: real, aspect: real,
                    draw: nat -> real, m: Math): CameraSample
    requires i < n
  {
    var proj := SharedProjection(sphereRadius, aspect, m);
    match SceneCamera.BaseHeight(i, n)
    case None => CameraSample(i, None, None, proj)
    case Some(y) =>
      var p := SceneCamera.Position(y, SceneCamera.Azimuth(SceneCamera.GoldenAngle(m), i),
                                    draw(2 * i), draw(2 * i + 1) * 2.0 * Pi, sphereRadius, m);
      CameraSample(i, Some(p), Some(LookAt(p, Origin, SceneCamera.GlobalUp)), proj)
  }

  const Origin: Vec3 := Vec3(0.0, 0.0, 0.0)

  function Samples(n: nat, sphereRadius: real, aspect: real, draw: nat -> real, m: Math): (s: seq<CameraSample>)
    ensures |s| == n
    ensures forall i :: 0 <= i < n ==> s[i].id == i
    ensures forall i :: 0 <= i < n ==> s[i].projection == SharedProjection(sphereRadius, aspect, m)
  {
    seq(n, i requires 0 <= i < n => SampleAt(i, n, sphereRadius, aspect, draw, m))
  }

  /** One pass of the legacy loop: two values are drawn from position `2i`. */
  method NextSample(i: nat, sampleCount: nat, phi: real, projMatrix: Projection, sphereRadius: real,
                    aspect: real, draw: nat -> real, next: nat, m: Math)
    returns (sample: CameraSample, next': nat)
    requires i < sampleCount && phi == SceneCamera.GoldenAngle(m)
    requires projMatrix == SharedProjection(sphereRadius, aspect, m)
    requires next == 2 * i
    ensures next' == 2 * (i + 1)
    ensures sample == SampleAt(i, sampleCount, sphereRadius, aspect, draw, m)
  {
    var y := SceneCamera.BaseHeight(i, sampleCount);
    var theta := SceneCamera.Azimuth(phi, i);
    var jitterY := draw(next);
    var jitterTheta := draw(next + 1) * 2.0 * Pi;
    next' := next + 2;
    if y.None? {
      sample := CameraSample(i, None, None, projMatrix);
    } else {
      var position := SceneCamera.Position(y.value, theta, jitterY, jitterTheta, sphereRadius, m);
      sample := CameraSample(i, Some(position), Some(LookAt(position, Origin, SceneCamera.GlobalUp)), projMatrix);
    }
  }

  method GenerateSamples(sampleCount: nat, sphereRadius: real, aspect: real, draw: nat -> real, m: Math)
    returns (samples: seq<CameraSample>)
    ensures samples == Samples(sampleCount, sphereRadius, aspect, draw, m)
  {
    samples := [];
    var phi := SceneCamera.GoldenAngle(m);
    var next := 0;
    var projMatrix := SharedProjection(sphereRadius, aspect, m);
    for i := 0 to sampleCount
      invariant next == 2 * i
      invariant |samples| == i
      invariant forall k :: 0 <= k < i ==> samples[k] == SampleAt(k, sampleCount, sphereRadius, aspect, draw, m)
    {
      var sample;
      sample, next := NextSample(i, sampleCount, phi, projMatrix, sphereRadius, aspect, draw, next, m);
      samples := samples + [sample];
    }
  }

  /** Both samplers use the same projection. */
  lemma ProjectionAgreesWithScene(sphereRadius: real, aspect: real, m: Math)
    ensures SharedProjection(sphereRadius, aspect, m) == SceneCamera.SharedProjection(sphereRadius, aspect, m)
  {
  }

  /** With zero jitter draws (a zero jitter strength), a legacy camera stands
      where the scene sampler without jitter puts it; its view agrees with
      the scene sampler's exactly when the scene sampler's pole guard keeps
      +Y as the up vector. */
  lemma ZeroJitterMatchesScene(i: nat, n: nat, sphereRadius: real, aspect: real, draw: nat -> real,
                               sceneDraw: nat -> real, m: Math)
    requires i < n
    requires draw(2 * i) == 0.0 && draw(2 * i + 1) == 0.0
    ensures SampleAt(i, n, sphereRadius, aspect, draw, m).position
         == SceneCamera.SampleAt(i, n, sphereRadius, aspect, 0.0, sceneDraw, m).position
    ensures var s := SceneCamera.SampleAt(i, n, sphereRadius, aspect, 0.0, sceneDraw, m);
            s.position.Some? ==>
              (SampleAt(i, n, sphereRadius, aspect, draw, m).view == s.view
               <==> SceneCamera.UpFor(s.position.value, m) == SceneCamera.GlobalUp)
  {
    ProjectionAgreesWithScene(sphereRadius, aspect, m);
  }

  /** Every legacy camera height (before scaling) lies in [0.01, 1]. */
  lemma HeightClamped(i: nat, n: nat, sphereRadius: real, aspect: real, draw: nat -> real, m: Math)
    requires i < n && 0.0 < sphereRadius
    requires SampleAt(i, n, sphereRadius, aspect, draw, m).position.Some?
    ensures SceneCamera.MinHeight * sphereRadius <= SampleAt(i, n, sphereRadius, aspect, draw, m).position.value.y
                                                 <= sphereRadius
  {
    var y := SceneCamera.BaseHeight(i, n).value;
    var h := SceneCamera.FinalHeight(y, draw(2 * i));
    assert SampleAt(i, n, sphereRadius, aspect, draw, m).position.value.y == sphereRadius * h;
    MulMonoReal(SceneCamera.MinHeight, h, sphereRadius);
    MulMonoReal(h, 1.0, sphereRadius);
  }
}
