/** CPU silhouette extraction from depth and normal buffers, and depth
    linearisation (src/Metrics/ImageUtils.cpp). */
module ImageUtils {
  import opened MathLib

  /** Row-major index of pixel (x, y) in an image `w` pixels wide. */
  function GetIdx(x: int, y: int, w: int): int { y * w + x }

  /** Inside a `w` x `h` image the index is in range and determines the
      pixel. */
  lemma GetIdxInverse(x: int, y: int, w: int, h: int)
    requires 0 <= x < w && 0 <= y < h
    ensures 0 <= GetIdx(x, y, w) < w * h
    ensures GetIdx(x, y, w) / w == y && GetIdx(x, y, w) % w == x
  {
    RowMajor(x, y, w, h);
  }

  /** Pixels off the one-pixel border; only these are ever computed. */
  predicate Interior(x: int, y: int, w: int, h: int)
  {
    1 <= x < w - 1 && 1 <= y < h - 1
  }

  /** The buffer sizes the extractor relies on: nothing is read when the
      image has no interior, otherwise one depth and three normal
      components per pixel. */
  predicate ReadsFit(depthMap: seq<real>, normalMap: seq<real>, w: nat, h: nat)
  {
    w < 3 || h < 3 || (w * h <= |depthMap| && w * h * 3 <= |normalMap|)
  }

  /** The depth sample of pixel (x, y). */
  function DepthAt(depthMap: seq<real>, w: nat, h: nat, x: int, y: int): real
    requires 0 <= x < w && 0 <= y < h && w * h <= |depthMap|
  {
    RowMajorBound(x, y, w, h);
    depthMap[GetIdx(x, y, w)]
  }

  /** The normal of pixel (x, y): three consecutive components. */
  function NormalAt(normalMap: seq<real>, w: nat, h: nat, x: int, y: int): Vec3
    requires 0 <= x < w && 0 <= y < h && w * h * 3 <= |normalMap|
  {
    RowMajorBound(x, y, w, h);
    var i := GetIdx(x, y, w) * 3;
    Vec3(normalMap[i], normalMap[i + 1], normalMap[i + 2])
  }

  /** `|dL - dR| + |dT - dB|` over the four cross neighbours, where "top"
      is row y + 1 and "bottom" row y - 1. */
  function DepthGradient(depthMap: seq<real>, w: nat, h: nat, x: int, y: int): real
    requires Interior(x, y, w, h) && w * h <= |depthMap|
  {
    Abs(DepthAt(depthMap, w, h, x - 1, y) - DepthAt(depthMap, w, h, x + 1, y))
      + Abs(DepthAt(depthMap, w, h, x, y + 1) - DepthAt(depthMap, w, h, x, y - 1))
  }

  /** `length(nL - nR) + length(nT - nB)`. */
  function NormalGradient(normalMap: seq<real>, w: nat, h: nat, x: int, y: int, m: Math): real
    requires Interior(x, y, w, h) && w * h * 3 <= |normalMap|
  {
    Length(Sub(NormalAt(normalMap, w, h, x - 1, y), NormalAt(normalMap, w, h, x + 1, y)), m)
      + Length(Sub(NormalAt(normalMap, w, h, x, y + 1), NormalAt(normalMap, w, h, x, y - 1)), m)
  }

  /** The mask value of pixel (x, y): 255 on an interior pixel where either
      gradient exceeds its threshold, 0 everywhere else. */
  function EdgeAt(depthMap: seq<real>, normalMap: seq<real>, w: nat, h: nat, x: int, y: int,
                  depthThresh: real, normalThresh: real, m: Math): Byte
    requires 0 <= x < w && 0 <= y < h && ReadsFit(depthMap, normalMap, w, h)
  {
    if Interior(x, y, w, h)
       && (DepthGradient(depthMap, w, h, x, y) > depthThresh
           || NormalGradient(normalMap, w, h, x, y, m) > normalThresh)
    then 255 else 0
  }

  lemma DivBelow(i: int, w: int, h: int)
    requires 0 <= i < w * h && 0 < w
    ensures 0 <= i / w < h && 0 <= i % w < w
  {
    if i / w >= h {
      MulMono(h, i / w, w);
      assert false;
    }
  }

  /** The whole mask, in row-major order. */
  function Silhouette(depthMap: seq<real>, normalMap: seq<real>, w: nat, h: nat,
                      depthThresh: real, normalThresh: real, m: Math): (s: seq<Byte>)
    requires ReadsFit(depthMap, normalMap, w, h)
    ensures |s| == w * h
  {
    seq(w * h, i requires 0 <= i < w * h =>
      DivBelow(i, w, h);
      EdgeAt(depthMap, normalMap, w, h, i % w, i / w, depthThresh, normalThresh, m))
  }

  /** The mask entry of pixel (x, y) is that pixel's edge value. */
  lemma SilhouetteAt(depthMap: seq<real>, normalMap: seq<real>, w: nat, h: nat,
                     depthThresh: real, normalThresh: real, m: Math, x: int, y: int)
    requires ReadsFit(depthMap, normalMap, w, h)
    requires 0 <= x < w && 0 <= y < h
    ensures 0 <= GetIdx(x, y, w) < w * h
    ensures Silhouette(depthMap, normalMap, w, h, depthThresh, normalThresh, m)[GetIdx(x, y, w)]
         == EdgeAt(depthMap, normalMap, w, h, x, y, depthThresh, normalThresh, m)
  {
    GetIdxInverse(x, y, w, h);
  }

  /** Every mask entry is 0 or 255. */
  lemma SilhouetteIsBinary(depthMap: seq<real>, normalMap: seq<real>, w: nat, h: nat,
                           depthThresh: real, normalThresh: real, m: Math, i: int)
    requires ReadsFit(depthMap, normalMap, w, h)
    requires 0 <= i < w * h
    ensures Silhouette(depthMap, normalMap, w, h, depthThresh, normalThresh, m)[i] in {0, 255}
  {
  }

  /** Pixels on the border are 0, and so is every pixel of an image less
      than three pixels wide or high. */
  lemma SilhouetteBorderIsZero(depthMap: seq<real>, normalMap: seq<real>, w: nat, h: nat,
                               depthThresh: real, normalThresh: real, m: Math, x: int, y: int)
    requires ReadsFit(depthMap, normalMap, w, h)
    requires 0 <= x < w && 0 <= y < h
    requires x == 0 || x == w - 1 || y == 0 || y == h - 1
    ensures 0 <= GetIdx(x, y, w) < w * h
    ensures Silhouette(depthMap, normalMap, w, h, depthThresh, normalThresh, m)[GetIdx(x, y, w)] == 0
  {
    SilhouetteAt(depthMap, normalMap, w, h, depthThresh, normalThresh, m, x, y);
  }

  lemma SmallImageIsBlank(depthMap: seq<real>, normalMap: seq<real>, w: nat, h: nat,
                          depthThresh: real, normalThresh: real, m: Math)
    requires w < 3 || h < 3
    ensures forall i :: 0 <= i < w * h ==>
              Silhouette(depthMap, normalMap, w, h, depthThresh, normalThresh, m)[i] == 0
  {
  }

  /** An interior pixel is an edge exactly when one of its two gradients
      exceeds its threshold. */
  lemma EdgeIffGradient(depthMap: seq<real>, normalMap: seq<real>, w: nat, h: nat,
                        depthThresh: real, normalThresh: real, m: Math, x: int, y: int)
    requires ReadsFit(depthMap, normalMap, w, h)
    requires Interior(x, y, w, h)
    ensures 0 <= GetIdx(x, y, w) < w * h
    ensures Silhouette(depthMap, normalMap, w, h, depthThresh, normalThresh, m)[GetIdx(x, y, w)] == 255
        <==> DepthGradient(depthMap, w, h, x, y) > depthThresh
             || NormalGradient(normalMap, w, h, x, y, m) > normalThresh
  {
    SilhouetteAt(depthMap, normalMap, w, h, depthThresh, normalThresh, m, x, y);
  }

  /** The four cross neighbours of (x, y) agree in both pairs of buffers. */
  predicate SameCross(d1: seq<real>, n1: seq<real>, d2: seq<real>, n2: seq<real>, w: nat, h: nat, x: int, y: int)
    requires Interior(x, y, w, h)
    requires w * h <= |d1| && w * h <= |d2| && w * h * 3 <= |n1| && w * h * 3 <= |n2|
  {
    && DepthAt(d1, w, h, x - 1, y) == DepthAt(d2, w, h, x - 1, y)
    && DepthAt(d1, w, h, x + 1, y) == DepthAt(d2, w, h, x + 1, y)
    && DepthAt(d1, w, h, x, y - 1) == DepthAt(d2, w, h, x, y - 1)
    && DepthAt(d1, w, h, x, y + 1) == DepthAt(d2, w, h, x, y + 1)
    && NormalAt(n1, w, h, x - 1, y) == NormalAt(n2, w, h, x - 1, y)
    && NormalAt(n1, w, h, x + 1, y) == NormalAt(n2, w, h, x + 1, y)
    && NormalAt(n1, w, h, x, y - 1) == NormalAt(n2, w, h, x, y - 1)
    && NormalAt(n1, w, h, x, y + 1) == NormalAt(n2, w, h, x, y + 1)
  }

  /** A pixel's mask value is decided by its four cross neighbours alone;
      in particular its own depth and normal never matter. */
  lemma EdgeDependsOnlyOnCross(d1: seq<real>, n1: seq<real>, d2: seq<real>, n2: seq<real>,
                               w: nat, h: nat, depthThresh: real, normalThresh: real, m: Math,
                               x: int, y: int)
    requires ReadsFit(d1, n1, w, h) && ReadsFit(d2, n2, w, h)
    requires 0 <= x < w && 0 <= y < h
    requires Interior(x, y, w, h) ==> SameCross(d1, n1, d2, n2, w, h, x, y)
    ensures EdgeAt(d1, n1, w, h, x, y, depthThresh, normalThresh, m)
         == EdgeAt(d2, n2, w, h, x, y, depthThresh, normalThresh, m)
  {
  }

  /** A constant depth buffer and a constant normal buffer give a blank
      mask for non-negative thresholds, given `sqrt(0) = 0`. */
  lemma FlatBuffersGiveBlankMask(depthMap: seq<real>, normalMap: seq<real>, w: nat, h: nat,
                                 depthThresh: real, normalThresh: real, m: Math, d0: real, n0: Vec3,
                                 x: int, y: int)
    requires w * h <= |depthMap| && w * h * 3 <= |normalMap|
    requires 0.0 <= depthThresh && 0.0 <= normalThresh && m.sqrt(0.0) == 0.0
    requires forall x', y' :: 0 <= x' < w && 0 <= y' < h ==> DepthAt(depthMap, w, h, x', y') == d0
    requires forall x', y' :: 0 <= x' < w && 0 <= y' < h ==> NormalAt(normalMap, w, h, x', y') == n0
    requires 0 <= x < w && 0 <= y < h
    ensures 0 <= GetIdx(x, y, w) < w * h
    ensures Silhouette(depthMap, normalMap, w, h, depthThresh, normalThresh, m)[GetIdx(x, y, w)] == 0
  {
    SilhouetteAt(depthMap, normalMap, w, h, depthThresh, normalThresh, m, x, y);
    if Interior(x, y, w, h) {
      var zero := Vec3(0.0, 0.0, 0.0);
      assert Sub(n0, n0) == zero;
      assert Length(zero, m) == 0.0;
      assert DepthGradient(depthMap, w, h, x, y) == 0.0;
      assert NormalGradient(normalMap, w, h, x, y, m) == 0.0;
    }
  }

  /** The edge value the loop body computes for interior pixel (x, y). */
  method ComputeEdge(depthMap: seq<real>, normalMap: seq<real>, width: nat, height: nat,
                     x: int, y: int, depthThresh: real, normalThresh: real, m: Math)
    returns (value: Byte)
    requires ReadsFit(depthMap, normalMap, width, height) && Interior(x, y, width, height)
    ensures value == EdgeAt(depthMap, normalMap, width, height, x, y, depthThresh, normalThresh, m)
  {
    var dL := DepthAt(depthMap, width, height, x - 1, y);
    var dR := DepthAt(depthMap, width, height, x + 1, y);
    var dT := DepthAt(depthMap, width, height, x, y + 1);
    var dB := DepthAt(depthMap, width, height, x, y - 1);
    var gradD := Abs(dL - dR) + Abs(dT - dB);
    var nL := NormalAt(normalMap, width, height, x - 1, y);
    var nR := NormalAt(normalMap, width, height, x + 1, y);
    var nT := NormalAt(normalMap, width, height, x, y + 1);
    var nB := NormalAt(normalMap, width, height, x, y - 1);
    var gradN := Length(Sub(nL, nR), m) + Length(Sub(nT, nB), m);
    if gradD > depthThresh || gradN > normalThresh {
      value := 255;
    } else {
      value := 0;
    }
  }

  /** A run of border pixels in row `y` is 0 in the mask. */
  lemma BorderRunIsZero(depthMap: seq<real>, normalMap: seq<real>, w: nat, h: nat,
                        depthThresh: real, normalThresh: real, m: Math, y: int, lo: int, hi: int)
    requires ReadsFit(depthMap, normalMap, w, h)
    requires 0 <= y < h && 0 <= lo <= hi <= w
    requires hi <= 1 || w - 1 <= lo || y == 0 || y == h - 1
    ensures y * w + w <= w * h
    ensures forall i :: y * w + lo <= i < y * w + hi ==>
              Silhouette(depthMap, normalMap, w, h, depthThresh, normalThresh, m)[i] == 0
  {
    MulMono(y + 1, h, w);
    forall i | y * w + lo <= i < y * w + hi
      ensures Silhouette(depthMap, normalMap, w, h, depthThresh, normalThresh, m)[i] == 0
    {
      BorderPixelIsZero(depthMap, normalMap, w, h, depthThresh, normalThresh, m, i - y * w, y, i);
    }
  }

  /** A border pixel is 0 in the mask. */
  lemma BorderPixelIsZero(depthMap: seq<real>, normalMap: seq<real>, w: nat, h: nat,
                          depthThresh: real, normalThresh: real, m: Math, x: int, y: int, i: int)
    requires ReadsFit(depthMap, normalMap, w, h)
    requires 0 <= x < w && 0 <= y < h && i == y * w + x
    requires x == 0 || x == w - 1 || y == 0 || y == h - 1
    ensures 0 <= i < w * h
    ensures Silhouette(depthMap, normalMap, w, h, depthThresh, normalThresh, m)[i] == 0
  {
    SilhouetteAt(depthMap, normalMap, w, h, depthThresh, normalThresh, m, x, y);
  }

  /** Every pixel from row `y` on is 0 once `y` has reached the last row. */
  lemma TailIsZero(depthMap: seq<real>, normalMap: seq<real>, w: nat, h: nat,
                   depthThresh: real, normalThresh: real, m: Math, y: nat)
    requires ReadsFit(depthMap, normalMap, w, h)
    requires h - 1 <= y
    ensures forall i :: y * w <= i < w * h ==>
              Silhouette(depthMap, normalMap, w, h, depthThresh, normalThresh, m)[i] == 0
  {
    forall i | y * w <= i < w * h
      ensures Silhouette(depthMap, normalMap, w, h, depthThresh, normalThresh, m)[i] == 0
    {
      DivBelow(i, w, h);
      var r := i / w;
      if r < y {
        MulMono(r + 1, y, w);
        assert false;
      }
      SilhouetteAt(depthMap, normalMap, w, h, depthThresh, normalThresh, m, i % w, r);
    }
  }

  /** One pass of the outer loop: the interior pixels of row `y` are
      computed and stored; the mask is final below row `y + 1` and still
      zero from there on. */
  method FillRow(sil: array<Byte>, depthMap: seq<real>, normalMap: seq<real>, width: nat, height: nat,
                 depthThresh: real, normalThresh: real, m: Math, y: int)
    requires ReadsFit(depthMap, normalMap, width, height)
    requires 1 <= y < height - 1 && sil.Length == width * height
    requires forall i :: 0 <= i < width * height ==>
               sil[i] == (if i < y * width
                          then Silhouette(depthMap, normalMap, width, height, depthThresh, normalThresh, m)[i]
                          else 0)
    modifies sil
    ensures forall i :: 0 <= i < width * height ==>
              sil[i] == (if i < (y + 1) * width
                         then Silhouette(depthMap, normalMap, width, height, depthThresh, normalThresh, m)[i]
                         else 0)
  {
    ghost var spec := Silhouette(depthMap, normalMap, width, height, depthThresh, normalThresh, m);
    if 1 <= width {
      BorderRunIsZero(depthMap, normalMap, width, height, depthThresh, normalThresh, m, y, 0, 1);
    }
    var x := 1;
    while x < width - 1
      invariant 1 <= x && (3 <= width ==> x <= width - 1)
      invariant forall i :: 0 <= i < width * height ==>
                  sil[i] == (if i < y * width + x then spec[i] else 0)
    {
      GetIdxInverse(x, y, width, height);
      var idx := GetIdx(x, y, width);
      var value := ComputeEdge(depthMap, normalMap, width, height, x, y, depthThresh, normalThresh, m);
      SilhouetteAt(depthMap, normalMap, width, height, depthThresh, normalThresh, m, x, y);
      sil[idx] := value;
      x := x + 1;
    }
    if x <= width {
      BorderRunIsZero(depthMap, normalMap, width, height, depthThresh, normalThresh, m, y, x, width);
    }
  }

  method GenerateSilhouetteCPU(depthMap: seq<real>, normalMap: seq<real>, width: nat, height: nat,
                               depthThresh: real, normalThresh: real, m: Math)
    returns (silhouette: seq<Byte>)
    requires ReadsFit(depthMap, normalMap, width, height)
    ensures silhouette == Silhouette(depthMap, normalMap, width, height, depthThresh, normalThresh, m)
  {
    ghost var spec := Silhouette(depthMap, normalMap, width, height, depthThresh, normalThresh, m);
    var sil := new Byte[width * height](_ => 0);
    var y := 1;
    while y < height - 1
      invariant 1 <= y && (3 <= height ==> y <= height - 1)
      invariant forall i :: 0 <= i < width * height ==> sil[i] == (if i < y * width then spec[i] else 0)
    {
      FillRow(sil, depthMap, normalMap, width, height, depthThresh, normalThresh, m, y);
      y := y + 1;
    }
    TailIsZero(depthMap, normalMap, width, height, depthThresh, normalThresh, m, y);
    silhouette := sil[..];
  }

  /** `LinearizeDepth`: a window depth in [0, 1] back to eye-space distance;
      a zero denominator gives a non-finite float. */
  function LinearizeDepth(d: real, zNear: real, zFar: real): Float
  {
    var ndc := d * 2.0 - 1.0;
    var denom := zFar + zNear - ndc * (zFar - zNear);
    if denom == 0.0 then NonFinite else Finite(2.0 * zNear * zFar / denom)
  }

  /** The near plane maps to `zNear` and the far plane to `zFar`. */
  lemma LinearizeDepthEnds(zNear: real, zFar: real)
    requires 0.0 < zNear && 0.0 < zFar
    ensures LinearizeDepth(0.0, zNear, zFar) == Finite(zNear)
    ensures LinearizeDepth(1.0, zNear, zFar) == Finite(zFar)
  {
    assert 2.0 * zNear * zFar == zNear * (2.0 * zFar);
    assert 2.0 * zNear * zFar == zFar * (2.0 * zNear);
  }

  /** The normalised device depth of a point at eye distance `z`. */
  function ProjectNdc(z: real, zNear: real, zFar: real): real
    requires 0.0 < zNear < zFar && 0.0 < z
  {
    (zFar + zNear) / (zFar - zNear) - (2.0 * zNear * zFar / z) / (zFar - zNear)
  }

  /** The window depth a perspective projection with planes `zNear` and
      `zFar` stores for a point at eye distance `z`. */
  function ProjectDepth(z: real, zNear: real, zFar: real): real
    requires 0.0 < zNear < zFar && 0.0 < z
  {
    (ProjectNdc(z, zNear, zFar) + 1.0) / 2.0
  }

  /** Linearisation undoes the projection: every positive eye distance is
      recovered from its stored depth. */
  lemma LinearizeDepthInvertsProjection(z: real, zNear: real, zFar: real)
    requires 0.0 < zNear < zFar && 0.0 < z
    ensures LinearizeDepth(ProjectDepth(z, zNear, zFar), zNear, zFar) == Finite(z)
  {
    var ndc := ProjectNdc(z, zNear, zFar);
    var q := 2.0 * zNear * zFar / z;
    assert ProjectDepth(z, zNear, zFar) * 2.0 - 1.0 == ndc;
    assert ndc * (zFar - zNear) == (zFar + zNear) - q;
    assert zFar + zNear - ndc * (zFar - zNear) == q;
    assert 0.0 < q;
    assert (2.0 * zNear * zFar) / q == z;
  }
}
