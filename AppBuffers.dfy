/** The buffer helpers of the evaluation application
    (src/App/Application.cpp): the vertical flip applied to screenshots,
    the grey-to-RGBA expansion uploaded for silhouettes and the grey-to-RGB
    expansion handed to the heatmap. */
module AppBuffers {
  import opened MathLib

  // ---------------------------------------------------------------------
  // Rows of a flat image
  // ---------------------------------------------------------------------

  /** The offset of row `r` when every row holds `rowLen` bytes. */
  function RowStart(r: nat, rowLen: nat): nat { r * rowLen }

  lemma RowStartNext(r: nat, rowLen: nat)
    ensures RowStart(r + 1, rowLen) == RowStart(r, rowLen) + rowLen
  {
  }

  lemma RowStartAdd(a: nat, b: nat, rowLen: nat)
    ensures RowStart(a + b, rowLen) == RowStart(a, rowLen) + RowStart(b, rowLen)
  {
  }

  lemma RowStartMono(a: nat, b: nat, rowLen: nat)
    requires a <= b
    ensures RowStart(a, rowLen) <= RowStart(b, rowLen)
  {
    MulMono(a, b, rowLen);
  }

  /** Row `r` of a flat image. */
  function Row(p: seq<Byte>, r: nat, rowLen: nat): (row: seq<Byte>)
    requires RowStart(r + 1, rowLen) <= |p|
    ensures |row| == rowLen
  {
    RowStartNext(r, rowLen);
    p[RowStart(r, rowLen)..RowStart(r + 1, rowLen)]
  }

  // ---------------------------------------------------------------------
  // Vertical flip (SaveScreenshot)
  // ---------------------------------------------------------------------

  /** The image of `h` rows of `rowLen` bytes with its rows in reverse
      order: the last row first, then the flip of the rows above it. */
  function FlipRows(p: seq<Byte>, rowLen: nat, h: nat): (r: seq<Byte>)
    requires |p| == RowStart(h, rowLen)
    ensures |r| == |p|
  {
    if h == 0 then []
    else
      RowStartNext(h - 1, rowLen);
      p[RowStart(h - 1, rowLen)..] + FlipRows(p[..RowStart(h - 1, rowLen)], rowLen, h - 1)
  }

  /** A row of `b` is the next row of `a + b` when `a` is one row long. */
  lemma RowAfter(a: seq<Byte>, b: seq<Byte>, r: nat, rowLen: nat)
    requires |a| == rowLen && RowStart(r + 1, rowLen) <= |b|
    ensures RowStart(r + 2, rowLen) <= |a + b|
    ensures Row(a + b, r + 1, rowLen) == Row(b, r, rowLen)
  {
    RowStartNext(r, rowLen);
    RowStartNext(r + 1, rowLen);
  }

  /** The flip puts source row `y` at destination row `h - 1 - y`. */
  lemma {:induction false} FlipRowsRow(p: seq<Byte>, rowLen: nat, h: nat, y: nat)
    requires |p| == RowStart(h, rowLen) && y < h
    ensures RowStart(y + 1, rowLen) <= |p| && RowStart(h - y, rowLen) <= |p|
    ensures Row(FlipRows(p, rowLen, h), h - 1 - y, rowLen) == Row(p, y, rowLen)
    decreases h
  {
    RowStartMono(y + 1, h, rowLen);
    RowStartMono(h - y, h, rowLen);
    if y == h - 1 {
      FlipRowsTop(p, rowLen, h);
    } else {
      RowStartNext(h - 1, rowLen);
      RowStartMono(y + 1, h - 1, rowLen);
      var front := p[..RowStart(h - 1, rowLen)];
      FlipRowsRow(front, rowLen, h - 1, y);
      RowOfPrefix(p, RowStart(h - 1, rowLen), y, rowLen);
      FlipRowsBelowTop(p, rowLen, h, h - 2 - y);
    }
  }

  /** The last source row is the first row of the flip. */
  lemma FlipRowsTop(p: seq<Byte>, rowLen: nat, h: nat)
    requires |p| == RowStart(h, rowLen) && 0 < h
    ensures RowStart(1, rowLen) <= |p| && RowStart(h, rowLen) == RowStart(h - 1, rowLen) + rowLen
    ensures Row(FlipRows(p, rowLen, h), 0, rowLen) == p[RowStart(h - 1, rowLen)..]
  {
    RowStartNext(h - 1, rowLen);
    RowStartNext(0, rowLen);
    RowStartMono(1, h, rowLen);
    FlipRowsUnfold(p, rowLen, h);
  }

  /** Below its first row, the flip continues with the flip of the rows
      above the last one. */
  lemma FlipRowsBelowTop(p: seq<Byte>, rowLen: nat, h: nat, r: nat)
    requires |p| == RowStart(h, rowLen) && r + 1 < h
    ensures RowStart(h - 1, rowLen) <= |p|
    ensures RowStart(r + 2, rowLen) <= |p| && RowStart(r + 1, rowLen) <= RowStart(h - 1, rowLen)
    ensures Row(FlipRows(p, rowLen, h), r + 1, rowLen)
         == Row(FlipRows(p[..RowStart(h - 1, rowLen)], rowLen, h - 1), r, rowLen)
  {
    RowStartNext(h - 1, rowLen);
    RowStartMono(r + 2, h, rowLen);
    RowStartMono(r + 1, h - 1, rowLen);
    FlipRowsUnfold(p, rowLen, h);
    RowAfter(p[RowStart(h - 1, rowLen)..], FlipRows(p[..RowStart(h - 1, rowLen)], rowLen, h - 1), r, rowLen);
  }

  /** A row that ends inside a prefix is the same row of the prefix. */
  lemma RowOfPrefix(p: seq<Byte>, k: nat, r: nat, rowLen: nat)
    requires RowStart(r + 1, rowLen) <= k <= |p|
    ensures Row(p[..k], r, rowLen) == Row(p, r, rowLen)
  {
  }

  /** Flipping a stack of two images flips each and swaps them. */
  lemma {:induction false} FlipRowsConcat(a: seq<Byte>, ha: nat, b: seq<Byte>, hb: nat, rowLen: nat)
    requires |a| == RowStart(ha, rowLen) && |b| == RowStart(hb, rowLen)
    ensures |a + b| == RowStart(ha + hb, rowLen)
    ensures FlipRows(a + b, rowLen, ha + hb) == FlipRows(b, rowLen, hb) + FlipRows(a, rowLen, ha)
    decreases hb
  {
    RowStartAdd(ha, hb, rowLen);
    if hb == 0 {
      assert a + b == a;
    } else {
      var hb' := hb - 1;
      var h' := ha + hb';
      var k := RowStart(hb', rowLen);
      RowStartNext(hb', rowLen);
      RowStartAdd(ha, hb', rowLen);
      assert RowStart(h', rowLen) == |a| + k;
      SplitAfter(a, b, k);
      calc {
        FlipRows(a + b, rowLen, ha + hb);
        { FlipRowsUnfold(a + b, rowLen, ha + hb); }
        (a + b)[RowStart(h', rowLen)..] + FlipRows((a + b)[..RowStart(h', rowLen)], rowLen, h');
        b[k..] + FlipRows(a + b[..k], rowLen, h');
        { FlipRowsConcat(a, ha, b[..k], hb', rowLen); }
        b[k..] + (FlipRows(b[..k], rowLen, hb') + FlipRows(a, rowLen, ha));
        (b[k..] + FlipRows(b[..k], rowLen, hb')) + FlipRows(a, rowLen, ha);
        { FlipRowsUnfold(b, rowLen, hb); }
        FlipRows(b, rowLen, hb) + FlipRows(a, rowLen, ha);
      }
    }
  }

  /** Cutting `a + b` after `k` elements of `b`. */
  lemma SplitAfter<T>(a: seq<T>, b: seq<T>, k: nat)
    requires k <= |b|
    ensures (a + b)[..|a| + k] == a + b[..k]
    ensures (a + b)[|a| + k..] == b[k..]
  {
  }

  /** One step of the flip: the last row, then the flip of the rest. */
  lemma FlipRowsUnfold(p: seq<Byte>, rowLen: nat, h: nat)
    requires |p| == RowStart(h, rowLen) && 0 < h
    ensures RowStart(h - 1, rowLen) <= |p|
    ensures FlipRows(p, rowLen, h)
         == p[RowStart(h - 1, rowLen)..] + FlipRows(p[..RowStart(h - 1, rowLen)], rowLen, h - 1)
  {
    RowStartNext(h - 1, rowLen);
  }

  /** Flipping twice gives the image back. */
  lemma {:induction false} FlipRowsTwice(p: seq<Byte>, rowLen: nat, h: nat)
    requires |p| == RowStart(h, rowLen)
    ensures FlipRows(FlipRows(p, rowLen, h), rowLen, h) == p
    decreases h
  {
    if h > 0 {
      RowStartNext(h - 1, rowLen);
      RowStartNext(0, rowLen);
      var front := p[..RowStart(h - 1, rowLen)];
      var last := p[RowStart(h - 1, rowLen)..];
      FlipRowsTwice(front, rowLen, h - 1);
      FlipRowsConcat(last, 1, FlipRows(front, rowLen, h - 1), h - 1, rowLen);
      assert FlipRows(last, rowLen, 1) == last + FlipRows(last[..0], rowLen, 0);
      assert front + last == p;
    }
  }

  /** `memcpy` of one row: `rowLen` bytes from `src` at `s` to `buf` at
      `d`, nothing else written. */
  method CopyRow(buf: array<Byte>, src: seq<Byte>, s: nat, d: nat, rowLen: nat)
    requires s + rowLen <= |src| && d + rowLen <= buf.Length
    modifies buf
    ensures buf[d..d + rowLen] == src[s..s + rowLen]
    ensures forall j :: 0 <= j < buf.Length && (j < d || d + rowLen <= j) ==> buf[j] == old(buf[j])
  {
    forall k | 0 <= k < rowLen {
      buf[d + k] := src[s + k];
    }
  }

  /** The flip loop of `SaveScreenshot` over a `w` x `h` RGB image: row `y`
      is copied to row `h - 1 - y`. */
  method FlipVertical(pixels: seq<Byte>, w: nat, h: nat) returns (flipped: seq<Byte>)
    requires |pixels| == RowStart(h, w * 3)
    ensures flipped == FlipRows(pixels, w * 3, h)
  {
    var rowLen := w * 3;
    var buf := new Byte[|pixels|](_ => 0);
    for y := 0 to h
      invariant RowStart(y, rowLen) <= |pixels|
      invariant buf[RowStart(h - y, rowLen)..] == FlipRows(pixels[..RowStart(y, rowLen)], rowLen, y)
    {
      FlipRow(buf, pixels, rowLen, h, y);
    }
    assert pixels[..RowStart(h, rowLen)] == pixels;
    flipped := buf[..];
  }

  /** One pass of the flip loop: source row `y` lands just above the rows
      already flipped. */
  method FlipRow(buf: array<Byte>, pixels: seq<Byte>, rowLen: nat, h: nat, y: nat)
    requires |pixels| == RowStart(h, rowLen) == buf.Length && y < h
    requires buf[RowStart(h - y, rowLen)..] == FlipRows(pixels[..RowStart(y, rowLen)], rowLen, y)
    modifies buf
    ensures RowStart(y + 1, rowLen) <= |pixels|
    ensures buf[RowStart(h - (y + 1), rowLen)..] == FlipRows(pixels[..RowStart(y + 1, rowLen)], rowLen, y + 1)
  {
    RowStartNext(y, rowLen);
    RowStartNext(h - 1 - y, rowLen);
    RowStartMono(y + 1, h, rowLen);
    var src := RowStart(y, rowLen);
    var dst := RowStart(h - 1 - y, rowLen);
    ghost var done := buf[dst + rowLen..];
    CopyRow(buf, pixels, src, dst, rowLen);
    assert buf[dst + rowLen..] == done;
    assert buf[dst..] == buf[dst..dst + rowLen] + buf[dst + rowLen..];
    ghost var upTo := pixels[..RowStart(y + 1, rowLen)];
    assert upTo[RowStart(y, rowLen)..] == pixels[src..src + rowLen];
    assert upTo[..RowStart(y, rowLen)] == pixels[..RowStart(y, rowLen)];
  }

  /** A screenshot: row `y` of the window becomes row `h - 1 - y` of the
      saved image, and saving the flip of a flip gives the window back. */
  lemma FlipVerticalRows(pixels: seq<Byte>, w: nat, h: nat, y: nat)
    requires |pixels| == RowStart(h, w * 3) && y < h
    ensures RowStart(y + 1, w * 3) <= |pixels|
    ensures Row(FlipRows(pixels, w * 3, h), h - 1 - y, w * 3) == Row(pixels, y, w * 3)
    ensures FlipRows(FlipRows(pixels, w * 3, h), w * 3, h) == pixels
  {
    FlipRowsRow(pixels, w * 3, h, y);
    FlipRowsTwice(pixels, w * 3, h);
  }

  // ---------------------------------------------------------------------
  // Grey expansions (UploadGrayscaleToTexture, RenderPasses)
  // ---------------------------------------------------------------------

  /** The RGBA bytes of the first `n` grey values: each value three times,
      then an opaque alpha. */
  function GreyRgba(data: seq<Byte>, n: nat): (r: seq<Byte>)
    requires n <= |data|
    ensures |r| == n * 4
  {
    if n == 0 then [] else GreyRgba(data, n - 1) + [data[n - 1], data[n - 1], data[n - 1], 255]
  }

  /** The RGB bytes of the first `n` grey values: each value three times. */
  function GreyRgb(data: seq<Byte>, n: nat): (r: seq<Byte>)
    requires n <= |data|
    ensures |r| == n * 3
  {
    if n == 0 then [] else GreyRgb(data, n - 1) + [data[n - 1], data[n - 1], data[n - 1]]
  }

  /** Pixel `i` of the RGBA expansion is (v, v, v, 255) for the grey value
      v of pixel `i`. */
  lemma {:induction false} GreyRgbaAt(data: seq<Byte>, n: nat, i: nat)
    requires n <= |data| && i < n
    ensures i * 4 + 4 <= n * 4
    ensures GreyRgba(data, n)[i * 4..i * 4 + 4] == [data[i], data[i], data[i], 255]
    decreases n
  {
    MulMono(i + 1, n, 4);
    if i < n - 1 {
      GreyRgbaAt(data, n - 1, i);
      MulMono(i + 1, n - 1, 4);
      assert GreyRgba(data, n)[..(n - 1) * 4] == GreyRgba(data, n - 1);
    }
  }

  /** Pixel `i` of the RGB expansion is (v, v, v) for the grey value v of
      pixel `i`. */
  lemma {:induction false} GreyRgbAt(data: seq<Byte>, n: nat, i: nat)
    requires n <= |data| && i < n
    ensures i * 3 + 3 <= n * 3
    ensures GreyRgb(data, n)[i * 3..i * 3 + 3] == [data[i], data[i], data[i]]
    decreases n
  {
    MulMono(i + 1, n, 3);
    if i < n - 1 {
      GreyRgbAt(data, n - 1, i);
      MulMono(i + 1, n - 1, 3);
      assert GreyRgb(data, n)[..(n - 1) * 3] == GreyRgb(data, n - 1);
    }
  }

  /** `UploadGrayscaleToTexture`'s expansion of a `w` x `h` grey image. */
  method ExpandToRgba(data: seq<Byte>, count: nat) returns (rgba: seq<Byte>)
    requires count <= |data|
    ensures rgba == GreyRgba(data, count)
  {
    var buf := new Byte[count * 4](_ => 0);
    for i := 0 to count
      invariant buf[..i * 4] == GreyRgba(data, i)
    {
      MulMono(i + 1, count, 4);
      var val := data[i];
      ghost var before := buf[..];
      buf[i * 4 + 0] := val;
      buf[i * 4 + 1] := val;
      buf[i * 4 + 2] := val;
      buf[i * 4 + 3] := 255;
      assert buf[..i * 4] == before[..i * 4];
      assert buf[..i * 4 + 4] == buf[..i * 4] + [val, val, val, 255];
    }
    assert buf[..] == buf[..count * 4];
    rgba := buf[..];
  }

  /** The grey-to-RGB loop of the silhouette phase: three equal bytes per
      mask entry. */
  method ExpandToRgb(sil: seq<Byte>) returns (rgb: seq<Byte>)
    ensures rgb == GreyRgb(sil, |sil|)
  {
    var buf := new Byte[|sil| * 3](_ => 0);
    for i := 0 to |sil|
      invariant buf[..i * 3] == GreyRgb(sil, i)
    {
      MulMono(i + 1, |sil|, 3);
      ghost var before := buf[..];
      buf[i * 3 + 0] := sil[i];
      buf[i * 3 + 1] := sil[i];
      buf[i * 3 + 2] := sil[i];
      assert buf[..i * 3] == before[..i * 3];
      assert buf[..i * 3 + 3] == buf[..i * 3] + [sil[i], sil[i], sil[i]];
    }
    assert buf[..] == buf[..|sil| * 3];
    rgb := buf[..];
  }
}
