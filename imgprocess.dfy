/**
 * imgprocess.go: the colour-inverting image processor and the format
 * dispatch of encodeImage.
 *
 * Decoding and encoding are library codecs and stay abstract: the decoded
 * image (or the decoder's error) is a parameter, and the processor's
 * completion names the encoder it hands the inverted pixels to. The
 * processor's context is an oracle `cancelAt`: the check made after the
 * n-th pixel sees the context cancelled exactly when `cancelAt == Some(c)`
 * and n >= c (a cancelled context stays cancelled).
 */
module InvertProcessor {
  import opened Base

  /** The four values Color.RGBA() returns, each a uint32. */
  datatype Rgba64 = Rgba64(r: uint32, g: uint32, b: uint32, a: uint32)

  /** color.RGBA */
  datatype Rgba8 = Rgba8(r: uint8, g: uint8, b: uint8, a: uint8)

  /** A pixel of image.NewRGBA before anything is set: all zero. */
  const Transparent: Rgba8 := Rgba8(0, 0, 0, 0)

  /** Color.RGBA() promises 16-bit values in its 32-bit results. */
  predicate Is16Bit(c: Rgba64)
  {
    c.r <= 0xffff && c.g <= 0xffff && c.b <= 0xffff && c.a <= 0xffff
  }

  /**
   * uint8(255 - c/256) with Go's uint32 arithmetic: the subtraction wraps,
   * the conversion truncates. The wrap never shows in the low byte, and for
   * a 16-bit value nothing wraps at all.
   */
  function InvertChannel(c: uint32): (r: uint8)
    ensures r == (255 - c / 256) % 0x100
    ensures c <= 0xffff ==> r == 255 - c / 256
  {
    var d := 255 - c / 256;
    assert d % 0x1_0000_0000 == d + 0x1_0000_0000 * (if d < 0 then 1 else 0);
    assert (d + 0x1_0000_0000) % 0x100 == d % 0x100;
    (d % 0x1_0000_0000) % 0x100
  }

  /** uint8(a / 256): for a 16-bit value nothing is truncated. */
  function AlphaChannel(a: uint32): (r: uint8)
    ensures a <= 0xffff ==> r == a / 256
  {
    (a / 256) % 0x100
  }

  /**
   * The colour the processor sets for a source colour. For the 16-bit
   * values Color.RGBA() promises, each colour channel becomes 255 - c/256
   * and alpha becomes a/256.
   */
  function InvertColor(c: Rgba64): (o: Rgba8)
    ensures Is16Bit(c) ==>
      && o.r == 255 - c.r / 256 && o.g == 255 - c.g / 256 && o.b == 255 - c.b / 256
      && o.a == c.a / 256
  {
    Rgba8(InvertChannel(c.r), InvertChannel(c.g), InvertChannel(c.b), AlphaChannel(c.a))
  }

  /**
   * An 8-bit channel v that Color.RGBA() widened to v * 0x101 comes out
   * of the inversion as 255 - v.
   */
  lemma InvertWidenedChannel(v: uint8)
    ensures InvertChannel(v * 0x101) == 255 - v
  {
    assert v * 0x101 == v * 256 + v;
    assert (v * 256 + v) / 256 == v;
  }

  /** Inverting an 8-bit channel twice, widening it each time, gives it back. */
  lemma InvertTwice(v: uint8)
    ensures InvertChannel(InvertChannel(v * 0x101) * 0x101) == v
  {
    InvertWidenedChannel(v);
    InvertWidenedChannel(255 - v);
  }

  /** image.Rectangle: Min = (minX, minY), Max = (maxX, maxY), Max excluded. */
  datatype Rect = Rect(minX: int, minY: int, maxX: int, maxY: int) {
    predicate Canonical()
    {
      minX <= maxX && minY <= maxY
    }

    function Dx(): int
    {
      maxX - minX
    }

    function Dy(): int
    {
      maxY - minY
    }
  }

  /**
   * What image.Decode returns: the format name, the bounds, and img.At(x, y)
   * for every point of the bounds, at row y - minY and column x - minX.
   */
  datatype Decoded = Decoded(format: string, bounds: Rect, pixels: array2<Rgba64>)

  predicate WellFormed(d: Decoded)
  {
    d.bounds.Canonical() && d.pixels.Length0 == d.bounds.Dy() && d.pixels.Length1 == d.bounds.Dx()
  }

  /** How many pixels a row-major visit of rows `width` wide makes before row i. */
  function RowStart(i: nat, width: nat): nat
    decreases i
  {
    if i == 0 then 0 else RowStart(i - 1, width) + width
  }

  /** The position of the pixel at row i, column j in a row-major visit of rows `width` wide. */
  function RowMajorIndex(i: nat, j: nat, width: nat): nat
  {
    RowStart(i, width) + j
  }

  /** A visit of h rows `width` wide covers the whole area. */
  lemma {:induction false} RowStartArea(h: nat, width: nat)
    ensures RowStart(h, width) == width * h
    decreases h
  {
    if h > 0 {
      RowStartArea(h - 1, width);
      assert width * h == width * (h - 1) + width;
    }
  }

  /** A later row starts at least a whole row after an earlier one. */
  lemma {:induction false} RowStartGap(i: nat, k: nat, width: nat)
    requires i < k
    ensures RowStart(i, width) + width <= RowStart(k, width)
    decreases k
  {
    if i < k - 1 {
      RowStartGap(i, k - 1, width);
    }
  }

  /**
   * Row-major order: (i, j) comes before (row, col) exactly when its
   * row-major index is smaller.
   */
  lemma RowMajorOrder(i: nat, j: nat, row: nat, col: nat, width: nat)
    requires j < width && col <= width
    ensures (i < row || (i == row && j < col)) <==> RowMajorIndex(i, j, width) < RowMajorIndex(row, col, width)
  {
    if i < row {
      RowStartGap(i, row, width);
    } else if i > row {
      RowStartGap(row, i, width);
    }
  }

  /** Visiting (row, col) adds exactly that pixel to the row-major prefix. */
  lemma RowMajorNext(row: nat, col: nat, height: nat, width: nat)
    requires col < width
    ensures forall i, j :: 0 <= i < height && 0 <= j < width ==>
      (RowMajorIndex(i, j, width) < RowMajorIndex(row, col, width) + 1 <==>
        RowMajorIndex(i, j, width) < RowMajorIndex(row, col, width) || (i == row && j == col))
  {
    forall i, j | 0 <= i < height && 0 <= j < width
      ensures RowMajorIndex(i, j, width) < RowMajorIndex(row, col, width) + 1 <==>
        RowMajorIndex(i, j, width) < RowMajorIndex(row, col, width) || (i == row && j == col)
    {
      RowMajorOrder(i, j, row, col, width);
      RowMajorOrder(i, j, row, col + 1, width);
    }
  }

  /** Every pixel of a height x width image has a row-major index below its area. */
  lemma RowMajorBelowArea(height: nat, width: nat)
    ensures forall i, j :: 0 <= i < height && 0 <= j < width ==> RowMajorIndex(i, j, width) < RowStart(height, width)
  {
    forall i, j | 0 <= i < height && 0 <= j < width
      ensures RowMajorIndex(i, j, width) < RowStart(height, width)
    {
      RowMajorOrder(i, j, height, 0, width);
    }
  }

  /** Whether the check made after `done` pixels sees the context cancelled. */
  predicate CheckFires(cancelAt: Option<nat>, done: nat)
  {
    cancelAt.Some? && done >= cancelAt.value
  }

  /** The first check that can see a context cancelled from pixel count c on: checks start after pixel 1. */
  function FirstCheck(c: nat): nat
  {
    if c == 0 then 1 else c
  }

  /** Whether some check in a visit of `area` pixels sees the context cancelled. */
  predicate Cancels(cancelAt: Option<nat>, area: nat)
  {
    cancelAt.Some? && FirstCheck(cancelAt.value) <= area
  }

  /** How many pixels are set before the loop ends, by cancellation or by finishing. */
  function PixelsWritten(cancelAt: Option<nat>, area: nat): (n: nat)
    ensures n <= area
    ensures Cancels(cancelAt, area) ==> CheckFires(cancelAt, n) && forall k :: 1 <= k < n ==> !CheckFires(cancelAt, k)
    ensures !Cancels(cancelAt, area) ==> forall k :: 1 <= k <= n ==> !CheckFires(cancelAt, k)
  {
    if Cancels(cancelAt, area) then FirstCheck(cancelAt.value) else area
  }

  /** `out` holds the inverted colour of every pixel of `img`. */
  ghost predicate FullyInverted(img: Decoded, out: array2<Rgba8>)
    reads img.pixels, out
  {
    && out.Length0 == img.pixels.Length0 && out.Length1 == img.pixels.Length1
    && forall i, j :: 0 <= i < out.Length0 && 0 <= j < out.Length1 ==>
         out[i, j] == InvertColor(img.pixels[i, j])
  }

  /**
   * `out` has the size of `img`; the pixels whose row-major index is below
   * `n` hold their inverted colour and the others are still zero.
   */
  ghost predicate InvertedBelow(img: Decoded, out: array2<Rgba8>, n: int)
    reads img.pixels, out
  {
    && out.Length0 == img.pixels.Length0 && out.Length1 == img.pixels.Length1
    && forall i, j :: 0 <= i < out.Length0 && 0 <= j < out.Length1 ==>
         out[i, j] == if RowMajorIndex(i, j, out.Length1) < n then InvertColor(img.pixels[i, j]) else Transparent
  }

  /**
   * The inner loop of InvertImageProcessor for row `row` (y = Min.Y + row):
   * for x over [Min.X, Max.X), set the inverted colour of img.At(x, y), then
   * stop if the check after this pixel sees the context cancelled. `done`
   * counts the pixels set so far in the whole image, `start` of them
   * before this row.
   */
  method InvertRow(img: Decoded, inverted: array2<Rgba8>, row: nat, start: nat, cancelAt: Option<nat>)
    returns (done: nat, cancelled: bool)
    requires WellFormed(img) && row < img.pixels.Length0
    requires start == RowStart(row, img.pixels.Length1)
    requires InvertedBelow(img, inverted, start)
    requires cancelAt.Some? ==> start < FirstCheck(cancelAt.value)
    modifies inverted
    ensures InvertedBelow(img, inverted, done)
    ensures cancelled ==>
      && CheckFires(cancelAt, done) && done == FirstCheck(cancelAt.value)
      && done <= RowStart(row + 1, img.pixels.Length1)
    ensures !cancelled ==>
      && done == RowStart(row + 1, img.pixels.Length1)
      && (cancelAt.Some? ==> done < FirstCheck(cancelAt.value))
  {
    var bounds := img.bounds;
    var width, height := img.pixels.Length1, img.pixels.Length0;
    done := start;
    var x := bounds.minX;
    while x < bounds.maxX
      invariant bounds.minX <= x <= bounds.maxX
      invariant done == RowMajorIndex(row, x - bounds.minX, width)
      invariant cancelAt.Some? ==> done < FirstCheck(cancelAt.value)
      invariant InvertedBelow(img, inverted, done)
    {
      var col := x - bounds.minX;
      RowMajorNext(row, col, height, width);
      inverted[row, col] := InvertColor(img.pixels[row, col]);
      done := done + 1;
      if CheckFires(cancelAt, done) {
        return done, true;
      }
      x := x + 1;
    }
    cancelled := false;
  }

  /**
   * The nested loop of InvertImageProcessor: for y over [Min.Y, Max.Y) the
   * row loop `InvertRow`, stopping with the context's error when it sees
   * the context cancelled. The result has the input's bounds; the pixels
   * set are the first ones in row-major order, and the rest keep
   * NewRGBA's zero value.
   */
  method InvertPixels(img: Decoded, cancelAt: Option<nat>) returns (inverted: array2<Rgba8>, err: Option<Error>)
    requires WellFormed(img)
    ensures fresh(inverted)
    ensures err.Some? <==> Cancels(cancelAt, img.bounds.Dx() * img.bounds.Dy())
    ensures err.Some? ==> err.value == Canceled
    ensures InvertedBelow(img, inverted, PixelsWritten(cancelAt, img.bounds.Dx() * img.bounds.Dy()))
    ensures err.None? ==> FullyInverted(img, inverted)
  {
    var bounds := img.bounds;
    var width, height := img.pixels.Length1, img.pixels.Length0;
    ghost var area := bounds.Dx() * bounds.Dy();
    RowStartArea(height, width);
    assert RowStart(height, width) == area;
    inverted := new Rgba8[height, width]((i, j) => Transparent);
    var done := 0;
    var y := bounds.minY;
    while y < bounds.maxY
      invariant bounds.minY <= y <= bounds.maxY
      invariant done == RowStart(y - bounds.minY, width)
      invariant cancelAt.Some? ==> done < FirstCheck(cancelAt.value)
      invariant InvertedBelow(img, inverted, done)
    {
      var row := y - bounds.minY;
      var cancelled;
      done, cancelled := InvertRow(img, inverted, row, done, cancelAt);
      if cancelled {
        if row + 1 < height {
          RowStartGap(row + 1, height, width);
        }
        assert done <= RowStart(height, width);
        assert Cancels(cancelAt, area) && PixelsWritten(cancelAt, area) == done;
        err := Some(Canceled);
        return;
      }
      y := y + 1;
    }
    assert !Cancels(cancelAt, area) && PixelsWritten(cancelAt, area) == done;
    RowMajorBelowArea(height, width);
    err := None;
  }

  /** The encoders encodeImage can pick. */
  datatype Encoder =
    | Png
    | Jpeg(quality: int)
      /** encodeImage panics with this message */
    | UnknownFormat(msg: string)

  /** encodeImage's switch on the format name. */
  function EncoderFor(format: string): (e: Encoder)
    ensures e == Png <==> format == "png"
    ensures e == Jpeg(90) <==> format == "jpeg"
    ensures e.UnknownFormat? <==> format != "png" && format != "jpeg"
    ensures e.UnknownFormat? ==> e.msg == "invertImage: unknown format: " + format
  {
    match format
    case "png" => Png
    case "jpeg" => Jpeg(90)
    case _ => UnknownFormat("invertImage: unknown format: " + format)
  }

  /**
   * How a processor run ends: it returned an error before encoding, or it
   * handed the inverted image to an encoder (and returns what that returns).
   */
  datatype Completion<E> =
    | Returned(err: Error)
    | Encode(encoder: E, bounds: Rect, pixels: array2<Rgba8>)

  /**
   * InvertImageProcessor(options)(ctx, input, output): a decode failure is
   * returned as it is; a cancelled context stops the loop with its error;
   * otherwise the inverted image, with the input's bounds, goes to the
   * encoder for the decoded format.
   */
  method InvertImageProcessor(decoded: Result<Decoded, Error>, cancelAt: Option<nat>) returns (r: Completion<Encoder>)
    requires decoded.Success? ==> WellFormed(decoded.value)
    ensures decoded.Failure? ==> r == Returned(decoded.error)
    ensures decoded.Success? ==>
      (r.Returned? <==> Cancels(cancelAt, decoded.value.bounds.Dx() * decoded.value.bounds.Dy()))
    ensures decoded.Success? && r.Returned? ==> r.err == Canceled
    ensures r.Encode? ==>
      && decoded.Success?
      && r.encoder == EncoderFor(decoded.value.format)
      && r.bounds == decoded.value.bounds
      && fresh(r.pixels)
      && FullyInverted(decoded.value, r.pixels)
  {
    if decoded.Failure? {
      return Returned(decoded.error);
    }
    var img := decoded.value;
    var inverted, err := InvertPixels(img, cancelAt);
    if err.Some? {
      return Returned(err.value);
    }
    r := Encode(EncoderFor(img.format), img.bounds, inverted);
  }
}
