/** Stars drawn into a frame in place: a disc of saturating additions around a centre. */
module StarDrawing {
  import opened Common
  import opened Arithmetic
  import opened FrameGeometry

  /** Whether a channel sample is one byte or two, little-endian. */
  datatype Depth = Eight | Sixteen

  // --- one pixel -------------------------------------------------------------

  function SaturatingAdd(a: nat, b: nat, max: nat): nat {
    if a + b > max then max else a + b
  }

  /** Byte `k` of a pixel to every sample of which `value` is added. */
  function BrightByte(depth: Depth, pixel: Bytes, value: nat, k: nat): byte
    requires k < |pixel|
  {
    match depth
    case Eight => SaturatingAdd(pixel[k] as nat, value, 255) as byte
    case Sixteen =>
      var low := k - k % 2;
      if low + 1 >= |pixel| then pixel[k]
      else
        var sum := SaturatingAdd(pixel[low] as nat + 256 * pixel[low + 1] as nat, value, 65535);
        if k == low then (sum % 256) as byte else (sum / 256) as byte
  }

  function Brightened(depth: Depth, pixel: Bytes, value: nat): Bytes {
    seq(|pixel|, k requires 0 <= k < |pixel| => BrightByte(depth, pixel, value, k))
  }

  method Brighten8(data: array<byte>, at: nat, size: nat, value: nat)
    requires at + size <= data.Length
    modifies data
    ensures data[at..at + size] == Brightened(Eight, old(data[at..at + size]), value)
    ensures forall i :: 0 <= i < data.Length && !(at <= i < at + size) ==> data[i] == old(data[i])
  {
    ghost var pixel := data[at..at + size];
    for k := 0 to size
      invariant forall i :: 0 <= i < data.Length && !(at <= i < at + k) ==> data[i] == old(data[i])
      invariant forall j :: 0 <= j < k ==> data[at + j] == BrightByte(Eight, pixel, value, j)
    {
      data[at + k] := SaturatingAdd(data[at + k] as nat, value, 255) as byte;
    }
  }

  /** `add_sample`: whole little-endian pairs; an odd byte at the end stays. */
  method Brighten16(data: array<byte>, at: nat, size: nat, value: nat)
    requires at + size <= data.Length
    modifies data
    ensures data[at..at + size] == Brightened(Sixteen, old(data[at..at + size]), value)
    ensures forall i :: 0 <= i < data.Length && !(at <= i < at + size) ==> data[i] == old(data[i])
  {
    ghost var pixel := data[at..at + size];
    var k := 0;
    while k + 1 < size
      invariant k <= size && k % 2 == 0
      invariant forall i :: 0 <= i < data.Length && !(at <= i < at + k) ==> data[i] == old(data[i])
      invariant forall j :: 0 <= j < k ==> data[at + j] == BrightByte(Sixteen, pixel, value, j)
    {
      assert pixel[k] == data[at + k] && pixel[k + 1] == data[at + k + 1];
      var sum := SaturatingAdd(data[at + k] as nat + 256 * data[at + k + 1] as nat, value, 65535);
      data[at + k], data[at + k + 1] := (sum % 256) as byte, (sum / 256) as byte;
      assert data[at + k] == BrightByte(Sixteen, pixel, value, k);
      assert data[at + k + 1] == BrightByte(Sixteen, pixel, value, k + 1);
      k := k + 2;
    }
  }

  /** Adds `value` to every sample of the `size` bytes from `at` on. */
  method BrightenPixel(data: array<byte>, at: nat, size: nat, depth: Depth, value: nat)
    requires at + size <= data.Length
    modifies data
    ensures data[at..at + size] == Brightened(depth, old(data[at..at + size]), value)
    ensures forall i :: 0 <= i < data.Length && !(at <= i < at + size) ==> data[i] == old(data[i])
  {
    match depth
    case Eight => Brighten8(data, at, size, value);
    case Sixteen => Brighten16(data, at, size, value);
  }

  // --- the disc --------------------------------------------------------------

  function Distance(a: nat, b: nat): nat {
    if a <= b then b - a else a - b
  }

  /** The exact form of `hypot(ox, oy) <= size`. */
  predicate InDisc(size: nat, ox: nat, oy: nat) {
    ox * ox + oy * oy <= size * size
  }

  function Pixel(data: Bytes, f: Frame, x: nat, y: nat): Bytes
    requires Good(f) && |data| == f.len && x < f.width && y < f.height
  {
    PixelFits(f, x, y);
    data[Offset(f, x, y)..Offset(f, x, y) + f.pixelBytes]
  }

  /** Pixel `(x, y)` of `data` after a star at `(cx, cy)`. */
  function StarPixel(data: Bytes, f: Frame, cx: nat, cy: nat, size: nat, depth: Depth, value: (nat, nat) -> nat, x: nat, y: nat): Bytes
    requires Good(f) && |data| == f.len && x < f.width && y < f.height
  {
    var ox, oy := Distance(x, cx), Distance(y, cy);
    if InDisc(size, ox, oy) then Brightened(depth, Pixel(data, f, x, y), value(ox, oy)) else Pixel(data, f, x, y)
  }

  /** Every pixel is as the star leaves it. */
  ghost predicate StarDrawn(before: Bytes, now: Bytes, f: Frame, cx: nat, cy: nat, size: nat, depth: Depth, value: (nat, nat) -> nat)
    requires Good(f) && |before| == |now| == f.len
  {
    forall x: nat, y: nat :: x < f.width && y < f.height ==> Pixel(now, f, x, y) == StarPixel(before, f, cx, cy, size, depth, value, x, y)
  }

  lemma DiscInBox(size: nat, o: nat, other: nat)
    requires InDisc(size, o, other)
    ensures o <= size
  {
    if o > size {
      MulMonotone(size + 1, o, o);
      MulMonotone(size, o, size + 1);
    }
  }

  /** The box cell of `(x, y)` was visited before row `dy`, column `dx` of the scan. */
  predicate Scanned(size: nat, cx: nat, cy: nat, x: nat, y: nat, dy: nat, dx: nat) {
    y + size < cy + dy || (y + size == cy + dy && x + size < cx + dx)
  }

  /** Pixel `(x, y)` is drawn if the scan has passed it, and untouched if not. */
  ghost predicate PixelDrawn(before: Bytes, now: Bytes, f: Frame, cx: nat, cy: nat, size: nat, depth: Depth, value: (nat, nat) -> nat, dy: nat, dx: nat, x: nat, y: nat)
    requires Good(f) && |before| == |now| == f.len && x < f.width && y < f.height
  {
    Pixel(now, f, x, y) ==
      if Scanned(size, cx, cy, x, y, dy, dx) then StarPixel(before, f, cx, cy, size, depth, value, x, y) else Pixel(before, f, x, y)
  }

  /** How far the scan has got. */
  ghost predicate DrawnTo(before: Bytes, now: Bytes, f: Frame, cx: nat, cy: nat, size: nat, depth: Depth, value: (nat, nat) -> nat, dy: nat, dx: nat)
    requires Good(f) && |before| == |now| == f.len
  {
    forall x: nat, y: nat {:trigger PixelDrawn(before, now, f, cx, cy, size, depth, value, dy, dx, x, y)} ::
      x < f.width && y < f.height ==> PixelDrawn(before, now, f, cx, cy, size, depth, value, dy, dx, x, y)
  }

  /** The cell the scan is at. */
  predicate IsCell(size: nat, cx: nat, cy: nat, dy: nat, dx: nat, x: nat, y: nat) {
    x + size == cx + dx && y + size == cy + dy
  }

  lemma ScannedStep(size: nat, cx: nat, cy: nat, dy: nat, dx: nat, x: nat, y: nat)
    ensures Scanned(size, cx, cy, x, y, dy, dx + 1) <==>
              Scanned(size, cx, cy, x, y, dy, dx) || IsCell(size, cx, cy, dy, dx, x, y)
    ensures IsCell(size, cx, cy, dy, dx, x, y) ==>
              !Scanned(size, cx, cy, x, y, dy, dx) && Distance(x, cx) == Distance(dx, size) && Distance(y, cy) == Distance(dy, size)
  {
  }

  /** A cell off the disc, or any other pixel, is not touched. */
  lemma SkipPixel(before: Bytes, now: Bytes, f: Frame, cx: nat, cy: nat, size: nat, depth: Depth, value: (nat, nat) -> nat, dy: nat, dx: nat, x: nat, y: nat)
    requires Good(f) && |before| == |now| == f.len && x < f.width && y < f.height
    requires PixelDrawn(before, now, f, cx, cy, size, depth, value, dy, dx, x, y)
    requires IsCell(size, cx, cy, dy, dx, x, y) ==> !InDisc(size, Distance(dx, size), Distance(dy, size))
    ensures PixelDrawn(before, now, f, cx, cy, size, depth, value, dy, dx + 1, x, y)
  {
    ScannedStep(size, cx, cy, dy, dx, x, y);
  }

  /** Cells outside the box, and the cell of the scan if it is off the frame or off the disc, do not matter. */
  lemma SkipCell(before: Bytes, now: Bytes, f: Frame, cx: nat, cy: nat, size: nat, depth: Depth, value: (nat, nat) -> nat, dy: nat, dx: nat)
    requires Good(f) && |before| == |now| == f.len
    requires DrawnTo(before, now, f, cx, cy, size, depth, value, dy, dx)
    requires !InDisc(size, Distance(dx, size), Distance(dy, size)) || cx + dx < size || cy + dy < size || cx + dx - size >= f.width || cy + dy - size >= f.height
    ensures DrawnTo(before, now, f, cx, cy, size, depth, value, dy, dx + 1)
  {
    var next := dx + 1;
    forall x: nat, y: nat | x < f.width && y < f.height
      ensures PixelDrawn(before, now, f, cx, cy, size, depth, value, dy, next, x, y)
    {
      assert PixelDrawn(before, now, f, cx, cy, size, depth, value, dy, dx, x, y);
      SkipPixel(before, now, f, cx, cy, size, depth, value, dy, dx, x, y);
    }
  }

  lemma NothingDrawn(before: Bytes, f: Frame, cx: nat, cy: nat, size: nat, depth: Depth, value: (nat, nat) -> nat)
    requires Good(f) && |before| == f.len
    ensures DrawnTo(before, before, f, cx, cy, size, depth, value, 0, 0)
  {
    forall x: nat, y: nat | x < f.width && y < f.height
      ensures PixelDrawn(before, before, f, cx, cy, size, depth, value, 0, 0, x, y)
    {
      var ox, oy := Distance(x, cx), Distance(y, cy);
      if InDisc(size, ox, oy) {
        DiscInBox(size, ox, oy);
        DiscInBox(size, oy, ox);
      }
    }
  }

  lemma NextRow(before: Bytes, now: Bytes, f: Frame, cx: nat, cy: nat, size: nat, depth: Depth, value: (nat, nat) -> nat, dy: nat)
    requires Good(f) && |before| == |now| == f.len
    requires DrawnTo(before, now, f, cx, cy, size, depth, value, dy, 2 * size + 1)
    ensures DrawnTo(before, now, f, cx, cy, size, depth, value, dy + 1, 0)
  {
    var next := dy + 1;
    forall x: nat, y: nat | x < f.width && y < f.height
      ensures PixelDrawn(before, now, f, cx, cy, size, depth, value, next, 0, x, y)
    {
      assert PixelDrawn(before, now, f, cx, cy, size, depth, value, dy, 2 * size + 1, x, y);
      var ox, oy := Distance(x, cx), Distance(y, cy);
      if InDisc(size, ox, oy) {
        DiscInBox(size, ox, oy);
      }
    }
  }

  /** Writing one pixel leaves every other as it was. */
  lemma OnePixelWritten(before: Bytes, now: Bytes, f: Frame, x: nat, y: nat, u: nat, v: nat)
    requires Good(f) && |before| == |now| == f.len && x < f.width && y < f.height && u < f.width && v < f.height
    requires (x, y) != (u, v)
    requires forall i :: 0 <= i < f.len && !(Offset(f, x, y) <= i < Offset(f, x, y) + f.pixelBytes) ==> now[i] == before[i]
    ensures Pixel(now, f, u, v) == Pixel(before, f, u, v)
  {
    PixelFits(f, x, y);
    PixelFits(f, u, v);
    PixelsAreDisjoint(f, x, y, u, v);
  }

  /** `after` is `now` with pixel `(x, y)` brightened. */
  ghost predicate OneBrightened(now: Bytes, after: Bytes, f: Frame, x: nat, y: nat, depth: Depth, value: nat)
    requires Good(f) && |now| == |after| == f.len && x < f.width && y < f.height
  {
    && Pixel(after, f, x, y) == Brightened(depth, Pixel(now, f, x, y), value)
    && forall i :: 0 <= i < f.len && !(Offset(f, x, y) <= i < Offset(f, x, y) + f.pixelBytes) ==> after[i] == now[i]
  }

  lemma OthersKept(now: Bytes, after: Bytes, f: Frame, x: nat, y: nat, depth: Depth, value: nat, u: nat, v: nat, same: bool)
    requires Good(f) && |now| == |after| == f.len && x < f.width && y < f.height && u < f.width && v < f.height
    requires OneBrightened(now, after, f, x, y, depth, value) && (same <==> x == u && y == v)
    ensures Pixel(after, f, u, v) == if same then Brightened(depth, Pixel(now, f, u, v), value) else Pixel(now, f, u, v)
  {
    if !same { OnePixelWritten(now, after, f, x, y, u, v); }
  }

  lemma OneCell(size: nat, cx: nat, cy: nat, dy: nat, dx: nat, x: nat, y: nat, u: nat, v: nat)
    requires IsCell(size, cx, cy, dy, dx, x, y)
    ensures IsCell(size, cx, cy, dy, dx, u, v) <==> x == u && y == v
  {
  }

  /** A pixel after the cell of the scan was brightened. */
  lemma DrawPixel(before: Bytes, now: Bytes, after: Bytes, f: Frame, cx: nat, cy: nat, size: nat, depth: Depth, value: (nat, nat) -> nat, dy: nat, dx: nat, u: nat, v: nat)
    requires Good(f) && |before| == |now| == |after| == f.len && u < f.width && v < f.height
    requires PixelDrawn(before, now, f, cx, cy, size, depth, value, dy, dx, u, v)
    requires InDisc(size, Distance(dx, size), Distance(dy, size))
    requires Pixel(after, f, u, v) ==
               if IsCell(size, cx, cy, dy, dx, u, v) then Brightened(depth, Pixel(now, f, u, v), value(Distance(dx, size), Distance(dy, size)))
               else Pixel(now, f, u, v)
    ensures PixelDrawn(before, after, f, cx, cy, size, depth, value, dy, dx + 1, u, v)
  {
    ScannedStep(size, cx, cy, dy, dx, u, v);
  }

  lemma DrawCell(before: Bytes, now: Bytes, after: Bytes, f: Frame, cx: nat, cy: nat, size: nat, depth: Depth, value: (nat, nat) -> nat, dy: nat, dx: nat, x: nat, y: nat)
    requires Good(f) && |before| == |now| == |after| == f.len && x < f.width && y < f.height
    requires DrawnTo(before, now, f, cx, cy, size, depth, value, dy, dx)
    requires IsCell(size, cx, cy, dy, dx, x, y) && InDisc(size, Distance(dx, size), Distance(dy, size))
    requires OneBrightened(now, after, f, x, y, depth, value(Distance(dx, size), Distance(dy, size)))
    ensures DrawnTo(before, after, f, cx, cy, size, depth, value, dy, dx + 1)
  {
    var next := dx + 1;
    forall u: nat, v: nat | u < f.width && v < f.height
      ensures PixelDrawn(before, after, f, cx, cy, size, depth, value, dy, next, u, v)
    {
      assert PixelDrawn(before, now, f, cx, cy, size, depth, value, dy, dx, u, v);
      OneCell(size, cx, cy, dy, dx, x, y, u, v);
      OthersKept(now, after, f, x, y, depth, value(Distance(dx, size), Distance(dy, size)), u, v, IsCell(size, cx, cy, dy, dx, u, v));
      DrawPixel(before, now, after, f, cx, cy, size, depth, value, dy, dx, u, v);
    }
  }

  /** One cell of the scanned box. */
  method DrawAt(data: array<byte>, f: Frame, cx: nat, cy: nat, size: nat, depth: Depth, value: (nat, nat) -> nat, dy: nat, dx: nat, ghost before: Bytes)
    requires Good(f) && data.Length == f.len == |before| && f.width < U32_BOUND && f.height < U32_BOUND
    requires DrawnTo(before, data[..], f, cx, cy, size, depth, value, dy, dx)
    modifies data
    ensures DrawnTo(before, data[..], f, cx, cy, size, depth, value, dy, dx + 1)
  {
    var ox, oy := Distance(dx, size), Distance(dy, size);
    var x := if dx >= size then cx + ox else cx - ox;
    var y := if dy >= size then cy + oy else cy - oy;
    ghost var now := data[..];
    // A coordinate below zero or beyond `u32` is skipped, one past the far edge finds no pixel.
    if 0 <= x < U32_BOUND && 0 <= y < U32_BOUND && InDisc(size, ox, oy) && PixelAt(f, data.Length, x, y).Some? {
      PixelAtInFrame(f, x, y);
      PixelFits(f, x, y);
      BrightenPixel(data, Offset(f, x, y), f.pixelBytes, depth, value(ox, oy));
      DrawCell(before, now, data[..], f, cx, cy, size, depth, value, dy, dx, x, y);
    } else {
      if 0 <= x && 0 <= y { PixelAtInFrame(f, x, y); }
      SkipCell(before, now, f, cx, cy, size, depth, value, dy, dx);
    }
  }

  /**
   * Draws a star in place: every pixel of the frame inside the disc is brightened once,
   * by saturating addition, and every other byte stays. A disc that overhangs an edge is
   * clipped there and does not wrap into a neighbouring row.
   */
  method DrawStar(data: array<byte>, f: Frame, cx: nat, cy: nat, size: nat, depth: Depth, value: (nat, nat) -> nat)
    requires Good(f) && data.Length == f.len && f.width < U32_BOUND && f.height < U32_BOUND
    modifies data
    ensures StarDrawn(old(data[..]), data[..], f, cx, cy, size, depth, value)
  {
    ghost var before := data[..];
    NothingDrawn(before, f, cx, cy, size, depth, value);
    var diameter := 2 * size;
    for dy := 0 to diameter + 1
      invariant DrawnTo(before, data[..], f, cx, cy, size, depth, value, dy, 0)
    {
      for dx := 0 to diameter + 1
        invariant DrawnTo(before, data[..], f, cx, cy, size, depth, value, dy, dx)
      {
        DrawAt(data, f, cx, cy, size, depth, value, dy, dx, before);
      }
      NextRow(before, data[..], f, cx, cy, size, depth, value, dy);
    }
    StarIsDone(before, data[..], f, cx, cy, size, depth, value);
  }

  lemma StarIsDone(before: Bytes, now: Bytes, f: Frame, cx: nat, cy: nat, size: nat, depth: Depth, value: (nat, nat) -> nat)
    requires Good(f) && |before| == |now| == f.len
    requires DrawnTo(before, now, f, cx, cy, size, depth, value, 2 * size + 1, 0)
    ensures StarDrawn(before, now, f, cx, cy, size, depth, value)
  {
    forall x: nat, y: nat | x < f.width && y < f.height
      ensures Pixel(now, f, x, y) == StarPixel(before, f, cx, cy, size, depth, value, x, y)
    {
      assert PixelDrawn(before, now, f, cx, cy, size, depth, value, 2 * size + 1, 0, x, y);
      var ox, oy := Distance(x, cx), Distance(y, cy);
      if InDisc(size, ox, oy) {
        DiscInBox(size, oy, ox);
      }
    }
  }

  /**
   * A star only brightens: an 8-bit sample, and a little-endian 16-bit one, becomes the sum
   * if that fits and white if not; half a sample at the end of a pixel stays.
   */
  lemma BrightenedIsBrighter(depth: Depth, pixel: Bytes, value: nat, k: nat)
    requires k < |pixel|
    ensures |Brightened(depth, pixel, value)| == |pixel|
    ensures depth.Eight? ==>
              var sum := pixel[k] as nat + value;
              Brightened(depth, pixel, value)[k] as nat == if sum <= 255 then sum else 255
    ensures depth.Sixteen? && k % 2 == 0 && k + 1 < |pixel| ==>
              var b := Brightened(depth, pixel, value);
              var sum := pixel[k] as nat + 256 * pixel[k + 1] as nat + value;
              b[k] as nat + 256 * b[k + 1] as nat == if sum <= 65535 then sum else 65535
    ensures depth.Sixteen? && k % 2 == 0 && k + 1 == |pixel| ==> Brightened(depth, pixel, value)[k] == pixel[k]
  {
    if depth.Sixteen? && k % 2 == 0 && k + 1 < |pixel| {
      var sum := SaturatingAdd(pixel[k] as nat + 256 * pixel[k + 1] as nat, value, 65535);
      assert BrightByte(depth, pixel, value, k) as nat == sum % 256;
      assert BrightByte(depth, pixel, value, k + 1) as nat == sum / 256;
    }
  }

  /** The disc is what the source's hypotenuse says: whatever real number `d` is the distance, it is compared with the size. */
  lemma DiscIsByDistance(size: nat, ox: nat, oy: nat, d: real)
    requires d >= 0.0 && d * d == (ox * ox + oy * oy) as real
    ensures InDisc(size, ox, oy) <==> d <= size as real
  {
    RealProduct(size, size);
    if d < size as real {
      SquareLess(d, size as real);
    } else if d > size as real {
      SquareLess(size as real, d);
    }
  }

  lemma {:induction false} RealProduct(a: nat, b: nat)
    ensures (a * b) as real == a as real * b as real
  {
    if b > 0 {
      var x, y := a as real, (b - 1) as real;
      RealProduct(a, b - 1);
      assert a * b == a * (b - 1) + a;
      assert b as real == y + 1.0;
      assert x * (y + 1.0) == x * y + x;
    }
  }

  lemma SquareLess(a: real, b: real)
    requires 0.0 <= a < b
    ensures a * a < b * b
  {
    ProductPositive(b - a, b + a);
    assert (b - a) * (b + a) == b * b - a * a;
  }

  lemma ProductPositive(x: real, y: real)
    requires x > 0.0 && y > 0.0
    ensures x * y > 0.0
  {
  }
}
