/** Frame geometry and the in-place writes of the simulated readout: pixels as strides of one byte buffer. */
module FrameGeometry {
  import opened Common
  import opened Arithmetic

  const USIZE_BOUND: nat := U64_BOUND

  datatype Frame = Frame(width: nat, height: nat, pixelBytes: nat, rowBytes: nat, len: nat)

  ghost predicate Good(f: Frame) {
    && 0 < f.width && 0 < f.height && 0 < f.pixelBytes
    && f.rowBytes == f.width * f.pixelBytes
    && f.len == f.height * f.rowBytes
  }

  function CheckedMul(a: nat, b: nat): Option<nat> {
    if a * b < USIZE_BOUND then Some(a * b) else None
  }

  /** `None` exactly for a frame without bytes or with more than can be addressed. */
  function NewFrame(width: nat, height: nat, channels: nat, sampleBytes: nat): (r: Option<Frame>)
    ensures r.Some? <==> 0 < height * (width * (channels * sampleBytes)) < USIZE_BOUND
    ensures r.Some? ==> Good(r.value) && r.value.width == width && r.value.height == height
    ensures r.Some? ==> r.value.pixelBytes == channels * sampleBytes && r.value.len == height * (width * (channels * sampleBytes))
  {
    var pixel := channels * sampleBytes;
    var row := width * pixel;
    MulPositive(height, row);
    MulPositive(width, pixel);
    if height > 0 && row > 0 then
      MulMonotone(1, height, row);
      MulMonotone(1, width, pixel);
      if CheckedMul(channels, sampleBytes).None? || CheckedMul(width, pixel).None? || CheckedMul(height, row).None? then None
      else Some(Frame(width, height, pixel, row, height * row))
    else None
  }

  // --- pixels ----------------------------------------------------------------

  function Offset(f: Frame, x: nat, y: nat): nat {
    y * f.rowBytes + x * f.pixelBytes
  }

  /** Where `pixel_mut` finds a pixel of a buffer of `len` bytes: whole rows, then whole pixels of a row. */
  function PixelAt(f: Frame, len: nat, x: nat, y: nat): Option<nat> {
    if (y + 1) * f.rowBytes <= len && (x + 1) * f.pixelBytes <= f.rowBytes then Some(Offset(f, x, y)) else None
  }

  /** A pixel is found exactly when its coordinate is in the frame; a coordinate past an edge never wraps. */
  lemma PixelAtInFrame(f: Frame, x: nat, y: nat)
    requires Good(f)
    ensures PixelAt(f, f.len, x, y).Some? <==> x < f.width && y < f.height
  {
    MulPositive(f.width, f.pixelBytes);
    LessIffMul(y, f.height, f.rowBytes);
    LessIffMul(x, f.width, f.pixelBytes);
  }

  lemma PixelFits(f: Frame, x: nat, y: nat)
    requires Good(f) && x < f.width && y < f.height
    ensures x * f.pixelBytes + f.pixelBytes <= f.rowBytes
    ensures y * f.rowBytes + f.rowBytes <= f.len
    ensures Offset(f, x, y) + f.pixelBytes <= f.len
  {
    MulMonotone(x + 1, f.width, f.pixelBytes);
    assert (x + 1) * f.pixelBytes == x * f.pixelBytes + f.pixelBytes;
    MulMonotone(y + 1, f.height, f.rowBytes);
    assert (y + 1) * f.rowBytes == y * f.rowBytes + f.rowBytes;
  }

  /** Distinct pixels share no byte. */
  lemma PixelsAreDisjoint(f: Frame, x: nat, y: nat, u: nat, v: nat)
    requires Good(f) && x < f.width && y < f.height && u < f.width && v < f.height
    requires (x, y) != (u, v)
    ensures Offset(f, x, y) + f.pixelBytes <= Offset(f, u, v) || Offset(f, u, v) + f.pixelBytes <= Offset(f, x, y)
  {
    if y == v {
      if x < u { MulBefore(x, u, f.pixelBytes); } else { MulBefore(u, x, f.pixelBytes); }
    } else {
      PixelFits(f, x, y);
      PixelFits(f, u, v);
      if y < v { MulBefore(y, v, f.rowBytes); } else { MulBefore(v, y, f.rowBytes); }
    }
  }

  /** Every byte of a frame belongs to a pixel. */
  lemma EveryByteHasAPixel(f: Frame, i: nat) returns (x: nat, y: nat, k: nat)
    requires Good(f) && i < f.len
    ensures x < f.width && y < f.height && k < f.pixelBytes && i == Offset(f, x, y) + k
  {
    MulPositive(f.width, f.pixelBytes);
    y := i / f.rowBytes;
    var rest := i % f.rowBytes;
    DivMod(i, f.rowBytes);
    DivBelow(i, f.rowBytes, f.height);
    x, k := rest / f.pixelBytes, rest % f.pixelBytes;
    DivMod(rest, f.pixelBytes);
    DivBelow(rest, f.pixelBytes, f.width);
  }

  // --- blanking odd edges ----------------------------------------------------

  predicate InLastRow(f: Frame, i: nat) {
    i + f.rowBytes >= f.len
  }

  /** Byte `i` is in the last pixel of one of the first `rows` rows. */
  predicate InLastColumn(f: Frame, rows: nat, i: nat) {
    0 < f.rowBytes && i / f.rowBytes < rows && i % f.rowBytes + f.pixelBytes >= f.rowBytes
  }

  predicate Blanked(f: Frame, len: nat, i: nat) {
    || (f.height % 2 == 1 && InLastRow(f, i))
    || (f.width % 2 == 1 && 0 < f.rowBytes && InLastColumn(f, len / f.rowBytes, i))
  }

  method BlankLastRow(data: array<byte>, f: Frame)
    requires Good(f) && f.height % 2 == 1
    modifies data
    ensures forall i: nat :: i < data.Length ==> data[i] == if InLastRow(f, i) then 0 else old(data[i])
  {
    PixelFits(f, 0, f.height - 1);
    var start := f.len - f.rowBytes;
    if start <= data.Length {
      for i := start to data.Length
        invariant forall j: nat :: j < data.Length ==> data[j] == if start <= j < i then 0 else old(data[j])
      {
        data[i] := 0;
      }
    }
  }

  lemma RowOf(f: Frame, row: nat, j: nat)
    requires Good(f) && row * f.rowBytes <= j < row * f.rowBytes + f.rowBytes
    ensures forall r: nat :: InLastColumn(f, r, j) <==> row < r && j >= row * f.rowBytes + f.rowBytes - f.pixelBytes
  {
    MulPositive(f.width, f.pixelBytes);
    DivIs(j, f.rowBytes, row);
  }

  lemma OtherRow(f: Frame, row: nat, j: nat)
    requires Good(f) && !(row * f.rowBytes <= j < row * f.rowBytes + f.rowBytes)
    ensures InLastColumn(f, row, j) <==> InLastColumn(f, row + 1, j)
  {
    var k := j / f.rowBytes;
    MulPositive(f.width, f.pixelBytes);
    DivMod(j, f.rowBytes);
    assert k == row ==> k * f.rowBytes == row * f.rowBytes;
  }

  method BlankRowEnd(data: array<byte>, f: Frame, row: nat)
    requires Good(f) && row * f.rowBytes + f.rowBytes <= data.Length
    modifies data
    ensures forall j: nat :: j < data.Length ==>
              data[j] == if row * f.rowBytes + f.rowBytes - f.pixelBytes <= j < row * f.rowBytes + f.rowBytes then 0 else old(data[j])
  {
    PixelFits(f, f.width - 1, 0);
    var end := row * f.rowBytes + f.rowBytes;
    for i := end - f.pixelBytes to end
      invariant forall j: nat :: j < data.Length ==> data[j] == if end - f.pixelBytes <= j < i then 0 else old(data[j])
    {
      data[i] := 0;
    }
  }

  lemma RowEndStep(f: Frame, row: nat, j: nat)
    requires Good(f)
    ensures InLastColumn(f, row + 1, j) <==>
              || InLastColumn(f, row, j)
              || row * f.rowBytes + f.rowBytes - f.pixelBytes <= j < row * f.rowBytes + f.rowBytes
  {
    PixelFits(f, f.width - 1, 0);
    if row * f.rowBytes <= j < row * f.rowBytes + f.rowBytes {
      RowOf(f, row, j);
    } else {
      OtherRow(f, row, j);
    }
  }

  method BlankLastColumn(data: array<byte>, f: Frame)
    requires Good(f)
    modifies data
    ensures 0 < f.rowBytes
    ensures forall i: nat :: i < data.Length ==> data[i] == if InLastColumn(f, data.Length / f.rowBytes, i) then 0 else old(data[i])
  {
    MulPositive(f.width, f.pixelBytes);
    var rows := data.Length / f.rowBytes;
    DivMod(data.Length, f.rowBytes);
    for row := 0 to rows
      invariant forall i: nat :: i < data.Length ==> data[i] == if InLastColumn(f, row, i) then 0 else old(data[i])
    {
      MulMonotone(row + 1, rows, f.rowBytes);
      assert (row + 1) * f.rowBytes == row * f.rowBytes + f.rowBytes;
      BlankRowEnd(data, f, row);
      forall i: nat | i < data.Length ensures data[i] == if InLastColumn(f, row + 1, i) then 0 else old(data[i]) {
        RowEndStep(f, row, i);
      }
    }
  }

  /** Blanks the last row of an odd height and the last column of an odd width, in place. */
  method BlankOddEdges(data: array<byte>, width: nat, height: nat, channels: nat, depth: nat)
    modifies data
    ensures match NewFrame(width, height, channels, depth)
            case None => data[..] == old(data[..])
            case Some(f) => forall i: nat :: i < data.Length ==> data[i] == if Blanked(f, data.Length, i) then 0 else old(data[i])
  {
    var frame := NewFrame(width, height, channels, depth);
    if frame.None? {
      return;
    }
    var f := frame.value;
    if f.height % 2 == 1 {
      BlankLastRow(data, f);
    }
    if f.width % 2 == 1 {
      BlankLastColumn(data, f);
    }
  }

  /** On a buffer of the frame's size exactly the pixels of the last row and column go black. */
  lemma BlankedPixels(f: Frame, x: nat, y: nat, k: nat)
    requires Good(f) && x < f.width && y < f.height && k < f.pixelBytes
    ensures Blanked(f, f.len, Offset(f, x, y) + k) <==>
              || (f.height % 2 == 1 && y == f.height - 1)
              || (f.width % 2 == 1 && x == f.width - 1)
  {
    var i := Offset(f, x, y) + k;
    PixelFits(f, x, y);
    MulPositive(f.width, f.pixelBytes);
    DivIs(f.len, f.rowBytes, f.height);
    assert InLastRow(f, i) <==> y == f.height - 1 by { LastRowIs(f, x, y, k); }
    assert InLastColumn(f, f.height, i) <==> x == f.width - 1 by { LastColumnIs(f, x, y, k); }
  }

  lemma LastRowIs(f: Frame, x: nat, y: nat, k: nat)
    requires Good(f) && x < f.width && y < f.height && k < f.pixelBytes
    ensures InLastRow(f, Offset(f, x, y) + k) <==> y == f.height - 1
  {
    PixelFits(f, x, y);
    if y < f.height - 1 {
      MulMonotone(y + 2, f.height, f.rowBytes);
      assert (y + 2) * f.rowBytes == y * f.rowBytes + f.rowBytes + f.rowBytes;
    } else {
      assert (y + 1) * f.rowBytes == y * f.rowBytes + f.rowBytes;
    }
  }

  lemma LastPixelIs(f: Frame, x: nat, k: nat)
    requires Good(f) && x < f.width && k < f.pixelBytes
    ensures x * f.pixelBytes + k + f.pixelBytes >= f.rowBytes <==> x == f.width - 1
  {
    if x < f.width - 1 {
      MulMonotone(x + 2, f.width, f.pixelBytes);
      assert (x + 2) * f.pixelBytes == x * f.pixelBytes + f.pixelBytes + f.pixelBytes;
    } else {
      assert (x + 1) * f.pixelBytes == x * f.pixelBytes + f.pixelBytes;
    }
  }

  lemma LastColumnOf(f: Frame, y: nat, i: nat)
    requires Good(f) && y < f.height && y * f.rowBytes <= i < y * f.rowBytes + f.rowBytes
    ensures InLastColumn(f, f.height, i) <==> i >= y * f.rowBytes + f.rowBytes - f.pixelBytes
  {
    RowOf(f, y, i);
  }

  lemma LastColumnIs(f: Frame, x: nat, y: nat, k: nat)
    requires Good(f) && x < f.width && y < f.height && k < f.pixelBytes
    ensures InLastColumn(f, f.height, Offset(f, x, y) + k) <==> x == f.width - 1
  {
    var i, start := Offset(f, x, y) + k, y * f.rowBytes;
    PixelFits(f, x, y);
    LastPixelIs(f, x, k);
    assert i == start + x * f.pixelBytes + k;
    LastColumnOf(f, y, i);
    assert i >= start + f.rowBytes - f.pixelBytes <==> x == f.width - 1;
  }
}
