// The generator's one run: name the file after the colour scheme, write the
// two headers, then walk the pixels row by row (j outer, i inner), running the
// escape loop and writing three colour bytes per pixel.
module Mandelbrot {
  import opened Optional
  import LittleEndian
  import Bitmap
  import Viewport
  import EscapeTime
  import Palette
  import FileName

  type byte = LittleEndian.byte

  /** The scheme the generator is built with. */
  const ReferenceScheme := 3
  /** Exit status when the output file cannot be opened. */
  const OpenFailed := 20

  datatype BitmapFile = BitmapFile(name: string, bytes: seq<byte>)

  /** An assignment of escape counts to the pixels of the image. */
  ghost predicate ValidCounts(iter: (int, int) -> int)
  {
    forall i, j :: Viewport.InImage(i, j) ==> Palette.IsCount(iter(i, j))
  }

  /** The escape count of every pixel, over the reals. */
  function Counts(i: int, j: int): int
  {
    EscapeTime.Count(EscapeTime.Complex(Viewport.X0(i), Viewport.Y0(j)))
  }

  /** Bytes written per pixel under a scheme. */
  function PixelSize(scheme: int): nat
  {
    if Palette.IsScheme(scheme) then 3 else 0
  }

  /** The bytes written for each pixel under a scheme, given the escape counts. */
  function Painter(scheme: int, iter: (int, int) -> int): (int, int) -> seq<byte>
  {
    (i: int, j: int) =>
      if Viewport.InImage(i, j) && Palette.IsCount(iter(i, j))
      then Palette.PixelBytes(scheme, i, j, iter(i, j))
      else []
  }

  /** px gives every pixel the bytes written for it under the scheme. */
  ghost predicate Paints(scheme: int, px: (int, int) -> seq<byte>)
  {
    forall i, j {:trigger Counts(i, j)} :: Viewport.InImage(i, j) ==>
      Palette.IsCount(Counts(i, j)) && px(i, j) == Palette.PixelBytes(scheme, i, j, Counts(i, j))
  }

  /** Every pixel's bytes are k long. */
  ghost predicate Uniform(px: (int, int) -> seq<byte>, k: nat)
  {
    forall i, j :: Viewport.InImage(i, j) ==> |px(i, j)| == k
  }

  /** The bytes of the first n pixels of row j. */
  function Row(px: (int, int) -> seq<byte>, j: int, n: nat): seq<byte>
    requires n <= Viewport.Width
  {
    if n == 0 then [] else Row(px, j, n - 1) + px(n - 1, j)
  }

  /** The bytes of the first m rows. */
  function Pixels(px: (int, int) -> seq<byte>, m: nat): seq<byte>
    requires m <= Viewport.Height
  {
    if m == 0 then [] else Pixels(px, m - 1) + Row(px, m - 1, Viewport.Width)
  }

  /** The whole file written for a scheme, given the pixels' escape counts. */
  function Image(scheme: int, iter: (int, int) -> int): seq<byte>
  {
    Bitmap.FileHeader + Bitmap.InfoHeader + Pixels(Painter(scheme, iter), Viewport.Height)
  }

  /** Copies src to the end of the stream one byte at a time. */
  method Put(stream: seq<byte>, src: seq<byte>) returns (r: seq<byte>)
    ensures r == stream + src
  {
    r := stream;
    var k := 0;
    while k < |src|
      invariant 0 <= k <= |src|
      invariant r == stream + src[..k]
    {
      r := r + [src[k]];
      k := k + 1;
      assert src[..k] == src[..k - 1] + [src[k - 1]];
    }
    assert src[..k] == src;
  }

  /** The generator's output stream for a scheme: the two headers, then the
      pixels. */
  method WriteImage(scheme: int) returns (stream: seq<byte>)
    ensures stream == Bitmap.FileHeader + Bitmap.InfoHeader + Pixels(Painter(scheme, Counts), Viewport.Height)
  {
    stream := Put([], Bitmap.FileHeader);
    assert stream == Bitmap.FileHeader;
    stream := Put(stream, Bitmap.InfoHeader);
    PainterPaints(scheme);
    stream := WritePixels(stream, scheme, Painter(scheme, Counts));
  }

  /** The pixel loops: rows from j = 0 up, each written left to right. */
  method WritePixels(stream: seq<byte>, scheme: int, ghost px: (int, int) -> seq<byte>)
    returns (r: seq<byte>)
    requires Paints(scheme, px)
    ensures r == stream + Pixels(px, Viewport.Height)
  {
    r := stream;
    for j := 0 to Viewport.Height
      invariant r == stream + Pixels(px, j)
    {
      r := WriteRow(r, scheme, j, px);
      PixelsStep(px, j);
    }
  }

  /** Row j of the image: each pixel's escape count, then its colour bytes. */
  method WriteRow(stream: seq<byte>, scheme: int, j: int, ghost px: (int, int) -> seq<byte>)
    returns (r: seq<byte>)
    requires 0 <= j < Viewport.Height && Paints(scheme, px)
    ensures r == stream + Row(px, j, Viewport.Width)
  {
    r := stream;
    for i := 0 to Viewport.Width
      invariant r == stream + Row(px, j, i)
    {
      var iteration := EscapeAt(i, j);
      r := PutPixel(r, scheme, i, j, iteration);
      RowStep(px, j, i);
    }
  }

  /** The escape loop run from the point pixel (i, j) stands for. */
  method EscapeAt(i: int, j: int) returns (iteration: int)
    ensures iteration == Counts(i, j)
  {
    var x0 := Viewport.X0(i);
    var y0 := Viewport.Y0(j);
    iteration := EscapeTime.Escape(x0, y0);
    EscapeTime.CountUnique(EscapeTime.Complex(x0, y0), iteration);
  }

  /** Writes pixel (i, j): black when the point did not escape, else the
      scheme's colour; nothing for a scheme outside 1 to 3. */
  method PutPixel(stream: seq<byte>, scheme: int, i: int, j: int, iteration: int)
    returns (r: seq<byte>)
    requires Viewport.InImage(i, j) && Palette.IsCount(iteration)
    ensures r == stream + Palette.PixelBytes(scheme, i, j, iteration)
  {
    r := stream;
    if scheme == 1 {
      if iteration == EscapeTime.MaxIteration {
        r := r + [0x00, 0x00, 0x00];
      } else {
        var c := Palette.Scheme1(i, j, iteration);
        r := r + [c.blue, c.green, c.red];
      }
    }
    if scheme == 2 {
      if iteration == EscapeTime.MaxIteration {
        r := r + [0x00, 0x00, 0x00];
      } else {
        var c := Palette.Scheme2(i, j, iteration);
        r := r + [c.blue, c.green, c.red];
      }
    }
    if scheme == 3 {
      if iteration == EscapeTime.MaxIteration {
        r := r + [0x00, 0x00, 0x00];
      } else {
        var c := Palette.Scheme3(i, j, iteration);
        r := r + [c.blue, c.green, c.red];
      }
    }
  }

  /** One run: the exit status and the file left behind, if any. */
  method Run(scheme: int, canOpen: bool) returns (status: int, file: Option<BitmapFile>)
    ensures !canOpen ==> status == OpenFailed && file == None
    ensures canOpen ==> status == 0 && file == Some(BitmapFile(FileName.Name(scheme), Image(scheme, Counts)))
  {
    var name := FileName.Name(scheme);
    if !canOpen {
      return OpenFailed, None;
    }
    var stream := WriteImage(scheme);
    return 0, Some(BitmapFile(name, stream));
  }

  /** Every pixel's escape count lies between 1 and the cap. */
  lemma CountsValid()
    ensures ValidCounts(Counts)
    ensures forall i, j :: Viewport.InImage(i, j) ==> 1 <= Counts(i, j)
  {
    forall i, j | Viewport.InImage(i, j)
      ensures 1 <= Counts(i, j)
    {
      var c := EscapeTime.Complex(Viewport.X0(i), Viewport.Y0(j));
      EscapeTime.CountPositive(c, EscapeTime.Count(c));
    }
  }

  /** The orbit of 1 + 1i: 0, then 1 + 1i, then 1 + 3i. */
  lemma CornerOrbit1()
    ensures EscapeTime.Orbit(EscapeTime.Complex(1.0, 1.0), 1) == EscapeTime.Complex(1.0, 1.0)
  {
    EscapeTime.OrbitStep(EscapeTime.Complex(1.0, 1.0), 0);
  }

  lemma CornerOrbit2()
    ensures EscapeTime.Orbit(EscapeTime.Complex(1.0, 1.0), 2) == EscapeTime.Complex(1.0, 3.0)
  {
    CornerOrbit1();
    EscapeTime.OrbitStep(EscapeTime.Complex(1.0, 1.0), 1);
  }

  /** The point 1 + 1i leaves the circle at step 2. */
  lemma CornerPointCount()
    ensures EscapeTime.Count(EscapeTime.Complex(1.0, 1.0)) == 2
  {
    CornerOrbit1();
    CornerOrbit2();
    EscapeTime.SecondStepCount(EscapeTime.Complex(1.0, 1.0));
  }

  /** The far corner pixel maps to 1 + 1i, so its count is 2. */
  lemma CornerCount()
    ensures Counts(Viewport.Width - 1, Viewport.Height - 1) == 2
  {
    assert Viewport.X0(Viewport.Width - 1) == 1.0 && Viewport.Y0(Viewport.Height - 1) == 1.0;
    CornerPointCount();
  }

  lemma PainterAt(scheme: int, iter: (int, int) -> int, i: int, j: int)
    requires ValidCounts(iter) && Viewport.InImage(i, j)
    ensures Painter(scheme, iter)(i, j) == Palette.PixelBytes(scheme, i, j, iter(i, j))
  {
  }

  lemma PainterPaints(scheme: int)
    ensures Paints(scheme, Painter(scheme, Counts))
  {
    CountsValid();
    forall i, j | Viewport.InImage(i, j)
      ensures Painter(scheme, Counts)(i, j) == Palette.PixelBytes(scheme, i, j, Counts(i, j))
    {
      PainterAt(scheme, Counts, i, j);
    }
  }

  lemma PixelsStep(px: (int, int) -> seq<byte>, m: nat)
    requires m < Viewport.Height
    ensures Pixels(px, m + 1) == Pixels(px, m) + Row(px, m, Viewport.Width)
  {
  }

  lemma RowStep(px: (int, int) -> seq<byte>, j: int, n: nat)
    requires n < Viewport.Width
    ensures Row(px, j, n + 1) == Row(px, j, n) + px(n, j)
  {
  }

  /** Under a scheme every pixel takes PixelSize bytes. */
  lemma PainterUniform(scheme: int, iter: (int, int) -> int)
    requires ValidCounts(iter)
    ensures Uniform(Painter(scheme, iter), PixelSize(scheme))
  {
    forall i, j | Viewport.InImage(i, j)
      ensures |Painter(scheme, iter)(i, j)| == PixelSize(scheme)
    {
      PainterAt(scheme, iter, i, j);
    }
  }

  /** A row of n pixels of k bytes each is k * n bytes long. */
  lemma {:induction false} RowLength(px: (int, int) -> seq<byte>, k: nat, j: int, n: nat)
    requires Uniform(px, k) && 0 <= j < Viewport.Height && n <= Viewport.Width
    ensures |Row(px, j, n)| == k * n
  {
    if n > 0 {
      RowLength(px, k, j, n - 1);
      assert |px(n - 1, j)| == k;
      assert k * n == k * (n - 1) + k;
    }
  }

  /** m rows take k * Width * m bytes: no padding is written. */
  lemma {:induction false} PixelsLength(px: (int, int) -> seq<byte>, k: nat, m: nat)
    requires Uniform(px, k) && m <= Viewport.Height
    ensures |Pixels(px, m)| == k * Viewport.Width * m
  {
    if m > 0 {
      PixelsLength(px, k, m - 1);
      RowLength(px, k, m - 1, Viewport.Width);
      var p := k * Viewport.Width;
      assert p * m == p * (m - 1) + p;
    }
  }

  /** Byte c of pixel i sits at offset 3 * i + c of its row. */
  lemma {:induction false} RowAt(px: (int, int) -> seq<byte>, j: int, n: nat, i: nat, c: nat)
    requires Uniform(px, 3) && 0 <= j < Viewport.Height && n <= Viewport.Width
    requires i < n && c < 3
    ensures 3 * i + c < |Row(px, j, n)|
    ensures Row(px, j, n)[3 * i + c] == px(i, j)[c]
  {
    RowLength(px, 3, j, n - 1);
    assert |px(n - 1, j)| == 3;
    if i < n - 1 {
      RowAt(px, j, n - 1, i, c);
    }
  }

  /** Byte c of pixel (i, j) sits at offset 3 * (j * Width + i) + c of the
      pixel data: rows are written from j = 0 up, pixels left to right. */
  lemma {:induction false} PixelsAt(px: (int, int) -> seq<byte>, m: nat, i: nat, j: nat, c: nat)
    requires Uniform(px, 3) && m <= Viewport.Height
    requires i < Viewport.Width && j < m && c < 3
    ensures 3 * (j * Viewport.Width + i) + c < |Pixels(px, m)|
    ensures Pixels(px, m)[3 * (j * Viewport.Width + i) + c] == px(i, j)[c]
  {
    var before := Pixels(px, m - 1);
    var row := Row(px, m - 1, Viewport.Width);
    PixelsStep(px, m - 1);
    PixelsLength(px, 3, m - 1);
    RowLength(px, 3, m - 1, Viewport.Width);
    assert |before| == 3 * Viewport.Width * (m - 1);
    var k := 3 * (j * Viewport.Width + i) + c;
    if j < m - 1 {
      PixelsAt(px, m - 1, i, j, c);
      assert k < |before|;
      assert (before + row)[k] == before[k];
    } else {
      RowAt(px, j, Viewport.Width, i, c);
      assert k == |before| + (3 * i + c);
      assert (before + row)[k] == row[3 * i + c];
    }
  }

  /** The file is the two headers and three bytes per pixel: 109704054 bytes
      for a known scheme; a scheme outside 1 to 3 leaves only the headers. */
  lemma ImageSize(scheme: int, iter: (int, int) -> int)
    requires ValidCounts(iter)
    ensures |Image(scheme, iter)| ==
      Bitmap.HeadersSize + PixelSize(scheme) * Viewport.Width * Viewport.Height
    ensures Palette.IsScheme(scheme) ==> |Image(scheme, iter)| == 109704054
    ensures !Palette.IsScheme(scheme) ==> Image(scheme, iter) == Bitmap.FileHeader + Bitmap.InfoHeader
  {
    Bitmap.LiteralHeaders([]);
    PainterUniform(scheme, iter);
    PixelsLength(Painter(scheme, iter), PixelSize(scheme), Viewport.Height);
  }

  /** Byte c of pixel (i, j) sits at offset 54 + 3 * (j * 8000 + i) + c of
      the file. */
  lemma ImagePixel(scheme: int, iter: (int, int) -> int, i: nat, j: nat, c: nat)
    requires ValidCounts(iter) && Palette.IsScheme(scheme)
    requires Viewport.InImage(i, j) && c < 3
    ensures Bitmap.HeadersSize + 3 * (j * Viewport.Width + i) + c < |Image(scheme, iter)|
    ensures Image(scheme, iter)[Bitmap.HeadersSize + 3 * (j * Viewport.Width + i) + c] ==
      Palette.PixelBytes(scheme, i, j, iter(i, j))[c]
  {
    Bitmap.LiteralHeaders([]);
    PainterUniform(scheme, iter);
    PixelsAt(Painter(scheme, iter), Viewport.Height, i, j, c);
    PainterAt(scheme, iter, i, j);
  }

  /** Read back as a bitmap, the file declares what it holds: the image's
      width and height, a file size and an image size equal to what was
      written, and rows that need no padding. */
  lemma DeclaredSizes(scheme: int, iter: (int, int) -> int)
    requires ValidCounts(iter) && Palette.IsScheme(scheme)
    ensures Bitmap.Parse(Image(scheme, iter)) == Some(Bitmap.Describe(Viewport.Width, Viewport.Height))
    ensures Bitmap.Describe(Viewport.Width, Viewport.Height).fileSize == |Image(scheme, iter)|
    ensures Bitmap.Describe(Viewport.Width, Viewport.Height).imageSize ==
      |Image(scheme, iter)| - Bitmap.HeadersSize
    ensures Bitmap.PaddedRowSize(Viewport.Width) == 3 * Viewport.Width
  {
    NoRowPadding();
    ImageSize(scheme, iter);
    Bitmap.LiteralHeaders(Pixels(Painter(scheme, iter), Viewport.Height));
  }

  lemma NoRowPadding()
    ensures Bitmap.PaddedRowSize(Viewport.Width) == 3 * Viewport.Width
  {
    assert (24 * Viewport.Width + 31) / 32 == 6000;
  }

  /** Under a scheme outside 1 to 3 no pixel is written, yet the headers still
      declare the full size. */
  lemma NoSchemeNoPixels(scheme: int, iter: (int, int) -> int)
    requires ValidCounts(iter) && !Palette.IsScheme(scheme)
    ensures Image(scheme, iter) == Bitmap.FileHeader + Bitmap.InfoHeader
    ensures Bitmap.Parse(Image(scheme, iter)) == Some(Bitmap.Describe(Viewport.Width, Viewport.Height))
    ensures |Image(scheme, iter)| < Bitmap.Describe(Viewport.Width, Viewport.Height).fileSize
  {
    ImageSize(scheme, iter);
    Bitmap.LiteralHeaders(Pixels(Painter(scheme, iter), Viewport.Height));
  }

  /** The reference build writes mandelbrot_3.bmp. */
  lemma ReferenceName()
    ensures FileName.Name(ReferenceScheme) == "mandelbrot_3.bmp"
  {
    FileName.SchemeNames();
  }
}
