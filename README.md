# Mandelbrot bitmap generator, modelled in Dafny

The generator is one C++ program (`main.cpp`). It picks a colour scheme (1, 2 or 3; the build
fixes it at 3) and names the output file `mandelbrot_<scheme>.bmp`. It writes the 14-byte
BITMAPFILEHEADER and the 40-byte BITMAPINFOHEADER of an 8000 by 4571 pixel, 24-bit, uncompressed
image. It then walks the pixels with `j` (the row, 0 to 4570) outside and `i` (the column, 0 to
7999) inside. For each pixel it maps (i, j) onto the rectangle [-2.5, 1.0] x [-1.0, 1.0] of the
complex plane, runs the escape-time loop z := z² + c with a cap of 1000 iterations, and writes three
colour bytes. A point that reached the cap is black; any other point gets the scheme's formula over
`i`, `j` and the iteration count, in C++ `int` arithmetic narrowed to `unsigned char`.

The model has one module per concern:

- `LittleEndian`: unsigned little-endian fields. `Encode` and `Decode` are proved inverse in both
  directions.
- `Bitmap`: the two header arrays exactly as the source spells them out. Also a record of the
  header fields, their serialisation, and a parser that reads them back.
  - Serialise then parse gives the header back, whatever follows it.
  - Any 54 bytes are the serialisation of what they parse to.
  - The literal arrays are the headers of an 8000 by 4571, 24-bit image.
- `Int32`: the C++ `int` operations the palettes use. Each result is wrapped to 32 bits explicitly.
  Division truncates toward zero. `ToByte` is the conversion to `unsigned char`.
- `Viewport`: the image size (the bounds of the two pixel loops) and the affine map to the plane.
- `EscapeTime`: the escape loop as a method with invariants (`Escape`). It is proved against a
  specification (`IsEscapeCount`, `Count`) stated over the orbit of 0.
- `Palette`: the three colour schemes and the bytes written per pixel.
- `FileName`: `"mandelbrot_" + to_string(scheme) + ".bmp"`, with `to_string` proved injective by
  reading the digits back.
- `Mandelbrot`: the program's run.
  - The header copy loops (`Put`), the nested pixel loops (`WritePixels`, `WriteRow`), the pixel
    branches (`PutPixel`) and the open-failure exit (`Run`), all as methods proved against the
    specification function `Image`.
  - Lemmas on the layout of the file that `Image` describes.

Two behaviours of the code are worth stating outright:

- A point outside the radius-2 circle does not get count 0. The loop test `x*x + y*y < 4` at
  `main.cpp:113` is first evaluated with z = 0 and passes, so the loop always runs at least once and
  such a point gets count 1 (`EscapeTime.OutsideCount`).
- The palette formulas can overflow 32-bit `int` for a pixel of the image and a count in range.
  `Palette.Scheme3Overflows` exhibits one such combination: (i, j) = (7999, 4570) with a count of
  999. That pixel itself escapes after 2 steps (`Mandelbrot.CornerCount`), so this is not a byte of
  the written image. That some pixel of the image reaches a count large enough to overflow is
  plausible but not proved here. Signed overflow is undefined in C++; the model gives it the
  two's-complement wrap-around that common compilers produce.

## Model

| member | source | states |
|---|---|---|
| LittleEndian.DecodeEncode | main.cpp:37-58 | reading back the little-endian bytes of any value that fits its width gives the value |
| LittleEndian.EncodeDecode | main.cpp:37-58 | re-encoding what any byte string decodes to, at its own width, gives the same bytes |
| Bitmap.U32Bytes | main.cpp:38-57 | a 32-bit header field is four bytes that decode to the field's value |
| Bitmap.Parse | main.cpp:37-58 | a header is read exactly when at least 54 bytes are present, and every field read fits its 16- or 32-bit width |
| Bitmap.PaddedRowSize | main.cpp:46-58 | a conforming 24-bit row is padded to a multiple of 4 bytes and adds fewer than 4 bytes to the 3 per pixel |
| Bitmap.ParseHeaderBytes | main.cpp:37-58 | serialising any header and reading it back, whatever follows it, gives the same header |
| Bitmap.HeaderBytesOfParse | main.cpp:37-58 | any 54 bytes are exactly the serialisation of the header they parse to |
| Bitmap.LiteralFileHeader | main.cpp:37-43 | the 14 literal bytes are the file header of an 8000 by 4571 image: "BM", file size 109704054, reserved 0, pixel data at offset 54 |
| Bitmap.LiteralInfoHeader | main.cpp:46-58 | the 40 literal bytes are the info header: size 40, width 8000, height 4571, 1 plane, 24 bits, no compression, image size 109704000, 2835 pixels per metre both ways, no palette |
| Bitmap.LiteralHeaders | main.cpp:37-58 | both arrays together serialise that header and parse back to it whatever pixel bytes follow |
| Int32.Wrap | main.cpp:127-140 | the wrapped value lies in the 32-bit range and equals its input whenever the input is already in range |
| Int32.WrapCongruent | main.cpp:127-140 | wrapping changes a value by a multiple of 2^32 only |
| Int32.Div | main.cpp:127-140 | the C++ quotient by a positive divisor truncates toward zero: the remainder has the dividend's sign and is smaller than the divisor |
| Int32.ToByteCongruent | main.cpp:125-140 | the unsigned char written differs from the int computed by a multiple of 256 |
| Viewport.X0 | main.cpp:106 | every column maps into [-2.5, 1.0], the first column to -2.5 and the last to 1.0 |
| Viewport.Y0 | main.cpp:107 | every row maps into [-1.0, 1.0], the first row to -1.0 and the last to 1.0 |
| EscapeTime.Escape | main.cpp:108-119 | the loop's count lies in [1, 1000]; the orbit stayed inside radius 2 at every earlier step; on exit the count is the cap or the orbit has left the circle |
| EscapeTime.IterateStep | main.cpp:115-117 | one more iteration applies the loop body's update once more to the current point |
| EscapeTime.CountFrom | main.cpp:113-119 | counting up from step n stops at the first step from n on that has left the circle, or at the cap |
| EscapeTime.Count | main.cpp:113-119 | the count of every point meets the escape-count specification |
| EscapeTime.CountUnique | main.cpp:113-119 | only one count meets the specification, so the loop's result is a function of the point |
| EscapeTime.CountPositive | main.cpp:110-113 | no count is 0: the loop test passes at z = 0 |
| EscapeTime.SecondStepCount | main.cpp:113-119 | a point whose orbit is inside the circle at step 1 and outside at step 2 is counted 2 |
| EscapeTime.OriginOrbit | main.cpp:113-119 | the orbit of the origin stays at the origin |
| EscapeTime.OriginCount | main.cpp:113-119 | the origin never escapes: its count is the cap of 1000 |
| EscapeTime.OutsideCount | main.cpp:108-119 | a point outside the circle gets count 1, not 0 |
| Palette.Shade | main.cpp:122-144 | a colour is chosen exactly for schemes 1 to 3, and a point that reached the cap is black under each of them |
| Palette.PixelBytes | main.cpp:122-144 | a pixel is three bytes under schemes 1 to 3 and no bytes under any other scheme |
| Palette.Scheme1Exact | main.cpp:127 | scheme 1 never overflows; its blue byte is i mod 256 and its red byte is always 0x50 |
| Palette.Scheme2Exact | main.cpp:134 | scheme 2's red byte never overflows; blue and green are their plain formulas mod 256 whenever their triple products fit in an int |
| Palette.Scheme3Exact | main.cpp:140 | scheme 3's blue and red bytes never overflow; green is its plain formula mod 256 whenever i * j * iteration fits in an int |
| Palette.Scheme3Overflows | main.cpp:140 | for an in-image (i, j) = (7999, 4570) and an in-range count of 999 the product i * j * iteration overflows, and the wrapped green byte (177) differs from the plain formula's (131); the pixel itself does not reach that count |
| FileName.DigitChar | main.cpp:68 | each digit character is a decimal digit with the right value |
| FileName.NatToDecimal | main.cpp:68 | to_string of a natural number is a non-empty string of digits with no leading zero |
| FileName.NatToDecimalValue | main.cpp:68 | reading the digits of to_string back gives the number |
| FileName.IntToDecimalValue | main.cpp:68 | to_string of any int is non-empty, and reading it back, sign included, gives the int |
| FileName.Name | main.cpp:67-69 | the file name is "mandelbrot_", then to_string of the scheme, then ".bmp" |
| FileName.NameInjective | main.cpp:67-69 | different schemes name different files |
| FileName.SchemeNames | main.cpp:67-69 | schemes 1, 2 and 3 write mandelbrot_1.bmp, mandelbrot_2.bmp and mandelbrot_3.bmp |
| Mandelbrot.Put | main.cpp:84-87 | copying an array byte by byte appends exactly its bytes, in order, to the stream |
| Mandelbrot.WriteImage | main.cpp:84-150 | the stream is the file header, then the info header, then the pixels of every row |
| Mandelbrot.WritePixels | main.cpp:102-150 | the outer loop appends the rows j = 0 to 4570 in order |
| Mandelbrot.WriteRow | main.cpp:104-148 | the inner loop appends the pixels i = 0 to 7999 of row j in order |
| Mandelbrot.EscapeAt | main.cpp:106-119 | the count computed for pixel (i, j) is the escape count of the point it maps to |
| Mandelbrot.PutPixel | main.cpp:122-144 | each pixel appends the bytes its scheme prescribes: black at the cap, the scheme's formula otherwise, nothing for an unknown scheme |
| Mandelbrot.Run | main.cpp:73-79 | if the file cannot be opened the run exits with status 20 and leaves no file; otherwise it exits with 0 and the named file holds the whole image |
| Mandelbrot.CountsValid | main.cpp:108-119 | every pixel's count lies between 1 and the cap |
| Mandelbrot.CornerOrbit1 | main.cpp:113-117 | the first step of the orbit of 1 + 1i takes 0 to 1 + 1i |
| Mandelbrot.CornerOrbit2 | main.cpp:113-117 | the second step of the orbit of 1 + 1i reaches 1 + 3i |
| Mandelbrot.CornerPointCount | main.cpp:113-119 | the point 1 + 1i is counted 2 |
| Mandelbrot.CornerCount | main.cpp:106-119 | the far corner pixel (7999, 4570) maps to 1 + 1i and gets count 2 |
| Mandelbrot.PainterUniform | main.cpp:122-144 | under a given scheme every pixel of the image takes the same number of bytes |
| Mandelbrot.RowLength | main.cpp:104-148 | a row of n pixels of k bytes each is k * n bytes |
| Mandelbrot.PixelsLength | main.cpp:102-150 | m rows take k * 8000 * m bytes: no row padding is written |
| Mandelbrot.RowAt | main.cpp:104-148 | byte c of pixel i is at offset 3 * i + c of its row |
| Mandelbrot.PixelsAt | main.cpp:102-150 | byte c of pixel (i, j) is at offset 3 * (j * 8000 + i) + c of the pixel data |
| Mandelbrot.ImageSize | main.cpp:37-150 | the file is 54 + 3 * 8000 * 4571 = 109704054 bytes under schemes 1 to 3, and only the 54 header bytes otherwise |
| Mandelbrot.ImagePixel | main.cpp:102-150 | byte c of pixel (i, j) is at offset 54 + 3 * (j * 8000 + i) + c of the file and is the byte its scheme prescribes |
| Mandelbrot.DeclaredSizes | main.cpp:37-58 | the headers declare what is written: width and height equal the loop bounds, the file size equals the file's length, the image size equals the pixel bytes, and 8000 * 3 needs no row padding |
| Mandelbrot.NoRowPadding | main.cpp:48 | a row of 8000 pixels is already a multiple of 4 bytes |
| Mandelbrot.NoSchemeNoPixels | main.cpp:122-144 | under a scheme outside 1 to 3 no pixel byte is written, yet the headers still declare the full size |
| Mandelbrot.ReferenceName | main.cpp:64-69 | the build's scheme 3 writes mandelbrot_3.bmp |

## Left out

- Console output: the scheme banner, the progress messages and the loading bar (`main.cpp:71`, `81`,
  `89`, `146-147`, `154`) write only to the terminal.
- The clock-seeded random engine (`main.cpp:61-63`) is not used: the scheme is fixed at 3. The model
  takes the scheme as a parameter and names the built-in value `ReferenceScheme`.
- Waiting for the Enter key (`main.cpp:155`) is left out.
- Opening and closing the file is reduced to a boolean `canOpen` passed to `Mandelbrot.Run`. The file
  left behind is the byte sequence the run wrote.
- Floating point: `x0`, `y0` and the orbit are computed over exact reals, not IEEE doubles. The
  count a double-precision run gives a pixel near the boundary of the set may differ. The header,
  layout, size, file-name and palette claims hold for any counts in [1, 1000] and do not depend on
  rounding.
- Mandelbrot.EscapeAt, Mandelbrot.WriteImage, Mandelbrot.Run: their counts, and so their pixel
  bytes, are those over exact reals, not the double-precision counts the program computes.
- Signed overflow is undefined behaviour in C++. The model fixes it to two's-complement wrap-around
  in `Int32.Wrap`.
- Which pixels reach which count is not computed. That depends on the orbit of each point. Only the
  origin (`EscapeTime.OriginCount`), points outside the circle (`EscapeTime.OutsideCount`) and the
  far corner pixel (`Mandelbrot.CornerCount`) are characterised.
