// The three colour schemes: the bytes written for pixel (i, j) whose escape
// count is `iteration`. Every formula is C++ int arithmetic, narrowed to
// unsigned char as it is written.
module Palette {
  import opened Optional
  import opened Int32
  import LittleEndian
  import Viewport
  import EscapeTime

  type byte = LittleEndian.byte

  /** One 24-bit pixel, in the order a bitmap stores it: blue, green, red. */
  datatype Colour = Colour(blue: byte, green: byte, red: byte)

  const Black := Colour(0, 0, 0)

  predicate IsCount(iteration: int)
  {
    0 <= iteration <= EscapeTime.MaxIteration
  }

  predicate IsScheme(scheme: int)
  {
    1 <= scheme <= 3
  }

  /** Scheme 1, for a point outside the set. */
  function Scheme1(i: int, j: int, iteration: int): Colour
    requires Viewport.InImage(i, j) && IsCount(iteration)
  {
    Colour(ToByte(Add(i, Div(j, Add(j, 1)))),
           ToByte(Add(Add(i, j), Div(Mul(Div(i, 3), j), Add(i, 1)))),
           0x50)
  }

  /** Scheme 2, for a point outside the set. */
  function Scheme2(i: int, j: int, iteration: int): Colour
    requires Viewport.InImage(i, j) && IsCount(iteration)
  {
    Colour(ToByte(Sub(Div(Mul(Mul(j, iteration), i), 5255), 5)),
           ToByte(Sub(Div(Mul(Mul(i, i), iteration), 31250), 52)),
           ToByte(Div(Mul(i, iteration), 51250)))
  }

  /** Scheme 3, for a point outside the set. */
  function Scheme3(i: int, j: int, iteration: int): Colour
    requires Viewport.InImage(i, j) && IsCount(iteration)
  {
    Colour(ToByte(Sub(Mul(Sub(255, Div(Mul(j, iteration), 17855)), j), Mul(4, i))),
           ToByte(Sub(255, Div(Mul(Mul(i, j), iteration), 312500))),
           ToByte(Sub(255, Div(Mul(i, iteration), 31250))))
  }

  /** The colour of pixel (i, j) under a scheme; None for a scheme that
      matches none of the three branches. */
  function Shade(scheme: int, i: int, j: int, iteration: int): (r: Option<Colour>)
    requires Viewport.InImage(i, j) && IsCount(iteration)
    ensures r.Some? <==> IsScheme(scheme)
    ensures r.Some? && iteration == EscapeTime.MaxIteration ==> r.value == Black
  {
    if !IsScheme(scheme) then None
    else if iteration == EscapeTime.MaxIteration then Some(Black)
    else if scheme == 1 then Some(Scheme1(i, j, iteration))
    else if scheme == 2 then Some(Scheme2(i, j, iteration))
    else Some(Scheme3(i, j, iteration))
  }

  /** The bytes written for pixel (i, j): three for a known scheme, none otherwise. */
  function PixelBytes(scheme: int, i: int, j: int, iteration: int): (s: seq<byte>)
    requires Viewport.InImage(i, j) && IsCount(iteration)
    ensures |s| == if IsScheme(scheme) then 3 else 0
  {
    match Shade(scheme, i, j, iteration)
    case None => []
    case Some(c) => [c.blue, c.green, c.red]
  }

  lemma MulBound(a: int, b: int, ma: int, mb: int)
    requires 0 <= a <= ma && 0 <= b <= mb
    ensures 0 <= a * b <= ma * mb
  {
    assert a * b <= ma * b;
  }

  /** Under scheme 1 no intermediate value overflows, the first byte is the
      column modulo 256 (j / (j + 1) is 0 for every row), and the last byte is
      always 0x50. */
  lemma Scheme1Exact(i: int, j: int, iteration: int)
    requires Viewport.InImage(i, j) && IsCount(iteration)
    ensures Scheme1(i, j, iteration) ==
      Colour(ToByte(i), ToByte(i + j + (i / 3) * j / (i + 1)), 0x50)
    ensures Scheme1(i, j, iteration).blue as int == i % 256
  {
    assert Add(j, 1) == j + 1;
    assert Div(j, j + 1) == 0;
    assert Add(i, 0) == i;
    assert Div(i, 3) == i / 3;
    MulBound(i / 3, j, 2666, 4570);
    var p := (i / 3) * j;
    assert Mul(i / 3, j) == p;
    assert Add(i, 1) == i + 1;
    assert 0 <= p / (i + 1) <= p by { DivBound(p, i + 1); }
    assert Div(p, i + 1) == p / (i + 1);
    assert Add(i, j) == i + j;
    assert Add(i + j, p / (i + 1)) == i + j + p / (i + 1);
  }

  lemma DivBound(a: int, b: int)
    requires a >= 0 && b >= 1
    ensures 0 <= a / b <= a
  {
  }

  /** Under scheme 3 the first and last bytes never overflow; the middle one
      is its plain formula whenever i * j * iteration fits in an int. */
  lemma Scheme3Exact(i: int, j: int, iteration: int)
    requires Viewport.InImage(i, j) && IsCount(iteration)
    ensures Scheme3(i, j, iteration).blue == ToByte((255 - j * iteration / 17855) * j - 4 * i)
    ensures Scheme3(i, j, iteration).red == ToByte(255 - i * iteration / 31250)
    ensures i * j * iteration <= Int32.Max ==>
      Scheme3(i, j, iteration).green == ToByte(255 - i * j * iteration / 312500)
  {
    MulBound(j, iteration, 4570, 1000);
    var q := j * iteration / 17855;
    assert 0 <= q <= 255;
    MulBound(255 - q, j, 255, 4570);
    MulBound(i, iteration, 7999, 1000);
    MulBound(i, j, 7999, 4570);
    assert i * j * iteration >= 0 by { MulBound(i * j, iteration, 7999 * 4570, 1000); }
  }

  /** Under scheme 2 the last byte never overflows; the first two are their
      plain formulas whenever their triple products fit in an int. */
  lemma Scheme2Exact(i: int, j: int, iteration: int)
    requires Viewport.InImage(i, j) && IsCount(iteration)
    ensures Scheme2(i, j, iteration).red == ToByte(i * iteration / 51250)
    ensures j * iteration * i <= Int32.Max ==>
      Scheme2(i, j, iteration).blue == ToByte(j * iteration * i / 5255 - 5)
    ensures i * i * iteration <= Int32.Max ==>
      Scheme2(i, j, iteration).green == ToByte(i * i * iteration / 31250 - 52)
  {
    MulBound(i, iteration, 7999, 1000);
    MulBound(j, iteration, 4570, 1000);
    MulBound(i, i, 7999, 7999);
    assert j * iteration * i >= 0 by { MulBound(j * iteration, i, 4570 * 1000, 7999); }
    assert i * i * iteration >= 0 by { MulBound(i * i, iteration, 7999 * 7999, 1000); }
  }

  /** The formula can overflow for a pixel of the image and a count in range:
      for (i, j) = (7999, 4570) and a count of 999, i * j * iteration exceeds
      the int range and the wrapped middle byte of scheme 3 differs from the
      plain formula's. This pixel itself is counted 2 (Mandelbrot.CornerCount);
      which pixels do reach counts large enough to overflow is not
      established here. */
  lemma Scheme3Overflows()
    ensures 7999 * 4570 * 999 > Int32.Max
    ensures Scheme3(7999, 4570, 999).green == 177
    ensures ToByte(255 - 7999 * 4570 * 999 / 312500) == 131
  {
    assert Mul(7999, 4570) == 36555430;
    assert Mul(36555430, 999) == -2135831094;
    assert Div(-2135831094, 312500) == -6834;
    assert Sub(255, -6834) == 7089;
  }
}
