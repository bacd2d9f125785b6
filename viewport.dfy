// The fixed image grid and its affine map onto the rectangle
// [-2.5, 1.0] x [-1.0, 1.0] of the complex plane.
module Viewport {
  /** Columns per row: the bound of the inner pixel loop. */
  const Width := 8000
  /** Rows: the bound of the outer pixel loop. */
  const Height := 4571

  predicate InImage(i: int, j: int)
  {
    0 <= i < Width && 0 <= j < Height
  }

  /** Real part of the sample point of column i. */
  function X0(i: int): (x: real)
    ensures 0 <= i < Width ==> -2.5 <= x <= 1.0
    ensures i == 0 ==> x == -2.5
    ensures i == Width - 1 ==> x == 1.0
  {
    i as real * 3.5 / 7999.0 - 2.5
  }

  /** Imaginary part of the sample point of row j. */
  function Y0(j: int): (y: real)
    ensures 0 <= j < Height ==> -1.0 <= y <= 1.0
    ensures j == 0 ==> y == -1.0
    ensures j == Height - 1 ==> y == 1.0
  {
    j as real * 2.0 / 4570.0 - 1.0
  }
}
