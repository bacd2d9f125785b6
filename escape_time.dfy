// The escape-time loop: iterate z := z*z + c from z = 0 until |z| >= 2 or
// the counter reaches its cap. Arithmetic is over the reals, so the model
// claims only what does not depend on rounding.
module EscapeTime {
  /** The iteration cap. */
  const MaxIteration := 1000

  datatype Complex = Complex(re: real, im: real)

  const Origin := Complex(0.0, 0.0)

  /** One step of the recurrence, computed as the loop body does. */
  function Step(c: Complex, z: Complex): Complex
  {
    Complex(z.re * z.re - z.im * z.im + c.re, 2.0 * z.re * z.im + c.im)
  }

  /** z after k steps of the recurrence. */
  function Iterate(c: Complex, z: Complex, k: nat): Complex
    decreases k
  {
    if k == 0 then z else Iterate(c, Step(c, z), k - 1)
  }

  /** The k-th point of the orbit of 0 under z*z + c. */
  function Orbit(c: Complex, k: nat): Complex
  {
    Iterate(c, Origin, k)
  }

  /** Still inside the circle of radius 2. */
  predicate Inside(z: Complex)
  {
    z.re * z.re + z.im * z.im < 2.0 * 2.0
  }

  /** n is what the loop returns for c: the first step at which the orbit has
      left the circle, or the cap if it has not left by then. */
  predicate IsEscapeCount(c: Complex, n: int)
  {
    0 <= n <= MaxIteration &&
    (forall k: nat :: k < n ==> Inside(Orbit(c, k))) &&
    (n == MaxIteration || !Inside(Orbit(c, n)))
  }

  /** The loop of the generator, with x and y starting at 0. */
  method Escape(x0: real, y0: real) returns (iteration: int)
    ensures IsEscapeCount(Complex(x0, y0), iteration)
    ensures 1 <= iteration <= MaxIteration
  {
    ghost var c := Complex(x0, y0);
    var x, y := 0.0, 0.0;
    iteration := 0;
    while x * x + y * y < 2.0 * 2.0 && iteration < MaxIteration
      invariant 0 <= iteration <= MaxIteration
      invariant Complex(x, y) == Orbit(c, iteration)
      invariant forall k: nat :: k < iteration ==> Inside(Orbit(c, k))
      decreases MaxIteration - iteration
    {
      ghost var z := Complex(x, y);
      assert Inside(z);
      var xtemp := x * x - y * y + x0;
      y := 2.0 * x * y + y0;
      x := xtemp;
      assert Complex(x, y) == Step(c, z);
      OrbitStep(c, iteration);
      iteration := iteration + 1;
    }
  }

  /** One more step is one more application of Step at the end. */
  lemma {:induction false} IterateStep(c: Complex, z: Complex, k: nat)
    ensures Iterate(c, z, k + 1) == Step(c, Iterate(c, z, k))
    decreases k
  {
    if k > 0 {
      IterateStep(c, Step(c, z), k - 1);
    }
  }

  lemma OrbitStep(c: Complex, k: nat)
    ensures Orbit(c, k + 1) == Step(c, Orbit(c, k))
  {
    IterateStep(c, Origin, k);
  }

  /** The escape count, counting up from step n. */
  function CountFrom(c: Complex, n: nat): (r: nat)
    requires n <= MaxIteration
    ensures n <= r <= MaxIteration
    ensures forall k: nat :: n <= k < r ==> Inside(Orbit(c, k))
    ensures r == MaxIteration || !Inside(Orbit(c, r))
    decreases MaxIteration - n
  {
    if Inside(Orbit(c, n)) && n < MaxIteration then CountFrom(c, n + 1) else n
  }

  /** The escape count of c as a value. */
  function Count(c: Complex): (r: nat)
    ensures IsEscapeCount(c, r)
  {
    CountFrom(c, 0)
  }

  /** The loop's result is determined by c: only one count fits. */
  lemma CountUnique(c: Complex, n: int)
    requires IsEscapeCount(c, n)
    ensures n == Count(c)
  {
  }

  /** The counter is never 0: the loop test passes at z = 0. */
  lemma CountPositive(c: Complex, n: int)
    requires IsEscapeCount(c, n)
    ensures 1 <= n
  {
    assert Orbit(c, 0) == Origin;
  }

  /** A point whose orbit is still inside the circle at step 1 and outside it
      at step 2 is counted 2. */
  lemma SecondStepCount(c: Complex)
    requires Inside(Orbit(c, 1)) && !Inside(Orbit(c, 2))
    ensures Count(c) == 2
  {
    CountPositive(c, Count(c));
  }

  /** The orbit of the origin stays at the origin. */
  lemma {:induction false} OriginOrbit(k: nat)
    ensures Orbit(Origin, k) == Origin
  {
    if k > 0 {
      OriginOrbit(k - 1);
    }
  }

  /** The origin never escapes, so its count is the cap. */
  lemma OriginCount()
    ensures Count(Origin) == MaxIteration
  {
    forall k: nat | k < MaxIteration
      ensures Inside(Orbit(Origin, k))
    {
      OriginOrbit(k);
    }
    CountUnique(Origin, MaxIteration);
  }

  /** A point already outside the circle is counted 1, not 0: the first
      step moves z from 0 to c and only then is |z| tested. */
  lemma OutsideCount(c: Complex)
    requires !Inside(c)
    ensures Count(c) == 1
  {
    assert Orbit(c, 1) == Step(c, Origin) == c;
    CountUnique(c, 1);
  }
}
