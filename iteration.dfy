/** The iteration engine: how many steps of z := z*z + c, started from
    z = 0, it takes for |z| to exceed the escape radius 2, capped at a
    maximum iteration count. */
module Iteration {

  /** A point of the complex plane, kept as its real and imaginary parts. */
  datatype Point = Point(re: real, im: real)

  /** |z|^2, which the program compares with 4.0 instead of |z| with 2.0. */
  function MagnitudeSquared(z: Point): real {
    z.re * z.re + z.im * z.im
  }

  /** z lies strictly outside the circle of radius 2. */
  predicate Escaped(z: Point) {
    MagnitudeSquared(z) > 4.0
  }

  /** One step of the recurrence: z*z + c, written on the two parts. */
  function Step(z: Point, c: Point): Point {
    Point(z.re * z.re - z.im * z.im + c.re, 2.0 * z.re * z.im + c.im)
  }

  /** z_n of the orbit of 0 under z := z*z + c. */
  function Orbit(c: Point, n: nat): Point {
    if n == 0 then Point(0.0, 0.0) else Step(Orbit(c, n - 1), c)
  }

  /** k is the escape count of c under the cap maxIterations: no orbit point
      before step k has escaped, and unless k is the cap, z_k has. */
  predicate IsEscapeCount(c: Point, maxIterations: int, k: int) {
    && 0 <= k
    && (k <= maxIterations || k == 0)
    && (forall j: nat :: j < k ==> !Escaped(Orbit(c, j)))
    && (k < maxIterations ==> Escaped(Orbit(c, k)))
  }

  /** The escape count is determined by c and the cap. */
  lemma EscapeCountUnique(c: Point, maxIterations: int, k1: int, k2: int)
    requires IsEscapeCount(c, maxIterations, k1) && IsEscapeCount(c, maxIterations, k2)
    ensures k1 == k2
  {
  }

  /** Counting on from step n, when no orbit point before n has escaped,
      reaches an escape count. */
  lemma {:induction false} EscapeCountExists(c: Point, maxIterations: int, n: nat)
    requires n <= maxIterations || n == 0
    requires forall j: nat :: j < n ==> !Escaped(Orbit(c, j))
    ensures exists k :: n <= k && IsEscapeCount(c, maxIterations, k)
    decreases maxIterations - n
  {
    if n >= maxIterations || Escaped(Orbit(c, n)) {
      assert IsEscapeCount(c, maxIterations, n);
    } else {
      EscapeCountExists(c, maxIterations, n + 1);
    }
  }

  /** The escape count as a function: the value mandelbrotIterations returns. */
  ghost function EscapeTime(c: Point, maxIterations: int): (k: int)
    ensures IsEscapeCount(c, maxIterations, k)
  {
    EscapeCountExists(c, maxIterations, 0);
    var k :| IsEscapeCount(c, maxIterations, k); k
  }

  /** One turn of the loop keeps its invariant: when z = z_n and z_0 .. z_n
      are all inside the circle, the update yields z_(n+1). */
  lemma LoopStep(c: Point, n: nat, z: Point)
    requires z == Orbit(c, n) && !Escaped(z)
    requires forall j: nat :: j < n ==> !Escaped(Orbit(c, j))
    ensures Step(z, c) == Orbit(c, n + 1)
    ensures forall j: nat :: j < n + 1 ==> !Escaped(Orbit(c, j))
  {
  }

  /** When the loop stops at n, n is the escape count. */
  lemma LoopExit(c: Point, maxIterations: int, n: nat, z: Point)
    requires n <= maxIterations || n == 0
    requires z == Orbit(c, n) && (Escaped(z) || n >= maxIterations)
    requires forall j: nat :: j < n ==> !Escaped(Orbit(c, j))
    ensures IsEscapeCount(c, maxIterations, n) && n == EscapeTime(c, maxIterations)
  {
    EscapeCountUnique(c, maxIterations, n, EscapeTime(c, maxIterations));
  }

  /** The program's escape loop: iterate z := z*z + c on separate real and
      imaginary parts until |z|^2 > 4 or the counter reaches the cap. The
      guard and the update are the program's own expressions, named by
      `MagnitudeSquared` and `Step`. */
  method MandelbrotIterations(cRe: real, cIm: real, maxIterations: int) returns (iterations: int)
    ensures 0 <= iterations && (iterations <= maxIterations || iterations == 0)
    ensures iterations < maxIterations ==> Escaped(Orbit(Point(cRe, cIm), iterations))
    ensures IsEscapeCount(Point(cRe, cIm), maxIterations, iterations)
    ensures iterations == EscapeTime(Point(cRe, cIm), maxIterations)
  {
    var zRe := 0.0;
    var zIm := 0.0;
    iterations := 0;
    while MagnitudeSquared(Point(zRe, zIm)) <= 4.0 && iterations < maxIterations
      invariant 0 <= iterations && (iterations <= maxIterations || iterations == 0)
      invariant Point(zRe, zIm) == Orbit(Point(cRe, cIm), iterations)
      invariant forall j: nat :: j < iterations ==> !Escaped(Orbit(Point(cRe, cIm), j))
      decreases maxIterations - iterations
    {
      LoopStep(Point(cRe, cIm), iterations, Point(zRe, zIm));
      var next := Step(Point(zRe, zIm), Point(cRe, cIm));
      zRe := next.re;
      zIm := next.im;
      iterations := iterations + 1;
    }
    LoopExit(Point(cRe, cIm), maxIterations, iterations, Point(zRe, zIm));
  }

  /** The orbit of 0 stays at 0 for ever. */
  lemma {:induction false} OriginOrbitIsZero(n: nat)
    ensures Orbit(Point(0.0, 0.0), n) == Point(0.0, 0.0)
  {
    if n > 0 {
      OriginOrbitIsZero(n - 1);
    }
  }

  /** c = 0 never escapes: its count is the cap. */
  lemma OriginNeverEscapes(maxIterations: int)
    requires maxIterations >= 0
    ensures EscapeTime(Point(0.0, 0.0), maxIterations) == maxIterations
  {
    var k := EscapeTime(Point(0.0, 0.0), maxIterations);
    if k < maxIterations {
      OriginOrbitIsZero(k);
    }
  }

  /** A point outside the circle of radius 2 escapes on the first step: z_0 = 0
      passes the test and z_1 = c fails it. */
  lemma FarPointEscapesAtOnce(c: Point, maxIterations: int)
    requires Escaped(c) && maxIterations >= 1
    ensures EscapeTime(c, maxIterations) == 1
  {
    assert Orbit(c, 0) == Point(0.0, 0.0);
    assert Orbit(c, 1) == c;
    assert IsEscapeCount(c, maxIterations, 1);
    EscapeCountUnique(c, maxIterations, 1, EscapeTime(c, maxIterations));
  }

  /** The first two orbit points after z_0 = 0 are c and c*c + c. */
  lemma FirstSteps(c: Point)
    ensures Orbit(c, 1) == c
    ensures Orbit(c, 2) == Step(c, c)
  {
  }

  /** 1 + i lies inside the circle of radius 2, and (1 + i)^2 + (1 + i) = 1 + 3i
      outside it. */
  lemma OneOneSteps(c: Point)
    requires c == Point(1.0, 1.0)
    ensures !Escaped(c) && Escaped(Step(c, c))
  {
  }

  /** A point inside the circle of radius 2 has not escaped at steps 0 and 1. */
  lemma InsideForTwoSteps(c: Point)
    requires !Escaped(c)
    ensures forall j: nat :: j < 2 ==> !Escaped(Orbit(c, j))
  {
  }

  /** Nothing escapes at steps 0 and 1 and z_2 escapes: the count is 2. */
  lemma CountTwo(c: Point, maxIterations: int)
    requires forall j: nat :: j < 2 ==> !Escaped(Orbit(c, j))
    requires Escaped(Orbit(c, 2)) && maxIterations >= 2
    ensures EscapeTime(c, maxIterations) == 2
  {
    EscapeCountUnique(c, maxIterations, 2, EscapeTime(c, maxIterations));
  }

  /** A point inside the circle of radius 2 whose second orbit point c*c + c
      lies outside it has escape count 2 under any cap of at least 2. */
  lemma EscapesAtTwo(c: Point, maxIterations: int)
    requires !Escaped(c) && Escaped(Step(c, c)) && maxIterations >= 2
    ensures EscapeTime(c, maxIterations) == 2
  {
    FirstSteps(c);
    InsideForTwoSteps(c);
    CountTwo(c, maxIterations);
  }
}
