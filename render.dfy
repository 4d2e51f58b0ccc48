/** The frame renderer: fills a height x width image, one row at a time,
    with the colour of each pixel's plane point. The Java program hands the rows
    to a parallel stream; here the order in which rows are processed is a
    parameter (any permutation of the row indices), and the result is
    proved not to depend on it. */
module Render {
  import opened Config
  import opened Iteration
  import opened Coloring

  /** The colour the renderer must store at column x of row y. */
  ghost function PixelColor(cfg: RenderConfig, x: int, y: int): Hsb
    requires cfg.Valid()
  {
    GetColor(EscapeTime(Point(PixelRe(cfg, x), PixelIm(cfg, y)), cfg.maxIterations), cfg.maxIterations)
  }

  /** One pixel of the per-row task: map (x, y) to the plane, count the
      iterations of its point and turn the count into a colour, which is
      black exactly when the point did not escape before the cap (its count
      is the cap). */
  method ComputePixel(cfg: RenderConfig, x: int, y: int) returns (color: Hsb)
    requires cfg.Valid()
    ensures color == PixelColor(cfg, x, y)
    ensures color == Black <==> EscapeTime(Point(PixelRe(cfg, x), PixelIm(cfg, y)), cfg.maxIterations) == cfg.maxIterations
  {
    var re := PixelRe(cfg, x);
    var im := PixelIm(cfg, y);
    var iterations := MandelbrotIterations(re, im, cfg.maxIterations);
    color := GetColor(iterations, cfg.maxIterations);
  }

  /** The cells of the first n columns of row y, left to right, as (row, column). */
  ghost function RowCells(y: int, n: nat): seq<(int, int)> {
    if n == 0 then [] else RowCells(y, n - 1) + [(y, n - 1)]
  }

  /** Row y's first n columns hold each cell of that prefix exactly once and
      no other cell. */
  lemma {:induction false} RowCellsOnce(y: int, n: nat, cell: (int, int))
    ensures multiset(RowCells(y, n))[cell] == if cell.0 == y && 0 <= cell.1 < n then 1 else 0
  {
    if n > 0 {
      RowCellsOnce(y, n - 1, cell);
    }
  }

  /** The body of the per-row task: for every column, map the pixel to the
      plane, count its iterations, colour it and store the colour. Only row
      y changes; `written` logs the cells stored, in order. */
  method FillRow(image: array2<Hsb>, cfg: RenderConfig, y: int) returns (ghost written: seq<(int, int)>)
    requires cfg.Valid()
    requires image.Length0 == cfg.height && image.Length1 == cfg.width
    requires 0 <= y < cfg.height
    modifies image
    ensures forall x :: 0 <= x < cfg.width ==> image[y, x] == PixelColor(cfg, x, y)
    ensures forall r, x :: 0 <= r < cfg.height && 0 <= x < cfg.width && r != y ==>
              image[r, x] == old(image[r, x])
    ensures written == RowCells(y, cfg.width)
  {
    written := [];
    var x := 0;
    while x < cfg.width
      invariant 0 <= x <= cfg.width
      invariant forall c :: 0 <= c < x ==> image[y, c] == PixelColor(cfg, c, y)
      invariant forall r, c :: 0 <= r < cfg.height && 0 <= c < cfg.width && (r != y || x <= c) ==>
                  image[r, c] == old(image[r, c])
      invariant written == RowCells(y, x)
    {
      var color := ComputePixel(cfg, x, y);
      image[y, x] := color;
      written := written + [(y, x)];
      x := x + 1;
    }
  }

  /** The order `schedule` visits every row exactly once. */
  predicate IsRowOrder(schedule: seq<int>, height: int) {
    && (forall i :: 0 <= i < |schedule| ==> 0 <= schedule[i] < height)
    && (forall y :: 0 <= y < height ==> y in schedule)
    && (forall i, j :: 0 <= i < j < |schedule| ==> schedule[i] != schedule[j])
  }

  /** Render a frame, processing the rows in the order `schedule`. Every cell
      ends up holding the colour of its own coordinates, and the log `writes`
      of stores holds every cell of the image exactly once and nothing else. */
  method ComputeMandelbrot(cfg: RenderConfig, schedule: seq<int>)
    returns (image: array2<Hsb>, ghost writes: seq<(int, int)>)
    requires cfg.Valid()
    requires IsRowOrder(schedule, cfg.height)
    ensures fresh(image)
    ensures image.Length0 == cfg.height && image.Length1 == cfg.width
    ensures forall y, x :: 0 <= y < cfg.height && 0 <= x < cfg.width ==>
              image[y, x] == PixelColor(cfg, x, y)
    ensures forall cell :: multiset(writes)[cell] ==
              if 0 <= cell.0 < cfg.height && 0 <= cell.1 < cfg.width then 1 else 0
  {
    image := new Hsb[cfg.height, cfg.width]((_, _) => Black);
    writes := [];
    var k := 0;
    while k < |schedule|
      invariant 0 <= k <= |schedule|
      invariant forall y, x :: 0 <= y < cfg.height && 0 <= x < cfg.width ==>
                  image[y, x] == if y in schedule[..k] then PixelColor(cfg, x, y) else Black
      invariant forall cell :: multiset(writes)[cell] ==
                  if cell.0 in schedule[..k] && 0 <= cell.1 < cfg.width then 1 else 0
    {
      var y := schedule[k];
      assert schedule[..k + 1] == schedule[..k] + [y];
      assert y !in schedule[..k];
      ghost var row := FillRow(image, cfg, y);
      forall yy, x | 0 <= yy < cfg.height && 0 <= x < cfg.width
        ensures image[yy, x] == if yy in schedule[..k + 1] then PixelColor(cfg, x, yy) else Black
      {
        assert yy in schedule[..k + 1] <==> yy in schedule[..k] || yy == y;
      }
      forall cell
        ensures multiset(writes + row)[cell] ==
                  if cell.0 in schedule[..k + 1] && 0 <= cell.1 < cfg.width then 1 else 0
      {
        RowCellsOnce(y, cfg.width, cell);
      }
      writes := writes + row;
      k := k + 1;
    }
    assert schedule[..k] == schedule;
  }

  /** Rendering with two different row orders, say one worker and many,
      yields the same image. */
  method RenderOrderIndependent(cfg: RenderConfig, order1: seq<int>, order2: seq<int>)
    returns (image1: array2<Hsb>, image2: array2<Hsb>)
    requires cfg.Valid()
    requires IsRowOrder(order1, cfg.height) && IsRowOrder(order2, cfg.height)
    ensures image1.Length0 == image2.Length0 == cfg.height
    ensures image1.Length1 == image2.Length1 == cfg.width
    ensures forall y, x :: 0 <= y < cfg.height && 0 <= x < cfg.width ==>
              image1[y, x] == image2[y, x]
  {
    ghost var writes;
    image1, writes := ComputeMandelbrot(cfg, order1);
    image2, writes := ComputeMandelbrot(cfg, order2);
  }

  /** A 4x4 frame of [-2, 2] x [-2, 2] with iteration cap `cap`. */
  function FourByFour(cap: int): RenderConfig {
    RenderConfig(4, 4, -2.0, 2.0, -2.0, 2.0, cap)
  }

  /** Pixels 0, 2 and 3 of the 4x4 frame map to -2, 0 and 1 on both axes. */
  lemma FourByFourCoordinates(cfg: RenderConfig, cap: int)
    requires cfg == FourByFour(cap) && cap > 0
    ensures cfg.Valid()
    ensures PixelRe(cfg, 0) == -2.0 && PixelIm(cfg, 0) == -2.0
    ensures PixelRe(cfg, 2) == 0.0 && PixelIm(cfg, 2) == 0.0
    ensures PixelRe(cfg, 3) == 1.0 && PixelIm(cfg, 3) == 1.0
  {
  }

  /** In the 4x4 frame, pixel (2, 2) sits on the origin and is black. */
  lemma FourByFourCentreIsBlack(cfg: RenderConfig, cap: int)
    requires cfg == FourByFour(cap) && cap > 0
    ensures cfg.Valid() && PixelColor(cfg, 2, 2) == Black
  {
    FourByFourCoordinates(cfg, cap);
    OriginNeverEscapes(cap);
  }

  /** In the 4x4 frame, three corner pixels lie outside the circle of radius
      2 and escape on the first step, so they get gradient colours; the
      fourth, (3, 3), maps to 1 + i and escapes on the second step, so it is
      black only under the cap 2. */
  lemma FourByFourCornersEscape(cfg: RenderConfig, cap: int)
    requires cfg == FourByFour(cap) && cap >= 2
    ensures cfg.Valid()
    ensures EscapeTime(Point(PixelRe(cfg, 0), PixelIm(cfg, 0)), cap) == 1
    ensures EscapeTime(Point(PixelRe(cfg, 3), PixelIm(cfg, 0)), cap) == 1
    ensures EscapeTime(Point(PixelRe(cfg, 0), PixelIm(cfg, 3)), cap) == 1
    ensures EscapeTime(Point(PixelRe(cfg, 3), PixelIm(cfg, 3)), cap) == 2
    ensures PixelColor(cfg, 0, 0) != Black && PixelColor(cfg, 3, 0) != Black
    ensures PixelColor(cfg, 0, 3) != Black
    ensures PixelColor(cfg, 3, 3) == Black <==> cap == 2
  {
    FourByFourCoordinates(cfg, cap);
    FarPointEscapesAtOnce(Point(-2.0, -2.0), cap);
    FarPointEscapesAtOnce(Point(1.0, -2.0), cap);
    FarPointEscapesAtOnce(Point(-2.0, 1.0), cap);
    OneOneSteps(Point(1.0, 1.0));
    EscapesAtTwo(Point(1.0, 1.0), cap);
  }
}
