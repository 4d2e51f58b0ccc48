/** Render configuration of the Mandelbrot renderer: image size, the rectangle
    of the complex plane it shows, the iteration cap, and the linear map from
    pixel indices to plane coordinates. */
module Config {

  /** The renderer's fixed settings; the Java program keeps them as static constants. */
  datatype RenderConfig = RenderConfig(
    width: int, height: int,
    minRe: real, maxRe: real,
    minIm: real, maxIm: real,
    maxIterations: int)
  {
    /** A configuration the renderer can work with: a non-empty image, a
        non-degenerate rectangle and a positive iteration cap. */
    predicate Valid() {
      width > 0 && height > 0 && minRe < maxRe && minIm < maxIm && maxIterations > 0
    }
  }

  /** The program's built-in constants: 3840x2160 pixels showing
      [-2.5, 1.0] x [-1.0, 1.0] with at most 1000 iterations. */
  function DefaultConfig(): (cfg: RenderConfig)
    ensures cfg.Valid()
  {
    RenderConfig(3840, 2160, -2.5, 1.0, -1.0, 1.0, 1000)
  }

  /** Pixel index i of n mapped linearly onto [lo, hi): lo + i*(hi - lo)/n. */
  function PlaneCoord(lo: real, hi: real, n: int, i: int): real
    requires n > 0
  {
    lo + (i as real * (hi - lo)) / n as real
  }

  /** The first pixel sits exactly on the lower bound, and every pixel of the
      image lies inside [lo, hi). */
  lemma PlaneCoordBounds(lo: real, hi: real, n: int, i: int)
    requires n > 0 && lo < hi && 0 <= i < n
    ensures PlaneCoord(lo, hi, n, 0) == lo
    ensures lo <= PlaneCoord(lo, hi, n, i) < hi
  {
    var step := (hi - lo) / n as real;
    assert step > 0.0;
    assert (i as real * (hi - lo)) / n as real == i as real * step;
    assert i as real * step < n as real * step by {
      assert (n as real - i as real) * step > 0.0;
    }
    assert n as real * step == hi - lo;
  }

  /** Distinct pixels map to distinct coordinates, in the same order. */
  lemma PlaneCoordStrictlyIncreasing(lo: real, hi: real, n: int, i: int, j: int)
    requires n > 0 && lo < hi && i < j
    ensures PlaneCoord(lo, hi, n, i) < PlaneCoord(lo, hi, n, j)
  {
  }

  /** Real part of the plane point for pixel column x. */
  function PixelRe(cfg: RenderConfig, x: int): real
    requires cfg.Valid()
  {
    PlaneCoord(cfg.minRe, cfg.maxRe, cfg.width, x)
  }

  /** Imaginary part of the plane point for pixel row y. */
  function PixelIm(cfg: RenderConfig, y: int): real
    requires cfg.Valid()
  {
    PlaneCoord(cfg.minIm, cfg.maxIm, cfg.height, y)
  }

  /** Every pixel of the image maps into the configured rectangle, the
      top-left pixel onto its corner (minRe, minIm). */
  lemma PixelInPlane(cfg: RenderConfig, x: int, y: int)
    requires cfg.Valid() && 0 <= x < cfg.width && 0 <= y < cfg.height
    ensures PixelRe(cfg, 0) == cfg.minRe && PixelIm(cfg, 0) == cfg.minIm
    ensures cfg.minRe <= PixelRe(cfg, x) < cfg.maxRe
    ensures cfg.minIm <= PixelIm(cfg, y) < cfg.maxIm
  {
    PlaneCoordBounds(cfg.minRe, cfg.maxRe, cfg.width, x);
    PlaneCoordBounds(cfg.minIm, cfg.maxIm, cfg.height, y);
  }

  /** Both coordinates are strictly increasing in their pixel index, so the
      map from pixels to plane points is injective. */
  lemma PixelMappingStrictlyIncreasing(cfg: RenderConfig, a: int, b: int)
    requires cfg.Valid() && a < b
    ensures PixelRe(cfg, a) < PixelRe(cfg, b)
    ensures PixelIm(cfg, a) < PixelIm(cfg, b)
  {
    PlaneCoordStrictlyIncreasing(cfg.minRe, cfg.maxRe, cfg.width, a, b);
    PlaneCoordStrictlyIncreasing(cfg.minIm, cfg.maxIm, cfg.height, a, b);
  }
}
