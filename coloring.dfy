/** The colour mapper: an escape count becomes black when the point did not
    escape, and otherwise a hue/saturation/brightness triple on a gradient
    from blue towards red that brightens with the count. */
module Coloring {

  /** A colour as the (hue, saturation, brightness) triple handed to the
      HSB-to-RGB conversion; each component is normalised to [0, 1]. */
  datatype Hsb = Hsb(hue: real, saturation: real, brightness: real)

  /** The colour of points inside the set (RGB 0,0,0: zero in every HSB
      component). */
  const Black := Hsb(0.0, 0.0, 0.0)

  /** The normalised escape fraction t = iterations / maxIterations. */
  function EscapeFraction(iterations: int, maxIterations: int): (t: real)
    requires maxIterations > 0
    ensures 0 <= iterations < maxIterations ==> 0.0 <= t < 1.0
    ensures t == 0.0 <==> iterations == 0
  {
    iterations as real / maxIterations as real
  }

  /** The colour of a pixel whose point took `iterations` steps to escape. */
  function GetColor(iterations: int, maxIterations: int): (r: Hsb)
    requires maxIterations > 0
    ensures r == Black <==> iterations == maxIterations
    ensures 0 <= iterations < maxIterations ==>
              && 0.6 <= r.hue < 1.0
              && r.saturation == 0.8
              && 0.2 <= r.brightness < 1.0
  {
    if iterations == maxIterations then
      Black
    else
      var t := EscapeFraction(iterations, maxIterations);
      Hsb(0.6 + t * 0.4, 0.8, 0.2 + t * 0.8)
  }

  /** Along the gradient, a larger escape count gives a strictly larger hue
      input and a strictly larger brightness input; in particular the two
      ends of the gradient have different (hue, brightness) inputs. */
  lemma GradientStrictlyIncreasing(i: int, j: int, maxIterations: int)
    requires 0 <= i < j < maxIterations
    ensures GetColor(i, maxIterations).hue < GetColor(j, maxIterations).hue
    ensures GetColor(i, maxIterations).brightness < GetColor(j, maxIterations).brightness
  {
  }
}
