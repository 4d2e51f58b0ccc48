# Escape-time Mandelbrot renderer, modelled in Dafny

The program renders the Mandelbrot set as an image. Each pixel (x, y) of a
width x height image is mapped linearly onto a point c of a rectangle of the
complex plane. The recurrence z := z*z + c runs from z = 0 until |z|^2 > 4
or until an iteration cap is reached. The resulting count becomes a colour:
black for points that never escaped, otherwise a hue/saturation/brightness
gradient. The rows of the image are filled in parallel.

The model has four modules, one per component of `mandelbrot.java`:

- `Config` (config.dfy): the constants (image size, plane bounds,
  iteration cap) as a `RenderConfig` value with a validity predicate, and the
  pixel-to-plane mapping.
- `Iteration` (iteration.dfy): the escape-count loop as a method over real
  numbers. It is proved against `IsEscapeCount`, a characterisation of the
  count by the orbit of 0. The reference count `EscapeTime` is the unique
  value meeting that characterisation; the lemma `EscapeCountExists` shows
  by induction over the steps that one always exists.
- `Coloring` (coloring.dfy): the colour mapper. It returns black or an
  `Hsb(hue, saturation, brightness)` triple.
- `Render` (render.dfy): the frame renderer. It fills an `array2<Hsb>`
  indexed `[y, x]`, row by row. The parallel stream's unknown row order is a
  parameter, `schedule`, which may be any permutation of the row indices.
  For every schedule, each cell ends up holding the colour of its own
  coordinates. A ghost log of the stores shows that each cell is written
  exactly once.

Doubles are modelled as Dafny `real`. The claims about the escape loop and
the buffer do not depend on rounding: the counter bounds, the exit
condition, the origin and far-point cases, and the buffer contents. The
colour ranges and monotonicity are claims about the exact hue and
brightness values. They survive the program's `(float)` casts under the
default cap of 1000, but not under every cap (see "## Left out").

## Model

| member | source | states |
|---|---|---|
| `Config.DefaultConfig` | mandelbrot.java:13-23 | The built-in constants (3840x2160, [-2.5, 1] x [-1, 1], 1000 iterations) form a valid configuration: positive size and cap, non-degenerate rectangle. |
| `Config.PlaneCoordBounds` | mandelbrot.java:58-59 | The linear map lo + i*(hi - lo)/n sends index 0 to lo exactly and every index 0 <= i < n into [lo, hi). |
| `Config.PlaneCoordStrictlyIncreasing` | mandelbrot.java:58-59 | The linear map is strictly increasing in the pixel index. |
| `Config.PixelInPlane` | mandelbrot.java:58-59 | Pixel (0, 0) maps to (minRe, minIm); every pixel of the image maps into [minRe, maxRe) x [minIm, maxIm). |
| `Config.PixelMappingStrictlyIncreasing` | mandelbrot.java:58-59 | The real part grows strictly with the column and the imaginary part with the row, so distinct pixels get distinct points. |
| `Iteration.EscapeCountUnique` | mandelbrot.java:87-97 | At most one count satisfies the escape-count characterisation for a given c and cap. |
| `Iteration.EscapeCountExists` | mandelbrot.java:87-95 | Counting on from a step n before which nothing escaped reaches a count of at least n that satisfies the characterisation; so every c and cap have an escape count. |
| `Iteration.EscapeTime` | mandelbrot.java:81-98 | The reference escape count satisfies the characterisation: 0 <= k <= cap, no orbit point before k escaped, and z_k escaped unless k is the cap. |
| `Iteration.LoopStep` | mandelbrot.java:87-94 | One turn of the loop: when z is z_n and z_0 .. z_n are inside the circle, the update gives z_(n+1), and z_0 .. z_n stay inside. |
| `Iteration.LoopExit` | mandelbrot.java:87-97 | When the loop stops at n (z_n escaped or n reached the cap) with nothing escaped before, n is the escape count and equals `EscapeTime`. |
| `Iteration.MandelbrotIterations` | mandelbrot.java:81-98 | The loop terminates (measure cap - iterations) and returns a count in [0, cap]. If the count is below the cap, the final z has zRe^2 + zIm^2 > 4. No earlier z escaped, so the count equals `EscapeTime`. |
| `Iteration.OriginOrbitIsZero` | mandelbrot.java:82-93 | For c = 0 every orbit point is 0. |
| `Iteration.OriginNeverEscapes` | mandelbrot.java:82-97 | c = 0 never escapes: its count is exactly the cap. |
| `Iteration.FarPointEscapesAtOnce` | mandelbrot.java:87-94 | If cRe^2 + cIm^2 > 4 and the cap is at least 1, the count is exactly 1: z_0 = 0 passes the test and z_1 = c fails it. |
| `Iteration.FirstSteps` | mandelbrot.java:82-93 | The orbit starts 0, c, c*c + c. |
| `Iteration.CountTwo` | mandelbrot.java:87-94 | If z_0 and z_1 are inside the circle, z_2 is outside and the cap is at least 2, the count is exactly 2. |
| `Iteration.EscapesAtTwo` | mandelbrot.java:87-94 | A point inside the circle whose second orbit point is outside it has count exactly 2 when the cap is at least 2. |
| `Coloring.EscapeFraction` | mandelbrot.java:110 | t = iterations / cap is 0 exactly when the count is 0, and lies in [0, 1) for counts below the cap. |
| `Coloring.GetColor` | mandelbrot.java:103-118 | The colour is black exactly when the count equals the cap, for any cap. Below the cap: hue is in [0.6, 1.0), saturation is 0.8 and brightness is in [0.2, 1.0). |
| `Coloring.GradientStrictlyIncreasing` | mandelbrot.java:110-115 | Below the cap, a larger count gives a strictly larger hue input and a strictly larger brightness input, so distinct counts get distinct (hue, brightness) inputs to the HSB conversion. |
| `Render.ComputePixel` | mandelbrot.java:58-65 | One pixel: map, iterate, colour. The colour is the expected colour for (x, y), and it is black exactly when the pixel's point did not escape before the cap, that is, when its count equals the cap. |
| `Render.RowCellsOnce` | mandelbrot.java:56-67 | The cells one row task stores, left to right, include each cell of that row exactly once and no other cell. |
| `Render.FillRow` | mandelbrot.java:55-67 | The per-row task stores the expected colour in every column of its row, and every other row stays unchanged. |
| `Render.ComputeMandelbrot` | mandelbrot.java:51-71 | For any order of the rows, the fresh height x width buffer holds at each (x, y) the colour of the escape count of that pixel's point. Every cell is stored exactly once and nothing outside the image is stored. |
| `Render.RenderOrderIndependent` | mandelbrot.java:55-68 | Rendering with two different row orders, such as one worker and many, gives cell-for-cell identical buffers. |
| `Render.FourByFourCoordinates` | mandelbrot.java:58-59 | In a 4x4 frame of [-2, 2] x [-2, 2], pixels 0, 2 and 3 map to -2, 0 and 1 on both axes. |
| `Render.FourByFourCentreIsBlack` | mandelbrot.java:55-66 | In that frame, the pixel on the origin is black under every cap. |
| `Render.FourByFourCornersEscape` | mandelbrot.java:55-66 | In that frame, corner pixels (0,0), (3,0) and (0,3) escape at step 1 and are not black. Corner (3,3) maps to 1 + i, escapes at step 2, and is black only when the cap is 2. |

The mapping covers [min, max) rather than [min, max]: the last column maps to
maxRe - (maxRe - minRe)/width. So in a 4x4 frame of [-2, 2] x [-2, 2], the
corner pixel (3, 3) is the point 1 + i, not a point near 2 + 2i. That point
escapes at step 2, not step 1. The model follows the code.

## Left out

- IEEE-754 doubles: rounding, overflow to infinity and NaN are not modelled, because all arithmetic is on Dafny `real`. Nothing here claims bit-exact agreement with the Java program.
- The `(float)` casts of hue and brightness are not modelled. They round to single precision, and the model keeps the exact real value.
- Coloring.GetColor: the bound hue < 1.0 holds of the exact value 0.6 + 0.4t. Under caps of about 1.34 x 10^7 (from 13,421,773) or more, the program's `(float)` cast rounds the hue of count cap - 1 up to 1.0f. The model does not promise the bound for the rounded value.
- Coloring.GradientStrictlyIncreasing: strict growth holds of the exact hue and brightness inputs. From caps around 6.7 x 10^6, consecutive counts can share a single-precision hue; brightness can do so from about 1.34 x 10^7. Even at the default cap, java.awt's conversion to 8-bit RGB merges neighbouring counts. So the model does not claim that distinct counts get distinct RGB colours.
- `Color.getHSBColor`, `Color.getRGB`, the `Color.BLACK` constant and `BufferedImage.setRGB` are java.awt internals. The model keeps the (hue, saturation, brightness) triple and takes black to be the triple (0, 0, 0). It does not model the HSB-to-RGB conversion or the packing into a 24-bit RGB integer.
- The parallel stream over rows is not modelled as concurrency. Its unknown schedule is the `schedule` parameter, and rows run one after another in that order. Because rows write disjoint cells, the final buffer is the same for every schedule.
- `main` is not modelled: argument defaulting of the output file name, console messages, wall-clock timing and the exit status are I/O.
- `savePNG` is not modelled: PNG encoding and file writing are I/O in a library outside this model.
- The static constants are lifted into a `RenderConfig` parameter. `Config.DefaultConfig` holds the original values.
