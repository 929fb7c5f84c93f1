# Screensaver: a Dafny model of its point physics and closed-curve sampler

The screensaver (`solution_2.py`) lets the user click points into a
1280 x 720 window. Each point is meant to move by its own speed on every
frame and bounce off the window edges. A smooth closed curve is meant to be
drawn around the points: it passes through the midpoint of each pair of
neighbouring points and is only pulled towards the points themselves
(`Curves.JointSampleAt`, `Curves.QuadraticBlend`). As written, a click never
gives the joint a point, so no curve appears, and the next unpaused frame
fails (see "## Findings"). The model covers three pieces:

- `Vector`: a 2D value type with `+`, `-` and scalar `*`. Its coordinates are
  exact reals here (`vectors.dfy`).
- `Line`: two parallel lists, `points` and `speeds`, updated in place. It is
  a class whose `SetPoints` loop is proved against the specification
  functions `Advanced` and `Reflected` (`physics.dfy`).
- `Joint`: a `Line` that also samples a closed curve. The recursive blend
  `get_point`, the sampler `get_points` and the curve `get_joint` are pure
  functions in `curves.dfy`. The lemmas there cover the empty curve below
  three points, the exact length, the blend's endpoint identities, where each
  sample sits, the cyclic span structure, rotation, and a bounding rectangle.
  `joints.dfy` holds the `Joint` class. Its loop methods `GetPoints` and
  `GetJoint` are proved equal to those functions.
- The main loop's key handling, clicks and per-frame tick (`screensaver.dfy`).
  The click as the source writes it, which loses pairing, is modelled only by
  `ClickAsWritten` and `FirstClickAsWrittenFails` (see "## Findings"). The
  event handler `HandleEvent` and the frame `RunFrame` use the corrected
  `Click`.

Notes on the modelling:

- The source reads a vector's coordinates as `v[0]` and `v[1]`, but `Vector`
  defines no item access. The model reads `v.x` and `v.y`.
- Python's `points[i]` with `-n <= i < n` is `Curves.At`. It reads position
  `(i + n) % n` (`Curves.AtIsMod`).
- `Joint` derives from `Line` in the source. Here a `Joint` owns a `Line`
  (`Joint.line`) and delegates to it. The state changes are the same.
- `Line.set_points` raises an index error when a point has no speed. The
  points before it have already moved. `Line.SetPoints` returns `ok == false`
  in that case and gives the partly updated state.
- The help panel labels the R key as a restart (`solution_2.py:119`), but the
  handler at `solution_2.py:156-158` empties only the plain `line`; the
  `joint` keeps its points and speeds. The model follows the handler.

## Model

| member | source | states |
|---|---|---|
| `Vectors.Add` | solution_2.py:19-20 | `a + b`, component-wise; `Vectors.SubUndoesAdd` and `Vectors.AddCommutes` state its laws |
| `Vectors.Sub` | solution_2.py:16-17 | `a - b`, component-wise; adding `b` back gives `a` |
| `Vectors.Mul` | solution_2.py:22-23 | `v * k`, each component scaled by `k`; scaling by 1 is the identity and by 0 gives the zero vector |
| `Vectors.RMul` | solution_2.py:25-26 | `k * v`, which delegates to `v * k`, so both sides scale each component by `k` |
| `Vectors.SubUndoesAdd` | solution_2.py:16-20 | subtracting `b` undoes adding `b`, and adding `b` undoes subtracting it |
| `Vectors.AddCommutes` | solution_2.py:19-20 | `a + b == b + a` |
| `Vectors.MulDistributes` | solution_2.py:22-26 | `(a + b) * k == a * k + b * k`; `k * (l * a) == (k * l) * a`, with `__rmul__` delegating to `__mul__` |
| `Vectors.MulUnitAndZero` | solution_2.py:22-26 | scaling by 1 (either side) is the identity; scaling by 0 gives the zero vector |
| `Curves.At` | solution_2.py:94-96 | Python's `points[i]` for `-n <= i < n`: `points[i]` for `i >= 0`, `points[n + i]` for a negative index |
| `Curves.Mid` | solution_2.py:94-96 | `(a + b) * 0.5`, the outer control points of a span: as far from `a` as `b` is from it |
| `Curves.AtIsMod` | solution_2.py:92-96 | Python's `points[i]` for `-n <= i < n`, as modelled, reads `points[(i + n) % n]` |
| `Curves.GetPoint` | solution_2.py:74-79 | `get_point`: degree 0 is `points[0]`; degree `d` is `points[d] * alpha + get_point(d - 1) * (1 - alpha)` |
| `Curves.Blend` | solution_2.py:74-76 | `get_point` with its default degree `len(points) - 1` |
| `Curves.GetPointDegreeZero` | solution_2.py:74-78 | at degree 0, and for a single control point, the blend is `points[0]` for any `alpha` |
| `Curves.BlendAtZero` | solution_2.py:74-79 | at `alpha = 0` the blend of every degree is `points[0]` (by induction on the degree) |
| `Curves.BlendAtOne` | solution_2.py:74-79 | at `alpha = 1` the blend of degree `deg` is `points[deg]` |
| `Curves.QuadraticBlend` | solution_2.py:74-79 | for three control points the blend is `alpha*p2 + alpha*(1-alpha)*p1 + (1-alpha)^2*p0` |
| `Curves.QuarterBlendExample` | solution_2.py:74-79 | `(0,0), (10,0), (10,10)` blend to `(4.375, 2.5)` at `alpha = 0.25`, unlike the textbook Bezier curve |
| `Curves.Alpha` | solution_2.py:82-85 | the parameter of sample `k`: `k * alpha` with `alpha = 1 / count` |
| `Curves.AlphaInUnit` | solution_2.py:82-85 | the sample parameters `k * (1 / count)` start at 0 and lie in `[0, 1)` |
| `Curves.Samples` | solution_2.py:81-86 | `get_points` yields `count` samples, none for a negative `count` |
| `Curves.SamplesStartAtFirst` | solution_2.py:81-86 | the first sample of a span is its first control point |
| `Curves.SpanIndicesInRange` | solution_2.py:92-96 | every index `i + d` read by `get_joint` from the points, for `i` in `[-2, n-3]` and `d` in `{0,1,2}`, is a valid Python index, and `At` reads the item Python's `points[i + d]` gives |
| `Curves.Span` | solution_2.py:93-96 | the three control points of iteration `i`: midpoint of `points[i]` and `points[i+1]`, `points[i+1]`, midpoint of `points[i+1]` and `points[i+2]` |
| `Curves.Blocks` | solution_2.py:92-97 | one entry per loop iteration, in order: entry `j` is `get_points` of the span of index `j - 2`; there are `n` entries |
| `Curves.Flatten` | solution_2.py:89-97 | the blocks concatenated in order, as the repeated `result.extend` builds the result from an empty list |
| `Curves.JointCurve` | solution_2.py:88-98 | `get_joint`: empty below three points, otherwise the samples of the spans for `i` from -2 to `n - 3`, in order |
| `Curves.JointLength` | solution_2.py:88-97 | below three points the curve is empty; otherwise it holds `n * count` samples (none for a negative `count`) |
| `Curves.JointSampleAt` | solution_2.py:82-97 | sample `j*count + k` is the blend of span `j` at `k * (1/count)`; the first sample of span `j` is `(points[j-2] + points[j-1]) * 0.5` |
| `Curves.SpanMiddles` | solution_2.py:92-96 | the middle control point of iteration `j` is `points[j-1]`, or the last point for `j = 0`; each stored point is the middle of exactly one iteration |
| `Curves.BlocksRotate` | solution_2.py:92-97 | rotating the stored points by `r` rotates the list of per-span samples by `r` |
| `Curves.JointRotate` | solution_2.py:88-98 | rotating the stored points by `r` rotates the curve by `r * count` samples |
| `Curves.GetPointInRect` | solution_2.py:74-79 | for `0 <= alpha <= 1` the blend stays in every rectangle holding the control points |
| `Curves.JointInRect` | solution_2.py:81-98 | when every stored point lies in a rectangle, so does every sample of the curve |
| `Physics.OutsideX` | solution_2.py:48 | the moved x lies right of the window's width `Width` (1280, from `SCREEN_SIZE` at line 4) or left of 0 |
| `Physics.OutsideY` | solution_2.py:50 | the moved y lies below the window's height `Height` (720, from `SCREEN_SIZE` at line 4) or above 0 |
| `Physics.Reflect` | solution_2.py:48-51 | the speed after moving to `moved`: each component kept or negated, never resized; `Physics.ReflectFlipsExactly` says which |
| `Physics.Advanced` | solution_2.py:45-47 | the positions after a tick: each point that has a speed moved by it, never clamped; keeps the length |
| `Physics.Reflected` | solution_2.py:45-51 | the speeds after a tick: each speed that has a point reflected at the moved point; keeps the length |
| `Physics.ReflectFlipsExactly` | solution_2.py:48-51 | per axis, for a nonzero component along that axis: the x speed is negated iff the moved x is `> 1280` or `< 0`, and the y speed iff the moved y is `> 720` or `< 0` |
| `Physics.ReflectAxesIndependent` | solution_2.py:48-51 | whether a component flips depends only on the moved coordinate along that axis |
| `Physics.BounceReturns` | solution_2.py:45-51 | a point that leaves the window along an axis gets a speed pointing back, and the next tick returns it to its old coordinate |
| `Physics.NeverClampedExample` | solution_2.py:45-51 | a point at `(1279, 10)` with speed `(5, 1)` moves to `(1284, 11)`, outside the window, and only its x speed reverses |
| `Physics.Line.constructor` | solution_2.py:36-38 | a new line holds the given point and speed lists |
| `Physics.Line.Add` | solution_2.py:40-42 | appends exactly one entry to each list and keeps the rest; preserves pairing |
| `Physics.Line.SetPoints` | solution_2.py:45-51 | moves each point by its speed, without clamping; reflects each speed at the moved point; keeps both lengths; fails (`ok` false) exactly when a point has no speed |
| `Joints.Joint.constructor` | solution_2.py:60-62 | a new joint has an empty fresh line and the given `count` |
| `Joints.Joint.GetPoints` | solution_2.py:81-86 | the loop returns exactly `Samples(base_points, count)` |
| `Joints.Joint.GetJoint` | solution_2.py:88-98 | the loop returns exactly `JointCurve(points, count)` |
| `Joints.Joint.Add` | solution_2.py:65-67 | appends to both lists like `Line.add`; the recomputed curve is discarded |
| `Joints.Joint.SetPoints` | solution_2.py:69-71 | has the same effect on the points and speeds as `Line.set_points` |
| `Screensaver.Initial` | solution_2.py:140-145 | the start-up controls: running, not paused, no help panel, `steps = 20`, which is at least 1 |
| `Screensaver.OnKey` | solution_2.py:153-166 | escape clears `working`, P toggles `pause`, F1 toggles the help panel, plus adds one to `steps`, minus subtracts one above 1; other keys change nothing |
| `Screensaver.OnEvent` | solution_2.py:150-166 | quit clears `working`, a key acts as `OnKey`, a click leaves the controls alone |
| `Screensaver.OnEvents` | solution_2.py:149-166 | the controls after a frame's events, handled in order |
| `Screensaver.ListsOnEvent` | solution_2.py:156-170 | the effect of one event on the four lists: the reset key empties the plain line, the corrected click (see "## Findings") appends the point and its speed to both objects, other events change nothing |
| `Screensaver.ListsOnEvents` | solution_2.py:149-170 | the four lists after a frame's events in order: the reset key empties the plain line, a click (as corrected in "## Findings") appends to both objects |
| `Screensaver.EventsKeepPairing` | solution_2.py:156-170 | with the corrected click, no sequence of events leaves a point without a speed in either object |
| `Screensaver.JointGrowsByClicks` | solution_2.py:156-170 | with the corrected click (as written, a click adds no point to the joint), the joint is never reset: after the events it holds its old points followed by the clicked positions, in order |
| `Screensaver.StepsStayPositive` | solution_2.py:161-166 | `steps` never drops below 1; the minus key at 1 leaves it at 1 |
| `Screensaver.PlusMinusInverse` | solution_2.py:161-166 | minus undoes plus, and plus undoes minus above 1 |
| `Screensaver.TogglesInvolutive` | solution_2.py:159-164 | pressing the pause key or the help key twice restores the controls |
| `Screensaver.OnlyEscapeStops` | solution_2.py:151-155 | a key stops the loop iff it is escape |
| `Screensaver.HandleEvent` | solution_2.py:150-170 | the controls become `OnEvent` of the event and the lists `ListsOnEvent`: quit and keys as in the source, the reset key empties the plain line only; the click branch is the corrected `Click` from "## Findings" (the as-written click is only `ClickAsWritten`); pairing is preserved |
| `Screensaver.ClickAsWritten` | solution_2.py:168-170 | the position goes to the plain line and the speed to the joint, unbalancing both |
| `Screensaver.Click` | solution_2.py:168-170 | the corrected click appends point and speed together to both objects and keeps them paired |
| `Screensaver.Tick` | solution_2.py:177-179 | unless paused, the joint ticks and then the plain line; `ok` iff neither tick meets a point without a speed |
| `Screensaver.FirstClickAsWrittenFails` | solution_2.py:168-179 | one click on a fresh session, as written, makes the next unpaused frame fail |
| `Screensaver.FirstClickRuns` | solution_2.py:168-179 | the same click, handled as intended, gives a frame that completes |
| `Screensaver.RunFrame` | solution_2.py:149-179 | one frame from paired lines, with the corrected `Click` (the as-written click is only `ClickAsWritten`): the controls are `OnEvents` of the events; the lists are `ListsOnEvents`, then moved by `Advanced`/`Reflected` unless paused; both stay paired and the tick completes |

## Findings

| source | as written | input that shows it | evidently intended | confidence | as-written member | corrected member |
|---|---|---|---|---|---|---|
| solution_2.py:168-170 | a click appends the position to `line.points` and the speed to `joint.speeds`; nothing ever adds a point to the joint, so `joint.get_joint()` is always empty and no curve is ever drawn | one click on a fresh session while not paused: the next frame's `line.set_points()` reads `line.speeds[0]` of an empty list | the point and its speed are added together, to both objects, keeping `len(points) == len(speeds)` | not executed | `Screensaver.ClickAsWritten`, `Screensaver.FirstClickAsWrittenFails` | `Screensaver.Click`, `Screensaver.FirstClickRuns` |

## Left out

- Drawing: `Line.draw_points`, `Joint.draw_points`, `display_help`, the window, fonts, and the hue cycling of the curve colour. These are calls into the graphics library.
- `Vector.len` and `Vector.int_pair`: the first is a floating-point square root and the second is used only for drawing. Neither is used by the physics or the curve.
- The `Vector` constructor's one-argument form (`Vector((x, y))`). The model builds vectors from two coordinates only.
- Floating point: coordinates are exact reals, so rounding is not modelled.
- Randomness: the speed of a clicked point is an input to the click.
- Aliasing: `Line(points, speeds)` keeps a caller's non-empty lists by reference. The model copies their values.
- The type error from `v[0]` on a `Vector`, which has no item access. Coordinates are read as `v.x` and `v.y` throughout.
- `Joints.Joint.constructor`: requires a nonzero `count`. With `count == 0`, `get_points` divides by zero once three points exist. A negative `count` is modelled: it gives no samples.
- Quit: the loop's exit and shutdown of the graphics library are not modelled. `OnKey` and `HandleEvent` only clear `working`.
- `steps` is shown in the help panel, but the joint's `count` is fixed at construction (`const count`). Changing `steps` never changes the curve.
