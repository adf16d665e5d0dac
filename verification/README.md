# Blit pixel adjustments, modelled in Dafny

This project models the pixel-adjustment engine of Blit (`Blit/adjustments.py`):
three operators that transform the red, green and blue channels of an RGBA image
and hand alpha back unchanged.

- `threshold(red, green, blue)` picks one cutoff per colour channel. Green and
  blue fall back to red unless both are given. Each cutoff is divided by 255.
  The adjustment it returns binarises each channel with two masked assignments
  in a row: first `c[c > t] = 1`, then `c[c <= t] = 0`.
- `curves(rgba, [black, grey, white])` fits the quadratic `a·x² + b·x + c` through
  `(black, 0)`, `(grey, 0.5)` and `(white, 1)`, inputs divided by 255. It applies
  `clip(a·v² + b·v + c, 0, 1)` to every element of all three colour channels.
- `curves2(rgba, map_red, map_green, map_blue)` fits one quadratic per colour
  channel through that channel's three `(input, output)` pairs. Both coordinates
  are divided by 255. The defaulting rule is the same as for `threshold`.

Channels are `seq<real>` and all arithmetic is exact real arithmetic. The
symbolic solve of the source is replaced by a closed-form Lagrange solution.
The model proves that this solution satisfies the three equations and that it
is the only one that does.

Modules (one file each):

- `Image`: channels, the RGBA image, per-channel triples, `Option`.
- `Defaults`: the green/blue-fall-back-to-red rule.
- `Levels`: normalisation by 255 and the `[0,1]` clip.
- `Quadratic`: control points, the closed-form solver, and its uniqueness.
- `ChannelMap`: the clamped quadratic applied elementwise.
- `Threshold`: the two masked-assignment passes, as pure functions and as an
  in-place loop.
- `Adjustments`: the three operators and their properties.

Facts about the code that the model records:

- `curves` sends grey to exactly `0.5`, that is 127.5 out of 255, not to 128
  (`Blit/adjustments.py:55`).
- With repeated control inputs the solve fails: the solver finds no unique
  solution and reading the coefficients then raises
  (`Blit/adjustments.py:58-61` and `122-125`). The model makes pairwise-distinct
  inputs a precondition.
- `curves` builds its coefficient arrays with red's shape
  (`Blit/adjustments.py:61`), so green and blue must match red's length unless
  numpy broadcasting applies (see "Left out"). The model requires equal
  lengths of `Adjustments.Curves`. `curves2` takes each channel's
  own shape (`Blit/adjustments.py:125`), so each channel keeps its own length
  there.
- `curves` with `[0, 128, 255]` is not exactly the identity, because 128/255 is
  not 0.5. `Adjustments.CurvesIdentityIff` shows the fitted curve is `y = x`
  only for `[0, 127.5, 255]`.
- The order of the control points does not matter to the solution:
  `Quadratic.SolveIgnoresOrder` proves it.

## Model

| member | source | states |
|---|---|---|
| Defaults.Resolve | Blit/adjustments.py:6-8 | red is always kept; green and blue are kept only when both are supplied; if either is missing, both become red |
| Defaults.ResolveDiscardsLoneChannel | Blit/adjustments.py:101-103 | a lone green or lone blue argument has no effect: the result equals the one with neither supplied, all three channels red |
| Levels.Normalize | Blit/adjustments.py:11 | the normalised value times 255 is the original; it lies in [0,1] iff the original lies in [0,255], and is below 1 iff the original is below 255 |
| Levels.Clip | Blit/adjustments.py:64-66 | the result lies in [0,1], equals the input on [0,1], and saturates to 0 below and to 1 above |
| Quadratic.Solve | Blit/adjustments.py:118-122 | for pairwise-distinct inputs the closed-form coefficients satisfy a·xᵢ² + b·xᵢ + c = yᵢ at all three control points |
| Quadratic.SolveIsUnique | Blit/adjustments.py:118-122 | any coefficients through the three points with distinct inputs equal Solve's, so the solution of the system is unique |
| Quadratic.SolveIgnoresOrder | Blit/adjustments.py:114-122 | swapping any two control points leaves the solved coefficients unchanged |
| ChannelMap.ApplyCurve | Blit/adjustments.py:125-128 | the output has the input's length; element i is clip(a·vᵢ² + b·vᵢ + c) of input element i alone; every element lies in [0,1] |
| ChannelMap.CurveHitsControlPoints | Blit/adjustments.py:118-128 | an input element equal to a control input maps to that control output clamped to [0,1], so outputs already in [0,1] are hit exactly |
| ChannelMap.CurveIsDetermined | Blit/adjustments.py:122-128 | two channels that are clamped curves of the same input through the same distinct-input points are equal |
| Threshold.AssignAbove | Blit/adjustments.py:16 | `c[c > t] = v`: elements above t become v, all others are unchanged, the length is kept |
| Threshold.AssignAtOrBelow | Blit/adjustments.py:17 | `c[c <= t] = v`: elements at or below t become v, all others are unchanged, the length is kept |
| Threshold.Binarise | Blit/adjustments.py:16-17 | after both passes the channel has its length and is binary; an element is 1 iff it was above t and t < 1 |
| Threshold.BinariseIsStepIff | Blit/adjustments.py:16-23 | the two passes equal the strict step (1 above t, 0 at or below) iff t < 1 or no element lies above t |
| Threshold.BinariseFullCutoffIsZero | Blit/adjustments.py:16-23 | with t >= 1 every element ends as 0, since the second pass clears the 1s of the first |
| Threshold.BinariseInPlace | Blit/adjustments.py:16-17 | the element-by-element in-place run of the two passes on one buffer produces exactly the functional result |
| Adjustments.ThresholdCutoffs | Blit/adjustments.py:6-11 | the red cutoff is red/255; green and blue are their own values over 255 only when both are given, otherwise equal to the red cutoff |
| Adjustments.ApplyThreshold | Blit/adjustments.py:13-25 | each colour channel is the binarised input against its own cutoff; alpha is returned unchanged |
| Adjustments.ThresholdFullCutoffBlanks | Blit/adjustments.py:6-23 | a single cutoff of 255 or more turns every colour element into 0 |
| Adjustments.ThresholdIsStrictStep | Blit/adjustments.py:6-23 | a single cutoff below 255 is the strict step on every colour channel, with a value equal to the cutoff going to 0 |
| Adjustments.ThresholdExample | Blit/adjustments.py:11-23 | cutoff 128 on levels 0, 127, 128, 129, 255 yields 0, 0, 0, 1, 1 on each of red, green and blue |
| Adjustments.Curves | Blit/adjustments.py:44-68 | for green and blue of red's length: alpha unchanged, lengths kept, every colour element in [0,1], and one quadratic through (black,0), (grey,0.5), (white,1) applied to all three channels |
| Adjustments.CurvesHitsControlPoints | Blit/adjustments.py:51-66 | colour elements at black, grey and white map to 0, 0.5 and 1 |
| Adjustments.CurvesDarkenExample | Blit/adjustments.py:36-40 | with [0, 204, 255], level 204 goes to 0.5, black to 0 and white to 1 |
| Adjustments.CurvesIdentityIff | Blit/adjustments.py:51-58 | the fitted curve is y = x iff black is 0, grey is 127.5 and white is 255 |
| Adjustments.NormalizeMap | Blit/adjustments.py:114-115 | both coordinates of every control point are divided by 255; the inputs are distinct after normalisation iff they were before |
| Adjustments.Curves2 | Blit/adjustments.py:101-130 | alpha unchanged, lengths kept, colour elements in [0,1], and each colour channel is the clamped curve through its own resolved, normalised map |
| Adjustments.Curves2HitsControlPoints | Blit/adjustments.py:109-128 | each colour element at a control input of its channel's map goes to that control output over 255, clamped to [0,1] |
| Adjustments.Curves2SingleMapIsShared | Blit/adjustments.py:101-103 | without both a green and a blue map, one quadratic through the red map is applied to all three channels |
| Adjustments.Curves2InversionExample | Blit/adjustments.py:78-83 | with [[0,255],[128,128],[255,0]], black goes to white, white to black, and level 128 to itself |
| Adjustments.CurvesIsSingleMapCurves2 | Blit/adjustments.py:51-66 | `curves` with black, grey, white is `curves2` with the single map (black,0), (grey,127.5), (white,255) |

## Left out

- The symbolic solver is replaced by the closed-form Lagrange solution. Its failure on repeated control inputs is a precondition (pairwise-distinct inputs), not an error value, because the source has no error path of its own.
- Floating point is not modelled. This covers `float32` coefficient arrays, rounding, NaN and infinities. All values are exact reals.
- Array broadcasting and multi-dimensional shapes are not modelled. A channel is a flat sequence, and the coefficient arrays built with `ones(shape)` are modelled as the scalar coefficients.
- The file uses `numpy` without importing it. The model assumes the import is present.
- In-place mutation of the caller's arrays by the threshold adjustment, and aliasing between channels, are not modelled. Each channel is transformed on its own. `Threshold.BinariseInPlace` runs the passes in place on a private buffer.
- The threshold is curried in the source: `threshold` returns a function. The model splits it into `Adjustments.ThresholdCutoffs` and `Adjustments.ApplyThreshold`.
- Adjustments.Curves: numpy broadcasting of mismatched channel shapes is not modelled. The source raises unless the shapes broadcast. A length-1 green or blue takes red's length, and with a length-1 red, green and blue keep their own lengths. The model requires green and blue to have red's length.
- Argument lists of the wrong length fail when the source unpacks them. The model takes exactly three levels for `curves` and exactly three points per map for `curves2`, so this failure is not modelled.
- Image loading and saving, configuration and command dispatch, and the other Blit modules are not part of this model.
