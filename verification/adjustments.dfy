/** The three adjustment operators: `threshold`, `curves` and `curves2`. Each
    resolves its arguments, normalises them from 0–255 to [0,1], transforms the
    red, green and blue channels and hands alpha back untouched. */
module Adjustments {
  import opened Image
  import opened Defaults
  import opened Levels
  import opened Quadratic
  import opened ChannelMap
  import opened Threshold

  // ---------------------------------------------------------------- threshold

  /** `threshold(red, green, blue)`: the three normalised cutoffs the returned
      adjustment uses. Each supplied cutoff is divided by 255; green and blue
      are taken from the arguments only when both are given, otherwise both
      are the red cutoff. */
  function ThresholdCutoffs(red: real, green: Option<real>, blue: Option<real>): (cut: Rgb<real>)
    ensures cut.red * MaxLevel == red
    ensures green.Some? && blue.Some? ==> cut.green * MaxLevel == green.value && cut.blue * MaxLevel == blue.value
    ensures green.None? || blue.None? ==> cut.green == cut.red && cut.blue == cut.red
  {
    var raw := Resolve(red, green, blue);
    Rgb(Normalize(raw.red), Normalize(raw.green), Normalize(raw.blue))
  }

  /** The adjustment `threshold` returns, applied to an image: each colour
      channel binarised against its own cutoff, alpha passed through. */
  function ApplyThreshold(cut: Rgb<real>, img: Rgba): (r: Rgba)
    ensures IsThresholdOf(r.red, img.red, cut.red)
    ensures IsThresholdOf(r.green, img.green, cut.green)
    ensures IsThresholdOf(r.blue, img.blue, cut.blue)
    ensures r.alpha == img.alpha
  {
    Rgba(Binarise(img.red, cut.red), Binarise(img.green, cut.green), Binarise(img.blue, cut.blue), img.alpha)
  }

  /** A single cutoff of 255 or more blanks every colour channel: the 1s of
      the first pass are all at or below the cutoff and the second pass
      clears them. */
  lemma ThresholdFullCutoffBlanks(level: real, img: Rgba)
    requires level >= MaxLevel
    ensures var r := ApplyThreshold(ThresholdCutoffs(level, None, None), img);
      && r.red == seq(|img.red|, i => 0.0)
      && r.green == seq(|img.green|, i => 0.0)
      && r.blue == seq(|img.blue|, i => 0.0)
  {
    var cut := ThresholdCutoffs(level, None, None);
    BinariseFullCutoffIsZero(img.red, cut.red);
    BinariseFullCutoffIsZero(img.green, cut.green);
    BinariseFullCutoffIsZero(img.blue, cut.blue);
  }

  /** Below 255, a single cutoff is the strict step on every colour channel:
      a value equal to the cutoff goes to 0, anything above it to 1. */
  lemma ThresholdIsStrictStep(level: real, img: Rgba)
    requires level < MaxLevel
    ensures var r := ApplyThreshold(ThresholdCutoffs(level, None, None), img);
      && r.red == Step(img.red, Normalize(level))
      && r.green == Step(img.green, Normalize(level))
      && r.blue == Step(img.blue, Normalize(level))
  {
    var cut := ThresholdCutoffs(level, None, None);
    BinariseIsStepIff(img.red, cut.red);
    BinariseIsStepIff(img.green, cut.green);
    BinariseIsStepIff(img.blue, cut.blue);
  }

  /** Cutoff 128 on the levels 0, 127, 128, 129 and 255 gives 0, 0, 0, 1, 1
      on every colour channel. */
  lemma ThresholdExample(alpha: Channel)
    ensures var c := [Normalize(0.0), Normalize(127.0), Normalize(128.0), Normalize(129.0), Normalize(255.0)];
      var r := ApplyThreshold(ThresholdCutoffs(128.0, None, None), Rgba(c, c, c, alpha));
      && r.red == [0.0, 0.0, 0.0, 1.0, 1.0]
      && r.green == [0.0, 0.0, 0.0, 1.0, 1.0]
      && r.blue == [0.0, 0.0, 0.0, 1.0, 1.0]
  {
    var c := [Normalize(0.0), Normalize(127.0), Normalize(128.0), Normalize(129.0), Normalize(255.0)];
    var t := Normalize(128.0);
    assert ThresholdCutoffs(128.0, None, None) == Rgb(t, t, t);
    var b := Binarise(c, t);
    assert b[0] == 0.0 && b[1] == 0.0 && b[2] == 0.0 && b[3] == 1.0 && b[4] == 1.0;
    assert b == [0.0, 0.0, 0.0, 1.0, 1.0];
    assert ApplyThreshold(Rgb(t, t, t), Rgba(c, c, c, alpha)) == Rgba(b, b, b, alpha);
  }

  // ------------------------------------------------------------------- curves

  /** The control points of `curves`: black to 0, grey to exactly one half,
      white to 1, with the inputs normalised. */
  function CurvesPoints(black: real, grey: real, white: real): ControlTriple {
    ControlTriple(Point(Normalize(black), 0.0), Point(Normalize(grey), 0.5), Point(Normalize(white), 1.0))
  }

  /** `curves(rgba, [black, grey, white])`: one quadratic, fitted once through
      the three points, applied with saturation to red, green and blue alike.
      The three inputs must differ, or the system has no unique solution, and
      green and blue must have red's shape, which the coefficient arrays take. */
  function Curves(img: Rgba, black: real, grey: real, white: real): (r: Rgba)
    requires ColoursMatchRed(img)
    requires black != grey && black != white && grey != white
    ensures r.alpha == img.alpha
    ensures |r.red| == |img.red| && |r.green| == |img.green| && |r.blue| == |img.blue|
    ensures InUnit(r.red) && InUnit(r.green) && InUnit(r.blue)
    ensures exists q :: && Interpolates(q, CurvesPoints(black, grey, white))
                        && r.red == ApplyCurve(q, img.red)
                        && r.green == ApplyCurve(q, img.green)
                        && r.blue == ApplyCurve(q, img.blue)
  {
    var q := Solve(CurvesPoints(black, grey, white));
    Rgba(ApplyCurve(q, img.red), ApplyCurve(q, img.green), ApplyCurve(q, img.blue), img.alpha)
  }

  /** Every colour element at a control input lands on that point's output:
      black goes to 0, grey to 0.5 and white to 1. */
  lemma CurvesHitsControlPoints(img: Rgba, black: real, grey: real, white: real)
    requires ColoursMatchRed(img)
    requires black != grey && black != white && grey != white
    ensures var r := Curves(img, black, grey, white);
      && HitsControlPoints(r.red, img.red, CurvesPoints(black, grey, white))
      && HitsControlPoints(r.green, img.green, CurvesPoints(black, grey, white))
      && HitsControlPoints(r.blue, img.blue, CurvesPoints(black, grey, white))
  {
    var r := Curves(img, black, grey, white);
    var t := CurvesPoints(black, grey, white);
    CurveHitsControlPoints(r.red, img.red, t);
    CurveHitsControlPoints(r.green, img.green, t);
    CurveHitsControlPoints(r.blue, img.blue, t);
  }

  /** The darkening example [0, 204, 255]: any channel `curves` produces
      from it sends level 204 to 50% grey, black to 0 and white to 1. */
  lemma CurvesDarkenExample(out: Channel, c: Channel, i: int)
    requires IsCurveOf(out, c, CurvesPoints(0.0, 204.0, MaxLevel))
    requires 0 <= i < |c|
    ensures |out| == |c|
    ensures c[i] == Normalize(204.0) ==> out[i] == 0.5
    ensures c[i] == 0.0 ==> out[i] == 0.0
    ensures c[i] == 1.0 ==> out[i] == 1.0
  {
    CurveHitsControlPoints(out, c, CurvesPoints(0.0, 204.0, MaxLevel));
  }

  /** `curves` leaves values unchanged (its quadratic is y = x) exactly for
      black 0, grey 127.5 and white 255. With integer levels grey cannot be
      127.5, so no integer argument, [0, 128, 255] included, gives the exact
      identity. */
  lemma CurvesIdentityIff(black: real, grey: real, white: real)
    requires black != grey && black != white && grey != white
    ensures Solve(CurvesPoints(black, grey, white)) == Coefficients(0.0, 1.0, 0.0)
        <==> black == 0.0 && grey == 127.5 && white == MaxLevel
  {
    var t := CurvesPoints(black, grey, white);
    var q := Solve(t);
    IdentityThroughCurvesPoints(q, black, grey, white);
    if black == 0.0 && grey == 127.5 && white == MaxLevel {
      SolveIsUnique(t, Coefficients(0.0, 1.0, 0.0));
    }
  }

  /** The identity passes through the `curves` points exactly for black 0,
      grey 127.5 and white 255. */
  lemma IdentityThroughCurvesPoints(q: Coefficients, black: real, grey: real, white: real)
    requires Interpolates(q, CurvesPoints(black, grey, white))
    ensures q == Coefficients(0.0, 1.0, 0.0) ==> black == 0.0 && grey == 127.5 && white == MaxLevel
    ensures black == 0.0 && grey == 127.5 && white == MaxLevel ==> Interpolates(Coefficients(0.0, 1.0, 0.0), CurvesPoints(black, grey, white))
  {
  }

  // ------------------------------------------------------------------ curves2

  /** A control triple with both coordinates of every point normalised. */
  function NormalizeMap(m: ControlTriple): (n: ControlTriple)
    ensures n.first.input * MaxLevel == m.first.input && n.first.output * MaxLevel == m.first.output
    ensures n.second.input * MaxLevel == m.second.input && n.second.output * MaxLevel == m.second.output
    ensures n.third.input * MaxLevel == m.third.input && n.third.output * MaxLevel == m.third.output
    ensures DistinctInputs(n) <==> DistinctInputs(m)
  {
    ControlTriple(
      Point(Normalize(m.first.input), Normalize(m.first.output)),
      Point(Normalize(m.second.input), Normalize(m.second.output)),
      Point(Normalize(m.third.input), Normalize(m.third.output)))
  }

  /** The maps `curves2` fits after defaulting have distinct inputs: the red
      map always, the green and blue maps only when both are supplied (a lone
      one is discarded and never solved). */
  predicate Curves2Solvable(mapRed: ControlTriple, mapGreen: Option<ControlTriple>, mapBlue: Option<ControlTriple>) {
    && DistinctInputs(mapRed)
    && (mapGreen.Some? && mapBlue.Some? ==> DistinctInputs(mapGreen.value) && DistinctInputs(mapBlue.value))
  }

  /** `curves2(rgba, map_red, map_green, map_blue)`: each colour channel gets
      its own quadratic through its own (normalised) map, applied with
      saturation; green and blue use the red map unless both are supplied. */
  function Curves2(img: Rgba, mapRed: ControlTriple, mapGreen: Option<ControlTriple>, mapBlue: Option<ControlTriple>): (r: Rgba)
    requires Curves2Solvable(mapRed, mapGreen, mapBlue)
    ensures r.alpha == img.alpha
    ensures |r.red| == |img.red| && |r.green| == |img.green| && |r.blue| == |img.blue|
    ensures InUnit(r.red) && InUnit(r.green) && InUnit(r.blue)
    ensures var maps := Resolve(mapRed, mapGreen, mapBlue);
      && IsCurveOf(r.red, img.red, NormalizeMap(maps.red))
      && IsCurveOf(r.green, img.green, NormalizeMap(maps.green))
      && IsCurveOf(r.blue, img.blue, NormalizeMap(maps.blue))
  {
    var maps := Resolve(mapRed, mapGreen, mapBlue);
    Rgba(
      ApplyCurve(Solve(NormalizeMap(maps.red)), img.red),
      ApplyCurve(Solve(NormalizeMap(maps.green)), img.green),
      ApplyCurve(Solve(NormalizeMap(maps.blue)), img.blue),
      img.alpha)
  }

  /** Each colour channel passes through its own map's control points,
      saturated to [0,1]. */
  lemma Curves2HitsControlPoints(img: Rgba, mapRed: ControlTriple, mapGreen: Option<ControlTriple>, mapBlue: Option<ControlTriple>)
    requires Curves2Solvable(mapRed, mapGreen, mapBlue)
    ensures var r, maps := Curves2(img, mapRed, mapGreen, mapBlue), Resolve(mapRed, mapGreen, mapBlue);
      && HitsControlPoints(r.red, img.red, NormalizeMap(maps.red))
      && HitsControlPoints(r.green, img.green, NormalizeMap(maps.green))
      && HitsControlPoints(r.blue, img.blue, NormalizeMap(maps.blue))
  {
    var r, maps := Curves2(img, mapRed, mapGreen, mapBlue), Resolve(mapRed, mapGreen, mapBlue);
    CurveHitsControlPoints(r.red, img.red, NormalizeMap(maps.red));
    CurveHitsControlPoints(r.green, img.green, NormalizeMap(maps.green));
    CurveHitsControlPoints(r.blue, img.blue, NormalizeMap(maps.blue));
  }

  /** With a single map (or a lone green or blue map) one curve is shared by
      all three colour channels. */
  lemma Curves2SingleMapIsShared(img: Rgba, mapRed: ControlTriple, mapGreen: Option<ControlTriple>, mapBlue: Option<ControlTriple>)
    requires DistinctInputs(mapRed)
    requires mapGreen.None? || mapBlue.None?
    ensures var r := Curves2(img, mapRed, mapGreen, mapBlue);
      exists q :: && Interpolates(q, NormalizeMap(mapRed))
                  && r.red == ApplyCurve(q, img.red)
                  && r.green == ApplyCurve(q, img.green)
                  && r.blue == ApplyCurve(q, img.blue)
  {
    var q := Solve(NormalizeMap(mapRed));
    assert Resolve(mapRed, mapGreen, mapBlue) == Rgb(mapRed, mapRed, mapRed);
  }

  /** The inversion map [[0,255],[128,128],[255,0]]. */
  const InversionMap: ControlTriple := ControlTriple(Point(0.0, 255.0), Point(128.0, 128.0), Point(MaxLevel, 0.0))

  /** The inversion example of `curves2`: with the single map
      [[0,255],[128,128],[255,0]] every colour channel `curves2` produces
      sends black to white, white to black and level 128 to itself. */
  lemma Curves2InversionExample(out: Channel, c: Channel, i: int)
    requires IsCurveOf(out, c, NormalizeMap(InversionMap))
    requires 0 <= i < |c|
    ensures DistinctInputs(InversionMap)
    ensures |out| == |c|
    ensures c[i] == 0.0 ==> out[i] == 1.0
    ensures c[i] == 1.0 ==> out[i] == 0.0
    ensures c[i] == Normalize(128.0) ==> out[i] == Normalize(128.0)
  {
    CurveHitsControlPoints(out, c, NormalizeMap(InversionMap));
    assert NormalizeMap(InversionMap) == ControlTriple(Point(0.0, 1.0), Point(Normalize(128.0), Normalize(128.0)), Point(1.0, 0.0));
  }

  /** `curves` is `curves2` with the single map (black,0), (grey,127.5),
      (white,255): grey's output is exactly half of 255, not 128. */
  lemma CurvesIsSingleMapCurves2(img: Rgba, black: real, grey: real, white: real)
    requires ColoursMatchRed(img)
    requires black != grey && black != white && grey != white
    ensures Curves2Solvable(ControlTriple(Point(black, 0.0), Point(grey, 127.5), Point(white, 255.0)), None, None)
    ensures Curves(img, black, grey, white)
         == Curves2(img, ControlTriple(Point(black, 0.0), Point(grey, 127.5), Point(white, 255.0)), None, None)
  {
    var m := ControlTriple(Point(black, 0.0), Point(grey, 127.5), Point(white, 255.0));
    assert NormalizeMap(m) == CurvesPoints(black, grey, white);
  }
}
