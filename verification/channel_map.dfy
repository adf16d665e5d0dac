/** The channel mapper: a fitted quadratic applied to every element of a
    channel, each result saturated to [0,1]. */
module ChannelMap {
  import opened Image
  import opened Levels
  import opened Quadratic

  /** Applies `clip(a·v² + b·v + c, 0, 1)` to every element v of the channel.
      The shape is kept, element i of the result depends only on element i of
      the input and on q, and every result lies in [0,1]. */
  function ApplyCurve(q: Coefficients, c: Channel): (r: Channel)
    ensures |r| == |c|
    ensures forall i :: 0 <= i < |c| ==> r[i] == Clip(Eval(q, c[i]))
    ensures InUnit(r)
  {
    if |c| == 0 then []
    else [Clip(Eval(q, c[0]))] + ApplyCurve(q, c[1..])
  }

  /** The channel is the clamped image of `c` under some quadratic through
      the three (normalised) control points. */
  ghost predicate IsCurveOf(out: Channel, c: Channel, t: ControlTriple) {
    exists q :: Interpolates(q, t) && out == ApplyCurve(q, c)
  }

  /** Wherever an input element equals a control input, the output is that
      control point's output clamped to [0,1]. */
  predicate HitsControlPoints(out: Channel, c: Channel, t: ControlTriple)
    requires |out| == |c|
  {
    forall i :: 0 <= i < |c| ==>
      && (c[i] == t.first.input ==> out[i] == Clip(t.first.output))
      && (c[i] == t.second.input ==> out[i] == Clip(t.second.output))
      && (c[i] == t.third.input ==> out[i] == Clip(t.third.output))
  }

  /** A curve through the control points sends each control input to its
      output, saturated; an output already in [0,1] is hit exactly. */
  lemma CurveHitsControlPoints(out: Channel, c: Channel, t: ControlTriple)
    requires IsCurveOf(out, c, t)
    ensures |out| == |c|
    ensures HitsControlPoints(out, c, t)
  {
    var q :| Interpolates(q, t) && out == ApplyCurve(q, c);
  }

  /** With distinct control inputs the curve is fully determined: two channels
      that are both curves of the same input through the same points are
      equal. */
  lemma CurveIsDetermined(out1: Channel, out2: Channel, c: Channel, t: ControlTriple)
    requires DistinctInputs(t)
    requires IsCurveOf(out1, c, t) && IsCurveOf(out2, c, t)
    ensures out1 == out2
  {
    var q1 :| Interpolates(q1, t) && out1 == ApplyCurve(q1, c);
    var q2 :| Interpolates(q2, t) && out2 == ApplyCurve(q2, c);
    SolveIsUnique(t, q1);
    SolveIsUnique(t, q2);
  }
}
