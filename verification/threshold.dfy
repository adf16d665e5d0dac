/** The threshold operator's per-channel work: two masked assignments run one
    after the other on the same channel, first `c[c > t] = 1`, then
    `c[c <= t] = 0`, where the second mask is computed from the output of the
    first. */
module Threshold {
  import opened Image

  /** The masked assignment `c[c > t] = v`: elements above t become v, all
      other elements are left as they were. */
  function AssignAbove(c: Channel, t: real, v: real): (r: Channel)
    ensures |r| == |c|
    ensures forall i :: 0 <= i < |c| && c[i] > t ==> r[i] == v
    ensures forall i :: 0 <= i < |c| && c[i] <= t ==> r[i] == c[i]
  {
    if |c| == 0 then []
    else [if c[0] > t then v else c[0]] + AssignAbove(c[1..], t, v)
  }

  /** The masked assignment `c[c <= t] = v`: elements at or below t become v,
      all other elements are left as they were. */
  function AssignAtOrBelow(c: Channel, t: real, v: real): (r: Channel)
    ensures |r| == |c|
    ensures forall i :: 0 <= i < |c| && c[i] <= t ==> r[i] == v
    ensures forall i :: 0 <= i < |c| && c[i] > t ==> r[i] == c[i]
  {
    if |c| == 0 then []
    else [if c[0] <= t then v else c[0]] + AssignAtOrBelow(c[1..], t, v)
  }

  /** The strict step with cutoff t: 1 above t, 0 at or below it. */
  function Step(c: Channel, t: real): Channel {
    seq(|c|, i requires 0 <= i < |c| => if c[i] > t then 1.0 else 0.0)
  }

  /** `out` is the binarised `c` for cutoff t: same length, every element 0
      or 1, and 1 exactly where the input lies above t while t is below 1. */
  predicate IsThresholdOf(out: Channel, c: Channel, t: real) {
    && |out| == |c|
    && IsBinary(out)
    && forall i :: 0 <= i < |c| ==> (out[i] == 1.0 <==> t < 1.0 && c[i] > t)
  }

  /** Both passes in order. The result is binary, and an element ends as 1
      exactly when it lies above the cutoff AND the cutoff is below 1: a
      cutoff of 1 or more makes the second pass erase the 1s of the first. */
  function Binarise(c: Channel, t: real): (r: Channel)
    ensures IsThresholdOf(r, c, t)
  {
    AssignAtOrBelow(AssignAbove(c, t, 1.0), t, 0.0)
  }

  /** The two passes agree with the strict step exactly when the cutoff is
      below 1 or no element lies above it. */
  lemma BinariseIsStepIff(c: Channel, t: real)
    ensures Binarise(c, t) == Step(c, t) <==> t < 1.0 || forall i :: 0 <= i < |c| ==> c[i] <= t
  {
    var r, s := Binarise(c, t), Step(c, t);
    if t < 1.0 || forall i :: 0 <= i < |c| ==> c[i] <= t {
      forall i | 0 <= i < |c| ensures r[i] == s[i] {
      }
      assert r == s;
    } else {
      var i :| 0 <= i < |c| && c[i] > t;
      assert r[i] != s[i];
    }
  }

  /** With a cutoff of 1 or more every element ends as 0. */
  lemma BinariseFullCutoffIsZero(c: Channel, t: real)
    requires t >= 1.0
    ensures Binarise(c, t) == seq(|c|, i => 0.0)
  {
    var r := Binarise(c, t);
    forall i | 0 <= i < |c| ensures r[i] == 0.0 {
    }
  }

  /** The passes as the source runs them: in place on one buffer, element by
      element, the second pass reading what the first one wrote. */
  method BinariseInPlace(c: Channel, t: real) returns (r: Channel)
    ensures r == Binarise(c, t)
  {
    var a := new real[|c|](i requires 0 <= i < |c| => c[i]);
    var i := 0;
    while i < a.Length
      invariant 0 <= i <= a.Length
      invariant forall k :: 0 <= k < i ==> a[k] == (if c[k] > t then 1.0 else c[k])
      invariant forall k :: i <= k < a.Length ==> a[k] == c[k]
    {
      if a[i] > t {
        a[i] := 1.0;
      }
      i := i + 1;
    }
    ghost var first := a[..];
    assert first == AssignAbove(c, t, 1.0);
    i := 0;
    while i < a.Length
      invariant 0 <= i <= a.Length
      invariant forall k :: 0 <= k < i ==> a[k] == (if first[k] <= t then 0.0 else first[k])
      invariant forall k :: i <= k < a.Length ==> a[k] == first[k]
    {
      if a[i] <= t {
        a[i] := 0.0;
      }
      i := i + 1;
    }
    r := a[..];
    assert r == AssignAtOrBelow(first, t, 0.0);
  }
}
