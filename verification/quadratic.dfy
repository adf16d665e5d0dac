/** The curve solver: the quadratic a·x² + b·x + c through three control
    points with pairwise-distinct inputs, computed in closed form from the
    Lagrange basis instead of by symbolic equation solving. */
module Quadratic {

  /** A control point (input, output), already in the working domain. */
  datatype Point = Point(input: real, output: real)

  /** The three control points a curve must pass through. */
  datatype ControlTriple = ControlTriple(first: Point, second: Point, third: Point)

  /** The coefficients of y = a·x² + b·x + c. */
  datatype Coefficients = Coefficients(a: real, b: real, c: real)

  /** The value of the quadratic at x. */
  function Eval(q: Coefficients, x: real): real {
    q.a * (x * x) + q.b * x + q.c
  }

  /** No two control points share an input: the 3×3 system is non-singular. */
  predicate DistinctInputs(t: ControlTriple) {
    && t.first.input != t.second.input
    && t.first.input != t.third.input
    && t.second.input != t.third.input
  }

  /** The quadratic passes through the point. */
  predicate PassesThrough(q: Coefficients, p: Point) {
    Eval(q, p.input) == p.output
  }

  /** The quadratic solves the system: it passes through all three points. */
  predicate Interpolates(q: Coefficients, t: ControlTriple) {
    PassesThrough(q, t.first) && PassesThrough(q, t.second) && PassesThrough(q, t.third)
  }

  /** The weight y / (xi - xj) / (xi - xk) of the Lagrange basis polynomial
      that is 1 at xi and 0 at xj and xk, scaled by the output y. */
  function Weight(y: real, xi: real, xj: real, xk: real): (w: real)
    requires xi != xj && xi != xk
    ensures w * ((xi - xj) * (xi - xk)) == y
  {
    var w := y / (xi - xj) / (xi - xk);
    assert w * (xi - xk) == y / (xi - xj);
    w
  }

  /** The coefficients of w1·(x-x2)(x-x3) + w2·(x-x1)(x-x3) + w3·(x-x1)(x-x2). */
  function Combine(w1: real, w2: real, w3: real, x1: real, x2: real, x3: real): Coefficients {
    Coefficients(
      w1 + w2 + w3,
      -(w1 * (x2 + x3) + w2 * (x1 + x3) + w3 * (x1 + x2)),
      w1 * (x2 * x3) + w2 * (x1 * x3) + w3 * (x1 * x2))
  }

  /** Expanding the product form gives the coefficients of Combine. */
  lemma CombineIsProductForm(w1: real, w2: real, w3: real, x1: real, x2: real, x3: real, x: real)
    ensures Eval(Combine(w1, w2, w3, x1, x2, x3), x)
         == w1 * ((x - x2) * (x - x3)) + w2 * ((x - x1) * (x - x3)) + w3 * ((x - x1) * (x - x2))
  {
    // Each product (x - xj)·(x - xk) expands to x² - (xj + xk)·x + xj·xk.
  }

  /** At each node only that node's basis term survives. */
  lemma CombineAtNodes(w1: real, w2: real, w3: real, x1: real, x2: real, x3: real)
    ensures Eval(Combine(w1, w2, w3, x1, x2, x3), x1) == w1 * ((x1 - x2) * (x1 - x3))
    ensures Eval(Combine(w1, w2, w3, x1, x2, x3), x2) == w2 * ((x2 - x1) * (x2 - x3))
    ensures Eval(Combine(w1, w2, w3, x1, x2, x3), x3) == w3 * ((x3 - x1) * (x3 - x2))
  {
    CombineIsProductForm(w1, w2, w3, x1, x2, x3, x1);
    CombineIsProductForm(w1, w2, w3, x1, x2, x3, x2);
    CombineIsProductForm(w1, w2, w3, x1, x2, x3, x3);
  }

  /** Weights that scale each basis term to its node's output give a
      quadratic through all three points. */
  lemma WeightedCombinationInterpolates(t: ControlTriple, w1: real, w2: real, w3: real)
    requires w1 * ((t.first.input - t.second.input) * (t.first.input - t.third.input)) == t.first.output
    requires w2 * ((t.second.input - t.first.input) * (t.second.input - t.third.input)) == t.second.output
    requires w3 * ((t.third.input - t.first.input) * (t.third.input - t.second.input)) == t.third.output
    ensures Interpolates(Combine(w1, w2, w3, t.first.input, t.second.input, t.third.input), t)
  {
    CombineAtNodes(w1, w2, w3, t.first.input, t.second.input, t.third.input);
  }

  /** The unique solution of a·xᵢ² + b·xᵢ + c = yᵢ for the three points. */
  function Solve(t: ControlTriple): (q: Coefficients)
    requires DistinctInputs(t)
    ensures Interpolates(q, t)
  {
    var x1, x2, x3 := t.first.input, t.second.input, t.third.input;
    var w1 := Weight(t.first.output, x1, x2, x3);
    var w2 := Weight(t.second.output, x2, x1, x3);
    var w3 := Weight(t.third.output, x3, x1, x2);
    WeightedCombinationInterpolates(t, w1, w2, w3);
    Combine(w1, w2, w3, x1, x2, x3)
  }

  /** A quadratic with three distinct roots is the zero polynomial. */
  lemma ThreeRootsMeansZero(d: Coefficients, x1: real, x2: real, x3: real)
    requires x1 != x2 && x1 != x3 && x2 != x3
    requires Eval(d, x1) == 0.0 && Eval(d, x2) == 0.0 && Eval(d, x3) == 0.0
    ensures d == Coefficients(0.0, 0.0, 0.0)
  {
    // Differences of values factor as (xi - xj)·(a·(xi + xj) + b).
    assert Eval(d, x1) - Eval(d, x2) == (x1 - x2) * (d.a * (x1 + x2) + d.b);
    assert Eval(d, x1) - Eval(d, x3) == (x1 - x3) * (d.a * (x1 + x3) + d.b);
    assert d.a * (x1 + x2) + d.b == 0.0;
    assert d.a * (x1 + x3) + d.b == 0.0;
    assert d.a * (x2 - x3) == 0.0;
    assert d.a == 0.0;
  }

  /** Solve returns THE solution: any quadratic through the three points
      with distinct inputs has exactly Solve's coefficients. */
  lemma SolveIsUnique(t: ControlTriple, q: Coefficients)
    requires DistinctInputs(t)
    requires Interpolates(q, t)
    ensures q == Solve(t)
  {
    var s := Solve(t);
    var d := Coefficients(q.a - s.a, q.b - s.b, q.c - s.c);
    forall x: real ensures Eval(d, x) == Eval(q, x) - Eval(s, x) {
      assert (q.a - s.a) * (x * x) == q.a * (x * x) - s.a * (x * x);
      assert (q.b - s.b) * x == q.b * x - s.b * x;
    }
    ThreeRootsMeansZero(d, t.first.input, t.second.input, t.third.input);
  }

  /** The solved curve does not depend on the order the points are listed in:
      swapping any two of them yields the same coefficients. */
  lemma SolveIgnoresOrder(t: ControlTriple)
    requires DistinctInputs(t)
    ensures Solve(ControlTriple(t.second, t.first, t.third)) == Solve(t)
    ensures Solve(ControlTriple(t.first, t.third, t.second)) == Solve(t)
    ensures Solve(ControlTriple(t.third, t.second, t.first)) == Solve(t)
  {
    SolveIsUnique(t, Solve(ControlTriple(t.second, t.first, t.third)));
    SolveIsUnique(t, Solve(ControlTriple(t.first, t.third, t.second)));
    SolveIsUnique(t, Solve(ControlTriple(t.third, t.second, t.first)));
  }
}
