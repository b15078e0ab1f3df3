/** Indefinite integration of terms and term lists, and the integration
    constants that make an integrated list meet boundary conditions. */
module Integration {
  import opened Common
  import opened SingularityFunction
  import opened BeamMath

  /** A boundary condition: the integrated function must equal `y` at `x`. */
  datatype BoundaryCondition = BoundaryCondition(x: real, y: real)

  /** The antiderivative of `k<x-a>^n` that vanishes at `a`:
      `k/(n+1) <x-a>^(n+1)`. */
  function IntegrateTerm(t: Term): (r: Term)
    ensures r.domainStart == t.domainStart
    ensures r.exponent == t.exponent + 1
    ensures r.scale * (t.exponent + 1) as real == t.scale
  {
    Term(t.domainStart, t.scale / (t.exponent + 1) as real, t.exponent + 1)
  }

  /** The derivative of a term whose exponent is at least one. */
  function Derivative(t: Term): (r: Term)
    requires t.exponent >= 1
    ensures r.domainStart == t.domainStart && r.exponent + 1 == t.exponent
  {
    Term(t.domainStart, t.scale * t.exponent as real, t.exponent - 1)
  }

  /** Integration and differentiation undo each other on terms. */
  lemma IntegrateDerivativeRoundTrip(t: Term)
    ensures Derivative(IntegrateTerm(t)) == t
    ensures t.exponent >= 1 ==> IntegrateTerm(Derivative(t)) == t
  {
    var m := (t.exponent + 1) as real;
    assert t.scale / m * m == t.scale;
    if t.exponent >= 1 {
      var n := t.exponent as real;
      assert t.scale * n / n == t.scale;
    }
  }

  /** Value-level meaning of integration: the integral vanishes at the
      domain start, and `(n+1) F(x) == (x-a) f(x)` everywhere, which for
      `x > a` fixes `F(x)` from `f(x)`. */
  lemma {:induction false} IntegrateValue(t: Term, x: real)
    ensures Evaluate(IntegrateTerm(t), t.domainStart) == 0.0
    ensures (t.exponent + 1) as real * Evaluate(IntegrateTerm(t), x) == (x - t.domainStart) * Evaluate(t, x)
  {
    var m := (t.exponent + 1) as real;
    if x >= t.domainStart {
      var b := x - t.domainStart;
      var p := Pow(b, t.exponent);
      assert Pow(b, t.exponent + 1) == b * p;
      calc {
        m * Evaluate(IntegrateTerm(t), x);
        m * (t.scale / m * (b * p));
        (m * (t.scale / m)) * (b * p);
        { assert m * (t.scale / m) == t.scale; }
        t.scale * (b * p);
        b * (t.scale * p);
      }
    }
  }

  /** Integrates every term of a list, keeping length and order; a zero
      term stays in the list with its exponent raised. */
  function IntegrateList(l: seq<Term>): (r: seq<Term>)
    ensures |r| == |l|
    ensures forall i :: 0 <= i < |l| ==> r[i] == IntegrateTerm(l[i])
    decreases |l|
  {
    if l == [] then [] else [IntegrateTerm(l[0])] + IntegrateList(l[1..])
  }

  /** The twice-integrated term `k/((n+1)(n+2)) <x-a>^(n+2)`. */
  function DoubleIntegrateTerm(t: Term): (r: Term)
    ensures r == IntegrateTerm(IntegrateTerm(t))
    ensures r.domainStart == t.domainStart && r.exponent == t.exponent + 2
  {
    var m1 := (t.exponent + 1) as real;
    var m2 := (t.exponent + 2) as real;
    assert t.scale / (m1 * m2) == t.scale / m1 / m2;
    Term(t.domainStart, t.scale / (m1 * m2), t.exponent + 2)
  }

  /** Integrates every term of a list twice, keeping length and order. */
  function DoubleIntegrateList(l: seq<Term>): (r: seq<Term>)
    ensures |r| == |l|
    ensures forall i :: 0 <= i < |l| ==> r[i] == DoubleIntegrateTerm(l[i])
    ensures r == IntegrateList(IntegrateList(l))
    decreases |l|
  {
    if l == [] then [] else [DoubleIntegrateTerm(l[0])] + DoubleIntegrateList(l[1..])
  }

  /** The constant step `c<x-0>^0` and ramp `c<x-0>^1`: `c` and `c x` on
      the beam (`x >= 0`), zero to the left of it. */
  lemma ConstantTermsValue(c: real, x: real)
    ensures x >= 0.0 ==> Evaluate(Term(0.0, c, 0), x) == c
    ensures x >= 0.0 ==> Evaluate(Term(0.0, c, 1), x) == c * x
    ensures x < 0.0 ==> Evaluate(Term(0.0, c, 0), x) == 0.0 && Evaluate(Term(0.0, c, 1), x) == 0.0
  {
  }

  /** Integrates every term and appends one constant `c<x-0>^0`, chosen so
      that on the beam (`bc.x >= 0`) the result takes the value `bc.y` at
      `bc.x`. Left of the origin the constant term is zero, so there the
      condition is met only if the integrated list already meets it. */
  function IntegrateWithConstant(l: seq<Term>, bc: BoundaryCondition): (r: seq<Term>)
    ensures |r| == |l| + 1 && r[..|l|] == IntegrateList(l)
    ensures r[|l|].domainStart == 0.0 && r[|l|].exponent == 0
    ensures bc.x >= 0.0 ==> ListValue(r, bc.x) == bc.y
    ensures bc.x < 0.0 ==> ListValue(r, bc.x) == ListValue(IntegrateList(l), bc.x)
  {
    var integrated := IntegrateList(l);
    var c := bc.y - ListValue(integrated, bc.x);
    var r := integrated + [Term(0.0, c, 0)];
    ListValueAppend(integrated, [Term(0.0, c, 0)], bc.x);
    assert r[..|l|] == integrated;
    r
  }

  /** Integrates every term twice and appends `c1<x-0>^1` then `c2<x-0>^0`,
      solving for `c1` and `c2` so that the result passes through both
      boundary points. The two conditions determine the constants only at
      distinct positions; equal positions give no result. */
  function DoubleIntegrateWithTwoConstants(l: seq<Term>, bc1: BoundaryCondition, bc2: BoundaryCondition)
    : (r: Option<seq<Term>>)
    ensures r.None? <==> bc1.x == bc2.x
    ensures r.Some? ==> |r.value| == |l| + 2 && r.value[..|l|] == DoubleIntegrateList(l)
    ensures r.Some? ==> r.value[|l|].domainStart == 0.0 && r.value[|l|].exponent == 1
    ensures r.Some? ==> r.value[|l| + 1].domainStart == 0.0 && r.value[|l| + 1].exponent == 0
    ensures r.Some? && bc1.x >= 0.0 && bc2.x >= 0.0 ==>
              ListValue(r.value, bc1.x) == bc1.y && ListValue(r.value, bc2.x) == bc2.y
  {
    if bc1.x == bc2.x then None
    else
      var integrated := DoubleIntegrateList(l);
      var r := integrated + TwoConstants(integrated, bc1, bc2);
      assert r[..|l|] == integrated;
      TwoConstantsFit(integrated, bc1, bc2);
      Some(r)
  }

  /** The ramp `c1<x-0>^1` and step `c2<x-0>^0` that complete `integrated`,
      with the constants solved from its values at the two positions. */
  function TwoConstants(integrated: seq<Term>, bc1: BoundaryCondition, bc2: BoundaryCondition): (r: seq<Term>)
    requires bc1.x != bc2.x
    ensures |r| == 2 && r[0].domainStart == 0.0 && r[0].exponent == 1 && r[1].domainStart == 0.0 && r[1].exponent == 0
  {
    var c := SolveConstants(ListValue(integrated, bc1.x), ListValue(integrated, bc2.x), bc1, bc2);
    [Term(0.0, c.0, 1), Term(0.0, c.1, 0)]
  }

  /** The constants `c1 = ((y2-y1) + (I1-I2)) / (x2-x1)` and
      `c2 = y1 - I1 - c1 x1` of the line `c1 x + c2` that lifts a function
      with values `I1` at `x1` and `I2` at `x2` onto both conditions. */
  function SolveConstants(i1: real, i2: real, bc1: BoundaryCondition, bc2: BoundaryCondition): (c: (real, real))
    requires bc1.x != bc2.x
    ensures i1 + c.0 * bc1.x + c.1 == bc1.y
    ensures i2 + c.0 * bc2.x + c.1 == bc2.y
  {
    var c1 := ((bc2.y - bc1.y) + (i1 - i2)) / (bc2.x - bc1.x);
    assert c1 * (bc2.x - bc1.x) == (bc2.y - bc1.y) + (i1 - i2);
    assert c1 * bc2.x - c1 * bc1.x == c1 * (bc2.x - bc1.x);
    (c1, bc1.y - i1 - c1 * bc1.x)
  }

  /** With the solved constants appended, the list meets both boundary
      conditions at non-negative positions. */
  lemma TwoConstantsFit(integrated: seq<Term>, bc1: BoundaryCondition, bc2: BoundaryCondition)
    requires bc1.x != bc2.x
    ensures bc1.x >= 0.0 ==> ListValue(integrated + TwoConstants(integrated, bc1, bc2), bc1.x) == bc1.y
    ensures bc2.x >= 0.0 ==> ListValue(integrated + TwoConstants(integrated, bc1, bc2), bc2.x) == bc2.y
  {
    var c := SolveConstants(ListValue(integrated, bc1.x), ListValue(integrated, bc2.x), bc1, bc2);
    assert TwoConstants(integrated, bc1, bc2) == [Term(0.0, c.0, 1), Term(0.0, c.1, 0)];
    LineMeetsCondition(integrated, c.0, c.1, bc1);
    LineMeetsCondition(integrated, c.0, c.1, bc2);
  }

  /** Constants that satisfy one condition on the values make the appended
      list satisfy it, when the position is on the beam. */
  lemma LineMeetsCondition(integrated: seq<Term>, c1: real, c2: real, bc: BoundaryCondition)
    requires ListValue(integrated, bc.x) + c1 * bc.x + c2 == bc.y
    ensures bc.x >= 0.0 ==> ListValue(integrated + [Term(0.0, c1, 1), Term(0.0, c2, 0)], bc.x) == bc.y
  {
    TwoConstantsValue(integrated, c1, c2, bc.x);
  }

  /** The appended ramp and step add `c1 x + c2` on the beam. */
  lemma TwoConstantsValue(integrated: seq<Term>, c1: real, c2: real, x: real)
    ensures x >= 0.0 ==>
              ListValue(integrated + [Term(0.0, c1, 1), Term(0.0, c2, 0)], x) == ListValue(integrated, x) + c1 * x + c2
  {
    var constants := [Term(0.0, c1, 1), Term(0.0, c2, 0)];
    ListValueAppend(integrated, constants, x);
    ListValueTwo(constants[0], constants[1], x);
    ConstantTermsValue(c1, x);
    ConstantTermsValue(c2, x);
  }

  lemma ListValueTwo(a: Term, b: Term, x: real)
    ensures ListValue([a, b], x) == Evaluate(a, x) + Evaluate(b, x)
  {
    assert [a, b][1..] == [b];
    assert [b][1..] == [];
    assert ListValue([b], x) == Evaluate(b, x) + ListValue([], x);
  }

  lemma ListValueThree(a: Term, b: Term, c: Term, x: real)
    ensures ListValue([a, b, c], x) == Evaluate(a, x) + Evaluate(b, x) + Evaluate(c, x)
  {
    assert [a, b, c][1..] == [b, c];
    ListValueTwo(b, c, x);
  }

  /** The worked examples: `<x-3>^2` with `y(5) = 2`, and
      `2<x-2> + <x-3>^2 - <x-4>` with `y(3) = -2`. */
  lemma IntegrateWithConstantExamples()
    ensures IntegrateWithConstant([Term(3.0, 1.0, 2)], BoundaryCondition(5.0, 2.0))
         == [Term(3.0, 1.0 / 3.0, 3), Term(0.0, -2.0 / 3.0, 0)]
    ensures IntegrateWithConstant([Term(2.0, 2.0, 1), Term(3.0, 1.0, 2), Term(4.0, -1.0, 1)], BoundaryCondition(3.0, -2.0))
         == [Term(2.0, 1.0, 2), Term(3.0, 1.0 / 3.0, 3), Term(4.0, -0.5, 2), Term(0.0, -3.0, 0)]
  {
    var i1 := IntegrateList([Term(3.0, 1.0, 2)]);
    assert i1 == [Term(3.0, 1.0 / 3.0, 3)];
    assert Evaluate(i1[0], 5.0) == 8.0 / 3.0;
    assert i1[1..] == [];
    assert ListValue(i1, 5.0) == 8.0 / 3.0;
    var l2 := [Term(2.0, 2.0, 1), Term(3.0, 1.0, 2), Term(4.0, -1.0, 1)];
    var i2 := IntegrateList(l2);
    assert i2 == [Term(2.0, 1.0, 2), Term(3.0, 1.0 / 3.0, 3), Term(4.0, -0.5, 2)];
    assert Evaluate(i2[0], 3.0) == 1.0;
    assert Evaluate(i2[1], 3.0) == 0.0;
    assert Evaluate(i2[2], 3.0) == 0.0;
    ListValueThree(i2[0], i2[1], i2[2], 3.0);
    assert ListValue(i2, 3.0) == 1.0;
  }

  /** The worked example: `<x-3>^2 + 2<x-2> + 4<x-1>` through `(1, 2)` and
      `(4, 1.5)` gives the constants `-85/12` and `109/12`. */
  lemma DoubleIntegrateWithTwoConstantsExample()
    ensures DoubleIntegrateWithTwoConstants([Term(3.0, 1.0, 2), Term(2.0, 2.0, 1), Term(1.0, 4.0, 1)],
                                            BoundaryCondition(1.0, 2.0), BoundaryCondition(4.0, 1.5))
         == Some([Term(3.0, 1.0 / 12.0, 4), Term(2.0, 1.0 / 3.0, 3), Term(1.0, 2.0 / 3.0, 3),
                  Term(0.0, -85.0 / 12.0, 1), Term(0.0, 109.0 / 12.0, 0)])
  {
    var l := [Term(3.0, 1.0, 2), Term(2.0, 2.0, 1), Term(1.0, 4.0, 1)];
    var d := DoubleIntegrateList(l);
    assert d == [Term(3.0, 1.0 / 12.0, 4), Term(2.0, 1.0 / 3.0, 3), Term(1.0, 2.0 / 3.0, 3)];
    ListValueThree(d[0], d[1], d[2], 1.0);
    ListValueThree(d[0], d[1], d[2], 4.0);
    assert Evaluate(d[0], 1.0) == 0.0 && Evaluate(d[1], 1.0) == 0.0 && Evaluate(d[2], 1.0) == 0.0;
    assert ListValue(d, 1.0) == 0.0;
    assert Evaluate(d[0], 4.0) == 1.0 / 12.0;
    assert Evaluate(d[1], 4.0) == 8.0 / 3.0;
    assert Evaluate(d[2], 4.0) == 18.0;
    assert ListValue(d, 4.0) == 249.0 / 12.0;
    var c1 := ((1.5 - 2.0) + (0.0 - 249.0 / 12.0)) / (4.0 - 1.0);
    assert c1 == -85.0 / 12.0;
    var c2 := 2.0 - 0.0 - c1 * 1.0;
    assert c2 == 109.0 / 12.0;
    assert TwoConstants(d, BoundaryCondition(1.0, 2.0), BoundaryCondition(4.0, 1.5))
        == [Term(0.0, c1, 1), Term(0.0, c2, 0)];
    assert DoubleIntegrateWithTwoConstants(l, BoundaryCondition(1.0, 2.0), BoundaryCondition(4.0, 1.5))
        == Some(d + [Term(0.0, c1, 1), Term(0.0, c2, 0)]);
    assert d + [Term(0.0, c1, 1), Term(0.0, c2, 0)]
        == [Term(3.0, 1.0 / 12.0, 4), Term(2.0, 1.0 / 3.0, 3), Term(1.0, 2.0 / 3.0, 3),
            Term(0.0, -85.0 / 12.0, 1), Term(0.0, 109.0 / 12.0, 0)];
  }
}
