/** A singularity-function term `k<x-a>^n`: zero to the left of its domain
    start `a`, the polynomial `k (x-a)^n` from `a` onwards. */
module SingularityFunction {

  /** One term. The fields are those of the constructor, in its order:
      domain start `a`, scale `k` and exponent `n`. */
  datatype Term = Term(domainStart: real, scale: real, exponent: nat)

  /** `b` raised to the natural power `n`, with `0^0 == 1`. */
  function Pow(b: real, n: nat): real
    decreases n
  {
    if n == 0 then 1.0 else b * Pow(b, n - 1)
  }

  lemma {:induction false} PowPositive(b: real, n: nat)
    requires b > 0.0
    ensures Pow(b, n) > 0.0
    decreases n
  {
    if n > 0 {
      PowPositive(b, n - 1);
    }
  }

  /** The value of a term at position `x`: zero strictly left of the domain
      start, and `k (x-a)^n` at and right of it. */
  function Evaluate(t: Term, x: real): (r: real)
    ensures x < t.domainStart ==> r == 0.0
    ensures x == t.domainStart && t.exponent >= 1 ==> r == 0.0
    ensures x == t.domainStart && t.exponent == 0 ==> r == t.scale
    ensures t.scale == 0.0 ==> r == 0.0
  {
    if x < t.domainStart then 0.0
    else t.scale * Pow(x - t.domainStart, t.exponent)
  }

  /** Right of its domain start a term has the sign of its scale, so a
      non-zero scale never gives a zero value there. */
  lemma EvaluateSign(t: Term, x: real)
    requires x > t.domainStart
    ensures t.scale > 0.0 ==> Evaluate(t, x) > 0.0
    ensures t.scale < 0.0 ==> Evaluate(t, x) < 0.0
    ensures Evaluate(t, x) == 0.0 <==> t.scale == 0.0
  {
    PowPositive(x - t.domainStart, t.exponent);
  }

  /** The three setters: each replaces its own field and keeps the others. */
  function SetDomainStart(t: Term, newDomainStart: real): (r: Term)
    ensures r.domainStart == newDomainStart
    ensures r.scale == t.scale && r.exponent == t.exponent
  {
    t.(domainStart := newDomainStart)
  }

  function SetScale(t: Term, newScale: real): (r: Term)
    ensures r.scale == newScale
    ensures r.domainStart == t.domainStart && r.exponent == t.exponent
  {
    t.(scale := newScale)
  }

  function SetExponent(t: Term, newExponent: nat): (r: Term)
    ensures r.exponent == newExponent
    ensures r.domainStart == t.domainStart && r.scale == t.scale
  {
    t.(exponent := newExponent)
  }

  /** Setting a field to the value it already holds gives back the same term,
      and the three setters together rebuild the term from scratch. */
  lemma SettersRebuild(t: Term, a: real, k: real, n: nat)
    ensures SetDomainStart(t, t.domainStart) == t
    ensures SetScale(t, t.scale) == t
    ensures SetExponent(t, t.exponent) == t
    ensures SetExponent(SetScale(SetDomainStart(t, a), k), n) == Term(a, k, n)
  {
  }

  /** How a term is rendered: only the two special cases are modelled, a
      zero scale (text "0") and a constant `k<x-0>^0` (text: the scale). */
  datatype EquationText = ZeroText | ScalarText(value: real) | GeneralText

  function TextOf(t: Term): (r: EquationText)
    ensures r == ZeroText <==> t.scale == 0.0
    ensures r.ScalarText? <==> t.scale != 0.0 && t.exponent == 0 && t.domainStart == 0.0
    ensures r.ScalarText? ==> r.value == t.scale
  {
    if t.scale == 0.0 then ZeroText
    else if t.exponent == 0 && t.domainStart == 0.0 then ScalarText(t.scale)
    else GeneralText
  }

  /** The text agrees with the value: a term rendered "0" is zero everywhere,
      and a term rendered as a bare scale equals that scale on the whole
      beam (every `x >= 0`) and vanishes left of the origin. */
  lemma TextMatchesValue(t: Term, x: real)
    ensures TextOf(t) == ZeroText ==> Evaluate(t, x) == 0.0
    ensures TextOf(t).ScalarText? && x >= 0.0 ==> Evaluate(t, x) == TextOf(t).value
    ensures TextOf(t).ScalarText? && x < 0.0 ==> Evaluate(t, x) == 0.0
  {
  }
}
