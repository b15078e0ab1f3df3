/** Term addition and the value of a list of terms: a list stands for the
    sum of its terms. */
module BeamMath {
  import opened Common
  import opened SingularityFunction

  const IncompatibleTerms := "Singularity functions must have same domain start and exponent to be added"

  /** Two terms are like terms when their domain starts and exponents are
      equal, compared exactly. */
  predicate Like(a: Term, b: Term) {
    a.domainStart == b.domainStart && a.exponent == b.exponent
  }

  /** Adds two like terms; any other pair is an error. */
  function AddTerms(a: Term, b: Term): (r: Result<Term>)
    ensures r.Failure? <==> !Like(a, b)
    ensures r.Failure? ==> r.message == IncompatibleTerms
    ensures r.Success? ==> r.value.scale == a.scale + b.scale
    ensures r.Success? ==> r.value.domainStart == a.domainStart == b.domainStart
    ensures r.Success? ==> r.value.exponent == a.exponent == b.exponent
  {
    if !Like(a, b) then
      Failure(IncompatibleTerms)
    else
      Success(Term(a.domainStart, a.scale + b.scale, a.exponent))
  }

  /** Addition is defined for both argument orders or for neither, and
      gives the same term either way. */
  lemma AddCommutes(a: Term, b: Term)
    ensures AddTerms(a, b).Success? <==> AddTerms(b, a).Success?
    ensures AddTerms(a, b) == AddTerms(b, a)
  {
  }

  /** The sum of two like terms has, at every position, the sum of their
      values. */
  lemma {:induction false} AddValue(a: Term, b: Term, x: real)
    requires Like(a, b)
    ensures AddTerms(a, b).Success?
    ensures Evaluate(AddTerms(a, b).value, x) == Evaluate(a, x) + Evaluate(b, x)
  {
    if x >= a.domainStart {
      var p := Pow(x - a.domainStart, a.exponent);
      assert (a.scale + b.scale) * p == a.scale * p + b.scale * p;
    }
  }

  /** The value of a list at `x`: the sum of the values of its terms. */
  function ListValue(l: seq<Term>, x: real): real
    decreases |l|
  {
    if l == [] then 0.0 else Evaluate(l[0], x) + ListValue(l[1..], x)
  }

  /** Evaluation distributes over concatenation. */
  lemma {:induction false} ListValueAppend(a: seq<Term>, b: seq<Term>, x: real)
    ensures ListValue(a + b, x) == ListValue(a, x) + ListValue(b, x)
    decreases |a|
  {
    if a == [] {
      assert a + b == b;
    } else {
      assert (a + b)[1..] == a[1..] + b;
      ListValueAppend(a[1..], b, x);
    }
  }

  /** Left of every domain start a list is zero. */
  lemma {:induction false} ListValueBelowAll(l: seq<Term>, x: real)
    requires forall i :: 0 <= i < |l| ==> x < l[i].domainStart
    ensures ListValue(l, x) == 0.0
    decreases |l|
  {
    if l != [] {
      ListValueBelowAll(l[1..], x);
    }
  }

  /** Sums the list from left to right, one term at a time. */
  method EvaluateList(l: seq<Term>, x: real) returns (result: real)
    ensures result == ListValue(l, x)
    ensures l == [] ==> result == 0.0
    ensures (forall i :: 0 <= i < |l| ==> x < l[i].domainStart) ==> result == 0.0
  {
    result := 0.0;
    var i := 0;
    while i < |l|
      invariant 0 <= i <= |l|
      invariant result == ListValue(l[..i], x)
    {
      ListValueAppend(l[..i], [l[i]], x);
      assert l[..i + 1] == l[..i] + [l[i]];
      result := result + Evaluate(l[i], x);
      i := i + 1;
    }
    assert l[..i] == l;
    if forall i :: 0 <= i < |l| ==> x < l[i].domainStart {
      ListValueBelowAll(l, x);
    }
  }

  /** The worked example `0.5<x-3> - <x-5>^2 + 2<x-7>^3` is 1 at x = 5.5. */
  lemma EvaluateListExample()
    ensures ListValue([Term(3.0, 0.5, 1), Term(5.0, -1.0, 2), Term(7.0, 2.0, 3)], 5.5) == 1.0
  {
    var l := [Term(3.0, 0.5, 1), Term(5.0, -1.0, 2), Term(7.0, 2.0, 3)];
    assert Evaluate(l[0], 5.5) == 1.25;
    assert Evaluate(l[1], 5.5) == -0.25;
    assert Evaluate(l[2], 5.5) == 0.0;
    assert l[1..][1..][1..] == [];
  }
}
