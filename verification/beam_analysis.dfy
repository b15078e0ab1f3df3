/** The state of a beam analysis and its static-determinacy check: each
    support restrains a number of reaction components (roller 1, pin 2,
    fixed 3), and their total decides whether the beam is a mechanism,
    statically determinate or statically indeterminate. */
module BeamAnalysis {
  import opened Common
  import opened SingularityFunction
  import opened Supports
  import opened Forces

  /** The analysis record: the beam description, the three classification
      flags, the three equation lists and the material constants. */
  datatype Analysis = Analysis(
    supports: seq<Support>, loads: seq<Force>, length: Option<real>,
    mechanism: bool, determinate: bool, indeterminate: bool,
    bendingMoment: seq<Term>, slope: seq<Term>, displacement: seq<Term>,
    modulus: real, density: real, inertia: real)

  /** The beam description and material constants of two records agree. */
  predicate SameBeam(a: Analysis, b: Analysis) {
    && a.supports == b.supports && a.loads == b.loads && a.length == b.length
    && a.modulus == b.modulus && a.density == b.density && a.inertia == b.inertia
  }

  /** The flags and equation lists of two records agree. */
  predicate SameResults(a: Analysis, b: Analysis) {
    && a.mechanism == b.mechanism && a.determinate == b.determinate && a.indeterminate == b.indeterminate
    && a.bendingMoment == b.bendingMoment && a.slope == b.slope && a.displacement == b.displacement
  }

  /** No flag is set and every equation list is empty. */
  predicate Cleared(a: Analysis) {
    && !a.mechanism && !a.determinate && !a.indeterminate
    && a.bendingMoment == [] && a.slope == [] && a.displacement == []
  }

  /** The freshly constructed record. */
  function NewAnalysis(): Analysis {
    Analysis([], [], None, false, false, false, [], [], [], 1.0, 1.0, 1.0)
  }

  /** Replaces the supports, loads and length; nothing else changes. */
  function Initialise(a: Analysis, supports: seq<Support>, loads: seq<Force>, length: real): (r: Analysis)
    ensures r.supports == supports && r.loads == loads && r.length == Some(length)
    ensures r.modulus == a.modulus && r.density == a.density && r.inertia == a.inertia
    ensures SameResults(a, r)
  {
    a.(supports := supports, loads := loads, length := Some(length))
  }

  /** Clears the flags and the equation lists; the beam is kept. */
  function ResetAnalysis(a: Analysis): (r: Analysis)
    ensures Cleared(r)
    ensures SameBeam(a, r)
  {
    a.(mechanism := false, determinate := false, indeterminate := false,
       bendingMoment := [], slope := [], displacement := [])
  }

  /** A new record is already reset; resetting is idempotent and does not
      interact with re-initialising the beam. */
  lemma ResetFacts(a: Analysis, supports: seq<Support>, loads: seq<Force>, length: real)
    ensures ResetAnalysis(NewAnalysis()) == NewAnalysis()
    ensures Cleared(NewAnalysis()) && NewAnalysis().supports == [] && NewAnalysis().length.None?
    ensures ResetAnalysis(ResetAnalysis(a)) == ResetAnalysis(a)
    ensures Initialise(ResetAnalysis(a), supports, loads, length)
         == ResetAnalysis(Initialise(a, supports, loads, length))
  {
  }

  /** The reaction components a support restrains. */
  function Restraints(k: SupportKind): nat {
    match k
    case Roller => 1
    case Pin => 2
    case Fixed => 3
  }

  /** The kinds of a list of supports, in order. */
  function Kinds(s: seq<Support>): (r: seq<SupportKind>)
    ensures |r| == |s|
    decreases |s|
  {
    if s == [] then [] else Kinds(s[..|s| - 1]) + [s[|s| - 1].kind]
  }

  /** The number of supports of kind `k`. */
  function Count(s: seq<Support>, k: SupportKind): nat
    decreases |s|
  {
    if s == [] then 0
    else Count(s[..|s| - 1], k) + (if s[|s| - 1].kind == k then 1 else 0)
  }

  /** The total number of reaction components the supports restrain. */
  function Determinacy(s: seq<Support>): nat
    decreases |s|
  {
    if s == [] then 0 else Determinacy(s[..|s| - 1]) + Restraints(s[|s| - 1].kind)
  }

  /** The total, tallied by kind. */
  lemma {:induction false} DeterminacyByKind(s: seq<Support>)
    ensures Determinacy(s) == Count(s, Roller) + 2 * Count(s, Pin) + 3 * Count(s, Fixed)
    decreases |s|
  {
    if s != [] {
      DeterminacyByKind(s[..|s| - 1]);
    }
  }

  /** Three rollers and nothing else: enough components, but none resists
      horizontal movement. */
  predicate ThreeRollersOnly(s: seq<Support>) {
    Count(s, Roller) == 3 && Count(s, Pin) == 0 && Count(s, Fixed) == 0
  }

  datatype Classification = Mechanism | Determinate | Indeterminate

  /** The reference classification. Three rollers alone total exactly three
      components, so a beam is indeterminate exactly when the total
      exceeds three. */
  function Classify(s: seq<Support>): (c: Classification)
    ensures c == Mechanism <==> Determinacy(s) < 3 || ThreeRollersOnly(s)
    ensures c == Determinate <==> Determinacy(s) == 3 && !ThreeRollersOnly(s)
    ensures c == Indeterminate <==> Determinacy(s) > 3
  {
    DeterminacyByKind(s);
    if Determinacy(s) < 3 || ThreeRollersOnly(s) then Mechanism
    else if Determinacy(s) == 3 then Determinate
    else Indeterminate
  }

  /** Counts the supports in one pass, sets exactly one flag and returns
      the number of reaction components. The beam and the equation lists
      are left as they were. */
  method CheckDeterminacy(a: Analysis) returns (b: Analysis, determinacy: int)
    ensures determinacy == Determinacy(a.supports)
    ensures determinacy == Count(a.supports, Roller) + 2 * Count(a.supports, Pin) + 3 * Count(a.supports, Fixed)
    ensures b.mechanism <==> Classify(a.supports) == Mechanism
    ensures b.determinate <==> Classify(a.supports) == Determinate
    ensures b.indeterminate <==> Classify(a.supports) == Indeterminate
    ensures SameBeam(a, b)
    ensures b.bendingMoment == a.bendingMoment && b.slope == a.slope && b.displacement == a.displacement
  {
    var s := a.supports;
    determinacy := 0;
    var roller, pin, fixedEnd := 0, 0, 0;
    var i := 0;
    while i < |s|
      invariant 0 <= i <= |s|
      invariant roller == Count(s[..i], Roller)
      invariant pin == Count(s[..i], Pin)
      invariant fixedEnd == Count(s[..i], Fixed)
      invariant determinacy == roller + 2 * pin + 3 * fixedEnd
    {
      assert s[..i + 1][..i] == s[..i];
      match s[i].kind {
        case Roller =>
          determinacy := determinacy + 1;
          roller := roller + 1;
        case Pin =>
          determinacy := determinacy + 2;
          pin := pin + 1;
        case Fixed =>
          determinacy := determinacy + 3;
          fixedEnd := fixedEnd + 1;
      }
      i := i + 1;
    }
    assert s[..i] == s;
    DeterminacyByKind(s);
    if determinacy < 3 || (roller == 3 && pin == 0 && fixedEnd == 0) {
      b := a.(mechanism := true, determinate := false, indeterminate := false);
    } else if determinacy == 3 {
      b := a.(determinate := true, mechanism := false, indeterminate := false);
    } else {
      b := a.(indeterminate := true, mechanism := false, determinate := false);
    }
  }

  /** A kind count is the multiplicity of that kind among the kinds. */
  lemma {:induction false} CountIsMultiplicity(s: seq<Support>, k: SupportKind)
    ensures Count(s, k) == multiset(Kinds(s))[k]
    decreases |s|
  {
    if s != [] {
      CountIsMultiplicity(s[..|s| - 1], k);
      assert multiset(Kinds(s)) == multiset(Kinds(s[..|s| - 1])) + multiset{s[|s| - 1].kind};
    }
  }

  /** The number of components and the classification depend only on how
      many supports of each kind there are: not on their order and not on
      their positions. */
  lemma ClassifyIgnoresOrderAndPosition(s1: seq<Support>, s2: seq<Support>)
    requires multiset(Kinds(s1)) == multiset(Kinds(s2))
    ensures Determinacy(s1) == Determinacy(s2)
    ensures Classify(s1) == Classify(s2)
  {
    DeterminacyByKind(s1);
    DeterminacyByKind(s2);
    CountIsMultiplicity(s1, Roller);
    CountIsMultiplicity(s2, Roller);
    CountIsMultiplicity(s1, Pin);
    CountIsMultiplicity(s2, Pin);
    CountIsMultiplicity(s1, Fixed);
    CountIsMultiplicity(s2, Fixed);
  }

  /** Worked cases: a pin and a roller are determinate with three
      components; two rollers, or three rollers alone, are a mechanism; a
      fixed end alone is determinate; a pin and two rollers are
      indeterminate with four components. */
  lemma ClassifyExamples()
    ensures Determinacy([Support(0.0, Pin, None, None), Support(5.0, Roller, None, None)]) == 3
    ensures Classify([Support(0.0, Pin, None, None), Support(5.0, Roller, None, None)]) == Determinate
    ensures Classify([Support(0.0, Roller, None, None), Support(5.0, Roller, None, None)]) == Mechanism
    ensures Classify([Support(0.0, Roller, None, None), Support(2.0, Roller, None, None),
                      Support(5.0, Roller, None, None)]) == Mechanism
    ensures Classify([Support(0.0, Fixed, None, None)]) == Determinate
    ensures Determinacy([Support(0.0, Pin, None, None), Support(2.0, Roller, None, None),
                         Support(5.0, Roller, None, None)]) == 4
    ensures Classify([Support(0.0, Pin, None, None), Support(2.0, Roller, None, None),
                      Support(5.0, Roller, None, None)]) == Indeterminate
  {
    var pr := [Support(0.0, Pin, None, None), Support(5.0, Roller, None, None)];
    assert pr[..1] == [pr[0]] && pr[..1][..0] == [];
    assert Count(pr, Pin) == 1 && Count(pr, Roller) == 1 && Count(pr, Fixed) == 0;
    var rr := [Support(0.0, Roller, None, None), Support(5.0, Roller, None, None)];
    assert rr[..1] == [rr[0]];
    var rrr := [Support(0.0, Roller, None, None), Support(2.0, Roller, None, None), Support(5.0, Roller, None, None)];
    assert rrr[..2] == [rrr[0], rrr[1]] && rrr[..2][..1] == [rrr[0]];
    var prr := [Support(0.0, Pin, None, None), Support(2.0, Roller, None, None), Support(5.0, Roller, None, None)];
    assert prr[..2] == [prr[0], prr[1]] && prr[..2][..1] == [prr[0]];
    var f := [Support(0.0, Fixed, None, None)];
    assert f[..0] == [];
    DeterminacyByKind(pr);
    DeterminacyByKind(rr);
    DeterminacyByKind(rrr);
    DeterminacyByKind(prr);
    DeterminacyByKind(f);
  }
}
