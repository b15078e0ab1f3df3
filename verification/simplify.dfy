/** Simplification of a term list: like terms are merged into one by
    summing their scales, and terms whose scale is zero are dropped. The
    surviving terms keep the order in which their key (domain start and
    exponent) first occurs. */
module Simplify {
  import opened SingularityFunction
  import opened BeamMath

  /** `t` has domain start `d` and exponent `n`. */
  predicate KeyIs(t: Term, d: real, n: nat) {
    t.domainStart == d && t.exponent == n
  }

  /** Some term of `l` has domain start `d` and exponent `n`. */
  predicate HasKey(l: seq<Term>, d: real, n: nat) {
    exists i :: 0 <= i < |l| && KeyIs(l[i], d, n)
  }

  predicate NoZeroScale(l: seq<Term>) {
    forall i :: 0 <= i < |l| ==> l[i].scale != 0.0
  }

  /** No two terms of `l` are like terms. */
  predicate NoLikePair(l: seq<Term>) {
    forall i, j :: 0 <= i < j < |l| ==> !Like(l[i], l[j])
  }

  /** The simplified form: no zero scale and no like pair. */
  predicate Simplified(l: seq<Term>) {
    NoZeroScale(l) && NoLikePair(l)
  }

  /** The total scale the terms of `l` with key `(d, n)` carry. */
  function ScaleOf(l: seq<Term>, d: real, n: nat): real
    decreases |l|
  {
    if l == [] then 0.0
    else (if KeyIs(l[0], d, n) then l[0].scale else 0.0) + ScaleOf(l[1..], d, n)
  }

  /** Adds `t` into the first like term of `acc`, or appends it when there
      is none. */
  function Merge(acc: seq<Term>, t: Term): seq<Term>
    decreases |acc|
  {
    if acc == [] then [t]
    else if Like(acc[0], t) then [AddTerms(acc[0], t).value] + acc[1..]
    else [acc[0]] + Merge(acc[1..], t)
  }

  /** Merges the terms of `l`, from the left, into `acc`. */
  function GatherFrom(acc: seq<Term>, l: seq<Term>): seq<Term>
    decreases |l|
  {
    if l == [] then acc else GatherFrom(Merge(acc, l[0]), l[1..])
  }

  function DropZeros(l: seq<Term>): seq<Term>
    decreases |l|
  {
    if l == [] then []
    else if l[0].scale == 0.0 then DropZeros(l[1..])
    else [l[0]] + DropZeros(l[1..])
  }

  /** Merges like terms and removes zero terms. The result is in simplified
      form, no longer than the input, and each of its terms carries the
      total scale the input gives its key; every key whose total is non-zero
      survives. */
  function SimplifyList(l: seq<Term>): (r: seq<Term>)
    ensures Simplified(r)
    ensures |r| <= |l|
    ensures forall i :: 0 <= i < |r| ==> r[i].scale == ScaleOf(l, r[i].domainStart, r[i].exponent)
    ensures forall d, n :: ScaleOf(l, d, n) != 0.0 ==> HasKey(r, d, n)
  {
    var g := GatherFrom([], l);
    GatherFacts([], l);
    DropZerosFacts(g);
    var r := DropZeros(g);
    assert forall i :: 0 <= i < |r| ==> r[i].scale == ScaleOf(l, r[i].domainStart, r[i].exponent) by {
      forall i | 0 <= i < |r|
        ensures r[i].scale == ScaleOf(l, r[i].domainStart, r[i].exponent)
      {
        ScaleOfMember(r, i);
        ScaleOfGather([], l, r[i].domainStart, r[i].exponent);
        ScaleOfDropZeros(g, r[i].domainStart, r[i].exponent);
      }
    }
    assert forall d, n :: ScaleOf(l, d, n) != 0.0 ==> HasKey(r, d, n) by {
      forall d, n | ScaleOf(l, d, n) != 0.0
        ensures HasKey(r, d, n)
      {
        ScaleOfGather([], l, d, n);
        ScaleOfDropZeros(g, d, n);
        ScaleOfNonZeroHasKey(r, d, n);
      }
    }
    r
  }

  // ---------------------------------------------------------------------
  // Keys and like pairs of a list built with a leading term

  lemma HasKeyCons(a: Term, rest: seq<Term>, d: real, n: nat)
    ensures HasKey([a] + rest, d, n) <==> KeyIs(a, d, n) || HasKey(rest, d, n)
  {
    var l := [a] + rest;
    if HasKey(rest, d, n) {
      var i :| 0 <= i < |rest| && KeyIs(rest[i], d, n);
      assert l[i + 1] == rest[i];
    }
    if HasKey(l, d, n) {
      var i :| 0 <= i < |l| && KeyIs(l[i], d, n);
      if i > 0 {
        assert rest[i - 1] == l[i];
      }
    }
    assert l[0] == a;
  }

  lemma NoLikePairCons(a: Term, rest: seq<Term>)
    ensures NoLikePair([a] + rest) <==> !HasKey(rest, a.domainStart, a.exponent) && NoLikePair(rest)
  {
    var l := [a] + rest;
    if NoLikePair(l) {
      forall i | 0 <= i < |rest|
        ensures !KeyIs(rest[i], a.domainStart, a.exponent)
      {
        assert l[i + 1] == rest[i];
        assert !Like(l[0], l[i + 1]);
      }
      forall i, j | 0 <= i < j < |rest|
        ensures !Like(rest[i], rest[j])
      {
        assert l[i + 1] == rest[i] && l[j + 1] == rest[j];
      }
    }
    if !HasKey(rest, a.domainStart, a.exponent) && NoLikePair(rest) {
      forall i, j | 0 <= i < j < |l|
        ensures !Like(l[i], l[j])
      {
        assert l[j] == rest[j - 1];
        if i > 0 {
          assert l[i] == rest[i - 1];
        } else {
          assert !KeyIs(rest[j - 1], a.domainStart, a.exponent);
        }
      }
    }
  }

  // ---------------------------------------------------------------------
  // Merge

  lemma {:induction false} MergeHasKey(acc: seq<Term>, t: Term, d: real, n: nat)
    ensures HasKey(Merge(acc, t), d, n) <==> HasKey(acc, d, n) || KeyIs(t, d, n)
    decreases |acc|
  {
    if acc == [] {
      HasKeyCons(t, [], d, n);
      assert [t] + [] == [t];
    } else {
      assert acc == [acc[0]] + acc[1..];
      HasKeyCons(acc[0], acc[1..], d, n);
      if Like(acc[0], t) {
        HasKeyCons(AddTerms(acc[0], t).value, acc[1..], d, n);
      } else {
        MergeHasKey(acc[1..], t, d, n);
        HasKeyCons(acc[0], Merge(acc[1..], t), d, n);
      }
    }
  }

  lemma {:induction false} MergeNoLikePair(acc: seq<Term>, t: Term)
    requires NoLikePair(acc)
    ensures NoLikePair(Merge(acc, t))
    decreases |acc|
  {
    if acc != [] {
      assert acc == [acc[0]] + acc[1..];
      NoLikePairCons(acc[0], acc[1..]);
      if Like(acc[0], t) {
        NoLikePairCons(AddTerms(acc[0], t).value, acc[1..]);
      } else {
        MergeNoLikePair(acc[1..], t);
        MergeHasKey(acc[1..], t, acc[0].domainStart, acc[0].exponent);
        NoLikePairCons(acc[0], Merge(acc[1..], t));
      }
    }
  }

  lemma {:induction false} MergeValue(acc: seq<Term>, t: Term, x: real)
    ensures ListValue(Merge(acc, t), x) == ListValue(acc, x) + Evaluate(t, x)
    decreases |acc|
  {
    if acc == [] {
      assert [t][1..] == [];
    } else if Like(acc[0], t) {
      AddValue(acc[0], t, x);
      var m := Merge(acc, t);
      assert m[0] == AddTerms(acc[0], t).value && m[1..] == acc[1..];
    } else {
      MergeValue(acc[1..], t, x);
      var m := Merge(acc, t);
      assert m[0] == acc[0] && m[1..] == Merge(acc[1..], t);
    }
  }

  lemma {:induction false} ScaleOfMerge(acc: seq<Term>, t: Term, d: real, n: nat)
    ensures ScaleOf(Merge(acc, t), d, n) == ScaleOf(acc, d, n) + (if KeyIs(t, d, n) then t.scale else 0.0)
    decreases |acc|
  {
    if acc == [] {
      assert [t][1..] == [];
    } else if Like(acc[0], t) {
      var m := Merge(acc, t);
      assert m[0] == AddTerms(acc[0], t).value && m[1..] == acc[1..];
    } else {
      ScaleOfMerge(acc[1..], t, d, n);
      var m := Merge(acc, t);
      assert m[0] == acc[0] && m[1..] == Merge(acc[1..], t);
    }
  }

  lemma {:induction false} MergeLength(acc: seq<Term>, t: Term)
    ensures |Merge(acc, t)| <= |acc| + 1
    decreases |acc|
  {
    if acc != [] && !Like(acc[0], t) {
      MergeLength(acc[1..], t);
    }
  }

  /** A term with a new key is appended unchanged. */
  lemma {:induction false} MergeFresh(acc: seq<Term>, t: Term)
    requires !HasKey(acc, t.domainStart, t.exponent)
    ensures Merge(acc, t) == acc + [t]
    decreases |acc|
  {
    if acc != [] {
      assert acc == [acc[0]] + acc[1..];
      HasKeyCons(acc[0], acc[1..], t.domainStart, t.exponent);
      MergeFresh(acc[1..], t);
      assert [acc[0]] + (acc[1..] + [t]) == acc + [t];
    }
  }

  // ---------------------------------------------------------------------
  // GatherFrom

  lemma {:induction false} GatherFacts(acc: seq<Term>, l: seq<Term>)
    ensures NoLikePair(acc) ==> NoLikePair(GatherFrom(acc, l))
    ensures |GatherFrom(acc, l)| <= |acc| + |l|
    decreases |l|
  {
    if l != [] {
      if NoLikePair(acc) {
        MergeNoLikePair(acc, l[0]);
      }
      MergeLength(acc, l[0]);
      GatherFacts(Merge(acc, l[0]), l[1..]);
    }
  }

  lemma {:induction false} GatherValue(acc: seq<Term>, l: seq<Term>, x: real)
    ensures ListValue(GatherFrom(acc, l), x) == ListValue(acc, x) + ListValue(l, x)
    decreases |l|
  {
    if l != [] {
      MergeValue(acc, l[0], x);
      GatherValue(Merge(acc, l[0]), l[1..], x);
    }
  }

  lemma {:induction false} ScaleOfGather(acc: seq<Term>, l: seq<Term>, d: real, n: nat)
    ensures ScaleOf(GatherFrom(acc, l), d, n) == ScaleOf(acc, d, n) + ScaleOf(l, d, n)
    decreases |l|
  {
    if l != [] {
      ScaleOfMerge(acc, l[0], d, n);
      ScaleOfGather(Merge(acc, l[0]), l[1..], d, n);
    }
  }

  /** Gathering a list whose keys are all new appends it unchanged. */
  lemma {:induction false} GatherFresh(acc: seq<Term>, l: seq<Term>)
    requires NoLikePair(acc + l)
    ensures GatherFrom(acc, l) == acc + l
    decreases |l|
  {
    if l != [] {
      forall i | 0 <= i < |acc|
        ensures !KeyIs(acc[i], l[0].domainStart, l[0].exponent)
      {
        assert (acc + l)[i] == acc[i] && (acc + l)[|acc|] == l[0];
      }
      MergeFresh(acc, l[0]);
      assert (acc + [l[0]]) + l[1..] == acc + l;
      GatherFresh(acc + [l[0]], l[1..]);
    }
  }

  // ---------------------------------------------------------------------
  // DropZeros

  lemma {:induction false} DropZerosHasKey(l: seq<Term>, d: real, n: nat)
    ensures HasKey(DropZeros(l), d, n) ==> HasKey(l, d, n)
    decreases |l|
  {
    if l != [] {
      assert l == [l[0]] + l[1..];
      HasKeyCons(l[0], l[1..], d, n);
      DropZerosHasKey(l[1..], d, n);
      if l[0].scale != 0.0 {
        HasKeyCons(l[0], DropZeros(l[1..]), d, n);
      }
    }
  }

  lemma {:induction false} DropZerosFacts(l: seq<Term>)
    ensures NoZeroScale(DropZeros(l))
    ensures NoLikePair(l) ==> NoLikePair(DropZeros(l))
    ensures |DropZeros(l)| <= |l|
    ensures NoZeroScale(l) ==> DropZeros(l) == l
    decreases |l|
  {
    if l != [] {
      DropZerosFacts(l[1..]);
      assert l == [l[0]] + l[1..];
      NoLikePairCons(l[0], l[1..]);
      if l[0].scale != 0.0 {
        var r := DropZeros(l);
        assert r[0] == l[0] && r[1..] == DropZeros(l[1..]);
        if NoLikePair(l) {
          DropZerosHasKey(l[1..], l[0].domainStart, l[0].exponent);
          NoLikePairCons(l[0], DropZeros(l[1..]));
        }
      }
    }
  }

  lemma {:induction false} DropZerosValue(l: seq<Term>, x: real)
    ensures ListValue(DropZeros(l), x) == ListValue(l, x)
    decreases |l|
  {
    if l != [] {
      DropZerosValue(l[1..], x);
      if l[0].scale != 0.0 {
        var r := DropZeros(l);
        assert r[0] == l[0] && r[1..] == DropZeros(l[1..]);
      }
    }
  }

  lemma {:induction false} ScaleOfDropZeros(l: seq<Term>, d: real, n: nat)
    ensures ScaleOf(DropZeros(l), d, n) == ScaleOf(l, d, n)
    decreases |l|
  {
    if l != [] {
      ScaleOfDropZeros(l[1..], d, n);
      if l[0].scale != 0.0 {
        var r := DropZeros(l);
        assert r[0] == l[0] && r[1..] == DropZeros(l[1..]);
      }
    }
  }

  // ---------------------------------------------------------------------
  // Scales of a list without like pairs

  lemma {:induction false} ScaleOfAbsent(l: seq<Term>, d: real, n: nat)
    requires !HasKey(l, d, n)
    ensures ScaleOf(l, d, n) == 0.0
    decreases |l|
  {
    if l != [] {
      assert l == [l[0]] + l[1..];
      HasKeyCons(l[0], l[1..], d, n);
      ScaleOfAbsent(l[1..], d, n);
    }
  }

  lemma {:induction false} ScaleOfNonZeroHasKey(l: seq<Term>, d: real, n: nat)
    requires ScaleOf(l, d, n) != 0.0
    ensures HasKey(l, d, n)
  {
    if !HasKey(l, d, n) {
      ScaleOfAbsent(l, d, n);
    }
  }

  /** In a list without like pairs, each term carries its key's total. */
  lemma {:induction false} ScaleOfMember(l: seq<Term>, i: nat)
    requires NoLikePair(l) && i < |l|
    ensures ScaleOf(l, l[i].domainStart, l[i].exponent) == l[i].scale
    decreases i
  {
    assert l == [l[0]] + l[1..];
    NoLikePairCons(l[0], l[1..]);
    if i == 0 {
      ScaleOfAbsent(l[1..], l[0].domainStart, l[0].exponent);
    } else {
      assert !Like(l[0], l[i]);
      assert l[1..][i - 1] == l[i];
      ScaleOfMember(l[1..], i - 1);
    }
  }

  // ---------------------------------------------------------------------
  // Properties of SimplifyList

  /** Simplification leaves the value of the list unchanged at every
      position. */
  lemma SimplifyValue(l: seq<Term>, x: real)
    ensures ListValue(SimplifyList(l), x) == ListValue(l, x)
  {
    GatherValue([], l, x);
    DropZerosValue(GatherFrom([], l), x);
  }

  /** A list that is already simplified is its own simplification. */
  lemma SimplifyFixesSimplified(l: seq<Term>)
    requires Simplified(l)
    ensures SimplifyList(l) == l
  {
    assert [] + l == l;
    GatherFresh([], l);
    DropZerosFacts(l);
  }

  lemma SimplifyIdempotent(l: seq<Term>)
    ensures SimplifyList(SimplifyList(l)) == SimplifyList(l)
  {
    SimplifyFixesSimplified(SimplifyList(l));
  }

  /** `<x-3>^2 + 2<x-2> + 0<x-2>^4 - 4.5<x-2> + <x-4>^2` simplifies to
      `<x-3>^2 - 2.5<x-2> + <x-4>^2`. */
  lemma SimplifyExample()
    ensures SimplifyList([Term(3.0, 1.0, 2), Term(2.0, 2.0, 1), Term(2.0, 0.0, 4), Term(2.0, -4.5, 1), Term(4.0, 1.0, 2)])
         == [Term(3.0, 1.0, 2), Term(2.0, -2.5, 1), Term(4.0, 1.0, 2)]
  {
    var l := [Term(3.0, 1.0, 2), Term(2.0, 2.0, 1), Term(2.0, 0.0, 4), Term(2.0, -4.5, 1), Term(4.0, 1.0, 2)];
    var g1 := Merge([], l[0]);
    assert g1 == [l[0]];
    var g2 := Merge(g1, l[1]);
    MergeFresh(g1, l[1]);
    assert g2 == [l[0], l[1]];
    var g3 := Merge(g2, l[2]);
    MergeFresh(g2, l[2]);
    assert g3 == [l[0], l[1], l[2]];
    var g4 := Merge(g3, l[3]);
    assert g3[1..] == [l[1], l[2]];
    assert Merge(g3[1..], l[3]) == [Term(2.0, -2.5, 1), l[2]];
    assert g4 == [l[0], Term(2.0, -2.5, 1), l[2]];
    var g5 := Merge(g4, l[4]);
    MergeFresh(g4, l[4]);
    assert g5 == [l[0], Term(2.0, -2.5, 1), l[2], l[4]];
    assert l[1..][1..][1..][1..][1..] == [];
    assert GatherFrom([], l) == g5;
    assert g5[1..][1..][1..][1..] == [];
    assert DropZeros(g5[1..][1..][1..]) == [l[4]];
    assert DropZeros(g5[1..][1..]) == [l[4]];
    assert DropZeros(g5) == [l[0], Term(2.0, -2.5, 1), l[4]];
  }
}
