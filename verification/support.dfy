/** A beam support: a position, a kind, and reaction force and moment
    fields that start unset and are written by the solver. */
module Supports {
  import opened Common

  datatype SupportKind = Pin | Roller | Fixed

  const InvalidSupportType := "Invalid supportType: must be PIN, ROLLER, or FIXED"

  /** The string that names a kind. */
  function SupportKindName(k: SupportKind): string {
    match k
    case Pin => "PIN"
    case Roller => "ROLLER"
    case Fixed => "FIXED"
  }

  /** Reads a kind argument: only the three exact names are kinds. */
  function ParseSupportKind(a: Arg): (r: Option<SupportKind>)
    ensures r.Some? ==> a == Str(SupportKindName(r.value))
    ensures r.None? ==> forall k :: a != Str(SupportKindName(k))
  {
    if a == Str("PIN") then Some(Pin)
    else if a == Str("ROLLER") then Some(Roller)
    else if a == Str("FIXED") then Some(Fixed)
    else None
  }

  /** Naming a kind and reading the name back gives the kind. */
  lemma SupportKindRoundTrip(k: SupportKind)
    ensures ParseSupportKind(Str(SupportKindName(k))) == Some(k)
  {
  }

  /** Position and kind have no setters; only the reaction fields change. */
  datatype Support = Support(position: real, kind: SupportKind,
                             reactionForce: Option<real>, reactionMoment: Option<real>)

  /** Builds a support, rejecting any kind argument other than the three
      names; a new support has no reactions yet. */
  function NewSupport(position: real, supportType: Arg): (r: Result<Support>)
    ensures r.Failure? <==> supportType !in {Str("PIN"), Str("ROLLER"), Str("FIXED")}
    ensures r.Failure? ==> r.message == InvalidSupportType
    ensures r.Success? ==> r.value.position == position
    ensures r.Success? ==> Str(SupportKindName(r.value.kind)) == supportType
    ensures r.Success? ==> r.value.reactionForce.None? && r.value.reactionMoment.None?
  {
    match ParseSupportKind(supportType)
    case None => Failure(InvalidSupportType)
    case Some(k) => Success(Support(position, k, None, None))
  }

  function SetReactionForce(s: Support, verticalForce: real): (r: Support)
    ensures r.reactionForce == Some(verticalForce)
    ensures r.position == s.position && r.kind == s.kind && r.reactionMoment == s.reactionMoment
  {
    s.(reactionForce := Some(verticalForce))
  }

  function SetReactionMoment(s: Support, newMoment: real): (r: Support)
    ensures r.reactionMoment == Some(newMoment)
    ensures r.position == s.position && r.kind == s.kind && r.reactionForce == s.reactionForce
  {
    s.(reactionMoment := Some(newMoment))
  }

  /** Writing the reactions, in either order, never moves a support or
      changes its kind, and the two writes do not interfere. */
  lemma ReactionWritesCommute(s: Support, f: real, m: real)
    ensures SetReactionMoment(SetReactionForce(s, f), m) == SetReactionForce(SetReactionMoment(s, m), f)
    ensures SetReactionMoment(SetReactionForce(s, f), m) == Support(s.position, s.kind, Some(f), Some(m))
  {
  }

  /** The support of the tests: a roller at 10.4, then reactions -20.4
      and 2.4. */
  lemma SupportExample()
    ensures NewSupport(10.4, Str("ROLLER")) == Success(Support(10.4, Roller, None, None))
    ensures NewSupport(10.4, Str("OTHER")) == Failure(InvalidSupportType)
    ensures SetReactionMoment(SetReactionForce(NewSupport(10.4, Str("ROLLER")).value, -20.4), 2.4)
         == Support(10.4, Roller, Some(-20.4), Some(2.4))
  {
  }
}
