/** An applied load: a position, a load kind and a magnitude (upwards
    positive), all fixed at construction. */
module Forces {
  import opened Common

  datatype ForceKind = Point | Moment | Uniform | Triangle

  const InvalidForceType := "Invalid forceType: must be POINT, MOMENT, UNIFORM, or TRIANGLE"

  function ForceKindName(k: ForceKind): string {
    match k
    case Point => "POINT"
    case Moment => "MOMENT"
    case Uniform => "UNIFORM"
    case Triangle => "TRIANGLE"
  }

  /** Reads a kind argument: only the four exact names are kinds. */
  function ParseForceKind(a: Arg): (r: Option<ForceKind>)
    ensures r.Some? ==> a == Str(ForceKindName(r.value))
    ensures r.None? ==> forall k :: a != Str(ForceKindName(k))
  {
    if a == Str("POINT") then Some(Point)
    else if a == Str("MOMENT") then Some(Moment)
    else if a == Str("UNIFORM") then Some(Uniform)
    else if a == Str("TRIANGLE") then Some(Triangle)
    else None
  }

  lemma ForceKindRoundTrip(k: ForceKind)
    ensures ParseForceKind(Str(ForceKindName(k))) == Some(k)
  {
  }

  /** No setters: every field keeps its constructor value. */
  datatype Force = Force(position: real, kind: ForceKind, load: real)

  /** Builds a load from (position, forceType, load), rejecting any kind
      argument other than the four names. */
  function NewForce(position: real, forceType: Arg, load: real): (r: Result<Force>)
    ensures r.Failure? <==> forceType !in {Str("POINT"), Str("MOMENT"), Str("UNIFORM"), Str("TRIANGLE")}
    ensures r.Failure? ==> r.message == InvalidForceType
    ensures r.Success? ==> r.value.position == position && r.value.load == load
    ensures r.Success? ==> Str(ForceKindName(r.value.kind)) == forceType
  {
    match ParseForceKind(forceType)
    case None => Failure(InvalidForceType)
    case Some(k) => Success(Force(position, k, load))
  }

  /** A number in the kind position is never a kind, so a call that passes
      the load second, as in `new Force(3, 1)` or `new Force(10.4, -42)`, is
      rejected. */
  lemma NumericKindRejected(position: real, n: real, load: real)
    ensures NewForce(position, Num(n), load) == Failure(InvalidForceType)
  {
  }

  /** With the kind in its place, the unit point load at 3 is built with
      the position and magnitude it was given. */
  lemma PointLoadAccepted()
    ensures NewForce(3.0, Str("POINT"), 1.0) == Success(Force(3.0, Point, 1.0))
    ensures NewForce(3.0, Str("POINT"), 1.0).value.kind == Point
  {
  }

  /** With the kind in its place, the downward point load of the retrieval
      test keeps the position 10.4 and the load -42 it was given. */
  lemma DownwardPointLoadAccepted()
    ensures NewForce(10.4, Str("POINT"), -42.0).Success?
    ensures NewForce(10.4, Str("POINT"), -42.0).value.position == 10.4
    ensures NewForce(10.4, Str("POINT"), -42.0).value.load == -42.0
  {
  }
}
