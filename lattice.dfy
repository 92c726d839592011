/** `_rqpDict` and Material_LeBail.Required_lp: for each crystal family,
    which of (a, b, c, alpha, beta, gamma) are refined independently, and
    how the short parameter list expands back to all six (angles in
    degrees). */
module LatticeParams {
  import opened Wrappers
  import opened Crystal

  /** Positions in (a, b, c, alpha, beta, gamma) that are free parameters. */
  function IndependentIndices(lt: LatticeType): (idx: seq<nat>)
    ensures forall i :: 0 <= i < |idx| ==> idx[i] < 6
    ensures 1 <= |idx| <= 6
  {
    match lt
    case Triclinic => [0, 1, 2, 3, 4, 5]
    case Monoclinic => [0, 1, 2, 4]
    case Orthorhombic => [0, 1, 2]
    case Tetragonal => [0, 2]
    case Trigonal => [0, 2]
    case Hexagonal => [0, 2]
    case Cubic => [0]
  }

  /** The expansion lambda of `_rqpDict`; reading past the end of p raises
      IndexError. The triclinic entry returns p unchanged, whatever its length. */
  function RequiredLp(lt: LatticeType, p: seq<real>): (r: Result<seq<real>>)
    ensures lt == Triclinic ==> r == Success(p)
    ensures lt != Triclinic ==> (r.Failure? <==> |p| < |IndependentIndices(lt)|)
    ensures lt != Triclinic && r.Success? ==> |r.value| == 6
  {
    match lt
    case Triclinic => Success(p)
    case Monoclinic =>
      if |p| < 4 then Failure("tuple index out of range") else Success([p[0], p[1], p[2], 90.0, p[3], 90.0])
    case Orthorhombic =>
      if |p| < 3 then Failure("tuple index out of range") else Success([p[0], p[1], p[2], 90.0, 90.0, 90.0])
    case Tetragonal =>
      if |p| < 2 then Failure("tuple index out of range") else Success([p[0], p[0], p[1], 90.0, 90.0, 90.0])
    case Trigonal =>
      if |p| < 2 then Failure("tuple index out of range") else Success([p[0], p[0], p[1], 90.0, 90.0, 120.0])
    case Hexagonal =>
      if |p| < 2 then Failure("tuple index out of range") else Success([p[0], p[0], p[1], 90.0, 90.0, 120.0])
    case Cubic =>
      if |p| < 1 then Failure("tuple index out of range") else Success([p[0], p[0], p[0], 90.0, 90.0, 90.0])
  }

  /** A full parameter set obeys the family's constraints (equal edges and
      fixed angles). */
  predicate Conforms(lt: LatticeType, lp: seq<real>) {
    |lp| == 6 &&
    match lt
    case Triclinic => true
    case Monoclinic => lp[3] == 90.0 && lp[5] == 90.0
    case Orthorhombic => lp[3] == 90.0 && lp[4] == 90.0 && lp[5] == 90.0
    case Tetragonal => lp[0] == lp[1] && lp[3] == 90.0 && lp[4] == 90.0 && lp[5] == 90.0
    case Trigonal => lp[0] == lp[1] && lp[3] == 90.0 && lp[4] == 90.0 && lp[5] == 120.0
    case Hexagonal => lp[0] == lp[1] && lp[3] == 90.0 && lp[4] == 90.0 && lp[5] == 120.0
    case Cubic => lp[0] == lp[1] && lp[1] == lp[2] && lp[3] == 90.0 && lp[4] == 90.0 && lp[5] == 90.0
  }

  /** The free parameters of a full set, in `_rqpDict` order. */
  function Select(lp: seq<real>, idx: seq<nat>): (r: seq<real>)
    requires forall i :: 0 <= i < |idx| ==> idx[i] < |lp|
    ensures |r| == |idx|
    ensures forall i :: 0 <= i < |idx| ==> r[i] == lp[idx[i]]
  {
    seq(|idx|, i requires 0 <= i < |idx| => lp[idx[i]])
  }

  /** Extracting the free parameters of a conforming set and expanding them
      gives the set back. */
  lemma ExpandSelected(lt: LatticeType, lp: seq<real>)
    requires Conforms(lt, lp)
    ensures RequiredLp(lt, Select(lp, IndependentIndices(lt))) == Success(lp)
  {
    var p := Select(lp, IndependentIndices(lt));
    assert RequiredLp(lt, p).value == lp;
  }

  /** Conversely, an expansion always conforms to its family, and its free
      parameters are the ones it was given. */
  lemma SelectExpanded(lt: LatticeType, p: seq<real>)
    requires lt != Triclinic || |p| == 6
    requires RequiredLp(lt, p).Success?
    ensures Conforms(lt, RequiredLp(lt, p).value)
    ensures Select(RequiredLp(lt, p).value, IndependentIndices(lt)) == p[..|IndependentIndices(lt)|]
  {
  }
}
