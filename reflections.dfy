/** Material_LeBail.getHKLs: enumerate the index box, drop what centering,
    glides and screws forbid, drop the direct beam and everything finer
    than dmin, keep one triple per orbit and sort by decreasing d-spacing.
    The reciprocal length |g| is an input function `len` (a square root, so
    never negative); the box half-widths ih, ik, il are inputs. */
module Reflections {
  import opened Wrappers
  import opened Crystal
  import opened Absences
  import opened Star
  import opened Choose
  import opened Sorting

  // ---------------------------------------------------------------------
  // The candidate box
  // ---------------------------------------------------------------------

  /** `np.arange(hi, lo, -1)`: hi, hi-1, ..., lo+1. */
  function Descending(hi: int, lo: int): (r: seq<int>)
    ensures |r| == if hi <= lo then 0 else hi - lo
    ensures forall i :: 0 <= i < |r| ==> r[i] == hi - i
    decreases hi - lo
  {
    if hi <= lo then [] else [hi] + Descending(hi - 1, lo)
  }

  function RowsL(h: int, k: int, ls: seq<int>): (r: seq<HKL>)
    ensures |r| == |ls|
    ensures forall i :: 0 <= i < |r| ==> r[i] == HKL(h, k, ls[i])
  {
    seq(|ls|, i requires 0 <= i < |ls| => HKL(h, k, ls[i]))
  }

  function RowsKL(h: int, ks: seq<int>, ls: seq<int>): (r: seq<HKL>)
    ensures |r| == |ks| * |ls|
  {
    if ks == [] then [] else RowsL(h, ks[0], ls) + RowsKL(h, ks[1..], ls)
  }

  function RowsHKL(hs: seq<int>, ks: seq<int>, ls: seq<int>): (r: seq<HKL>)
    ensures |r| == |hs| * |ks| * |ls|
  {
    if hs == [] then [] else RowsKL(hs[0], ks, ls) + RowsHKL(hs[1..], ks, ls)
  }

  /** The list comprehension of getHKLs: h from ih down to -ih, k from ik
      down to -ik, l from il down to 0, l varying fastest. */
  function Candidates(ih: int, ik: int, il: int): seq<HKL> {
    RowsHKL(Descending(ih, -ih - 1), Descending(ik, -ik - 1), Descending(il, -1))
  }

  predicate InBox(g: HKL, ih: int, ik: int, il: int) {
    -ih <= g.h <= ih && -ik <= g.k <= ik && 0 <= g.l <= il
  }

  lemma {:induction false} RowsKLMembers(h: int, ks: seq<int>, ls: seq<int>)
    ensures forall g :: g in RowsKL(h, ks, ls) <==> g.h == h && g.k in ks && g.l in ls
  {
    if ks != [] {
      RowsKLMembers(h, ks[1..], ls);
      assert forall g :: g in RowsL(h, ks[0], ls) <==> g.h == h && g.k == ks[0] && g.l in ls by {
        forall g: HKL | g.h == h && g.k == ks[0] && g.l in ls ensures g in RowsL(h, ks[0], ls) {
          var i :| 0 <= i < |ls| && ls[i] == g.l;
          assert RowsL(h, ks[0], ls)[i] == g;
        }
      }
      assert forall x :: x in ks <==> x == ks[0] || x in ks[1..] by {
        assert ks == [ks[0]] + ks[1..];
      }
    }
  }

  lemma {:induction false} RowsHKLMembers(hs: seq<int>, ks: seq<int>, ls: seq<int>)
    ensures forall g :: g in RowsHKL(hs, ks, ls) <==> g.h in hs && g.k in ks && g.l in ls
  {
    if hs != [] {
      RowsHKLMembers(hs[1..], ks, ls);
      RowsKLMembers(hs[0], ks, ls);
      assert forall x :: x in hs <==> x == hs[0] || x in hs[1..] by {
        assert hs == [hs[0]] + hs[1..];
      }
    }
  }

  lemma DescendingMembers(hi: int, lo: int)
    ensures forall x :: x in Descending(hi, lo) <==> lo < x <= hi
  {
    forall x | lo < x <= hi ensures x in Descending(hi, lo) {
      assert Descending(hi, lo)[hi - x] == x;
    }
  }

  /** The box holds exactly the triples with |h| <= ih, |k| <= ik and
      0 <= l <= il, and has (2ih+1)(2ik+1)(il+1) rows. */
  lemma CandidatesBox(ih: int, ik: int, il: int)
    requires ih >= 0 && ik >= 0 && il >= 0
    ensures forall g :: g in Candidates(ih, ik, il) <==> InBox(g, ih, ik, il)
    ensures |Candidates(ih, ik, il)| == (2 * ih + 1) * (2 * ik + 1) * (il + 1)
  {
    DescendingMembers(ih, -ih - 1);
    DescendingMembers(ik, -ik - 1);
    DescendingMembers(il, -1);
    RowsHKLMembers(Descending(ih, -ih - 1), Descending(ik, -ik - 1), Descending(il, -1));
  }

  // ---------------------------------------------------------------------
  // The resolution filter and the pipeline
  // ---------------------------------------------------------------------

  /** The direct beam is skipped (sum of absolute indices zero); otherwise
      the row stays when its d-spacing 1/|g| reaches dmin. A zero length
      divides to infinity in numpy, which passes. */
  predicate Resolved(g: HKL, len: HKL -> real, dmin: real) {
    Abs(g.h) + Abs(g.k) + Abs(g.l) != 0 &&
    (len(g) == 0.0 || 1.0 / len(g) >= dmin)
  }

  /** What getHKLs computes, or the error it raises: an empty resolution
      list becomes a one-dimensional array, which ChooseSymmetric cannot
      index by rows. */
  function ReflectionList(sg: SpaceGroupInfo, pg: PointGroup, ih: int, ik: int, il: int,
                          dmin: real, len: HKL -> real): Result<seq<HKL>>
  {
    if !AllowedKnown(sg) then Failure("reflection conditions not handled")
    else
      var allowed := Keep(Candidates(ih, ik, il), g => Allowed(sg, g));
      var resolved := Keep(allowed, g => Resolved(g, len, dmin));
      if resolved == [] then Failure("too many indices for array")
      else Success(SortHKL(Chosen(resolved, RecipOps(pg, true)), len))
  }

  method GetHKLs(sg: SpaceGroupInfo, pg: PointGroup, ih: int, ik: int, il: int,
                 dmin: real, len: HKL -> real) returns (r: Result<seq<HKL>>)
    ensures r.Failure? <==> ReflectionList(sg, pg, ih, ik, il, dmin, len).Failure?
    ensures r.Success? ==> r == ReflectionList(sg, pg, ih, ik, il, dmin, len)
  {
    var hkllist := Candidates(ih, ik, il);
    var allowed := AllowedHKLs(sg, hkllist);
    if allowed.Failure? {
      return Failure(allowed.error);
    }
    var hklDsp := ResolvedRowsOf(allowed.value, len, dmin);
    if hklDsp == [] {
      return Failure("too many indices for array");
    }
    var hkl := ChooseSymmetric(hklDsp, pg, true);
    r := Success(SortHKL(hkl, len));
  }

  /** The loop of getHKLs that keeps the rows off the origin whose
      d-spacing reaches dmin. */
  method ResolvedRowsOf(hklAllowed: seq<HKL>, len: HKL -> real, dmin: real) returns (hklDsp: seq<HKL>)
    ensures hklDsp == Keep(hklAllowed, g => Resolved(g, len, dmin))
  {
    hklDsp := [];
    var i := 0;
    while i < |hklAllowed|
      invariant 0 <= i <= |hklAllowed|
      invariant hklDsp == Keep(hklAllowed[..i], g => Resolved(g, len, dmin))
    {
      var g := hklAllowed[i];
      KeepSnoc(hklAllowed[..i], g, g => Resolved(g, len, dmin));
      assert hklAllowed[..i + 1] == hklAllowed[..i] + [g];
      if Abs(g.h) + Abs(g.k) + Abs(g.l) != 0 {
        if len(g) == 0.0 || 1.0 / len(g) >= dmin {
          hklDsp := hklDsp + [g];
        }
      }
      i := i + 1;
    }
    assert hklAllowed[..i] == hklAllowed;
  }

  // ---------------------------------------------------------------------
  // What the reflection list guarantees
  // ---------------------------------------------------------------------

  /** The point-group operators preserve reciprocal length. */
  ghost predicate LengthInvariant(ops: seq<Matrix3>, len: HKL -> real) {
    forall t, x :: 0 <= t < |ops| ==> len(Apply(ops[t], x)) == len(x)
  }

  /** A reciprocal-lattice norm: zero only at the origin. */
  ghost predicate Norm(len: HKL -> real) {
    len(Origin) == 0.0 && forall g :: g != Origin ==> len(g) > 0.0
  }

  /** Every row of the resolution list is off the origin and resolved. */
  lemma ResolvedRows(allowed: seq<HKL>, len: HKL -> real, dmin: real)
    requires Norm(len)
    ensures forall g :: g in Keep(allowed, g => Resolved(g, len, dmin)) ==>
              g != Origin && len(g) > 0.0 && 1.0 / len(g) >= dmin
  {
  }

  /** getHKLs never returns the direct beam, and every reflection it returns
      has d-spacing 1/|g| of at least dmin. */
  lemma ReflectionsResolved(sg: SpaceGroupInfo, pg: PointGroup, ih: int, ik: int, il: int,
                            dmin: real, len: HKL -> real)
    requires Norm(len) && LengthInvariant(RecipOps(pg, true), len)
    requires ReflectionList(sg, pg, ih, ik, il, dmin, len).Success?
    ensures forall g :: g in ReflectionList(sg, pg, ih, ik, il, dmin, len).value ==>
              g != Origin && 1.0 / len(g) >= dmin
  {
    var ops := RecipOps(pg, true);
    var allowed := Keep(Candidates(ih, ik, il), g => Allowed(sg, g));
    var resolved := Keep(allowed, g => Resolved(g, len, dmin));
    var kept := Masked(resolved, FinalMask(resolved, ops));
    var chosen := Chosen(resolved, ops);
    ResolvedRows(allowed, len, dmin);
    MaskedMembers(resolved, FinalMask(resolved, ops));
    forall g | g in SortHKL(chosen, len) ensures g != Origin && 1.0 / len(g) >= dmin {
      assert g in multiset(chosen);
      var t :| 0 <= t < |chosen| && chosen[t] == g;
      var x := kept[t];
      assert x in kept;
      assert g == Representative(x, ops);
      RepresentativeIsMax(x, ops);
      StarPreserves(x, ops, len);
    }
  }

  /** A reflection list, when produced, is never empty. */
  lemma ReflectionsNonEmpty(sg: SpaceGroupInfo, pg: PointGroup, ih: int, ik: int, il: int,
                            dmin: real, len: HKL -> real)
    requires ReflectionList(sg, pg, ih, ik, il, dmin, len).Success?
    ensures |ReflectionList(sg, pg, ih, ik, il, dmin, len).value| > 0
  {
    var allowed := Keep(Candidates(ih, ik, il), g => Allowed(sg, g));
    var resolved := Keep(allowed, g => Resolved(g, len, dmin));
    ChosenNonEmpty(resolved, RecipOps(pg, true));
    var chosen := Chosen(resolved, RecipOps(pg, true));
    assert |multiset(SortHKL(chosen, len))| == |multiset(chosen)|;
  }
}
