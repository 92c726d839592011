/** The star (symmetry orbit) of a triple under a point group's operators,
    grown row by row as Material_LeBail.CalcStar does. The operators are
    given integer matrices; two rows count as the same when they are equal
    (the code's test, a summed absolute difference below 1e-4, means
    equality on integer triples). */
module Star {
  import opened Wrappers
  import opened Crystal

  /** The four operator sets a phase carries: direct and reciprocal space,
      each with and without the Laue (inversion) extension. */
  datatype PointGroup = PointGroup(
    direct: seq<Matrix3>,
    directLaue: seq<Matrix3>,
    recip: seq<Matrix3>,
    recipLaue: seq<Matrix3>)

  /** Operator selection: 'd' or 'r', with or without Laue; any other space
      label raises. */
  function Operators(pg: PointGroup, space: string, applyLaue: bool): (r: Result<seq<Matrix3>>)
    ensures r.Failure? <==> space != "d" && space != "r"
    ensures space == "r" ==> r == Success(if applyLaue then pg.recipLaue else pg.recip)
    ensures space == "d" ==> r == Success(if applyLaue then pg.directLaue else pg.direct)
  {
    if space == "d" then Success(if applyLaue then pg.directLaue else pg.direct)
    else if space == "r" then Success(if applyLaue then pg.recipLaue else pg.recip)
    else Failure("CalcStar: unrecognized space.")
  }

  /** The rows after the first n operators have been tried: v, then each new
      image in operator order, skipping images already present. */
  function StarAfter(v: HKL, ops: seq<Matrix3>, n: nat): (r: seq<HKL>)
    requires n <= |ops|
    ensures 1 <= |r| <= n + 1
    ensures r[0] == v
    ensures NoDuplicates(r)
    ensures forall x :: x in r <==> x == v || exists t :: 0 <= t < n && x == Apply(ops[t], v)
  {
    if n == 0 then [v]
    else
      var prev := StarAfter(v, ops, n - 1);
      var vp := Apply(ops[n - 1], v);
      if vp in prev then prev else prev + [vp]
  }

  /** The star of v under the whole operator list. */
  function StarOf(v: HKL, ops: seq<Matrix3>): seq<HKL> {
    StarAfter(v, ops, |ops|)
  }

  /** CalcStar: start from v and append every operator image not already in
      the list. */
  method CalcStar(v: HKL, pg: PointGroup, space: string, applyLaue: bool) returns (r: Result<seq<HKL>>)
    ensures r.Failure? <==> space != "d" && space != "r"
    ensures r.Success? ==> r.value == StarOf(v, Operators(pg, space, applyLaue).value)
  {
    var sym: seq<Matrix3>;
    if space == "d" {
      sym := if applyLaue then pg.directLaue else pg.direct;
    } else if space == "r" {
      sym := if applyLaue then pg.recipLaue else pg.recip;
    } else {
      return Failure("CalcStar: unrecognized space.");
    }
    var vsym := [v];
    var i := 0;
    while i < |sym|
      invariant 0 <= i <= |sym|
      invariant vsym == StarAfter(v, sym, i)
    {
      var vp := Apply(sym[i], v);
      var isnew := true;
      var j := 0;
      while j < |vsym|
        invariant 0 <= j <= |vsym|
        invariant forall m :: 0 <= m < j ==> vsym[m] != vp
      {
        if vsym[j] == vp {
          isnew := false;
          break;
        }
        j := j + 1;
      }
      if isnew {
        vsym := vsym + [vp];
      }
      i := i + 1;
    }
    r := Success(vsym);
  }

  /** inv[t] is the index of the inverse of operator t (a point group has one). */
  ghost predicate InverseTable(ops: seq<Matrix3>, inv: seq<nat>) {
    |inv| == |ops| &&
    forall t {:trigger inv[t]} :: 0 <= t < |ops| ==> inv[t] < |ops| && Compose(ops[inv[t]], ops[t]) == Identity
  }

  /** prod[s][t] is the index of the product of operators s and t: the
      operators are closed under composition, with this Cayley table. */
  ghost predicate ProductTable(ops: seq<Matrix3>, prod: seq<seq<nat>>) {
    |prod| == |ops| &&
    (forall s {:trigger prod[s]} :: 0 <= s < |ops| ==> |prod[s]| == |ops|) &&
    forall s, t {:trigger prod[s][t]} :: 0 <= s < |ops| && 0 <= t < |ops| ==>
      prod[s][t] < |ops| && ops[prod[s][t]] == Compose(ops[s], ops[t])
  }

  /** Lying in a star is symmetric when every operator has an inverse among
      them: x in star(v) implies v in star(x). */
  lemma {:induction false} StarSymmetric(v: HKL, x: HKL, ops: seq<Matrix3>, inv: seq<nat>)
    requires InverseTable(ops, inv)
    requires x in StarOf(v, ops)
    ensures v in StarOf(x, ops)
  {
    if x != v {
      var t :| 0 <= t < |ops| && x == Apply(ops[t], v);
      var u := inv[t];
      ApplyCompose(ops[u], ops[t], v);
      ApplyIdentity(v);
      assert Apply(ops[u], x) == v;
    }
  }

  /** The star of a star member lies inside the original star when the
      operators are closed under products. */
  lemma {:induction false} StarWithin(v: HKL, x: HKL, ops: seq<Matrix3>, prod: seq<seq<nat>>)
    requires ProductTable(ops, prod)
    requires x in StarOf(v, ops)
    ensures forall y :: y in StarOf(x, ops) ==> y in StarOf(v, ops)
  {
    forall y | y in StarOf(x, ops) ensures y in StarOf(v, ops) {
      if y != x && x != v {
        var s :| 0 <= s < |ops| && y == Apply(ops[s], x);
        var t :| 0 <= t < |ops| && x == Apply(ops[t], v);
        var u := prod[s][t];
        ApplyCompose(ops[s], ops[t], v);
        assert y == Apply(ops[u], v);
      }
    }
  }

  /** For a group of operators the stars are the orbits: two triples lie in
      each other's star or in neither, and then their stars hold the same rows. */
  lemma {:induction false} StarsAreOrbits(v: HKL, x: HKL, ops: seq<Matrix3>, inv: seq<nat>, prod: seq<seq<nat>>)
    requires InverseTable(ops, inv) && ProductTable(ops, prod)
    requires x in StarOf(v, ops)
    ensures v in StarOf(x, ops)
    ensures forall y :: y in StarOf(x, ops) <==> y in StarOf(v, ops)
  {
    StarSymmetric(v, x, ops, inv);
    StarWithin(v, x, ops, prod);
    StarWithin(x, v, ops, prod);
  }

  /** A quantity the operators preserve (the reciprocal length, for a point
      group of the lattice) is the same on every row of the star. */
  lemma StarPreserves(v: HKL, ops: seq<Matrix3>, f: HKL -> real)
    requires forall t, x :: 0 <= t < |ops| ==> f(Apply(ops[t], x)) == f(x)
    ensures forall x :: x in StarOf(v, ops) ==> f(x) == f(v)
  {
  }
}
