/** Material_LeBail.ChooseSymmetric: keep one triple per symmetry orbit. A
    boolean mask over the input rows starts all true; each row still set
    clears every row equal to another member of its star; the survivors are
    then replaced by the star member with the largest component sum. */
module Choose {
  import opened Wrappers
  import opened Crystal
  import opened Star

  /** The reciprocal-space operators ChooseSymmetric asks CalcStar for. */
  function RecipOps(pg: PointGroup, inversion: bool): seq<Matrix3> {
    if inversion then pg.recipLaue else pg.recip
  }

  /** The star without its first row (v itself). */
  function Tail(v: HKL, ops: seq<Matrix3>): seq<HKL> {
    StarOf(v, ops)[1..]
  }

  /** Clear every row equal to one of `rows`. */
  function Cleared(mask: seq<bool>, hkls: seq<HKL>, rows: seq<HKL>): (m: seq<bool>)
    requires |mask| == |hkls|
    ensures |m| == |mask|
  {
    seq(|mask|, j requires 0 <= j < |mask| => mask[j] && hkls[j] !in rows)
  }

  /** The mask once the first n rows have been visited. */
  function MaskAfter(hkls: seq<HKL>, ops: seq<Matrix3>, n: nat): (m: seq<bool>)
    requires n <= |hkls|
    ensures |m| == |hkls|
  {
    if n == 0 then seq(|hkls|, _ => true)
    else
      var prev := MaskAfter(hkls, ops, n - 1);
      if prev[n - 1] then Cleared(prev, hkls, Tail(hkls[n - 1], ops)) else prev
  }

  function FinalMask(hkls: seq<HKL>, ops: seq<Matrix3>): (m: seq<bool>)
    ensures |m| == |hkls|
  {
    MaskAfter(hkls, ops, |hkls|)
  }

  /** `hkllist[mask, :]`: the rows whose mask entry is set, in order. */
  function Masked(s: seq<HKL>, m: seq<bool>): (r: seq<HKL>)
    requires |s| == |m|
    ensures |r| <= |s|
    ensures IsSubsequence(r, s)
  {
    if s == [] then []
    else if m[0] then [s[0]] + Masked(s[1..], m[1..])
    else Masked(s[1..], m[1..])
  }

  /** The rows of the masked list are exactly the rows at set positions. */
  lemma {:induction false} MaskedMembers(s: seq<HKL>, m: seq<bool>)
    requires |s| == |m|
    ensures forall j :: 0 <= j < |s| && m[j] ==> s[j] in Masked(s, m)
    ensures forall x :: x in Masked(s, m) ==> exists j :: 0 <= j < |s| && m[j] && s[j] == x
  {
    if s != [] {
      MaskedMembers(s[1..], m[1..]);
      forall j | 0 <= j < |s| && m[j] ensures s[j] in Masked(s, m) {
        if j > 0 {
          assert s[1..][j - 1] == s[j] && m[1..][j - 1];
        }
      }
      forall x | x in Masked(s, m) ensures exists j :: 0 <= j < |s| && m[j] && s[j] == x {
        if !(m[0] && x == s[0]) {
          assert x in Masked(s[1..], m[1..]);
          var j :| 0 <= j < |s| - 1 && m[1..][j] && s[1..][j] == x;
          assert m[j + 1] && s[j + 1] == x;
        }
      }
    }
  }

  /** `np.argmax` of the component sums: the first row of largest sum. */
  function ArgMaxSum(s: seq<HKL>): (loc: nat)
    requires |s| > 0
    ensures loc < |s|
    ensures forall j :: 0 <= j < |s| ==> ComponentSum(s[j]) <= ComponentSum(s[loc])
    ensures forall j :: 0 <= j < loc ==> ComponentSum(s[j]) < ComponentSum(s[loc])
  {
    if |s| == 1 then 0
    else
      var b := ArgMaxSum(s[..|s| - 1]);
      if ComponentSum(s[|s| - 1]) > ComponentSum(s[b]) then |s| - 1 else b
  }

  /** The representative of g's orbit: its star member of largest component
      sum, the first one on ties. */
  function Representative(g: HKL, ops: seq<Matrix3>): HKL {
    var st := StarOf(g, ops);
    st[ArgMaxSum(st)]
  }

  /** One representative per row, in the order of the rows. */
  function Representatives(s: seq<HKL>, ops: seq<Matrix3>): (r: seq<HKL>)
    ensures |r| == |s|
    ensures forall i :: 0 <= i < |s| ==> r[i] == Representative(s[i], ops)
  {
    seq(|s|, i requires 0 <= i < |s| => Representative(s[i], ops))
  }

  /** What ChooseSymmetric returns. */
  function Chosen(hkls: seq<HKL>, ops: seq<Matrix3>): seq<HKL> {
    Representatives(Masked(hkls, FinalMask(hkls, ops)), ops)
  }

  /** Clearing one more row value. */
  lemma ClearedExtend(mask: seq<bool>, hkls: seq<HKL>, rows: seq<HKL>, x: HKL)
    requires |mask| == |hkls|
    ensures forall j :: 0 <= j < |mask| ==>
      Cleared(mask, hkls, rows + [x])[j] == (Cleared(mask, hkls, rows)[j] && hkls[j] != x)
  {
  }

  /** The second loop of ChooseSymmetric: each kept row is replaced by its
      representative. */
  method PickRepresentatives(hkl: seq<HKL>, pg: PointGroup, inversion: bool) returns (r: seq<HKL>)
    ensures r == Representatives(hkl, RecipOps(pg, inversion))
  {
    r := [];
    var n := 0;
    while n < |hkl|
      invariant 0 <= n <= |hkl|
      invariant |r| == n
      invariant forall t :: 0 <= t < n ==> r[t] == Representative(hkl[t], RecipOps(pg, inversion))
    {
      var star := CalcStar(hkl[n], pg, "r", inversion);
      var geqv := star.value;
      var loc := ArgMaxSum(geqv);
      r := r + [geqv[loc]];
      n := n + 1;
    }
  }

  /** The inner loop of ChooseSymmetric: clear the mask at every row equal
      to a member of the star's tail. */
  method ClearStarTail(mask: array<bool>, hkls: seq<HKL>, geqv: seq<HKL>)
    requires mask.Length == |hkls| && |geqv| >= 1
    modifies mask
    ensures mask[..] == Cleared(old(mask[..]), hkls, geqv[1..])
  {
    ghost var before := mask[..];
    var k := 1;
    while k < |geqv|
      invariant 1 <= k <= |geqv|
      invariant mask[..] == Cleared(before, hkls, geqv[1..k])
    {
      var row := geqv[k];
      forall j | 0 <= j < mask.Length && hkls[j] == row {
        mask[j] := false;
      }
      ClearedExtend(before, hkls, geqv[1..k], row);
      assert geqv[1..k + 1] == geqv[1..k] + [row];
      k := k + 1;
    }
    assert geqv[1..k] == geqv[1..];
  }

  method ChooseSymmetric(hkls: seq<HKL>, pg: PointGroup, inversion: bool) returns (r: seq<HKL>)
    ensures r == Chosen(hkls, RecipOps(pg, inversion))
  {
    ghost var ops := RecipOps(pg, inversion);
    var mask := new bool[|hkls|](_ => true);
    var i := 0;
    while i < |hkls|
      invariant 0 <= i <= |hkls|
      invariant mask.Length == |hkls|
      invariant mask[..] == MaskAfter(hkls, ops, i)
      modifies mask
    {
      if mask[i] {
        var star := CalcStar(hkls[i], pg, "r", inversion);
        var geqv := star.value;
        ClearStarTail(mask, hkls, geqv);
        assert geqv[1..] == Tail(hkls[i], ops);
      }
      i := i + 1;
    }
    r := PickRepresentatives(Masked(hkls, mask[..]), pg, inversion);
  }

  // ---------------------------------------------------------------------
  // What the choice guarantees
  // ---------------------------------------------------------------------

  /** A row is never in its own star's tail (the star's rows are distinct
      and the first is the row itself). */
  lemma NotInOwnTail(v: HKL, ops: seq<Matrix3>)
    ensures v !in Tail(v, ops)
  {
  }

  /** Visiting a row whose mask is set keeps it set. */
  lemma VisitKeepsRow(hkls: seq<HKL>, ops: seq<Matrix3>, c: nat)
    requires c < |hkls|
    requires MaskAfter(hkls, ops, c)[c]
    ensures MaskAfter(hkls, ops, c + 1)[c]
  {
    NotInOwnTail(hkls[c], ops);
  }

  /** Masks only ever lose entries. */
  lemma {:induction false} MaskMonotone(hkls: seq<HKL>, ops: seq<Matrix3>, a: nat, b: nat)
    requires a <= b <= |hkls|
    ensures forall j :: 0 <= j < |hkls| && MaskAfter(hkls, ops, b)[j] ==> MaskAfter(hkls, ops, a)[j]
  {
    if a < b {
      MaskMonotone(hkls, ops, a, b - 1);
    }
  }

  /** If row j's mask went from set (after step a) to clear (after step b),
      some row visited in between with its mask set had hkls[j] in its
      star's tail. */
  lemma {:induction false} ClearedBy(hkls: seq<HKL>, ops: seq<Matrix3>, j: nat, a: nat, b: nat)
    requires j < |hkls| && a <= b <= |hkls|
    requires MaskAfter(hkls, ops, a)[j] && !MaskAfter(hkls, ops, b)[j]
    ensures exists c :: a <= c < b && MaskAfter(hkls, ops, c)[c] && hkls[j] in Tail(hkls[c], ops)
  {
    if MaskAfter(hkls, ops, b - 1)[j] {
      assert MaskAfter(hkls, ops, b - 1)[b - 1] && hkls[j] in Tail(hkls[b - 1], ops);
    } else {
      ClearedBy(hkls, ops, j, a, b - 1);
    }
  }

  /** Two different rows that both survive never lie in each other's star
      tail: once a row is visited, the other members of its star are gone. */
  lemma KeptRowsApart(hkls: seq<HKL>, ops: seq<Matrix3>, i: nat, j: nat)
    requires i < |hkls| && j < |hkls| && i != j
    requires FinalMask(hkls, ops)[i] && FinalMask(hkls, ops)[j]
    ensures hkls[j] !in Tail(hkls[i], ops)
  {
    MaskMonotone(hkls, ops, i, |hkls|);
    MaskMonotone(hkls, ops, i + 1, |hkls|);
  }

  /** Kept triples that differ lie in different stars: neither is a
      symmetry image of the other. */
  lemma KeptInDistinctStars(hkls: seq<HKL>, ops: seq<Matrix3>)
    ensures forall x, y :: x in Masked(hkls, FinalMask(hkls, ops)) && y in Masked(hkls, FinalMask(hkls, ops)) && x != y
              ==> y !in StarOf(x, ops)
  {
    var m := FinalMask(hkls, ops);
    MaskedMembers(hkls, m);
    forall x, y | x in Masked(hkls, m) && y in Masked(hkls, m) && x != y
      ensures y !in StarOf(x, ops)
    {
      var i :| 0 <= i < |hkls| && m[i] && hkls[i] == x;
      var j :| 0 <= j < |hkls| && m[j] && hkls[j] == y;
      KeptRowsApart(hkls, ops, i, j);
      assert StarOf(x, ops) == [x] + Tail(x, ops);
    }
  }

  /** The last row whose mask was still set when visited survives, so some
      row among the first n survives step n. */
  lemma {:induction false} SomeRowKept(hkls: seq<HKL>, ops: seq<Matrix3>, n: nat)
    requires 0 < n <= |hkls|
    ensures exists c :: 0 <= c < n && MaskAfter(hkls, ops, n)[c]
  {
    if MaskAfter(hkls, ops, n - 1)[n - 1] {
      VisitKeepsRow(hkls, ops, n - 1);
    } else {
      SomeRowKept(hkls, ops, n - 1);
      var c :| 0 <= c < n - 1 && MaskAfter(hkls, ops, n - 1)[c];
      assert MaskAfter(hkls, ops, n)[c];
    }
  }

  /** A non-empty input always yields a non-empty choice. */
  lemma ChosenNonEmpty(hkls: seq<HKL>, ops: seq<Matrix3>)
    requires |hkls| > 0
    ensures |Chosen(hkls, ops)| > 0
  {
    SomeRowKept(hkls, ops, |hkls|);
    var c :| 0 <= c < |hkls| && FinalMask(hkls, ops)[c];
    MaskedMembers(hkls, FinalMask(hkls, ops));
    assert hkls[c] in Masked(hkls, FinalMask(hkls, ops));
  }

  /** From a row c whose mask was set when visited and whose star holds g,
      follow the rows that cleared it until one survives. */
  lemma {:induction false} CoveredFrom(hkls: seq<HKL>, ops: seq<Matrix3>, prod: seq<seq<nat>>, g: HKL, c: nat)
    requires ProductTable(ops, prod)
    requires c < |hkls| && MaskAfter(hkls, ops, c)[c] && g in StarOf(hkls[c], ops)
    ensures exists i :: 0 <= i < |hkls| && FinalMask(hkls, ops)[i] && g in StarOf(hkls[i], ops)
    decreases |hkls| - c
  {
    if !FinalMask(hkls, ops)[c] {
      VisitKeepsRow(hkls, ops, c);
      ClearedBy(hkls, ops, c, c + 1, |hkls|);
      var d :| c + 1 <= d < |hkls| && MaskAfter(hkls, ops, d)[d] && hkls[c] in Tail(hkls[d], ops);
      assert hkls[c] in StarOf(hkls[d], ops);
      StarWithin(hkls[d], hkls[c], ops, prod);
      CoveredFrom(hkls, ops, prod, g, d);
    }
  }

  /** When the operators are closed under products, every input row lies in
      the star of some surviving row: the choice loses no orbit. */
  lemma EveryRowCovered(hkls: seq<HKL>, ops: seq<Matrix3>, prod: seq<seq<nat>>, j: nat)
    requires ProductTable(ops, prod)
    requires j < |hkls|
    ensures exists i :: 0 <= i < |hkls| && FinalMask(hkls, ops)[i] && hkls[j] in StarOf(hkls[i], ops)
  {
    if MaskAfter(hkls, ops, j)[j] {
      CoveredFrom(hkls, ops, prod, hkls[j], j);
    } else {
      ClearedBy(hkls, ops, j, 0, j);
      var c :| 0 <= c < j && MaskAfter(hkls, ops, c)[c] && hkls[j] in Tail(hkls[c], ops);
      assert hkls[j] in StarOf(hkls[c], ops);
      CoveredFrom(hkls, ops, prod, hkls[j], c);
    }
  }

  /** The representative lies in g's star, has the largest component sum
      there, and every earlier star row has a strictly smaller sum. */
  lemma RepresentativeIsMax(g: HKL, ops: seq<Matrix3>)
    ensures Representative(g, ops) in StarOf(g, ops)
    ensures forall y :: y in StarOf(g, ops) ==> ComponentSum(y) <= ComponentSum(Representative(g, ops))
    ensures exists loc :: 0 <= loc < |StarOf(g, ops)| && StarOf(g, ops)[loc] == Representative(g, ops)
              && forall j :: 0 <= j < loc ==> ComponentSum(StarOf(g, ops)[j]) < ComponentSum(Representative(g, ops))
  {
    var st := StarOf(g, ops);
    assert st[ArgMaxSum(st)] == Representative(g, ops);
  }

  /** With the inversion among the operators (Friedel's law), the
      representative's component sum is never negative. */
  lemma RepresentativeSumNonNegative(g: HKL, ops: seq<Matrix3>)
    requires exists t :: 0 <= t < |ops| && Apply(ops[t], g) == Neg(g)
    ensures ComponentSum(Representative(g, ops)) >= 0
  {
    RepresentativeIsMax(g, ops);
    assert Neg(g) in StarOf(g, ops);
    assert g in StarOf(g, ops);
  }

  /** For a group of operators, the representatives of two different kept
      triples lie in different orbits. */
  lemma RepresentativesApart(hkls: seq<HKL>, ops: seq<Matrix3>, inv: seq<nat>, prod: seq<seq<nat>>, x: HKL, y: HKL)
    requires InverseTable(ops, inv) && ProductTable(ops, prod)
    requires x in Masked(hkls, FinalMask(hkls, ops)) && y in Masked(hkls, FinalMask(hkls, ops)) && x != y
    ensures Representative(y, ops) !in StarOf(Representative(x, ops), ops)
  {
    var rx := Representative(x, ops);
    var ry := Representative(y, ops);
    RepresentativeIsMax(x, ops);
    RepresentativeIsMax(y, ops);
    KeptInDistinctStars(hkls, ops);
    if ry in StarOf(rx, ops) {
      StarsAreOrbits(x, rx, ops, inv, prod);
      StarsAreOrbits(y, ry, ops, inv, prod);
      assert ry in StarOf(x, ops);
      StarsAreOrbits(x, ry, ops, inv, prod);
    }
  }
}
