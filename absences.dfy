/** Systematic absences: the lattice-centering rule and the glide-plane and
    screw-axis reflection conditions of International Tables for
    Crystallography Vol. A (Tables 2.2.13.1 to 2.2.13.3), as the refinement
    code encodes them per lattice family and symmetry direction.

    Each rule is a predicate on one triple ("this row is systematically
    absent") plus a predicate saying whether the code reaches a verdict at
    all for the given (family, symbol, direction); where it does not, the
    code raises, modelled as a Failure. A filter removes exactly the rows its
    predicate calls absent and keeps the others in order. */
module Absences {
  import opened Wrappers
  import opened Crystal

  // np.mod(x + 100, 2) and its siblings. The offsets are multiples of the
  // modulus and numpy's mod is floored, so each equals x mod m (see ModOffsets).
  function Mod2(x: int): int { (x + 100) % 2 }
  function Mod3(x: int): int { (x + 90) % 3 }
  function Mod4(x: int): int { (x + 100) % 4 }
  function Mod6(x: int): int { (x + 120) % 6 }

  lemma ModOffsets(x: int)
    ensures Mod2(x) == x % 2 && Mod3(x) == x % 3 && Mod4(x) == x % 4 && Mod6(x) == x % 6
  {
  }

  // Parity, and whether an index is a multiple of 3, 4 or 6, do not depend
  // on the sign (used for Friedel symmetry below).
  lemma ModNeg2(x: int) ensures Mod2(-x) == Mod2(x) {}
  lemma ModNeg3(x: int) ensures (Mod3(-x) == 0) == (Mod3(x) == 0) {}
  lemma ModNeg4(x: int) ensures (Mod4(-x) == 0) == (Mod4(x) == 0) {}
  lemma ModNeg6(x: int) ensures (Mod6(-x) == 0) == (Mod6(x) == 0) {}
  lemma AbsNeg(x: int) ensures Abs(-x) == Abs(x) {}
  lemma ModNegSum2(a: int, b: int) ensures Mod2(-a + -b) == Mod2(a + b) {}
  lemma ModNegSum4(a: int, b: int) ensures (Mod4(-a + -b) == 0) == (Mod4(a + b) == 0) {}
  lemma ModNegTwice4(a: int, b: int)
    ensures (Mod4(2 * -a + -b) == 0) == (Mod4(2 * a + b) == 0)
    ensures (Mod4(-a + 2 * -b) == 0) == (Mod4(a + 2 * b) == 0)
  {}

  // ---------------------------------------------------------------------
  // Lattice centering (Allowed_HKLs)
  // ---------------------------------------------------------------------

  predicate CenteringKnown(c: char) {
    c in "PFIABCR"
  }

  /** The mask the code computes for each centering letter. */
  predicate CenteringAllows(c: char, g: HKL) {
    match c
    case 'P' => true
    case 'F' =>
      var seo := Mod2(g.h) + Mod2(g.k) + Mod2(g.l);
      !(seo == 1 || seo == 2)
    case 'I' => Mod2(g.h + g.k + g.l) == 0
    case 'A' => Mod2(g.k + g.l) == 0
    case 'B' => Mod2(g.h + g.l) == 0
    case 'C' => Mod2(g.h + g.k) == 0
    case 'R' => Mod3(-g.h + g.k + g.l) == 0
    case _ => true
  }

  /** The centering conditions in the words of the International Tables. */
  lemma CenteringConditions(g: HKL)
    ensures CenteringAllows('P', g)
    ensures CenteringAllows('F', g) <==> g.h % 2 == g.k % 2 == g.l % 2
    ensures CenteringAllows('I', g) <==> (g.h + g.k + g.l) % 2 == 0
    ensures CenteringAllows('A', g) <==> (g.k + g.l) % 2 == 0
    ensures CenteringAllows('B', g) <==> (g.h + g.l) % 2 == 0
    ensures CenteringAllows('C', g) <==> (g.h + g.k) % 2 == 0
    ensures CenteringAllows('R', g) <==> (-g.h + g.k + g.l) % 3 == 0
  {
  }

  // ---------------------------------------------------------------------
  // Glide planes (omitglideplaneabsences); ip is the direction index
  // ---------------------------------------------------------------------

  /** Whether the code gets through without raising for this glide symbol. */
  predicate GlideKnown(lt: LatticeType, plane: string, ip: nat) {
    match lt
    case Triclinic => true
    case Monoclinic => ip != 1 || plane in ["c", "a", "n"]
    case Orthorhombic =>
      if ip == 0 then plane in ["b", "c", "n", "d"]
      else if ip == 1 then plane in ["c", "a", "n", "d"]
      else if ip == 2 then plane in ["a", "b", "n", "d"]
      else true
    case Tetragonal =>
      if ip == 0 then plane in ["a", "b", "n", "d"]
      else if ip == 1 then plane in ["a", "b", "c", "n", "d"]
      else if ip == 2 then plane in ["c", "n", "d"]
      else true
    case Trigonal => plane == "c" && (ip == 1 || ip == 2)
    case Hexagonal => plane == "c" && (ip == 1 || ip == 2)
    case Cubic => ip == 1 || ip > 2 || plane in ["a", "b", "c", "n", "d"]
  }

  /** The reflection condition of a glide plane normal to one of the axes:
      the zone is the plane {x = 0} and the condition is on the other two. */
  predicate AxialGlideAbsent(plane: string, ip: nat, g: HKL)
    requires ip <= 2
  {
    var zone := if ip == 0 then g.h == 0 else if ip == 1 then g.k == 0 else g.l == 0;
    // the two indices lying in the zone, in the code's order
    var u := if ip == 0 then g.k else g.h;
    var w := if ip == 2 then g.k else g.l;
    zone &&
    if plane == "d" then Mod4(u + w) != 0
    else if plane == "n" then Mod2(u + w) != 0
    else if (plane == "a" && ip != 0) || (plane == "b" && ip == 0) then Mod2(u) != 0
    else if plane == "b" && ip == 2 then Mod2(w) != 0
    else if plane == "c" && ip != 2 then Mod2(w) != 0
    else false
  }

  /** A row the code removes for this glide symbol (meaningful where GlideKnown). */
  predicate GlideAbsent(lt: LatticeType, plane: string, ip: nat, g: HKL) {
    match lt
    case Triclinic => false
    case Monoclinic => ip == 1 && AxialGlideAbsent(plane, 1, g)
    case Orthorhombic => ip <= 2 && AxialGlideAbsent(plane, ip, g)
    case Tetragonal =>
      if ip == 0 then AxialGlideAbsent(plane, 2, g)
      else if ip == 1 then TetragonalAxialGlideAbsent(plane, g)
      else if ip == 2 then TetragonalDiagonalGlideAbsent(plane, g)
      else false
    case Trigonal => TrigonalGlideAbsent(ip, g)
    case Hexagonal => HexagonalGlideAbsent(ip, g)
    case Cubic =>
      if ip == 0 then CubicAxialGlideAbsent(plane, g)
      else if ip == 2 then CubicDiagonalGlideAbsent(plane, g)
      else false
  }

  /** Tetragonal glides normal to a or b (second symbol position). */
  predicate TetragonalAxialGlideAbsent(plane: string, g: HKL) {
    if plane == "a" || plane == "b" then
      (g.h == 0 && Mod2(g.k) != 0) || (g.k == 0 && Mod2(g.h) != 0)
    else if plane == "c" then
      (g.h == 0 && Mod2(g.l) != 0) || (g.k == 0 && Mod2(g.l) != 0)
    else if plane == "n" then
      (g.h == 0 && Mod2(g.k + g.l) != 0) || (g.k == 0 && Mod2(g.h + g.l) != 0)
    else
      (g.h == 0 && Mod4(g.k + g.l) != 0) || (g.k == 0 && Mod4(g.h + g.l) != 0)
  }

  /** Tetragonal glides normal to [1-10] (third symbol position): zone |h| == |k|. */
  predicate TetragonalDiagonalGlideAbsent(plane: string, g: HKL) {
    Abs(g.h) == Abs(g.k) &&
    if plane == "d" then Mod4(2 * g.h + g.l) != 0 else Mod2(g.l) != 0
  }

  /** Trigonal c glides: l odd in the zones of the second or third position. */
  predicate TrigonalGlideAbsent(ip: nat, g: HKL) {
    Mod2(g.l) != 0 &&
    if ip == 1 then g.h == 0 || g.k == 0 || g.h == -g.k
    else g.k == g.h || g.h == -2 * g.k || -2 * g.h == g.k
  }

  /** Hexagonal c glides: the same zone families as trigonal, with ip 2 tested first. */
  predicate HexagonalGlideAbsent(ip: nat, g: HKL) {
    Mod2(g.l) != 0 &&
    if ip == 2 then g.h == g.k || g.h == -2 * g.k || -2 * g.h == g.k
    else g.k == 0 || g.h == 0 || g.k == -g.h
  }

  /** Cubic glides normal to the cube axes (first symbol position). */
  predicate CubicAxialGlideAbsent(plane: string, g: HKL) {
    if plane == "a" then
      (g.h == 0 && (Mod2(g.k) != 0 || Mod2(g.l) != 0))
      || (g.k == 0 && (Mod2(g.h) != 0 || Mod2(g.l) != 0))
      || (g.l == 0 && Mod2(g.h) != 0)
    else if plane == "b" then
      (g.h == 0 && Mod2(g.k) != 0) || (g.l == 0 && Mod2(g.k) != 0)
    else if plane == "c" then
      (g.h == 0 && Mod2(g.l) != 0) || (g.k == 0 && Mod2(g.l) != 0)
    else if plane == "n" then
      (g.h == 0 && Mod2(g.k + g.l) != 0) || (g.k == 0 && Mod2(g.h + g.l) != 0)
      || (g.l == 0 && Mod2(g.h + g.k) != 0)
    else
      (g.h == 0 && Mod4(g.k + g.l) != 0) || (g.k == 0 && Mod4(g.h + g.l) != 0)
      || (g.l == 0 && Mod4(g.h + g.k) != 0)
  }

  /** Cubic glides normal to the face diagonals (third symbol position). */
  predicate CubicDiagonalGlideAbsent(plane: string, g: HKL) {
    if plane == "d" then DiagonalDiamondAbsent(g) else DiagonalOddAbsent(g)
  }

  /** The d glide on the face diagonals: 2h + l (and its permutations) not a
      multiple of 4. */
  predicate DiagonalDiamondAbsent(g: HKL) {
    (Abs(g.h) == Abs(g.k) && Mod4(2 * g.h + g.l) != 0)
    || (Abs(g.k) == Abs(g.l) && Mod4(g.h + 2 * g.k) != 0)
    || (Abs(g.h) == Abs(g.l) && Mod4(2 * g.h + g.k) != 0)
  }

  /** The other face-diagonal glides: the remaining index odd. */
  predicate DiagonalOddAbsent(g: HKL) {
    (Abs(g.h) == Abs(g.k) && Mod2(g.l) != 0)
    || (Abs(g.k) == Abs(g.l) && Mod2(g.h) != 0)
    || (Abs(g.h) == Abs(g.l) && Mod2(g.k) != 0)
  }

  // ---------------------------------------------------------------------
  // Screw axes (omitscrewaxisabsences); iax is the direction index
  // ---------------------------------------------------------------------

  /** Whether the code gets through without raising for this screw symbol. */
  predicate ScrewKnown(lt: LatticeType, ax: string, iax: nat) {
    match lt
    case Triclinic => true
    case Monoclinic => ax == "2_1" && iax == 1
    case Orthorhombic => ax == "2_1"
    case Tetragonal =>
      if iax == 0 then ax in ["4_2", "4_1", "4_3"]
      else if iax == 1 then ax == "2_1"
      else true
    case Trigonal => iax == 0 && ax in ["3_1", "3_2"]
    case Hexagonal => iax == 0 && ax in ["6_3", "3_1", "3_2", "6_2", "6_4", "6_1", "6_5"]
    case Cubic => ax in ["2_1", "4_2", "4_1", "4_3"]
  }

  /** The row lies on the axis with index `axis` (the other two indices vanish). */
  predicate OnAxis(g: HKL, axis: nat) {
    if axis == 0 then g.k == 0 && g.l == 0
    else if axis == 1 then g.h == 0 && g.l == 0
    else g.h == 0 && g.k == 0
  }

  function AxisIndex(g: HKL, axis: nat): int {
    if axis == 0 then g.h else if axis == 1 then g.k else g.l
  }

  /** A row the code removes for this screw symbol (meaningful where ScrewKnown). */
  predicate ScrewAbsent(lt: LatticeType, ax: string, iax: nat, g: HKL) {
    match lt
    case Triclinic => false
    case Monoclinic => OnAxis(g, 1) && Mod2(g.k) != 0
    case Orthorhombic => iax <= 2 && OnAxis(g, iax) && Mod2(AxisIndex(g, iax)) != 0
    case Tetragonal =>
      if iax == 0 then
        OnAxis(g, 2) && (if ax == "4_2" then Mod2(g.l) != 0 else Mod4(g.l) != 0)
      else if iax == 1 then
        (OnAxis(g, 0) && Mod2(g.h) != 0) || (OnAxis(g, 1) && Mod2(g.k) != 0)
      else false
    case Trigonal => OnAxis(g, 2) && Mod3(g.l) != 0
    case Hexagonal =>
      OnAxis(g, 2) &&
      if ax == "6_3" then Mod2(g.l) != 0
      else if ax in ["3_1", "3_2", "6_2", "6_4"] then Mod3(g.l) != 0
      else Mod6(g.l) != 0
    case Cubic =>
      if ax in ["2_1", "4_2"] then AxialOdd(g) else AxialOffQuarter(g)
  }

  /** On one of the three axes, with an odd index there. */
  predicate AxialOdd(g: HKL) {
    (OnAxis(g, 2) && Mod2(g.l) != 0) || (OnAxis(g, 1) && Mod2(g.k) != 0)
    || (OnAxis(g, 0) && Mod2(g.h) != 0)
  }

  /** On one of the three axes, with an index there that is not a multiple of 4. */
  predicate AxialOffQuarter(g: HKL) {
    (OnAxis(g, 2) && Mod4(g.l) != 0) || (OnAxis(g, 1) && Mod4(g.k) != 0)
    || (OnAxis(g, 0) && Mod4(g.h) != 0)
  }

  // ---------------------------------------------------------------------
  // The three filters
  // ---------------------------------------------------------------------

  /** The centering part of Allowed_HKLs: keep the rows the centering allows. */
  function CenteringFilter(c: char, hkls: seq<HKL>): (r: Result<seq<HKL>>)
    ensures r.Failure? <==> !CenteringKnown(c)
    ensures r.Success? ==> IsSubsequence(r.value, hkls)
    ensures r.Success? ==> forall x :: x in r.value <==> x in hkls && CenteringAllows(c, x)
  {
    if !CenteringKnown(c) then Failure("IsGAllowed: unknown lattice centering encountered.")
    else Success(Keep(hkls, g => CenteringAllows(c, g)))
  }

  function OmitGlidePlaneAbsences(lt: LatticeType, hkls: seq<HKL>, plane: string, ip: nat): (r: Result<seq<HKL>>)
    ensures r.Failure? <==> !GlideKnown(lt, plane, ip)
    ensures r.Success? ==> IsSubsequence(r.value, hkls)
    ensures r.Success? ==> forall x :: x in r.value <==> x in hkls && !GlideAbsent(lt, plane, ip, x)
  {
    if !GlideKnown(lt, plane, ip) then Failure("omitglideplaneabsences: glide plane not handled")
    else Success(Keep(hkls, g => !GlideAbsent(lt, plane, ip, g)))
  }

  function OmitScrewAxisAbsences(lt: LatticeType, hkls: seq<HKL>, ax: string, iax: nat): (r: Result<seq<HKL>>)
    ensures r.Failure? <==> !ScrewKnown(lt, ax, iax)
    ensures r.Success? ==> IsSubsequence(r.value, hkls)
    ensures r.Success? ==> forall x :: x in r.value <==> x in hkls && !ScrewAbsent(lt, ax, iax, x)
  {
    if !ScrewKnown(lt, ax, iax) then Failure("omitscrewaxisabsences: screw axis not handled")
    else Success(Keep(hkls, g => !ScrewAbsent(lt, ax, iax, g)))
  }

  // ---------------------------------------------------------------------
  // The per-space-group table (constants.SYS_AB) and its application
  // ---------------------------------------------------------------------

  /** One entry of the space-group table: glide symbols and screw symbols
      per symmetry direction ("" where there is none). */
  datatype AbsenceTable = AbsenceTable(planes: seq<string>, axes: seq<string>)

  /** Every glide symbol among the first n directions is handled. */
  predicate GlidesKnown(lt: LatticeType, planes: seq<string>, n: nat)
    requires n <= |planes|
  {
    forall ip :: 0 <= ip < n ==> planes[ip] != "" ==> GlideKnown(lt, planes[ip], ip)
  }

  predicate ScrewsKnown(lt: LatticeType, axes: seq<string>, n: nat)
    requires n <= |axes|
  {
    forall iax :: 0 <= iax < n ==> axes[iax] != "" ==> ScrewKnown(lt, axes[iax], iax)
  }

  /** Some glide among the first n directions forbids g. */
  predicate GlideExtinct(lt: LatticeType, planes: seq<string>, n: nat, g: HKL)
    requires n <= |planes|
  {
    exists ip :: 0 <= ip < n && planes[ip] != "" && GlideAbsent(lt, planes[ip], ip, g)
  }

  predicate ScrewExtinct(lt: LatticeType, axes: seq<string>, n: nat, g: HKL)
    requires n <= |axes|
  {
    exists iax :: 0 <= iax < n && axes[iax] != "" && ScrewAbsent(lt, axes[iax], iax, g)
  }

  /** g is forbidden by some glide plane or screw axis of the table entry. */
  predicate Extinct(lt: LatticeType, t: AbsenceTable, g: HKL) {
    GlideExtinct(lt, t.planes, |t.planes|, g) || ScrewExtinct(lt, t.axes, |t.axes|, g)
  }

  predicate TableKnown(lt: LatticeType, t: AbsenceTable) {
    GlidesKnown(lt, t.planes, |t.planes|) && ScrewsKnown(lt, t.axes, |t.axes|)
  }

  /** The handled-symbol predicates grow one direction at a time. */
  lemma GlidesKnownStep(lt: LatticeType, planes: seq<string>, ip: nat)
    requires ip < |planes|
    ensures GlidesKnown(lt, planes, ip + 1) <==>
      GlidesKnown(lt, planes, ip) && (planes[ip] != "" ==> GlideKnown(lt, planes[ip], ip))
    ensures planes[ip] != "" && !GlideKnown(lt, planes[ip], ip) ==> !GlidesKnown(lt, planes, |planes|)
  {
  }

  lemma ScrewsKnownStep(lt: LatticeType, axes: seq<string>, iax: nat)
    requires iax < |axes|
    ensures ScrewsKnown(lt, axes, iax + 1) <==>
      ScrewsKnown(lt, axes, iax) && (axes[iax] != "" ==> ScrewKnown(lt, axes[iax], iax))
    ensures axes[iax] != "" && !ScrewKnown(lt, axes[iax], iax) ==> !ScrewsKnown(lt, axes, |axes|)
  {
  }

  /** One glide pass extends the set of directions consulted by one. */
  lemma {:induction false} GlideStep(lt: LatticeType, planes: seq<string>, ip: nat, hkls: seq<HKL>)
    requires ip < |planes|
    ensures planes[ip] != "" ==>
      Keep(Keep(hkls, g => !GlideExtinct(lt, planes, ip, g)), g => !GlideAbsent(lt, planes[ip], ip, g))
      == Keep(hkls, g => !GlideExtinct(lt, planes, ip + 1, g))
    ensures planes[ip] == "" ==>
      Keep(hkls, g => !GlideExtinct(lt, planes, ip, g)) == Keep(hkls, g => !GlideExtinct(lt, planes, ip + 1, g))
  {
    if planes[ip] != "" {
      KeepKeep(hkls, g => !GlideExtinct(lt, planes, ip, g), g => !GlideAbsent(lt, planes[ip], ip, g),
               g => !GlideExtinct(lt, planes, ip + 1, g));
    } else {
      KeepExtensional(hkls, g => !GlideExtinct(lt, planes, ip, g), g => !GlideExtinct(lt, planes, ip + 1, g));
    }
  }

  /** One screw pass extends the set of directions consulted by one. */
  lemma {:induction false} ScrewStep(lt: LatticeType, axes: seq<string>, iax: nat, hkls: seq<HKL>)
    requires iax < |axes|
    ensures axes[iax] != "" ==>
      Keep(Keep(hkls, g => !ScrewExtinct(lt, axes, iax, g)), g => !ScrewAbsent(lt, axes[iax], iax, g))
      == Keep(hkls, g => !ScrewExtinct(lt, axes, iax + 1, g))
    ensures axes[iax] == "" ==>
      Keep(hkls, g => !ScrewExtinct(lt, axes, iax, g)) == Keep(hkls, g => !ScrewExtinct(lt, axes, iax + 1, g))
  {
    if axes[iax] != "" {
      KeepKeep(hkls, g => !ScrewExtinct(lt, axes, iax, g), g => !ScrewAbsent(lt, axes[iax], iax, g),
               g => !ScrewExtinct(lt, axes, iax + 1, g));
    } else {
      KeepExtensional(hkls, g => !ScrewExtinct(lt, axes, iax, g), g => !ScrewExtinct(lt, axes, iax + 1, g));
    }
  }

  /** The rows left once the glides of the first n directions are applied. */
  function AfterGlides(lt: LatticeType, planes: seq<string>, n: nat, hkls: seq<HKL>): seq<HKL>
    requires n <= |planes|
  {
    Keep(hkls, g => !GlideExtinct(lt, planes, n, g))
  }

  /** The rows left once the screws of the first n directions are applied. */
  function AfterScrews(lt: LatticeType, axes: seq<string>, n: nat, hkls: seq<HKL>): seq<HKL>
    requires n <= |axes|
  {
    Keep(hkls, g => !ScrewExtinct(lt, axes, n, g))
  }

  lemma NoneApplied(lt: LatticeType, planes: seq<string>, axes: seq<string>, hkls: seq<HKL>)
    ensures AfterGlides(lt, planes, 0, hkls) == hkls
    ensures AfterScrews(lt, axes, 0, hkls) == hkls
  {
    KeepAll(hkls, g => !GlideExtinct(lt, planes, 0, g));
    KeepAll(hkls, g => !ScrewExtinct(lt, axes, 0, g));
  }

  /** What one pass of the glide loop does to the rows kept so far: an empty
      symbol keeps them, a handled one removes what it forbids, and an
      unhandled one raises. */
  lemma GlidePass(lt: LatticeType, planes: seq<string>, ip: nat, hkls: seq<HKL>)
    requires ip < |planes|
    requires GlidesKnown(lt, planes, ip)
    ensures planes[ip] == "" ==>
      GlidesKnown(lt, planes, ip + 1) && AfterGlides(lt, planes, ip, hkls) == AfterGlides(lt, planes, ip + 1, hkls)
    ensures planes[ip] != "" ==>
      var step := OmitGlidePlaneAbsences(lt, AfterGlides(lt, planes, ip, hkls), planes[ip], ip);
      (step.Failure? ==> !GlidesKnown(lt, planes, |planes|)) &&
      (step.Success? ==> GlidesKnown(lt, planes, ip + 1) && step.value == AfterGlides(lt, planes, ip + 1, hkls))
  {
    GlideStep(lt, planes, ip, hkls);
    GlidesKnownStep(lt, planes, ip);
  }

  lemma ScrewPass(lt: LatticeType, axes: seq<string>, iax: nat, hkls: seq<HKL>)
    requires iax < |axes|
    requires ScrewsKnown(lt, axes, iax)
    ensures axes[iax] == "" ==>
      ScrewsKnown(lt, axes, iax + 1) && AfterScrews(lt, axes, iax, hkls) == AfterScrews(lt, axes, iax + 1, hkls)
    ensures axes[iax] != "" ==>
      var step := OmitScrewAxisAbsences(lt, AfterScrews(lt, axes, iax, hkls), axes[iax], iax);
      (step.Failure? ==> !ScrewsKnown(lt, axes, |axes|)) &&
      (step.Success? ==> ScrewsKnown(lt, axes, iax + 1) && step.value == AfterScrews(lt, axes, iax + 1, hkls))
  {
    ScrewStep(lt, axes, iax, hkls);
    ScrewsKnownStep(lt, axes, iax);
  }

  /** The glide loop of NonSymmorphicAbsences: every glide symbol in
      direction order; the first one the code does not handle raises. */
  method OmitGlides(lt: LatticeType, planes: seq<string>, hkls: seq<HKL>) returns (r: Result<seq<HKL>>)
    ensures r.Failure? <==> !GlidesKnown(lt, planes, |planes|)
    ensures r.Success? ==> r.value == AfterGlides(lt, planes, |planes|, hkls)
  {
    var cur := hkls;
    NoneApplied(lt, planes, [], hkls);
    var ip := 0;
    while ip < |planes|
      invariant 0 <= ip <= |planes|
      invariant GlidesKnown(lt, planes, ip)
      invariant cur == AfterGlides(lt, planes, ip, hkls)
    {
      var p := planes[ip];
      GlidePass(lt, planes, ip, hkls);
      if p != "" {
        var step := OmitGlidePlaneAbsences(lt, cur, p, ip);
        if step.Failure? {
          return Failure(step.error);
        }
        cur := step.value;
      }
      ip := ip + 1;
    }
    r := Success(cur);
  }

  /** The screw loop of NonSymmorphicAbsences. */
  method OmitScrews(lt: LatticeType, axes: seq<string>, hkls: seq<HKL>) returns (r: Result<seq<HKL>>)
    ensures r.Failure? <==> !ScrewsKnown(lt, axes, |axes|)
    ensures r.Success? ==> r.value == AfterScrews(lt, axes, |axes|, hkls)
  {
    var cur := hkls;
    NoneApplied(lt, [], axes, hkls);
    var iax := 0;
    while iax < |axes|
      invariant 0 <= iax <= |axes|
      invariant ScrewsKnown(lt, axes, iax)
      invariant cur == AfterScrews(lt, axes, iax, hkls)
    {
      var ax := axes[iax];
      ScrewPass(lt, axes, iax, hkls);
      if ax != "" {
        var step := OmitScrewAxisAbsences(lt, cur, ax, iax);
        if step.Failure? {
          return Failure(step.error);
        }
        cur := step.value;
      }
      iax := iax + 1;
    }
    r := Success(cur);
  }

  /** NonSymmorphicAbsences: the glide planes of the table entry, then its
      screw axes; together they remove exactly the extinct rows. */
  method NonSymmorphicAbsences(lt: LatticeType, t: AbsenceTable, hkls: seq<HKL>) returns (r: Result<seq<HKL>>)
    ensures r.Failure? <==> !TableKnown(lt, t)
    ensures r.Success? ==> r.value == Keep(hkls, g => !Extinct(lt, t, g))
  {
    var glided := OmitGlides(lt, t.planes, hkls);
    if glided.Failure? {
      return Failure(glided.error);
    }
    var screwed := OmitScrews(lt, t.axes, glided.value);
    if screwed.Failure? {
      return Failure(screwed.error);
    }
    KeepKeep(hkls, g => !GlideExtinct(lt, t.planes, |t.planes|, g), g => !ScrewExtinct(lt, t.axes, |t.axes|, g),
             g => !Extinct(lt, t, g));
    r := screwed;
  }

  /** The symmetry data of one phase that the reflection generator consults. */
  datatype SpaceGroupInfo = SpaceGroupInfo(
    latticeType: LatticeType,
    hmSymbol: string,      // Hermann-Mauguin symbol; its first letter is the centering
    symmorphic: bool,
    table: AbsenceTable)

  predicate AllowedKnown(sg: SpaceGroupInfo) {
    |sg.hmSymbol| > 0 && CenteringKnown(sg.hmSymbol[0])
    && (sg.symmorphic || TableKnown(sg.latticeType, sg.table))
  }

  /** A triple neither the centering nor (for a non-symmorphic group) a glide
      or screw forbids. */
  predicate Allowed(sg: SpaceGroupInfo, g: HKL)
    requires |sg.hmSymbol| > 0
  {
    CenteringAllows(sg.hmSymbol[0], g) && (sg.symmorphic || !Extinct(sg.latticeType, sg.table, g))
  }

  /** Allowed_HKLs: the centering mask, then the glide/screw absences when
      the space group is non-symmorphic. */
  method AllowedHKLs(sg: SpaceGroupInfo, hkls: seq<HKL>) returns (r: Result<seq<HKL>>)
    ensures r.Failure? <==> !AllowedKnown(sg)
    ensures r.Success? ==> r.value == Keep(hkls, g => Allowed(sg, g))
    ensures r.Success? ==> IsSubsequence(r.value, hkls)
  {
    if |sg.hmSymbol| == 0 {
      return Failure("string index out of range");
    }
    var c := sg.hmSymbol[0];
    var centered := CenteringFilter(c, hkls);
    if centered.Failure? {
      return Failure(centered.error);
    }
    if sg.symmorphic {
      KeepExtensional(hkls, g => CenteringAllows(c, g), g => Allowed(sg, g));
      return centered;
    }
    var pruned := NonSymmorphicAbsences(sg.latticeType, sg.table, centered.value);
    if pruned.Failure? {
      return Failure(pruned.error);
    }
    KeepKeep(hkls, g => CenteringAllows(c, g), g => !Extinct(sg.latticeType, sg.table, g), g => Allowed(sg, g));
    r := pruned;
  }

  // ---------------------------------------------------------------------
  // What the rules mean
  // ---------------------------------------------------------------------

  /** Every reflection condition is symmetric under Friedel inversion g -> -g:
      the centering rule, ... */
  lemma CenteringFriedel(c: char, g: HKL)
    ensures CenteringAllows(c, g) <==> CenteringAllows(c, Neg(g))
  {
    ModNeg2(g.h); ModNeg2(g.k); ModNeg2(g.l);
    ModNegSum2(g.h, g.k); ModNegSum2(g.h, g.l); ModNegSum2(g.k, g.l);
    ModNeg2(g.h + g.k + g.l);
    ModNeg3(-g.h + g.k + g.l);
  }

  /** ... every glide-plane rule ... */
  lemma GlideFriedel(lt: LatticeType, plane: string, ip: nat, g: HKL)
    ensures GlideAbsent(lt, plane, ip, g) <==> GlideAbsent(lt, plane, ip, Neg(g))
  {
    match lt
    case Triclinic =>
    case Monoclinic => AxialGlideFriedel(plane, 1, g);
    case Orthorhombic => if ip <= 2 { AxialGlideFriedel(plane, ip, g); }
    case Tetragonal => TetragonalGlideFriedel(plane, ip, g);
    case Trigonal => ModNeg2(g.l);
    case Hexagonal => ModNeg2(g.l);
    case Cubic =>
      if ip == 0 { CubicAxialGlideFriedel(plane, g); }
      else if ip == 2 { CubicDiagonalGlideFriedel(plane, g); }
  }

  lemma AxialGlideFriedel(plane: string, ip: nat, g: HKL)
    requires ip <= 2
    ensures AxialGlideAbsent(plane, ip, g) <==> AxialGlideAbsent(plane, ip, Neg(g))
  {
    var u := if ip == 0 then g.k else g.h;
    var w := if ip == 2 then g.k else g.l;
    ModNeg2(u); ModNeg2(w); ModNegSum2(u, w); ModNegSum4(u, w);
  }

  lemma TetragonalGlideFriedel(plane: string, ip: nat, g: HKL)
    ensures GlideAbsent(Tetragonal, plane, ip, g) <==> GlideAbsent(Tetragonal, plane, ip, Neg(g))
  {
    var n := Neg(g);
    if ip == 0 {
      ModNeg2(g.h); ModNeg2(g.k);
      ModNegSum2(g.h, g.k); ModNegSum4(g.h, g.k);
    } else if ip == 1 {
      if plane == "a" || plane == "b" {
        ModNeg2(g.h); ModNeg2(g.k);
      } else if plane == "c" {
        ModNeg2(g.l);
      } else if plane == "n" {
        ModNegSum2(g.k, g.l); ModNegSum2(g.h, g.l);
        assert Mod2(n.k + n.l) == Mod2(g.k + g.l);
        assert Mod2(n.h + n.l) == Mod2(g.h + g.l);
      } else {
        ModNegSum4(g.k, g.l); ModNegSum4(g.h, g.l);
        assert (Mod4(n.k + n.l) == 0) == (Mod4(g.k + g.l) == 0);
        assert (Mod4(n.h + n.l) == 0) == (Mod4(g.h + g.l) == 0);
      }
    } else if ip == 2 {
      AbsNeg(g.h); AbsNeg(g.k); ModNeg2(g.l); ModNegTwice4(g.h, g.l);
    }
  }

  lemma CubicAxialGlideFriedel(plane: string, g: HKL)
    ensures CubicAxialGlideAbsent(plane, g) <==> CubicAxialGlideAbsent(plane, Neg(g))
  {
    var n := Neg(g);
    if plane == "a" || plane == "b" || plane == "c" {
      ModNeg2(g.h); ModNeg2(g.k); ModNeg2(g.l);
    } else if plane == "n" {
      ModNegSum2(g.k, g.l); ModNegSum2(g.h, g.l); ModNegSum2(g.h, g.k);
      assert Mod2(n.k + n.l) == Mod2(g.k + g.l);
      assert Mod2(n.h + n.l) == Mod2(g.h + g.l);
      assert Mod2(n.h + n.k) == Mod2(g.h + g.k);
    } else {
      ModNegSum4(g.k, g.l); ModNegSum4(g.h, g.l); ModNegSum4(g.h, g.k);
      assert (Mod4(n.k + n.l) == 0) == (Mod4(g.k + g.l) == 0);
      assert (Mod4(n.h + n.l) == 0) == (Mod4(g.h + g.l) == 0);
      assert (Mod4(n.h + n.k) == 0) == (Mod4(g.h + g.k) == 0);
    }
  }

  lemma CubicDiagonalGlideFriedel(plane: string, g: HKL)
    ensures CubicDiagonalGlideAbsent(plane, g) <==> CubicDiagonalGlideAbsent(plane, Neg(g))
  {
    if plane == "d" {
      DiagonalDiamondFriedel(g);
    } else {
      DiagonalOddFriedel(g);
    }
  }

  lemma DiagonalDiamondFriedel(g: HKL)
    ensures DiagonalDiamondAbsent(g) <==> DiagonalDiamondAbsent(Neg(g))
  {
    AbsNeg(g.h); AbsNeg(g.k); AbsNeg(g.l);
    ModNegTwice4(g.h, g.l); ModNegTwice4(g.h, g.k);
  }

  lemma DiagonalOddFriedel(g: HKL)
    ensures DiagonalOddAbsent(g) <==> DiagonalOddAbsent(Neg(g))
  {
    AbsNeg(g.h); AbsNeg(g.k); AbsNeg(g.l);
    ModNeg2(g.h); ModNeg2(g.k); ModNeg2(g.l);
  }

  /** ... and every screw-axis rule. */
  lemma ScrewFriedel(lt: LatticeType, ax: string, iax: nat, g: HKL)
    ensures ScrewAbsent(lt, ax, iax, g) <==> ScrewAbsent(lt, ax, iax, Neg(g))
  {
    match lt
    case Triclinic =>
    case Monoclinic => ModNeg2(g.k);
    case Orthorhombic => OrthorhombicScrewFriedel(iax, g);
    case Tetragonal => TetragonalScrewFriedel(ax, iax, g);
    case Trigonal => ModNeg3(g.l);
    case Hexagonal => HexagonalScrewFriedel(ax, g);
    case Cubic => CubicScrewFriedel(ax, g);
  }

  lemma OrthorhombicScrewFriedel(iax: nat, g: HKL)
    ensures ScrewAbsent(Orthorhombic, "", iax, g) <==> ScrewAbsent(Orthorhombic, "", iax, Neg(g))
  {
    ModNeg2(AxisIndex(g, iax));
    assert AxisIndex(Neg(g), iax) == -AxisIndex(g, iax);
  }

  lemma TetragonalScrewFriedel(ax: string, iax: nat, g: HKL)
    ensures ScrewAbsent(Tetragonal, ax, iax, g) <==> ScrewAbsent(Tetragonal, ax, iax, Neg(g))
  {
    if iax == 0 {
      ModNeg2(g.l); ModNeg4(g.l);
    } else if iax == 1 {
      ModNeg2(g.h); ModNeg2(g.k);
    }
  }

  lemma HexagonalScrewFriedel(ax: string, g: HKL)
    ensures ScrewAbsent(Hexagonal, ax, 0, g) <==> ScrewAbsent(Hexagonal, ax, 0, Neg(g))
  {
    if ax == "6_3" {
      ModNeg2(g.l);
    } else if ax in ["3_1", "3_2", "6_2", "6_4"] {
      ModNeg3(g.l);
    } else {
      ModNeg6(g.l);
    }
  }

  lemma CubicScrewFriedel(ax: string, g: HKL)
    ensures ScrewAbsent(Cubic, ax, 0, g) <==> ScrewAbsent(Cubic, ax, 0, Neg(g))
  {
    if ax in ["2_1", "4_2"] {
      AxialOddFriedel(g);
    } else {
      AxialOffQuarterFriedel(g);
    }
  }

  lemma AxialOddFriedel(g: HKL)
    ensures AxialOdd(g) <==> AxialOdd(Neg(g))
  {
    ModNeg2(g.h); ModNeg2(g.k); ModNeg2(g.l);
  }

  lemma AxialOffQuarterFriedel(g: HKL)
    ensures AxialOffQuarter(g) <==> AxialOffQuarter(Neg(g))
  {
    ModNeg4(g.h); ModNeg4(g.k); ModNeg4(g.l);
  }

  /** An orthorhombic 2_1 screw on the primary axis removes exactly the
      triples (h,0,0) with h odd. */
  lemma OrthorhombicPrimaryScrew(hkls: seq<HKL>)
    ensures OmitScrewAxisAbsences(Orthorhombic, hkls, "2_1", 0).Success?
    ensures forall x :: x in OmitScrewAxisAbsences(Orthorhombic, hkls, "2_1", 0).value
                       <==> x in hkls && !(x.k == 0 && x.l == 0 && x.h % 2 == 1)
  {
  }

  /** Monoclinic groups accept only a 2_1 screw along b. */
  lemma MonoclinicScrewErrors(hkls: seq<HKL>, ax: string, iax: nat)
    ensures OmitScrewAxisAbsences(Monoclinic, hkls, ax, iax).Success? <==> ax == "2_1" && iax == 1
  {
  }

  /** An orthorhombic glide normal to a removes only rows with h == 0 that
      fail the glide's condition: k odd for b, l odd for c, k+l odd for n,
      k+l not a multiple of 4 for d. */
  lemma OrthorhombicPrimaryGlide(hkls: seq<HKL>, plane: string)
    requires plane in ["b", "c", "n", "d"]
    ensures OmitGlidePlaneAbsences(Orthorhombic, hkls, plane, 0).Success?
    ensures forall x :: x in hkls && x !in OmitGlidePlaneAbsences(Orthorhombic, hkls, plane, 0).value ==>
      x.h == 0 &&
      (if plane == "b" then x.k % 2 == 1
       else if plane == "c" then x.l % 2 == 1
       else if plane == "n" then (x.k + x.l) % 2 == 1
       else (x.k + x.l) % 4 != 0)
  {
  }

  /** The filters commute with Friedel inversion: a row survives exactly
      when its Friedel mate would. */
  lemma {:induction false} AllowedFriedel(sg: SpaceGroupInfo, g: HKL)
    requires |sg.hmSymbol| > 0
    ensures Allowed(sg, g) <==> Allowed(sg, Neg(g))
  {
    var lt := sg.latticeType;
    var t := sg.table;
    CenteringFriedel(sg.hmSymbol[0], g);
    assert GlideExtinct(lt, t.planes, |t.planes|, g) <==> GlideExtinct(lt, t.planes, |t.planes|, Neg(g)) by {
      forall ip | 0 <= ip < |t.planes|
        ensures GlideAbsent(lt, t.planes[ip], ip, g) <==> GlideAbsent(lt, t.planes[ip], ip, Neg(g))
      {
        GlideFriedel(lt, t.planes[ip], ip, g);
      }
    }
    assert ScrewExtinct(lt, t.axes, |t.axes|, g) <==> ScrewExtinct(lt, t.axes, |t.axes|, Neg(g)) by {
      forall iax | 0 <= iax < |t.axes|
        ensures ScrewAbsent(lt, t.axes[iax], iax, g) <==> ScrewAbsent(lt, t.axes[iax], iax, Neg(g))
      {
        ScrewFriedel(lt, t.axes[iax], iax, g);
      }
    }
  }
}
