/** Miller-index triples, integer symmetry matrices, lattice families and the
    row-selection primitive that stands for numpy's boolean-mask indexing
    (`hkllist[mask,:]`). */
module Crystal {

  /** One reciprocal-lattice vector (a row of an hkl list). */
  datatype HKL = HKL(h: int, k: int, l: int)

  const Origin := HKL(0, 0, 0)

  /** The seven lattice families returned by the space-group tables. */
  datatype LatticeType =
    | Triclinic | Monoclinic | Orthorhombic | Tetragonal | Trigonal | Hexagonal | Cubic

  /** An integer 3x3 point-group operator, stored by rows. */
  datatype Matrix3 = Matrix3(r0: HKL, r1: HKL, r2: HKL)

  function Dot(a: HKL, b: HKL): int {
    a.h * b.h + a.k * b.k + a.l * b.l
  }

  /** `np.dot(s, v)` for an integer operator and an integer triple. */
  function Apply(s: Matrix3, v: HKL): HKL {
    HKL(Dot(s.r0, v), Dot(s.r1, v), Dot(s.r2, v))
  }

  const Identity := Matrix3(HKL(1, 0, 0), HKL(0, 1, 0), HKL(0, 0, 1))

  function Column0(m: Matrix3): HKL { HKL(m.r0.h, m.r1.h, m.r2.h) }
  function Column1(m: Matrix3): HKL { HKL(m.r0.k, m.r1.k, m.r2.k) }
  function Column2(m: Matrix3): HKL { HKL(m.r0.l, m.r1.l, m.r2.l) }

  /** The matrix product a * b. */
  function Compose(a: Matrix3, b: Matrix3): Matrix3 {
    Matrix3(
      HKL(Dot(a.r0, Column0(b)), Dot(a.r0, Column1(b)), Dot(a.r0, Column2(b))),
      HKL(Dot(a.r1, Column0(b)), Dot(a.r1, Column1(b)), Dot(a.r1, Column2(b))),
      HKL(Dot(a.r2, Column0(b)), Dot(a.r2, Column1(b)), Dot(a.r2, Column2(b))))
  }

  lemma ApplyIdentity(v: HKL)
    ensures Apply(Identity, v) == v
  {
  }

  /** Applying a product is applying its factors in turn. */
  lemma ApplyCompose(a: Matrix3, b: Matrix3, v: HKL)
    ensures Apply(Compose(a, b), v) == Apply(a, Apply(b, v))
  {
    var w := Apply(b, v);
    assert Dot(Compose(a, b).r0, v) == Dot(a.r0, w) by { DotRow(a.r0, b, v); }
    assert Dot(Compose(a, b).r1, v) == Dot(a.r1, w) by { DotRow(a.r1, b, v); }
    assert Dot(Compose(a, b).r2, v) == Dot(a.r2, w) by { DotRow(a.r2, b, v); }
  }

  lemma DotRow(x: HKL, b: Matrix3, v: HKL)
    ensures Dot(HKL(Dot(x, Column0(b)), Dot(x, Column1(b)), Dot(x, Column2(b))), v) == Dot(x, Apply(b, v))
  {
  }

  function ComponentSum(g: HKL): int {
    g.h + g.k + g.l
  }

  function MaxComponent(g: HKL): (m: int)
    ensures m == g.h || m == g.k || m == g.l
    ensures g.h <= m && g.k <= m && g.l <= m
  {
    if g.h >= g.k && g.h >= g.l then g.h else if g.k >= g.l then g.k else g.l
  }

  function Abs(x: int): int {
    if x < 0 then -x else x
  }

  /** Friedel mate -g. */
  function Neg(g: HKL): HKL {
    HKL(-g.h, -g.k, -g.l)
  }

  /** Order-preserving subsequence, by greedy matching. */
  ghost predicate IsSubsequence<T>(a: seq<T>, b: seq<T>)
    decreases |b|
  {
    if a == [] then true
    else if b == [] then false
    else (a[0] == b[0] && IsSubsequence(a[1..], b[1..])) || IsSubsequence(a, b[1..])
  }

  /** The rows of `s` on which `keep` holds, in their original order. */
  function Keep(s: seq<HKL>, keep: HKL -> bool): (r: seq<HKL>)
    ensures |r| <= |s|
    ensures forall x :: x in r <==> x in s && keep(x)
    ensures IsSubsequence(r, s)
  {
    if s == [] then []
    else if keep(s[0]) then [s[0]] + Keep(s[1..], keep)
    else Keep(s[1..], keep)
  }

  /** Two filters with the same verdict on every row select the same rows. */
  lemma {:induction false} KeepExtensional(s: seq<HKL>, p: HKL -> bool, q: HKL -> bool)
    requires forall x :: x in s ==> (p(x) <==> q(x))
    ensures Keep(s, p) == Keep(s, q)
  {
    if s != [] {
      KeepExtensional(s[1..], p, q);
    }
  }

  /** A filter that holds on every row keeps them all. */
  lemma {:induction false} KeepAll(s: seq<HKL>, p: HKL -> bool)
    requires forall x :: x in s ==> p(x)
    ensures Keep(s, p) == s
  {
    if s != [] {
      KeepAll(s[1..], p);
    }
  }

  /** Filtering twice is filtering once by the conjunction. */
  lemma {:induction false} KeepKeep(s: seq<HKL>, p: HKL -> bool, q: HKL -> bool, pq: HKL -> bool)
    requires forall x :: x in s ==> (pq(x) <==> p(x) && q(x))
    ensures Keep(Keep(s, p), q) == Keep(s, pq)
  {
    if s != [] {
      KeepKeep(s[1..], p, q, pq);
    }
  }

  /** Filtering a concatenation filters each part. */
  lemma {:induction false} KeepAppend(s: seq<HKL>, t: seq<HKL>, p: HKL -> bool)
    ensures Keep(s + t, p) == Keep(s, p) + Keep(t, p)
  {
    if s == [] {
      assert s + t == t;
    } else {
      assert (s + t)[1..] == s[1..] + t;
      KeepAppend(s[1..], t, p);
    }
  }

  /** Filtering a list grown by one row. */
  lemma KeepSnoc(s: seq<HKL>, x: HKL, p: HKL -> bool)
    ensures Keep(s + [x], p) == Keep(s, p) + (if p(x) then [x] else [])
  {
    KeepAppend(s, [x], p);
    assert [x][1..] == [];
  }

  /** No row occurs twice. */
  ghost predicate NoDuplicates<T>(s: seq<T>) {
    forall i, j :: 0 <= i < j < |s| ==> s[i] != s[j]
  }
}
