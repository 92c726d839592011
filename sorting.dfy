/** Material_LeBail.SortHKL: order reflections by the structured key
    (|g| rounded to 8 decimals, largest component, component sum, l, k, h),
    ascending, i.e. by decreasing d-spacing. The reciprocal length |g| is
    an input function `len`; `np.round(x, 8)` is rounding half to even at
    the eighth decimal, taken over exact reals. */
module Sorting {
  import opened Crystal

  // ---------------------------------------------------------------------
  // Rounding
  // ---------------------------------------------------------------------

  /** Round to the nearest integer, halves to the even neighbour. */
  function RoundHalfEven(y: real): (n: int)
    ensures -0.5 <= n as real - y <= 0.5
    ensures n as real - y == 0.5 || y - n as real == 0.5 ==> n % 2 == 0
  {
    var f := y.Floor;
    var frac := y - f as real;
    if frac < 0.5 then f
    else if frac > 0.5 then f + 1
    else if f % 2 == 0 then f
    else f + 1
  }

  /** Rounding never reverses the order of two values. */
  lemma RoundHalfEvenMonotone(x: real, y: real)
    requires x <= y
    ensures RoundHalfEven(x) <= RoundHalfEven(y)
  {
    var fx, fy := x.Floor, y.Floor;
    if fx < fy {
      if fx + 1 == fy {
        var a, b := x - fx as real, y - fy as real;
        if b < 0.5 {
          assert RoundHalfEven(y) == fy;
        } else if RoundHalfEven(x) == fx + 1 {
          assert RoundHalfEven(y) >= fy;
        }
      }
    }
  }

  const Scale: real := 100000000.0

  /** `np.round(x, 8)`. */
  function Round8(x: real): (r: real)
    ensures -0.000000005 <= r - x <= 0.000000005
  {
    RoundHalfEven(x * Scale) as real / Scale
  }

  lemma Round8Monotone(x: real, y: real)
    requires x <= y
    ensures Round8(x) <= Round8(y)
  {
    RoundHalfEvenMonotone(x * Scale, y * Scale);
  }

  // ---------------------------------------------------------------------
  // The key
  // ---------------------------------------------------------------------

  datatype SortKey = SortKey(glen: real, mx: int, sum: int, l: int, k: int, h: int)

  function KeyOf(g: HKL, len: HKL -> real): (key: SortKey)
    ensures key.l == g.l && key.k == g.k && key.h == g.h
  {
    SortKey(Round8(len(g)), MaxComponent(g), ComponentSum(g), g.l, g.k, g.h)
  }

  /** Lexicographic order on keys, field by field. */
  predicate KeyLe(a: SortKey, b: SortKey) {
    a.glen < b.glen || (a.glen == b.glen &&
    (a.mx < b.mx || (a.mx == b.mx &&
    (a.sum < b.sum || (a.sum == b.sum &&
    (a.l < b.l || (a.l == b.l &&
    (a.k < b.k || (a.k == b.k &&
    a.h <= b.h)))))))))
  }

  /** The key order is total and antisymmetric; since the key ends with the
      indices themselves, it orders triples totally. */
  lemma KeyOrder(a: HKL, b: HKL, len: HKL -> real)
    ensures KeyLe(KeyOf(a, len), KeyOf(b, len)) || KeyLe(KeyOf(b, len), KeyOf(a, len))
    ensures KeyLe(KeyOf(a, len), KeyOf(b, len)) && KeyLe(KeyOf(b, len), KeyOf(a, len)) ==> a == b
  {
  }

  lemma KeyTransitive(a: SortKey, b: SortKey, c: SortKey)
    requires KeyLe(a, b) && KeyLe(b, c)
    ensures KeyLe(a, c)
  {
  }

  predicate Le(a: HKL, b: HKL, len: HKL -> real) {
    KeyLe(KeyOf(a, len), KeyOf(b, len))
  }

  ghost predicate Sorted(s: seq<HKL>, len: HKL -> real) {
    forall i, j :: 0 <= i < j < |s| ==> Le(s[i], s[j], len)
  }

  // ---------------------------------------------------------------------
  // Sorting
  // ---------------------------------------------------------------------

  /** Insert x in front of the first row that does not precede it. */
  function Insert(x: HKL, s: seq<HKL>, len: HKL -> real): (r: seq<HKL>)
    requires Sorted(s, len)
    ensures Sorted(r, len)
    ensures multiset(r) == multiset(s) + multiset{x}
  {
    if s == [] then [x]
    else if Le(x, s[0], len) then
      PrependSorted(x, s, len);
      [x] + s
    else
      KeyOrder(x, s[0], len);
      SortedTail(s, len);
      var rest := Insert(x, s[1..], len);
      HeadBelowInsert(x, s, rest, len);
      assert s == [s[0]] + s[1..];
      [s[0]] + rest
  }

  lemma PrependSorted(x: HKL, s: seq<HKL>, len: HKL -> real)
    requires Sorted(s, len) && s != [] && Le(x, s[0], len)
    ensures Sorted([x] + s, len)
  {
    forall j | 0 < j < |s| ensures Le(x, s[j], len) {
      KeyTransitive(KeyOf(x, len), KeyOf(s[0], len), KeyOf(s[j], len));
    }
  }

  lemma HeadBelowInsert(x: HKL, s: seq<HKL>, rest: seq<HKL>, len: HKL -> real)
    requires Sorted(s, len) && s != [] && Le(s[0], x, len) && Sorted(rest, len)
    requires multiset(rest) == multiset(s[1..]) + multiset{x}
    ensures Sorted([s[0]] + rest, len)
  {
    forall y | y in multiset(rest) ensures Le(s[0], y, len) {
      if y != x {
        assert y in s[1..];
      }
    }
    forall j | 0 < j < |rest| + 1 ensures Le(s[0], ([s[0]] + rest)[j], len) {
      assert ([s[0]] + rest)[j] == rest[j - 1];
      assert rest[j - 1] in multiset(rest);
    }
  }

  /** SortHKL: the rows in ascending key order. */
  function SortHKL(s: seq<HKL>, len: HKL -> real): (r: seq<HKL>)
    ensures Sorted(r, len)
    ensures multiset(r) == multiset(s)
  {
    if s == [] then []
    else
      assert s == [s[0]] + s[1..];
      Insert(s[0], SortHKL(s[1..], len), len)
  }

  /** Two ascending arrangements of the same rows start with the same row. */
  lemma SortedHeads(a: seq<HKL>, b: seq<HKL>, len: HKL -> real)
    requires Sorted(a, len) && Sorted(b, len)
    requires multiset(a) == multiset(b) && a != []
    ensures b != [] && a[0] == b[0]
  {
    assert a[0] in multiset(b);
    assert b != [];
    assert b[0] in multiset(a);
    var i :| 0 <= i < |b| && b[i] == a[0];
    var j :| 0 <= j < |a| && a[j] == b[0];
    assert Le(a[0], b[0], len) by { if j > 0 { assert Le(a[0], a[j], len); } }
    assert Le(b[0], a[0], len) by { if i > 0 { assert Le(b[0], b[i], len); } }
    KeyOrder(a[0], b[0], len);
  }

  lemma SortedTail(a: seq<HKL>, len: HKL -> real)
    requires Sorted(a, len) && a != []
    ensures Sorted(a[1..], len)
  {
    forall i, j | 0 <= i < j < |a| - 1 ensures Le(a[1..][i], a[1..][j], len) {
      assert a[1..][i] == a[i + 1] && a[1..][j] == a[j + 1];
    }
  }

  lemma MultisetTails(a: seq<HKL>, b: seq<HKL>)
    requires a != [] && b != [] && a[0] == b[0] && multiset(a) == multiset(b)
    ensures multiset(a[1..]) == multiset(b[1..])
  {
    assert a == [a[0]] + a[1..];
    assert b == [b[0]] + b[1..];
    assert multiset(a) == multiset{a[0]} + multiset(a[1..]);
    assert multiset(b) == multiset{a[0]} + multiset(b[1..]);
    assert multiset(a[1..]) == multiset(a) - multiset{a[0]};
    assert multiset(b[1..]) == multiset(b) - multiset{a[0]};
  }

  /** There is only one ascending arrangement of a multiset of triples, so
      any sort by this key (argsort's included, stable or not) returns this
      list. */
  lemma {:induction false} SortedUnique(a: seq<HKL>, b: seq<HKL>, len: HKL -> real)
    requires Sorted(a, len) && Sorted(b, len)
    requires multiset(a) == multiset(b)
    ensures a == b
  {
    if a != [] {
      SortedHeads(a, b, len);
      SortedTail(a, len);
      SortedTail(b, len);
      MultisetTails(a, b);
      SortedUnique(a[1..], b[1..], len);
    }
  }

  /** In sorted output the reciprocal lengths never decrease by more than
      the rounding step: d-spacings run from large to small. */
  lemma SortedByLength(s: seq<HKL>, len: HKL -> real, i: nat, j: nat)
    requires Sorted(s, len)
    requires i < j < |s|
    ensures len(s[i]) <= len(s[j]) + 0.00000001
  {
    assert Le(s[i], s[j], len);
  }
}
