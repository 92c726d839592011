/** `_getnumber`: give each entry of a list its running occurrence number,
    so that repeated atom types are labelled 1, 2, 3, ... in order of
    appearance. */
module Labels {

  /** How often x occurs in s[..n]. */
  function CountPrefix<T(==)>(s: seq<T>, n: nat, x: T): (c: nat)
    requires n <= |s|
    ensures c == multiset(s[..n])[x]
    ensures c <= n
  {
    if n == 0 then 0
    else
      assert s[..n] == s[..n - 1] + [s[n - 1]];
      CountPrefix(s, n - 1, x) + (if s[n - 1] == x then 1 else 0)
  }

  /** The label of entry i: how many of entries 0..i equal entry i. */
  function Label<T(==)>(s: seq<T>, i: nat): (c: nat)
    requires i < |s|
    ensures 1 <= c <= i + 1
  {
    CountPrefix(s, i + 1, s[i])
  }

  /** `_getnumber`, writing the labels into a fresh int array, one per entry. */
  method GetNumber<T(==)>(arr: seq<T>) returns (res: array<int>)
    ensures fresh(res) && res.Length == |arr|
    ensures forall i :: 0 <= i < |arr| ==> res[i] == Label(arr, i)
  {
    res := new int[|arr|](_ => 1);
    for i := 0 to |arr|
      invariant forall j :: 0 <= j < i ==> res[j] == Label(arr, j)
    {
      res[i] := CountPrefix(arr, i + 1, arr[i]);
    }
  }

  /** A later equal entry always carries a larger label; so no two entries
      share both value and label. */
  lemma {:induction false} LabelsIncrease<T>(s: seq<T>, i: nat, j: nat)
    requires i < j < |s| && s[i] == s[j]
    ensures Label(s, i) < Label(s, j)
  {
    CountGrows(s, i + 1, j + 1, s[i]);
  }

  lemma {:induction false} CountGrows<T>(s: seq<T>, m: nat, n: nat, x: T)
    requires 0 < m <= n <= |s| && s[n - 1] == x
    ensures m < n ==> CountPrefix(s, m, x) < CountPrefix(s, n, x)
  {
    if m < n {
      CountMonotone(s, m, n - 1, x);
    }
  }

  lemma {:induction false} CountMonotone<T>(s: seq<T>, m: nat, n: nat, x: T)
    requires m <= n <= |s|
    ensures CountPrefix(s, m, x) <= CountPrefix(s, n, x)
    decreases n - m
  {
    if m < n {
      CountMonotone(s, m, n - 1, x);
    }
  }

  /** Between two consecutive occurrences of a value the label goes up by
      exactly one, and the first occurrence is labelled 1: the labels of a
      value are 1, 2, 3, ... in order of appearance. */
  lemma {:induction false} LabelsConsecutive<T>(s: seq<T>, i: nat, j: nat)
    requires i < j < |s| && s[i] == s[j]
    requires forall m :: i < m < j ==> s[m] != s[i]
    ensures Label(s, j) == Label(s, i) + 1
  {
    CountUnchanged(s, i + 1, j, s[i]);
  }

  lemma {:induction false} CountUnchanged<T>(s: seq<T>, m: nat, n: nat, x: T)
    requires m <= n <= |s|
    requires forall k :: m <= k < n ==> s[k] != x
    ensures CountPrefix(s, n, x) == CountPrefix(s, m, x)
    decreases n - m
  {
    if m < n {
      CountUnchanged(s, m, n - 1, x);
    }
  }

  lemma {:induction false} FirstLabel<T>(s: seq<T>, i: nat)
    requires i < |s|
    requires forall m :: 0 <= m < i ==> s[m] != s[i]
    ensures Label(s, i) == 1
  {
    CountUnchanged(s, 0, i, s[i]);
  }
}
