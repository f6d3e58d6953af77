/**
 * Ordering suggestions by total value, highest first, stably: suggestions of
 * equal total value keep the order they were found in.
 */
module Ranking {

  import opened SuggestionDto

  /** Every suggestion is worth at least as much as every later one. */
  predicate SortedByValueDesc(s: seq<ProductionSuggestion>)
  {
    forall i, j :: 0 <= i < j < |s| ==> s[i].totalValue >= s[j].totalValue
  }

  /** The suggestions of `s` whose total value is exactly `v`, in their order in `s`. */
  function WithValue(s: seq<ProductionSuggestion>, v: real): seq<ProductionSuggestion>
  {
    if s == [] then []
    else (if s[0].totalValue == v then [s[0]] else []) + WithValue(s[1..], v)
  }

  /** Puts `x` behind every suggestion of `s` worth at least as much as `x`. */
  function InsertByValue(x: ProductionSuggestion, s: seq<ProductionSuggestion>): seq<ProductionSuggestion>
  {
    if s == [] then [x]
    else if s[0].totalValue >= x.totalValue then [s[0]] + InsertByValue(x, s[1..])
    else [x] + s
  }

  /** Stable insertion sort, descending by total value: each suggestion in turn is inserted into the sorted prefix. */
  function SortByValue(s: seq<ProductionSuggestion>): seq<ProductionSuggestion>
  {
    if s == [] then []
    else InsertByValue(s[|s| - 1], SortByValue(s[..|s| - 1]))
  }

  lemma {:induction false} WithValueAppend(a: seq<ProductionSuggestion>, b: seq<ProductionSuggestion>, v: real)
    ensures WithValue(a + b, v) == WithValue(a, v) + WithValue(b, v)
  {
    if a != [] {
      assert (a + b)[1..] == a[1..] + b;
      WithValueAppend(a[1..], b, v);
    } else {
      assert a + b == b;
    }
  }

  lemma {:induction false} WithValueNone(s: seq<ProductionSuggestion>, v: real)
    requires forall k :: 0 <= k < |s| ==> s[k].totalValue < v
    ensures WithValue(s, v) == []
  {
    if s != [] {
      WithValueNone(s[1..], v);
    }
  }

  lemma {:induction false} InsertPermutes(x: ProductionSuggestion, s: seq<ProductionSuggestion>)
    ensures multiset(InsertByValue(x, s)) == multiset(s) + multiset{x}
  {
    if s != [] && s[0].totalValue >= x.totalValue {
      InsertPermutes(x, s[1..]);
      assert s == [s[0]] + s[1..];
    }
  }

  lemma {:induction false} InsertKeepsSorted(x: ProductionSuggestion, s: seq<ProductionSuggestion>)
    requires SortedByValueDesc(s)
    ensures SortedByValueDesc(InsertByValue(x, s))
  {
    if s != [] && s[0].totalValue >= x.totalValue {
      InsertKeepsSorted(x, s[1..]);
      InsertPermutes(x, s[1..]);
      var r := InsertByValue(x, s[1..]);
      forall k | 0 <= k < |r|
        ensures s[0].totalValue >= r[k].totalValue
      {
        assert r[k] in multiset(s[1..]) + multiset{x};
      }
    }
  }

  lemma WithValueCons(a: ProductionSuggestion, r: seq<ProductionSuggestion>, v: real)
    ensures WithValue([a] + r, v) == (if a.totalValue == v then [a] else []) + WithValue(r, v)
  {
    assert ([a] + r)[1..] == r;
  }

  lemma {:induction false} InsertKeepsEqualValueOrder(x: ProductionSuggestion, s: seq<ProductionSuggestion>, v: real)
    requires SortedByValueDesc(s)
    ensures WithValue(InsertByValue(x, s), v) == WithValue(s, v) + (if x.totalValue == v then [x] else [])
  {
    var own := if x.totalValue == v then [x] else [];
    if s == [] {
      assert InsertByValue(x, s) == [x] + [];
      WithValueCons(x, [], v);
    } else if s[0].totalValue >= x.totalValue {
      var head := if s[0].totalValue == v then [s[0]] else [];
      var r := InsertByValue(x, s[1..]);
      InsertKeepsEqualValueOrder(x, s[1..], v);
      assert InsertByValue(x, s) == [s[0]] + r;
      WithValueCons(s[0], r, v);
      assert WithValue(s, v) == head + WithValue(s[1..], v);
      assert WithValue(InsertByValue(x, s), v) == head + (WithValue(s[1..], v) + own);
    } else {
      assert InsertByValue(x, s) == [x] + s;
      WithValueCons(x, s, v);
      if x.totalValue == v {
        WithValueNone(s, v);
      }
    }
  }

  /** The sorted result holds exactly the suggestions of the input. */
  lemma {:induction false} SortByValuePermutes(s: seq<ProductionSuggestion>)
    ensures multiset(SortByValue(s)) == multiset(s)
  {
    if s != [] {
      SortByValuePermutes(s[..|s| - 1]);
      InsertPermutes(s[|s| - 1], SortByValue(s[..|s| - 1]));
      assert s == s[..|s| - 1] + [s[|s| - 1]];
    }
  }

  /** The sorted result is non-increasing in total value. */
  lemma {:induction false} SortByValueSorted(s: seq<ProductionSuggestion>)
    ensures SortedByValueDesc(SortByValue(s))
  {
    if s != [] {
      SortByValueSorted(s[..|s| - 1]);
      InsertKeepsSorted(s[|s| - 1], SortByValue(s[..|s| - 1]));
    }
  }

  /** Stability: suggestions of equal total value come out in the order they went in. */
  lemma {:induction false} SortByValueStable(s: seq<ProductionSuggestion>, v: real)
    ensures WithValue(SortByValue(s), v) == WithValue(s, v)
  {
    if s != [] {
      var init, last := s[..|s| - 1], s[|s| - 1];
      SortByValueStable(init, v);
      SortByValueSorted(init);
      InsertKeepsEqualValueOrder(last, SortByValue(init), v);
      assert SortByValue(s) == InsertByValue(last, SortByValue(init));
      assert s == init + [last];
      WithValueAppend(init, [last], v);
      assert [last][1..] == [];
      assert WithValue([last], v) == (if last.totalValue == v then [last] else []);
    }
  }

  lemma {:induction false} WithValueFirst(s: seq<ProductionSuggestion>)
    requires s != []
    ensures WithValue(s, s[0].totalValue) == [s[0]] + WithValue(s[1..], s[0].totalValue)
  {
  }

  lemma {:induction false} WithValueMember(s: seq<ProductionSuggestion>, v: real, x: ProductionSuggestion)
    requires x in WithValue(s, v)
    ensures x in s && x.totalValue == v
  {
    if s != [] {
      if x != s[0] || s[0].totalValue != v {
        WithValueMember(s[1..], v, x);
      }
    }
  }

  lemma {:induction false} WithValueNonEmpty(s: seq<ProductionSuggestion>, k: nat)
    requires k < |s|
    ensures WithValue(s, s[k].totalValue) != []
  {
    if k > 0 {
      WithValueNonEmpty(s[1..], k - 1);
      WithValueAppend([s[0]], s[1..], s[k].totalValue);
      assert [s[0]] + s[1..] == s;
    }
  }

  /**
   * A stable descending sort has only one possible outcome: two sequences that
   * are both sorted and agree on the order of every equal-value group are equal.
   */
  lemma {:induction false} StableSortUnique(a: seq<ProductionSuggestion>, b: seq<ProductionSuggestion>)
    requires SortedByValueDesc(a) && SortedByValueDesc(b)
    requires forall v :: WithValue(a, v) == WithValue(b, v)
    ensures a == b
  {
    if a == [] {
    } else if b == [] {
      WithValueNonEmpty(a, 0);
      assert false;
    } else {
      var va, vb := a[0].totalValue, b[0].totalValue;
      WithValueNonEmpty(b, 0);
      WithValueMember(a, vb, WithValue(a, vb)[0]);
      WithValueNonEmpty(a, 0);
      WithValueMember(b, va, WithValue(b, va)[0]);
      assert va == vb;
      WithValueFirst(a);
      WithValueFirst(b);
      assert a[0] == b[0];
      forall v
        ensures WithValue(a[1..], v) == WithValue(b[1..], v)
      {
        var head := if va == v then [a[0]] else [];
        assert WithValue(a, v) == head + WithValue(a[1..], v);
        assert WithValue(b, v) == head + WithValue(b[1..], v);
        assert WithValue(a[1..], v) == (head + WithValue(a[1..], v))[|head|..];
        assert WithValue(b[1..], v) == (head + WithValue(b[1..], v))[|head|..];
      }
      StableSortUnique(a[1..], b[1..]);
      assert a == [a[0]] + a[1..] && b == [b[0]] + b[1..];
    }
  }

  /**
   * Whatever stable sort the runtime uses, a sorted sequence that keeps every
   * equal-value group of `s` in order is `SortByValue(s)`.
   */
  lemma StableSortIsSortByValue(s: seq<ProductionSuggestion>, t: seq<ProductionSuggestion>)
    requires SortedByValueDesc(t)
    requires forall v :: WithValue(t, v) == WithValue(s, v)
    ensures t == SortByValue(s)
  {
    SortByValueSorted(s);
    forall v
      ensures WithValue(t, v) == WithValue(SortByValue(s), v)
    {
      SortByValueStable(s, v);
    }
    StableSortUnique(t, SortByValue(s));
  }

  lemma {:induction false} InsertAt(x: ProductionSuggestion, s: seq<ProductionSuggestion>, j: nat)
    requires SortedByValueDesc(s)
    requires j <= |s|
    requires j > 0 ==> s[j - 1].totalValue >= x.totalValue
    requires forall k :: j <= k < |s| ==> s[k].totalValue < x.totalValue
    ensures InsertByValue(x, s) == s[..j] + [x] + s[j..]
  {
    if j == 0 {
    } else {
      assert s[0].totalValue >= s[j - 1].totalValue;
      InsertAt(x, s[1..], j - 1);
      assert s[1..][..j - 1] == s[1..j];
      assert s[1..][j - 1..] == s[j..];
      assert s[..j] == [s[0]] + s[1..j];
    }
  }

  /**
   * The inner loop of one insertion step: moves the suggestions of `a[..i]`
   * worth less than `x` one place right and returns the gap left for `x`.
   */
  method ShiftCheaperRight(a: array<ProductionSuggestion>, i: nat, x: ProductionSuggestion) returns (j: nat)
    requires i < a.Length
    modifies a
    ensures j <= i
    ensures forall k :: 0 <= k < j ==> a[k] == old(a[k])
    ensures forall k :: j < k <= i ==> a[k] == old(a[k - 1])
    ensures forall k :: i < k < a.Length ==> a[k] == old(a[k])
    ensures forall k :: j <= k < i ==> old(a[k]).totalValue < x.totalValue
    ensures j > 0 ==> old(a[j - 1]).totalValue >= x.totalValue
  {
    j := i;
    while j > 0 && a[j - 1].totalValue < x.totalValue
      invariant j <= i
      invariant forall k :: 0 <= k < j ==> a[k] == old(a[k])
      invariant forall k :: j < k <= i ==> a[k] == old(a[k - 1])
      invariant forall k :: i < k < a.Length ==> a[k] == old(a[k])
      invariant forall k :: j <= k < i ==> old(a[k]).totalValue < x.totalValue
    {
      a[j] := a[j - 1];
      j := j - 1;
    }
  }

  /**
   * One step of the in-place sort: with `a[..i]` already sorted, shifts the
   * cheaper suggestions of that prefix one place right and drops `a[i]` into the gap.
   */
  method InsertIntoPrefix(a: array<ProductionSuggestion>, i: nat)
    requires i < a.Length
    requires SortedByValueDesc(a[..i])
    modifies a
    ensures a[..i + 1] == InsertByValue(old(a[i]), old(a[..i]))
    ensures a[i + 1..] == old(a[i + 1..])
  {
    ghost var sorted := a[..i];
    var x := a[i];
    var j := ShiftCheaperRight(a, i, x);
    a[j] := x;
    InsertAt(x, sorted, j);
    ShiftedInsert(a[..i + 1], sorted, x, j);
  }

  lemma ShiftedInsert(t: seq<ProductionSuggestion>, s: seq<ProductionSuggestion>, x: ProductionSuggestion, j: nat)
    requires j <= |s| && |t| == |s| + 1
    requires forall k :: 0 <= k < j ==> t[k] == s[k]
    requires t[j] == x
    requires forall k :: j < k < |t| ==> t[k] == s[k - 1]
    ensures t == s[..j] + [x] + s[j..]
  {
  }

  /** The in-place sort of the suggestion list, as a stable insertion sort. */
  method SortByTotalValueDesc(a: array<ProductionSuggestion>)
    modifies a
    ensures a[..] == SortByValue(old(a[..]))
  {
    ghost var input := a[..];
    var i := 0;
    while i < a.Length
      invariant 0 <= i <= a.Length
      invariant a[..i] == SortByValue(input[..i])
      invariant a[i..] == input[i..]
    {
      SortByValueSorted(input[..i]);
      assert a[i] == input[i];
      InsertIntoPrefix(a, i);
      assert input[..i + 1][..i] == input[..i];
      i := i + 1;
    }
    assert a[..] == a[..a.Length];
    assert input == input[..a.Length];
  }
}
