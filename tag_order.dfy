/**
 * How the render transform orders the parent's tags: `uasort` with the manual
 * comparator when a manual order is configured, `natsort` otherwise, and
 * `array_reverse` with keys preserved when reversal is on. Both sorts are
 * modelled as the stable insertion sort of PHP 8 over the entries' texts.
 */
module TagOrder {
  import opened Wrappers
  import opened Php

  /** A three-way comparison on texts: `strnatcmp`, or the manual comparator. */
  type Comparator = (string, string) -> int

  /** `cmp(a, b) > 0` and `cmp(b, a) > 0` never hold together. */
  ghost predicate Antisymmetric(cmp: Comparator) {
    forall a, b :: cmp(a, b) > 0 ==> cmp(b, a) < 0
  }

  /** "Not after" is transitive. */
  ghost predicate Transitive(cmp: Comparator) {
    forall a, b, c :: cmp(a, b) <= 0 && cmp(b, c) <= 0 ==> cmp(a, c) <= 0
  }

  /** Each entry's text is not after the next one's. */
  ghost predicate AdjacentSorted(r: Assoc<string>, cmp: Comparator) {
    forall i :: 0 < i < |r| ==> cmp(r[i - 1].1, r[i].1) <= 0
  }

  /** Every entry's text is not after any later entry's. */
  ghost predicate Sorted(r: Assoc<string>, cmp: Comparator) {
    forall i, j :: 0 <= i < j < |r| ==> cmp(r[i].1, r[j].1) <= 0
  }

  // ---------------------------------------------------------------------------
  // The manual comparator
  // ---------------------------------------------------------------------------

  /** `array_map('strtolower', array_map('trim', explode(',', $manual)))` */
  function ManualOrder(manual: string): (order: seq<string>)
    ensures |order| == |Explode(',', manual)|
    ensures forall i :: 0 <= i < |order| ==> order[i] == ToLower(Trim(Explode(',', manual)[i]))
  {
    var parts := Explode(',', manual);
    seq(|parts|, i requires 0 <= i < |parts| => ToLower(Trim(parts[i])))
  }

  /** `array_search($x, $order)`: the first position holding `x`, or `false`. */
  function Search(order: seq<string>, x: string): (r: Option<nat>)
    ensures r.None? <==> x !in order
    ensures r.Some? ==> r.value < |order| && order[r.value] == x && x !in order[..r.value]
  {
    if order == [] then None
    else if order[0] == x then Some(0)
    else
      var r := Search(order[1..], x);
      if r.None? then None
      else
        assert order[..r.value + 1] == [order[0]] + order[1..][..r.value];
        Some(r.value + 1)
  }

  /** Where a text stands in the manual order, compared in lower case. */
  function Rank(order: seq<string>, t: string): Option<nat> {
    Search(order, ToLower(t))
  }

  /** The comparator closure given to `uasort`. */
  function ManualCompare(order: seq<string>, natcmp: Comparator, a: string, b: string): int {
    var iA := Rank(order, a);
    var iB := Rank(order, b);
    if iA.Some? && iB.Some? then iA.value - iB.value
    else if iA.Some? then -1
    else if iB.Some? then 1
    else natcmp(a, b)
  }

  function Manual(order: seq<string>, natcmp: Comparator): Comparator {
    (a, b) => ManualCompare(order, natcmp, a, b)
  }

  /** When `strnatcmp` is antisymmetric and transitive, so is the manual comparator. */
  lemma ManualIsOrder(order: seq<string>, natcmp: Comparator)
    requires Antisymmetric(natcmp) && Transitive(natcmp)
    ensures Antisymmetric(Manual(order, natcmp)) && Transitive(Manual(order, natcmp))
  {
    var m := Manual(order, natcmp);
    forall a, b | m(a, b) > 0 ensures m(b, a) < 0 {
      if Rank(order, a).None? && Rank(order, b).None? {
        assert natcmp(a, b) > 0;
      }
    }
    forall a, b, c | m(a, b) <= 0 && m(b, c) <= 0 ensures m(a, c) <= 0 {
      if Rank(order, a).None? {
        assert natcmp(a, b) <= 0 && natcmp(b, c) <= 0;
      }
    }
  }

  /**
   * In a list sorted by the manual comparator, listed texts come first, in
   * the order of their first positions in the list.
   */
  lemma ManualSortedOrder(order: seq<string>, natcmp: Comparator, r: Assoc<string>, i: nat, j: nat)
    requires Sorted(r, Manual(order, natcmp)) && i < j < |r|
    ensures Rank(order, r[j].1).Some? ==> Rank(order, r[i].1).Some?
    ensures Rank(order, r[j].1).Some? ==> Rank(order, r[i].1).value <= Rank(order, r[j].1).value
  {
    assert Manual(order, natcmp)(r[i].1, r[j].1) <= 0;
  }

  // ---------------------------------------------------------------------------
  // The sort
  // ---------------------------------------------------------------------------

  /** One insertion: `e` goes after the last entry that is not after it. */
  function Insert(r: Assoc<string>, e: (string, string), cmp: Comparator): (s: Assoc<string>)
    ensures |s| == |r| + 1
    ensures s[|s| - 1] == e || (r != [] && s[|s| - 1] == r[|r| - 1])
  {
    if r == [] then [e]
    else if cmp(r[|r| - 1].1, e.1) > 0 then Insert(r[..|r| - 1], e, cmp) + [r[|r| - 1]]
    else r + [e]
  }

  /** The sorted entries, stable for entries that compare equal. */
  function InsertionSort(a: Assoc<string>, cmp: Comparator): (s: Assoc<string>)
    ensures |s| == |a|
  {
    if a == [] then []
    else Insert(InsertionSort(a[..|a| - 1], cmp), a[|a| - 1], cmp)
  }

  lemma {:induction false} InsertPermutes(r: Assoc<string>, e: (string, string), cmp: Comparator)
    ensures multiset(Insert(r, e, cmp)) == multiset(r) + multiset{e}
  {
    if r != [] && cmp(r[|r| - 1].1, e.1) > 0 {
      var n := |r| - 1;
      InsertPermutes(r[..n], e, cmp);
      assert r == r[..n] + [r[n]];
    }
  }

  /** Sorting only reorders: every key and its text are kept, as often as before. */
  lemma {:induction false} SortPermutes(a: Assoc<string>, cmp: Comparator)
    ensures multiset(InsertionSort(a, cmp)) == multiset(a)
  {
    if a != [] {
      var n := |a| - 1;
      SortPermutes(a[..n], cmp);
      InsertPermutes(InsertionSort(a[..n], cmp), a[n], cmp);
      assert a == a[..n] + [a[n]];
    }
  }

  lemma {:induction false} InsertKeepsOrder(r: Assoc<string>, e: (string, string), cmp: Comparator)
    requires Antisymmetric(cmp) && AdjacentSorted(r, cmp)
    ensures AdjacentSorted(Insert(r, e, cmp), cmp)
  {
    if r != [] && cmp(r[|r| - 1].1, e.1) > 0 {
      var n := |r| - 1;
      var front := r[..n];
      assert AdjacentSorted(front, cmp) by {
        forall i | 0 < i < |front| ensures cmp(front[i - 1].1, front[i].1) <= 0 {
          assert front[i - 1] == r[i - 1] && front[i] == r[i];
        }
      }
      InsertKeepsOrder(front, e, cmp);
      var s := Insert(front, e, cmp);
      assert cmp(e.1, r[n].1) < 0;
      assert n > 0 ==> cmp(r[n - 1].1, r[n].1) <= 0;
      assert cmp(s[|s| - 1].1, r[n].1) <= 0;
    }
  }

  /** With an antisymmetric comparator, each entry is not after the next. */
  lemma {:induction false} SortOrders(a: Assoc<string>, cmp: Comparator)
    requires Antisymmetric(cmp)
    ensures AdjacentSorted(InsertionSort(a, cmp), cmp)
  {
    if a != [] {
      SortOrders(a[..|a| - 1], cmp);
      InsertKeepsOrder(InsertionSort(a[..|a| - 1], cmp), a[|a| - 1], cmp);
    }
  }

  /** With a transitive comparator as well, no entry is after a later one. */
  lemma {:induction false} AdjacentIsSorted(r: Assoc<string>, cmp: Comparator)
    requires Transitive(cmp) && AdjacentSorted(r, cmp)
    ensures Sorted(r, cmp)
  {
    if |r| > 1 {
      var n := |r| - 1;
      var front := r[..n];
      assert AdjacentSorted(front, cmp) by {
        forall i | 0 < i < |front| ensures cmp(front[i - 1].1, front[i].1) <= 0 {
          assert front[i - 1] == r[i - 1] && front[i] == r[i];
        }
      }
      AdjacentIsSorted(front, cmp);
      forall i, j | 0 <= i < j < |r| ensures cmp(r[i].1, r[j].1) <= 0 {
        if j < n {
          assert front[i] == r[i] && front[j] == r[j];
        } else if i < n - 1 {
          assert front[i] == r[i] && front[n - 1] == r[n - 1];
          assert cmp(r[i].1, r[n - 1].1) <= 0;
        }
      }
    }
  }

  /**
   * `uasort` / `natsort`: stable insertion sort of the entries by text, one
   * entry at a time, each moved left past the entries that are after it.
   */
  method Sort(a: Assoc<string>, cmp: Comparator) returns (r: Assoc<string>)
    ensures r == InsertionSort(a, cmp)
    ensures multiset(r) == multiset(a)
  {
    r := [];
    for i := 0 to |a|
      invariant r == InsertionSort(a[..i], cmp)
    {
      assert a[..i + 1][..i] == a[..i];
      var e := a[i];
      var k := InsertPosition(r, e, cmp);
      InsertAt(r, e, cmp, k);
      r := r[..k] + [e] + r[k..];
    }
    assert a[..|a|] == a;
    SortPermutes(a, cmp);
  }

  /** The scan from the right: the place just after the last entry that is not after `e`. */
  method InsertPosition(r: Assoc<string>, e: (string, string), cmp: Comparator) returns (k: nat)
    ensures k <= |r|
    ensures forall j :: k <= j < |r| ==> cmp(r[j].1, e.1) > 0
    ensures k == 0 || cmp(r[k - 1].1, e.1) <= 0
  {
    k := |r|;
    while k > 0 && cmp(r[k - 1].1, e.1) > 0
      invariant 0 <= k <= |r|
      invariant forall j :: k <= j < |r| ==> cmp(r[j].1, e.1) > 0
    {
      k := k - 1;
    }
  }

  /** Insertion puts `e` right after the last entry that is not after it. */
  lemma {:induction false} InsertAt(r: Assoc<string>, e: (string, string), cmp: Comparator, k: nat)
    requires k <= |r|
    requires forall j :: k <= j < |r| ==> cmp(r[j].1, e.1) > 0
    requires k == 0 || cmp(r[k - 1].1, e.1) <= 0
    ensures Insert(r, e, cmp) == r[..k] + [e] + r[k..]
  {
    if k < |r| {
      var n := |r| - 1;
      InsertAt(r[..n], e, cmp, k);
      assert r[..n][..k] == r[..k];
      assert r[k..] == r[k..n] + [r[n]];
    }
  }

  // ---------------------------------------------------------------------------
  // Reversal
  // ---------------------------------------------------------------------------

  /** `array_reverse($tags, true)`: the same entries, last first. */
  function Reverse(a: Assoc<string>): (r: Assoc<string>)
    ensures |r| == |a|
    ensures forall i :: 0 <= i < |a| ==> r[i] == a[|a| - 1 - i]
  {
    if a == [] then [] else [a[|a| - 1]] + Reverse(a[..|a| - 1])
  }

  /** Reversal only reorders, and undoing it gives the sorted order back. */
  lemma {:induction false} ReversePermutes(a: Assoc<string>)
    ensures multiset(Reverse(a)) == multiset(a)
    ensures Reverse(Reverse(a)) == a
  {
    ReverseMultiset(a);
    ReverseTwice(a);
  }

  lemma {:induction false} ReverseMultiset(a: Assoc<string>)
    ensures multiset(Reverse(a)) == multiset(a)
  {
    if a != [] {
      var n := |a| - 1;
      var front := a[..n];
      ReverseMultiset(front);
      assert a == front + [a[n]];
      calc {
        multiset(Reverse(a));
        multiset([a[n]] + Reverse(front));
        multiset{a[n]} + multiset(Reverse(front));
        multiset{a[n]} + multiset(front);
        multiset(front + [a[n]]);
      }
    }
  }

  lemma ReverseTwice(a: Assoc<string>)
    ensures Reverse(Reverse(a)) == a
  {
    var r := Reverse(Reverse(a));
    assert |r| == |a|;
    forall i | 0 <= i < |a|
      ensures r[i] == a[i]
    {
      assert r[i] == Reverse(a)[|a| - 1 - i];
    }
  }
}
