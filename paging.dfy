/**
 * The page arithmetic shared by both scripts: the items-per-page fallback,
 * the page an item falls on, and the number of pages.
 */
module Paging {
  import opened Wrappers

  /**
   * `parseInt(container.getAttribute('data-items-per-page')) || 6`: a missing,
   * unparsable or zero attribute falls back to six items per page.
   */
  function ItemsPerPage(attr: Option<nat>): (ipp: nat)
    ensures ipp >= 1
    ensures attr.Some? && attr.value != 0 ==> ipp == attr.value
    ensures attr.None? || attr.value == 0 ==> ipp == 6
  {
    if attr.Some? && attr.value != 0 then attr.value else 6
  }

  /** `Math.floor(index / ipp) + 1`: the 1-based page an item with 0-based `index` falls on. */
  function PageOf(index: nat, ipp: nat): nat
    requires ipp >= 1
  {
    index / ipp + 1
  }

  /** `Math.ceil(count / ipp)` for a non-negative count and a positive page size. */
  function PageCount(count: nat, ipp: nat): nat
    requires ipp >= 1
  {
    (count + ipp - 1) / ipp
  }

  lemma MulMonotone(a: int, b: int, d: int)
    requires a <= b && d >= 0
    ensures a * d <= b * d
  {
    assert b * d - a * d == (b - a) * d;
  }

  /** The quotient is the unique `q` with `q * d <= n < (q + 1) * d`. */
  lemma QuotientUnique(n: int, d: int, q: int)
    requires n >= 0 && d >= 1
    ensures n / d == q <==> q * d <= n < q * d + d
  {
    var r := n / d;
    assert r * d <= n < r * d + d;
    if q * d <= n < q * d + d {
      if r < q {
        MulMonotone(r + 1, q, d);
      } else if r > q {
        MulMonotone(q + 1, r, d);
      }
    }
  }

  /** An item lies on page `p` exactly when its index is in `[(p - 1) * ipp, p * ipp)`. */
  lemma PageOfIff(index: nat, ipp: nat, p: int)
    requires ipp >= 1
    ensures PageOf(index, ipp) == p <==> 1 <= p && (p - 1) * ipp <= index < p * ipp
  {
    QuotientUnique(index, ipp, p - 1);
  }

  /** An item lies on page `p` or an earlier one exactly when its index is below `p * ipp`. */
  lemma PageAtMost(index: nat, ipp: nat, p: int)
    requires ipp >= 1
    ensures PageOf(index, ipp) <= p <==> index < p * ipp
  {
    var q := index / ipp;
    QuotientUnique(index, ipp, q);
    if q + 1 <= p {
      MulMonotone(q + 1, p, ipp);
      assert (q + 1) * ipp == q * ipp + ipp;
    } else {
      MulMonotone(p, q, ipp);
    }
  }

  /** Later items never fall on earlier pages. */
  lemma PageOfMonotone(i: nat, j: nat, ipp: nat)
    requires ipp >= 1 && i <= j
    ensures PageOf(i, ipp) <= PageOf(j, ipp)
  {
    PageAtMost(i, ipp, PageOf(j, ipp));
    PageOfIff(j, ipp, PageOf(j, ipp));
  }

  /** `PageCount` is the ceiling: the smallest number of pages that holds `count` items. */
  lemma PageCountIsCeiling(count: nat, ipp: nat)
    requires ipp >= 1
    ensures count <= PageCount(count, ipp) * ipp
    ensures count > 0 ==> (PageCount(count, ipp) - 1) * ipp < count
    ensures PageCount(count, ipp) == 0 <==> count == 0
  {
    var c := PageCount(count, ipp);
    QuotientUnique(count + ipp - 1, ipp, c);
  }

  /** More than one page exactly when the items do not fit on the first. */
  lemma MoreThanOnePage(count: nat, ipp: nat)
    requires ipp >= 1
    ensures PageCount(count, ipp) > 1 <==> count > ipp
  {
    var n := count + ipp - 1;
    if count > ipp {
      QuotientUnique(n, ipp, n / ipp);
      if n / ipp <= 1 {
        MulMonotone(n / ipp, 1, ipp);
      }
    } else {
      QuotientUnique(n, ipp, 1);
      QuotientUnique(n, ipp, 0);
    }
  }

  /** Every item falls on a page between 1 and the page count. */
  lemma PageOfInRange(index: nat, count: nat, ipp: nat)
    requires ipp >= 1 && index < count
    ensures 1 <= PageOf(index, ipp) <= PageCount(count, ipp)
  {
    PageCountIsCeiling(count, ipp);
    PageAtMost(index, ipp, PageCount(count, ipp));
  }

  /** Every page from 1 to the page count holds at least its first item, at index `(p - 1) * ipp`. */
  lemma EveryPageInhabited(count: nat, ipp: nat, p: int)
    requires ipp >= 1 && 1 <= p <= PageCount(count, ipp)
    ensures 0 <= (p - 1) * ipp < count
    ensures PageOf((p - 1) * ipp, ipp) == p
  {
    PageCountIsCeiling(count, ipp);
    assert (PageCount(count, ipp) - p) * ipp >= 0;
    PageOfIff((p - 1) * ipp, ipp, p);
  }
}
