/**
 * The pagination script: numbered (or previous/next) pages, the load-more
 * button, and the switch to a load-more presentation over the filtered items
 * after a filter is applied. The state its closures keep is held in one
 * `Pagination` object per container.
 */
module PaginationScript {
  import opened Wrappers
  import opened Dom
  import opened Paging

  /** Strictly increasing indices, as a list of grid items in document order gives them. */
  predicate Increasing(v: seq<nat>) {
    forall j, j' :: 0 <= j < j' < |v| ==> v[j] < v[j']
  }

  predicate Within(v: seq<nat>, n: nat) {
    forall j :: 0 <= j < |v| ==> v[j] < n
  }

  // ---------------------------------------------------------------------------
  // What the loops over the grid items write
  // ---------------------------------------------------------------------------

  /** `showFirstPage`: items before index `ipp` are displayed, the rest get `display: none`. */
  function FirstPageStyles(s: seq<Style>, ipp: nat): seq<Style> {
    seq(|s|, i requires 0 <= i < |s| => s[i].(displayNone := i >= ipp))
  }

  /** `showPageItems(page)`: the items of that page by raw index are displayed, the rest get `display: none`. */
  function PageStyles(s: seq<Style>, ipp: nat, page: int): seq<Style>
    requires ipp >= 1
  {
    seq(|s|, i requires 0 <= i < |s| => s[i].(displayNone := PageOf(i, ipp) != page))
  }

  /** `showItemsUpToPage(page)`: hidden items on that page or an earlier one are displayed; nothing is hidden. */
  function RevealStyles(s: seq<Style>, ipp: nat, page: int): seq<Style>
    requires ipp >= 1
  {
    seq(|s|, i requires 0 <= i < |s| => if PageOf(i, ipp) <= page then s[i].(displayNone := false) else s[i])
  }

  /** The load-more reset: every item whose raw page is after the first gets `display: none`. */
  function HideLaterStyles(s: seq<Style>, ipp: nat): seq<Style>
    requires ipp >= 1
  {
    seq(|s|, i requires 0 <= i < |s| => if PageOf(i, ipp) > 1 then s[i].(displayNone := true) else s[i])
  }

  /**
   * `showFilteredItemsUpToPage`, one filtered item at a time: the `j`-th item of
   * `visible` is displayed when `j < limit` and hidden otherwise.
   */
  function PrefixStyles(s: seq<Style>, visible: seq<nat>, limit: int): (r: seq<Style>)
    requires Within(visible, |s|)
    ensures |r| == |s|
  {
    if visible == [] then s
    else
      var n := |visible| - 1;
      var r := PrefixStyles(s, visible[..n], limit);
      r[visible[n] := r[visible[n]].(displayNone := n >= limit)]
  }

  /**
   * Over a list of distinct items, `PrefixStyles` displays exactly the first
   * `limit` of them, hides the others, and touches no item outside the list.
   */
  lemma {:induction false} PrefixStylesAt(s: seq<Style>, visible: seq<nat>, limit: int)
    requires Within(visible, |s|) && Increasing(visible)
    ensures forall j :: 0 <= j < |visible| ==> PrefixStyles(s, visible, limit)[visible[j]] == s[visible[j]].(displayNone := j >= limit)
    ensures forall i :: 0 <= i < |s| && i !in visible ==> PrefixStyles(s, visible, limit)[i] == s[i]
  {
    if visible != [] {
      var n := |visible| - 1;
      var v := visible[..n];
      PrefixStylesAt(s, v, limit);
      forall j | 0 <= j < n ensures visible[j] != visible[n] && v[j] == visible[j] {
      }
    }
  }

  /** The grid items whose `display` is not `none`, in grid order. */
  function DisplayedIndices(s: seq<Style>): (v: seq<nat>)
    ensures Increasing(v) && Within(v, |s|)
    ensures forall i :: 0 <= i < |s| ==> (i in v <==> !s[i].displayNone)
  {
    if s == [] then []
    else
      var n := |s| - 1;
      var v := DisplayedIndices(s[..n]);
      assert forall i :: 0 <= i < n ==> s[..n][i] == s[i];
      if !s[n].displayNone then v + [n] else v
  }

  /**
   * The numbered pages partition the items: each item falls on one page
   * between 1 and the page count, and `showPageItems` displays it on that
   * page and on no other.
   */
  lemma EachItemOnOnePage(s: seq<Style>, ipp: nat, i: nat)
    requires ipp >= 1 && i < |s|
    ensures 1 <= PageOf(i, ipp) <= PageCount(|s|, ipp)
    ensures forall p :: !PageStyles(s, ipp, p)[i].displayNone <==> p == PageOf(i, ipp)
  {
    PageOfInRange(i, |s|, ipp);
  }

  /** Once the load-more counter reaches the page count, every item is displayed. */
  lemma RevealedAllPages(s: seq<Style>, ipp: nat, page: int)
    requires ipp >= 1 && page >= PageCount(|s|, ipp)
    ensures forall i :: 0 <= i < |s| ==> !RevealStyles(s, ipp, page)[i].displayNone
  {
    forall i | 0 <= i < |s|
      ensures PageOf(i, ipp) <= page
    {
      PageOfInRange(i, |s|, ipp);
    }
  }

  /** A filtered load-more step whose limit reaches the list's length displays every filtered item. */
  lemma LastFilteredStepShowsAll(s: seq<Style>, visible: seq<nat>, limit: int)
    requires Within(visible, |s|) && Increasing(visible) && limit >= |visible|
    ensures forall j :: 0 <= j < |visible| ==> !PrefixStyles(s, visible, limit)[visible[j]].displayNone
  {
    PrefixStylesAt(s, visible, limit);
  }

  /** Page 1 by raw index displays exactly the first `ipp` items. */
  lemma FirstPageIsPrefix(s: seq<Style>, ipp: nat)
    requires ipp >= 1
    ensures forall i :: 0 <= i < |s| ==> (!PageStyles(s, ipp, 1)[i].displayNone <==> i < ipp)
  {
    forall i | 0 <= i < |s|
      ensures PageOf(i, ipp) == 1 <==> i < ipp
    {
      PageOfIff(i, ipp, 1);
    }
  }

  /** After the load-more reset no item past the first `ipp` is displayed. */
  lemma HideLaterBoundsDisplayed(s: seq<Style>, ipp: nat)
    requires ipp >= 1
    ensures forall i :: 0 <= i < |s| && !HideLaterStyles(s, ipp)[i].displayNone ==> i < ipp
  {
    forall i | 0 <= i < |s| && PageOf(i, ipp) <= 1
      ensures i < ipp
    {
      PageOfIff(i, ipp, 1);
    }
  }

  /** `updatePaginationUI`: a link is active exactly when its page number is the current page. */
  function ActiveLinks(links: seq<nat>, page: int): seq<bool> {
    seq(|links|, k requires 0 <= k < |links| => links[k] == page)
  }

  /** `createLoadMoreButton`: a new, displayed button over the filtered items. */
  function NewLoadMoreButton(count: nat, ipp: nat): (b: Button)
    requires ipp >= 1
    ensures b.shown && b.totalPages == PageCount(count, ipp)
  {
    Button(true, "Load More", PageCount(count, ipp))
  }

  /** `updateLoadMoreButton`: the text and `data-total-pages` it writes for `count` filtered items. */
  function UpdatedButton(b: Button, count: nat, ipp: nat): (r: Button)
    requires ipp >= 1
    ensures r.shown == b.shown && r.totalPages == PageCount(count, ipp)
    ensures r.text == (if count > ipp then "Load More " else "Load More")
  {
    MoreThanOnePage(count, ipp);
    var total := PageCount(count, ipp);
    b.(text := if total > 1 then "Load More " else "Load More", totalPages := total)
  }

  /** The load-more button `switchToLoadMoreStyle` leaves in the document: a new one, or the existing one shown and updated. */
  function FilteredButton(b: Option<Button>, count: nat, ipp: nat): (r: Button)
    requires ipp >= 1
    ensures r.shown && r.totalPages == PageCount(count, ipp)
  {
    if b.None? then NewLoadMoreButton(count, ipp) else UpdatedButton(b.value.(shown := true), count, ipp)
  }

  /** The pagination strategy `initPagination` chose from the markup, if it ran. */
  datatype Strategy = Unset | Numbered | Incremental

  /**
   * The listener `initLoadMoreForFiltered` attached to the load-more button
   * now in the document: the filtered items it reveals and its own page counter.
   */
  datatype FilteredReveal = FilteredReveal(visible: seq<nat>, page: int)

  class Pagination {
    const dom: Container
    var strategy: Strategy
    /** `currentPage` and `totalPages` of `initStandardPagination`. */
    var currentPage: int
    var totalPages: int
    /** `currentPage` and `totalPages` of `initLoadMorePagination`. */
    var revealedPage: int
    var revealTotal: int
    /** Set once a filter has switched to the load-more presentation; the original button's listener is then gone. */
    var filtered: Option<FilteredReveal>

    ghost predicate Valid()
      reads this, dom
    {
      && dom.Valid()
      && (strategy != Unset ==> dom.paginated)
      && (strategy == Numbered ==> currentPage >= 1)
      && (strategy == Incremental ==> revealedPage >= 1 && dom.controls.loadMore.Some?)
      && (filtered.Some? ==>
            && dom.controls.loadMore.Some?
            && Increasing(filtered.value.visible)
            && Within(filtered.value.visible, |dom.styles|)
            && filtered.value.page >= 1)
    }

    /** Neither strategy's counters moved. */
    twostate predicate CountersKept()
      reads this
    {
      && strategy == old(strategy) && currentPage == old(currentPage) && totalPages == old(totalPages)
      && revealedPage == old(revealedPage) && revealTotal == old(revealTotal)
    }

    /** The numbered pages' counter is a page that exists. */
    ghost predicate PageInRange()
      reads this
    {
      1 <= currentPage <= if totalPages < 1 then 1 else totalPages
    }

    /** Every page link names a page that exists, as the template renders them. */
    ghost predicate LinksInRange()
      reads this, dom
    {
      forall k :: 0 <= k < |dom.pageLinks| ==> dom.pageLinks[k] <= totalPages
    }

    /** The script has loaded; `initPagination` has not run yet. */
    constructor (dom: Container)
      requires dom.Valid()
      ensures Valid() && this.dom == dom
      ensures strategy == Unset && filtered == None
    {
      this.dom := dom;
      strategy := Unset;
      currentPage, totalPages, revealedPage, revealTotal := 1, 0, 1, 0;
      filtered := None;
    }

    /**
     * `initPagination` for this container: a list makes the numbered
     * strategy, otherwise a load-more button makes the incremental one; then
     * `showFirstPage`. A container without pagination is left alone.
     */
    method Init()
      requires Valid()
      modifies this, dom
      ensures Valid()
      ensures !dom.paginated ==> strategy == old(strategy) && dom.styles == old(dom.styles)
      ensures dom.paginated && dom.hasList ==>
        strategy == Numbered && currentPage == 1 && totalPages == dom.listTotalPages && PageInRange()
      ensures dom.paginated && !dom.hasList && dom.controls.loadMore.Some? ==>
        strategy == Incremental && revealedPage == 1 && revealTotal == dom.controls.loadMore.value.totalPages
      ensures dom.paginated && !dom.hasList && dom.controls.loadMore.None? ==> strategy == old(strategy)
      ensures dom.paginated ==> dom.styles == FirstPageStyles(old(dom.styles), dom.ItemsPerPage())
      ensures dom.paginated ==> forall i :: 0 <= i < |dom.styles| ==> (!dom.styles[i].displayNone <==> i < dom.ItemsPerPage())
      ensures filtered == old(filtered)
      ensures dom.controls == old(dom.controls) && dom.checked == old(dom.checked)
      ensures dom.allChecked == old(dom.allChecked) && dom.noResultsShown == old(dom.noResultsShown)
    {
      if !dom.paginated {
        return;
      }
      if dom.hasList {
        strategy := Numbered;
        currentPage := 1;
        totalPages := dom.listTotalPages;
      } else if dom.controls.loadMore.Some? {
        strategy := Incremental;
        revealedPage := 1;
        revealTotal := dom.controls.loadMore.value.totalPages;
      }
      ShowFirstPage();
    }

    /** `showFirstPage`: raw items `0 .. ipp - 1` are displayed, the others get `display: none`. */
    method ShowFirstPage()
      requires Valid()
      modifies dom
      ensures Valid()
      ensures dom.styles == FirstPageStyles(old(dom.styles), dom.ItemsPerPage())
      ensures dom.controls == old(dom.controls) && dom.checked == old(dom.checked)
      ensures dom.allChecked == old(dom.allChecked) && dom.noResultsShown == old(dom.noResultsShown)
    {
      var ipp := dom.ItemsPerPage();
      var s := dom.styles;
      for i := 0 to |s|
        invariant |s| == |dom.styles|
        invariant forall j :: 0 <= j < i ==> s[j] == dom.styles[j].(displayNone := j >= ipp)
        invariant forall j :: i <= j < |s| ==> s[j] == dom.styles[j]
      {
        s := s[i := s[i].(displayNone := i >= ipp)];
      }
      dom.styles := s;
    }

    // -------------------------------------------------------------------------
    // Numbered pages (`initStandardPagination`)
    // -------------------------------------------------------------------------

    /** A click on `.pagination-prev`: moves back only from a page after the first. */
    method ClickPrev()
      requires Valid()
      modifies this, dom
      ensures Valid()
      ensures strategy == Numbered && old(currentPage) > 1 ==> currentPage == old(currentPage) - 1
      ensures !(strategy == Numbered && old(currentPage) > 1) ==>
        currentPage == old(currentPage) && dom.styles == old(dom.styles) && dom.controls == old(dom.controls)
      ensures strategy == old(strategy) && totalPages == old(totalPages) && filtered == old(filtered)
      ensures strategy == Numbered && old(PageInRange()) ==> PageInRange()
    {
      if strategy == Numbered && currentPage > 1 {
        GoToPage(currentPage - 1);
      }
    }

    /** A click on `.pagination-next`: moves on only from a page before the last. */
    method ClickNext()
      requires Valid()
      modifies this, dom
      ensures Valid()
      ensures strategy == Numbered && old(currentPage) < totalPages ==> currentPage == old(currentPage) + 1
      ensures !(strategy == Numbered && old(currentPage) < totalPages) ==>
        currentPage == old(currentPage) && dom.styles == old(dom.styles) && dom.controls == old(dom.controls)
      ensures strategy == old(strategy) && totalPages == old(totalPages) && filtered == old(filtered)
      ensures strategy == Numbered && old(PageInRange()) ==> PageInRange()
    {
      if strategy == Numbered && currentPage < totalPages {
        GoToPage(currentPage + 1);
      }
    }

    /** A click on the `k`-th `.pagination-page` link: ignored when its number is 0 or the current page. */
    method ClickPageLink(k: nat)
      requires Valid() && k < |dom.pageLinks|
      modifies this, dom
      ensures Valid()
      ensures var page := dom.pageLinks[k];
        strategy == Numbered && page != 0 && page != old(currentPage) ==> currentPage == page
      ensures var page := dom.pageLinks[k];
        !(strategy == Numbered && page != 0 && page != old(currentPage)) ==>
          currentPage == old(currentPage) && dom.styles == old(dom.styles) && dom.controls == old(dom.controls)
      ensures strategy == old(strategy) && totalPages == old(totalPages) && filtered == old(filtered)
      ensures strategy == Numbered && old(PageInRange()) && LinksInRange() ==> PageInRange()
    {
      var page := dom.pageLinks[k];
      if strategy == Numbered && page != 0 && page != currentPage {
        GoToPage(page);
      }
    }

    /**
     * `goToPage(page)`: the counter moves, the link of that page alone is
     * active, prev/next are disabled at the ends, exactly the raw items of that
     * page are displayed, and the page info shows the page.
     */
    method GoToPage(page: int)
      requires Valid() && strategy == Numbered && page >= 1
      modifies this, dom
      ensures Valid()
      ensures currentPage == page
      ensures dom.styles == PageStyles(old(dom.styles), dom.ItemsPerPage(), page)
      ensures forall i :: 0 <= i < |dom.styles| ==> (!dom.styles[i].displayNone <==> PageOf(i, dom.ItemsPerPage()) == page)
      ensures forall k :: 0 <= k < |dom.pageLinks| ==> (dom.controls.activeLinks[k] <==> dom.pageLinks[k] == page)
      ensures dom.controls.prevDisabled == (page <= 1) && dom.controls.nextDisabled == (page >= totalPages)
      ensures dom.controls == old(dom.controls).(
        activeLinks := ActiveLinks(dom.pageLinks, page),
        prevDisabled := page <= 1,
        nextDisabled := page >= totalPages,
        pageInfo := if dom.hasPageInfo then page else old(dom.controls.pageInfo))
      ensures strategy == old(strategy) && totalPages == old(totalPages) && filtered == old(filtered)
      ensures revealedPage == old(revealedPage) && revealTotal == old(revealTotal)
      ensures dom.checked == old(dom.checked) && dom.allChecked == old(dom.allChecked)
      ensures dom.noResultsShown == old(dom.noResultsShown)
    {
      currentPage := page;
      UpdatePaginationUI();
      ShowPageItems(page);
      if dom.hasPageInfo {
        dom.controls := dom.controls.(pageInfo := currentPage);
      }
    }

    /** `updatePaginationUI` */
    method UpdatePaginationUI()
      requires Valid()
      modifies dom
      ensures Valid()
      ensures dom.controls == old(dom.controls).(
        activeLinks := ActiveLinks(dom.pageLinks, currentPage),
        prevDisabled := currentPage <= 1,
        nextDisabled := currentPage >= totalPages)
      ensures dom.styles == old(dom.styles) && dom.checked == old(dom.checked)
      ensures dom.allChecked == old(dom.allChecked) && dom.noResultsShown == old(dom.noResultsShown)
    {
      var active := dom.controls.activeLinks;
      for k := 0 to |dom.pageLinks|
        invariant |active| == |dom.pageLinks|
        invariant forall j :: 0 <= j < k ==> active[j] == (dom.pageLinks[j] == currentPage)
      {
        active := active[k := dom.pageLinks[k] == currentPage];
      }
      dom.controls := dom.controls.(activeLinks := active, prevDisabled := currentPage <= 1, nextDisabled := currentPage >= totalPages);
    }

    /** `showPageItems(page)`: picks items by their raw grid index, whatever the filter shows. */
    method ShowPageItems(page: int)
      requires Valid()
      modifies dom
      ensures Valid()
      ensures dom.styles == PageStyles(old(dom.styles), dom.ItemsPerPage(), page)
      ensures dom.controls == old(dom.controls) && dom.checked == old(dom.checked)
      ensures dom.allChecked == old(dom.allChecked) && dom.noResultsShown == old(dom.noResultsShown)
    {
      var ipp := dom.ItemsPerPage();
      var s := dom.styles;
      for i := 0 to |s|
        invariant |s| == |dom.styles|
        invariant forall j :: 0 <= j < i ==> s[j] == dom.styles[j].(displayNone := PageOf(j, ipp) != page)
        invariant forall j :: i <= j < |s| ==> s[j] == dom.styles[j]
      {
        s := s[i := s[i].(displayNone := PageOf(i, ipp) != page)];
      }
      dom.styles := s;
    }

    // -------------------------------------------------------------------------
    // The load-more button
    // -------------------------------------------------------------------------

    /**
     * A click on the load-more button now in the document. After a filter it
     * carries the filtered listener; before any filter, in the incremental
     * strategy, the original one; otherwise no listener at all.
     */
    method ClickLoadMore()
      requires Valid()
      modifies this, dom
      ensures Valid()
      ensures old(filtered).Some? ==> filtered.Some? && filtered.value.page == old(filtered).value.page + 1
      ensures old(filtered).None? && strategy == Incremental ==> revealedPage == old(revealedPage) + 1
      ensures old(filtered).None? && strategy != Incremental ==>
        dom.styles == old(dom.styles) && dom.controls == old(dom.controls) && revealedPage == old(revealedPage)
      ensures forall i :: 0 <= i < |dom.styles| && old(filtered).None? && !old(dom.styles)[i].displayNone ==> !dom.styles[i].displayNone
      ensures strategy == old(strategy) && currentPage == old(currentPage) && totalPages == old(totalPages)
    {
      if filtered.Some? {
        ClickFilteredLoadMore();
      } else if strategy == Incremental {
        ClickOriginalLoadMore();
      }
    }

    /**
     * The listener of `initLoadMorePagination`: one more page, every item up to
     * it is displayed and none is hidden; the button hides once the last page
     * is reached.
     */
    method ClickOriginalLoadMore()
      requires Valid() && strategy == Incremental
      modifies this, dom
      ensures Valid()
      ensures revealedPage == old(revealedPage) + 1
      ensures |dom.styles| == |old(dom.styles)|
      ensures dom.styles == RevealStyles(old(dom.styles), dom.ItemsPerPage(), revealedPage)
      ensures forall i :: 0 <= i < |dom.styles| ==>
        (!dom.styles[i].displayNone <==> !old(dom.styles)[i].displayNone || PageOf(i, dom.ItemsPerPage()) <= revealedPage)
      ensures var b := old(dom.controls.loadMore).value;
        dom.controls == old(dom.controls).(loadMore := Some(b.(
          shown := b.shown && revealedPage < revealTotal,
          text := if revealTotal - revealedPage > 0 then "Load More" else b.text)))
      ensures strategy == old(strategy) && filtered == old(filtered) && revealTotal == old(revealTotal)
      ensures currentPage == old(currentPage) && totalPages == old(totalPages)
      ensures dom.checked == old(dom.checked) && dom.allChecked == old(dom.allChecked)
      ensures dom.noResultsShown == old(dom.noResultsShown)
    {
      revealedPage := revealedPage + 1;
      ShowItemsUpToPage(revealedPage);
      var b := dom.controls.loadMore.value;
      if revealedPage >= revealTotal {
        b := b.(shown := false);
      }
      if revealTotal - revealedPage > 0 {
        b := b.(text := "Load More");
      }
      dom.controls := dom.controls.(loadMore := Some(b));
    }

    /** `showItemsUpToPage(page)` */
    method ShowItemsUpToPage(page: int)
      requires Valid()
      modifies dom
      ensures Valid()
      ensures dom.styles == RevealStyles(old(dom.styles), dom.ItemsPerPage(), page)
      ensures dom.controls == old(dom.controls) && dom.checked == old(dom.checked)
      ensures dom.allChecked == old(dom.allChecked) && dom.noResultsShown == old(dom.noResultsShown)
    {
      var ipp := dom.ItemsPerPage();
      var s := dom.styles;
      for i := 0 to |s|
        invariant |s| == |dom.styles|
        invariant forall j :: 0 <= j < i ==> s[j] == (if PageOf(j, ipp) <= page then dom.styles[j].(displayNone := false) else dom.styles[j])
        invariant forall j :: i <= j < |s| ==> s[j] == dom.styles[j]
      {
        if PageOf(i, ipp) <= page && s[i].displayNone {
          s := s[i := s[i].(displayNone := false)];
        }
      }
      dom.styles := s;
    }

    /**
     * The listener of `initLoadMoreForFiltered`: one more page of the filtered
     * items; the button hides once its `data-total-pages` is reached.
     */
    method ClickFilteredLoadMore()
      requires Valid() && filtered.Some?
      modifies this, dom
      ensures Valid()
      ensures var f := old(filtered).value;
        && filtered == Some(f.(page := f.page + 1))
        && dom.styles == PrefixStyles(old(dom.styles), f.visible, (f.page + 1) * dom.ItemsPerPage())
      ensures var f := old(filtered).value;
        forall j :: 0 <= j < |f.visible| ==>
          (!dom.styles[f.visible[j]].displayNone <==> j < (f.page + 1) * dom.ItemsPerPage())
      ensures var b := old(dom.controls.loadMore).value;
        dom.controls == old(dom.controls).(loadMore := Some(
          if filtered.value.page >= b.totalPages then b.(shown := false) else b.(text := "Load More  ")))
      ensures strategy == old(strategy) && currentPage == old(currentPage) && totalPages == old(totalPages)
      ensures revealedPage == old(revealedPage) && revealTotal == old(revealTotal)
      ensures dom.checked == old(dom.checked) && dom.allChecked == old(dom.allChecked)
      ensures dom.noResultsShown == old(dom.noResultsShown)
    {
      var f := filtered.value;
      var page := f.page + 1;
      filtered := Some(f.(page := page));
      ShowFilteredItemsUpToPage(f.visible, page);
      PrefixStylesAt(old(dom.styles), f.visible, page * dom.ItemsPerPage());
      var b := dom.controls.loadMore.value;
      if page >= b.totalPages {
        b := b.(shown := false);
      } else {
        b := b.(text := "Load More  ");
      }
      dom.controls := dom.controls.(loadMore := Some(b));
    }

    /**
     * `showFilteredItemsUpToPage(visible, page, ipp)`: the first `page * ipp`
     * filtered items are displayed, the later ones get `display: none`.
     */
    method ShowFilteredItemsUpToPage(visible: seq<nat>, page: int)
      requires Valid() && Within(visible, |dom.styles|)
      modifies dom
      ensures Valid()
      ensures dom.styles == PrefixStyles(old(dom.styles), visible, page * dom.ItemsPerPage())
      ensures dom.controls == old(dom.controls) && dom.checked == old(dom.checked)
      ensures dom.allChecked == old(dom.allChecked) && dom.noResultsShown == old(dom.noResultsShown)
    {
      var limit := page * dom.ItemsPerPage();
      var s := dom.styles;
      for j := 0 to |visible|
        invariant s == PrefixStyles(dom.styles, visible[..j], limit)
      {
        assert visible[..j + 1][..j] == visible[..j];
        var i := visible[j];
        if j < limit {
          if s[i].displayNone {
            s := s[i := s[i].(displayNone := false)];
          }
        } else {
          s := s[i := s[i].(displayNone := true)];
        }
        assert s == PrefixStyles(dom.styles, visible[..j + 1], limit);
      }
      assert visible[..|visible|] == visible;
      dom.styles := s;
    }

    // -------------------------------------------------------------------------
    // After a filter is applied, and after it is cleared
    // -------------------------------------------------------------------------

    /**
     * The document-level `multiselectFilterApplied` listener (registered when
     * the script loads, so it runs first): over the items now displayed, hides
     * the region when they fit on one page, and otherwise shows it and
     * switches to the load-more presentation.
     */
    method AfterFilterSwitch()
      requires Valid()
      modifies this, dom
      ensures Valid() && CountersKept() && dom.FilterStateKept()
      ensures var v := DisplayedIndices(old(dom.styles));
        !dom.paginated || |v| <= dom.ItemsPerPage() ==> dom.styles == old(dom.styles) && filtered == old(filtered)
      ensures var v := DisplayedIndices(old(dom.styles));
        dom.paginated && |v| <= dom.ItemsPerPage() ==> dom.controls == old(dom.controls).(regionDisplayed := false)
      ensures var v := DisplayedIndices(old(dom.styles));
        dom.paginated && |v| > dom.ItemsPerPage() ==>
          && dom.controls == old(dom.controls).(
               regionDisplayed := true,
               listShown := !dom.hasList && old(dom.controls.listShown),
               loadMore := Some(FilteredButton(old(dom.controls.loadMore), |v|, dom.ItemsPerPage())))
          && filtered == Some(FilteredReveal(v, 1))
          && dom.styles == PrefixStyles(old(dom.styles), v, dom.ItemsPerPage())
    {
      var visible := DisplayedIndices(dom.styles);
      UpdatePaginationAfterFilter(visible);
    }

    /** `updatePaginationAfterFilter(visibleItems)` for this container. */
    method UpdatePaginationAfterFilter(visible: seq<nat>)
      requires Valid() && Increasing(visible) && Within(visible, |dom.styles|)
      modifies this, dom
      ensures Valid() && CountersKept() && dom.FilterStateKept()
      ensures !dom.paginated ==>
        dom.controls == old(dom.controls) && dom.styles == old(dom.styles) && filtered == old(filtered)
      ensures dom.paginated && |visible| <= dom.ItemsPerPage() ==>
        && dom.controls == old(dom.controls).(regionDisplayed := false)
        && dom.styles == old(dom.styles) && filtered == old(filtered)
      ensures dom.paginated && |visible| > dom.ItemsPerPage() ==>
        && dom.controls == old(dom.controls).(
             regionDisplayed := true,
             listShown := !dom.hasList && old(dom.controls.listShown),
             loadMore := Some(FilteredButton(old(dom.controls.loadMore), |visible|, dom.ItemsPerPage())))
        && filtered == Some(FilteredReveal(visible, 1))
        && dom.styles == PrefixStyles(old(dom.styles), visible, dom.ItemsPerPage())
    {
      if !dom.paginated {
        return;
      }
      var ipp := dom.ItemsPerPage();
      if |visible| == 0 {
        dom.controls := dom.controls.(regionDisplayed := false);
      } else if |visible| <= ipp {
        dom.controls := dom.controls.(regionDisplayed := false);
      } else {
        ShowRegionAsLoadMore(visible);
      }
    }

    /** The last branch of `updatePaginationAfterFilter`: the region is displayed, then `switchToLoadMoreStyle`. */
    method ShowRegionAsLoadMore(visible: seq<nat>)
      requires Valid() && dom.paginated && Increasing(visible) && Within(visible, |dom.styles|)
      modifies this, dom
      ensures Valid() && CountersKept() && dom.FilterStateKept()
      ensures dom.controls == old(dom.controls).(
        regionDisplayed := true,
        listShown := !dom.hasList && old(dom.controls.listShown),
        loadMore := Some(FilteredButton(old(dom.controls.loadMore), |visible|, dom.ItemsPerPage())))
      ensures filtered == Some(FilteredReveal(visible, 1))
      ensures dom.styles == PrefixStyles(old(dom.styles), visible, dom.ItemsPerPage())
    {
      dom.controls := dom.controls.(regionDisplayed := true);
      SwitchToLoadMoreStyle(visible);
    }

    /**
     * `switchToLoadMoreStyle`: hides the list, shows (creating it if needed)
     * the load-more button with the filtered page count, and gives it the
     * filtered listener, which starts by showing the first filtered page.
     */
    method SwitchToLoadMoreStyle(visible: seq<nat>)
      requires Valid() && dom.paginated && Increasing(visible) && Within(visible, |dom.styles|)
      modifies this, dom
      ensures Valid() && CountersKept() && dom.FilterStateKept()
      ensures dom.controls == old(dom.controls).(
        listShown := !dom.hasList && old(dom.controls.listShown),
        loadMore := Some(FilteredButton(old(dom.controls.loadMore), |visible|, dom.ItemsPerPage())))
      ensures filtered == Some(FilteredReveal(visible, 1))
      ensures dom.styles == PrefixStyles(old(dom.styles), visible, dom.ItemsPerPage())
    {
      var ipp := dom.ItemsPerPage();
      var c := dom.controls;
      if dom.hasList {
        c := c.(listShown := false);
      }
      if c.loadMore.None? {
        c := c.(loadMore := Some(NewLoadMoreButton(|visible|, ipp)));
      } else {
        c := c.(loadMore := Some(UpdatedButton(c.loadMore.value.(shown := true), |visible|, ipp)));
      }
      dom.controls := c;
      InitLoadMoreForFiltered(visible);
    }

    /**
     * `initLoadMoreForFiltered`: the button now in the document carries only the
     * filtered listener, whose counter starts at 1; the first filtered page is shown.
     */
    method InitLoadMoreForFiltered(visible: seq<nat>)
      requires Valid() && dom.controls.loadMore.Some? && Increasing(visible) && Within(visible, |dom.styles|)
      modifies this, dom
      ensures Valid()
      ensures filtered == Some(FilteredReveal(visible, 1))
      ensures dom.styles == PrefixStyles(old(dom.styles), visible, dom.ItemsPerPage())
      ensures dom.controls == old(dom.controls) && dom.checked == old(dom.checked)
      ensures dom.allChecked == old(dom.allChecked) && dom.noResultsShown == old(dom.noResultsShown)
      ensures strategy == old(strategy) && currentPage == old(currentPage) && totalPages == old(totalPages)
      ensures revealedPage == old(revealedPage) && revealTotal == old(revealTotal)
    {
      filtered := Some(FilteredReveal(visible, 1));
      ShowFilteredItemsUpToPage(visible, 1);
    }

    /**
     * The container's own `multiselectFilterApplied` listener (registered by
     * `initPagination`, so it runs second). Numbered: back to page 1 unless
     * already there. Incremental: the counter restarts, the original button (if
     * still in the document) is shown again, and every raw item after the first
     * page is hidden.
     */
    method AfterFilterReset()
      requires Valid()
      modifies this, dom
      ensures Valid()
      ensures var ipp := dom.ItemsPerPage();
        && (strategy == Numbered && old(currentPage) != 1 ==>
              && currentPage == 1
              && dom.styles == PageStyles(old(dom.styles), ipp, 1)
              && dom.controls == old(dom.controls).(
                   activeLinks := ActiveLinks(dom.pageLinks, 1), prevDisabled := true,
                   nextDisabled := 1 >= totalPages,
                   pageInfo := if dom.hasPageInfo then 1 else old(dom.controls.pageInfo)))
        && (strategy == Numbered && old(currentPage) == 1 ==>
              currentPage == 1 && dom.styles == old(dom.styles) && dom.controls == old(dom.controls))
        && (old(strategy) == Incremental ==>
              && revealedPage == 1
              && dom.styles == HideLaterStyles(old(dom.styles), ipp)
              && dom.controls == (if filtered.None?
                   then old(dom.controls).(loadMore := Some(old(dom.controls.loadMore).value.(shown := true, text := "Load More")))
                   else old(dom.controls)))
        && (strategy == Unset ==> dom.styles == old(dom.styles) && dom.controls == old(dom.controls))
      ensures strategy == old(strategy) && totalPages == old(totalPages) && filtered == old(filtered)
      ensures strategy != Incremental ==> revealedPage == old(revealedPage)
      ensures strategy != Numbered ==> currentPage == old(currentPage)
      ensures revealTotal == old(revealTotal)
      ensures dom.checked == old(dom.checked) && dom.allChecked == old(dom.allChecked)
      ensures dom.noResultsShown == old(dom.noResultsShown)
    {
      if strategy == Numbered {
        if currentPage != 1 {
          GoToPage(1);
        }
      } else if strategy == Incremental {
        revealedPage := 1;
        if filtered.None? {
          dom.controls := dom.controls.(loadMore := Some(dom.controls.loadMore.value.(shown := true, text := "Load More")));
        }
        HideLaterPages();
      }
    }

    /** The incremental reset's loop: raw items after the first page get `display: none`. */
    method HideLaterPages()
      requires Valid()
      modifies dom
      ensures Valid()
      ensures dom.styles == HideLaterStyles(old(dom.styles), dom.ItemsPerPage())
      ensures dom.controls == old(dom.controls) && dom.checked == old(dom.checked)
      ensures dom.allChecked == old(dom.allChecked) && dom.noResultsShown == old(dom.noResultsShown)
    {
      var ipp := dom.ItemsPerPage();
      var s := dom.styles;
      for i := 0 to |s|
        invariant |s| == |dom.styles|
        invariant forall j :: 0 <= j < i ==> s[j] == (if PageOf(j, ipp) > 1 then dom.styles[j].(displayNone := true) else dom.styles[j])
        invariant forall j :: i <= j < |s| ==> s[j] == dom.styles[j]
      {
        if PageOf(i, ipp) > 1 {
          s := s[i := s[i].(displayNone := true)];
        }
      }
      dom.styles := s;
    }

    /**
     * The `multiselectFilterCleared` listener, `restoreOriginalPagination`: the
     * list is shown again and the load-more button hidden, whatever the
     * configured style.
     */
    method AfterFilterCleared()
      requires Valid()
      modifies dom`controls
      ensures Valid()
      ensures !dom.paginated ==> dom.controls == old(dom.controls)
      ensures dom.paginated ==> dom.controls == old(dom.controls).(
        listShown := dom.hasList || old(dom.controls.listShown),
        loadMore := if old(dom.controls.loadMore).Some? then Some(old(dom.controls.loadMore).value.(shown := false)) else None)
    {
      if !dom.paginated {
        return;
      }
      var c := dom.controls;
      if dom.hasList {
        c := c.(listShown := true);
      }
      if c.loadMore.Some? {
        c := c.(loadMore := Some(c.loadMore.value.(shown := false)));
      }
      dom.controls := c;
    }
  }
}
