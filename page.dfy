/**
 * The two scripts on one page. `DOMContentLoaded` runs the filter's set-up
 * and then the pagination's (the order the scripts are included in); each
 * notification the filter dispatches reaches the pagination listeners in the
 * order they were registered: the document-level ones, added when the
 * script loads, before the container's own, added by `initPagination`.
 */
module Page {
  import opened Wrappers
  import opened Dom
  import opened Paging
  import opened PaginationScript
  import opened FilterScript
  import opened Matching

  /** Both scripts hold the same container. */
  ghost predicate Wired(f: MultiSelectFilter, p: Pagination)
    reads f, p, f.dom
  {
    f.dom == p.dom && f.Valid() && p.Valid()
  }

  /** "Cleared" reaching the pagination script: the list is shown again and the load-more button hidden. */
  method DeliverCleared(p: Pagination)
    requires p.Valid()
    modifies p.dom`controls
    ensures p.Valid()
    ensures p.dom.paginated ==>
      && (p.dom.controls.loadMore.Some? ==> !p.dom.controls.loadMore.value.shown)
      && (p.dom.hasList ==> p.dom.controls.listShown)
  {
    p.AfterFilterCleared();
  }

  /**
   * "Applied" reaching the pagination script: the switch to load-more over the
   * displayed items, then the reset of the configured strategy: numbered pages
   * go back to page 1 by raw index, and the load-more strategy keeps only raw
   * first-page items.
   */
  method DeliverApplied(p: Pagination)
    requires p.Valid()
    modifies p, p.dom
    ensures p.Valid() && p.dom.FilterStateKept()
    ensures p.strategy == old(p.strategy) && p.totalPages == old(p.totalPages)
    ensures p.strategy == Numbered ==> p.currentPage == 1
    ensures p.strategy == Numbered && old(p.currentPage) != 1 ==>
      forall i :: 0 <= i < |p.dom.styles| ==> (!p.dom.styles[i].displayNone <==> i < p.dom.ItemsPerPage())
    ensures p.strategy == Incremental ==>
      && p.revealedPage == 1
      && forall i :: 0 <= i < |p.dom.styles| && !p.dom.styles[i].displayNone ==> i < p.dom.ItemsPerPage()
    ensures p.dom.paginated && |DisplayedIndices(old(p.dom.styles))| > p.dom.ItemsPerPage() ==>
      && p.filtered == Some(FilteredReveal(DisplayedIndices(old(p.dom.styles)), 1))
      && p.dom.controls.regionDisplayed
    ensures !p.dom.paginated ==> p.dom.styles == old(p.dom.styles)
  {
    p.AfterFilterSwitch();
    ghost var switched := p.dom.styles;
    p.AfterFilterReset();
    FirstPageIsPrefix(switched, p.dom.ItemsPerPage());
    HideLaterBoundsDisplayed(switched, p.dom.ItemsPerPage());
  }

  /** One notification reaching the pagination script, in the order its listeners were registered. */
  method Dispatch(p: Pagination, n: Notice)
    requires p.Valid()
    modifies p, p.dom
    ensures p.Valid() && p.dom.FilterStateKept()
    ensures p.strategy == old(p.strategy) && p.totalPages == old(p.totalPages)
    ensures n.Cleared? ==> p.dom.styles == old(p.dom.styles) && p.filtered == old(p.filtered)
    ensures n.Cleared? && p.dom.paginated ==>
      && (p.dom.controls.loadMore.Some? ==> !p.dom.controls.loadMore.value.shown)
      && (p.dom.hasList ==> p.dom.controls.listShown)
    ensures n.Applied? && p.strategy == Numbered ==> p.currentPage == 1
    ensures n.Applied? && p.strategy == Numbered && old(p.currentPage) != 1 ==>
      forall i :: 0 <= i < |p.dom.styles| ==> (!p.dom.styles[i].displayNone <==> i < p.dom.ItemsPerPage())
    ensures n.Applied? && p.strategy == Incremental ==>
      && p.revealedPage == 1
      && forall i :: 0 <= i < |p.dom.styles| && !p.dom.styles[i].displayNone ==> i < p.dom.ItemsPerPage()
    ensures n.Applied? && p.dom.paginated && |DisplayedIndices(old(p.dom.styles))| > p.dom.ItemsPerPage() ==>
      && p.filtered == Some(FilteredReveal(DisplayedIndices(old(p.dom.styles)), 1))
      && p.dom.controls.regionDisplayed
    ensures !p.dom.paginated ==> p.dom.styles == old(p.dom.styles)
  {
    match n
    case Cleared =>
      DeliverCleared(p);
    case Applied(_, _) =>
      DeliverApplied(p);
  }

  /** Every notification, in order. */
  method Deliver(p: Pagination, notices: seq<Notice>)
    requires p.Valid()
    modifies p, p.dom
    ensures p.Valid() && p.dom.FilterStateKept()
    ensures p.strategy == old(p.strategy) && p.totalPages == old(p.totalPages)
    ensures notices == [] ==> p.dom.styles == old(p.dom.styles) && p.dom.controls == old(p.dom.controls)
    ensures |notices| > 0 && notices[|notices| - 1].Applied? && p.strategy == Numbered ==> p.currentPage == 1
    ensures |notices| > 0 && notices[|notices| - 1].Applied? && p.strategy == Incremental ==>
      forall i :: 0 <= i < |p.dom.styles| && !p.dom.styles[i].displayNone ==> i < p.dom.ItemsPerPage()
    ensures (forall j :: 0 <= j < |notices| ==> notices[j].Cleared?) || !p.dom.paginated ==> p.dom.styles == old(p.dom.styles)
  {
    for i := 0 to |notices|
      invariant p.Valid() && p.dom.FilterStateKept()
      invariant p.strategy == old(p.strategy) && p.totalPages == old(p.totalPages)
      invariant i == 0 ==> p.dom.styles == old(p.dom.styles) && p.dom.controls == old(p.dom.controls)
      invariant i > 0 && notices[i - 1].Applied? && p.strategy == Numbered ==> p.currentPage == 1
      invariant i > 0 && notices[i - 1].Applied? && p.strategy == Incremental ==>
        forall j :: 0 <= j < |p.dom.styles| && !p.dom.styles[j].displayNone ==> j < p.dom.ItemsPerPage()
      invariant (forall j :: 0 <= j < i ==> notices[j].Cleared?) || !p.dom.paginated ==> p.dom.styles == old(p.dom.styles)
    {
      Dispatch(p, notices[i]);
    }
  }

  /**
   * `DOMContentLoaded`: the filter shows every item (announcing "cleared",
   * which hides the load-more button), then `initPagination` shows the first
   * page by raw index.
   */
  method Load(f: MultiSelectFilter, p: Pagination)
    requires Wired(f, p) && p.strategy == Unset
    modifies f, p, f.dom
    ensures Wired(f, p)
    ensures f.dom.paginated ==> forall i :: 0 <= i < |f.dom.styles| ==> (!f.dom.styles[i].displayNone <==> i < f.dom.ItemsPerPage())
    ensures f.listening && f.dom.paginated && f.dom.controls.loadMore.Some? ==> !f.dom.controls.loadMore.value.shown
    ensures f.dom.paginated && f.dom.hasList ==> p.strategy == Numbered && p.currentPage == 1
  {
    var notices := f.Init();
    if notices == [Cleared] {
      Dispatch(p, Cleared);
    }
    p.Init();
  }

  /** A click on the `k`-th tag box, and what it sets off. */
  method ClickTag(f: MultiSelectFilter, p: Pagination, k: nat)
    requires Wired(f, p) && k < |f.dom.boxes|
    modifies p, f.dom
    ensures Wired(f, p)
    ensures f.dom.checked == old(f.dom.checked)[k := !old(f.dom.checked)[k]]
    ensures p.strategy == old(p.strategy)
    ensures f.listening && p.strategy == Numbered && (exists j :: 0 <= j < |f.dom.boxes| && f.dom.checked[j]) ==> p.currentPage == 1
    ensures f.listening && p.strategy == Incremental && (exists j :: 0 <= j < |f.dom.boxes| && f.dom.checked[j]) ==>
      forall i :: 0 <= i < |f.dom.styles| && !f.dom.styles[i].displayNone ==> i < f.ItemsPerPage()
    ensures f.listening && !f.dom.paginated && (exists j :: 0 <= j < |f.dom.boxes| && f.dom.checked[j]) ==>
      f.dom.styles == FilteredStyles(f.dom.tagAttrs, Grouped(f.dom.boxes, f.dom.checked), f.Between(), f.Within())
    ensures f.listening && (forall j :: 0 <= j < |f.dom.boxes| ==> !f.dom.checked[j]) ==>
      f.dom.styles == AllItemsStyles(|f.dom.tagAttrs|, f.ItemsPerPage())
  {
    var notices := f.ToggleTagBox(k);
    Deliver(p, notices);
  }

  /** A click on the "All" box, and what it sets off. */
  method ClickAll(f: MultiSelectFilter, p: Pagination)
    requires Wired(f, p) && f.dom.hasAllBox
    modifies p, f.dom
    ensures Wired(f, p)
    ensures f.dom.allChecked == !old(f.dom.allChecked)
    ensures f.listening && f.dom.allChecked ==> forall j :: 0 <= j < |f.dom.boxes| ==> !f.dom.checked[j]
    ensures f.listening && f.dom.allChecked ==> f.dom.styles == AllItemsStyles(|f.dom.tagAttrs|, f.ItemsPerPage())
    ensures p.strategy == old(p.strategy)
  {
    var notices := f.ToggleAllBox();
    Deliver(p, notices);
  }
}
