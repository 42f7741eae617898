/**
 * The multi-select filter script: the "All" box and the tag boxes, the
 * evaluation of the checked tags against every grid item, and the reset to
 * the first page when everything is shown. Its methods return the
 * notifications it dispatches, in order, for the pagination script.
 */
module FilterScript {
  import opened Wrappers
  import opened Dom
  import opened Matching
  import opened Paging

  /** Which items `showItem` and `applyPaginationToVisibleItems` count as showing: not `display: none`, not `opacity: 0`. */
  predicate Showing(st: Style) {
    !st.displayNone && !st.opacityZero
  }

  /** How many items before the end of `s` are showing. */
  function CountShowing(s: seq<Style>): (n: nat)
    ensures n <= |s|
  {
    if s == [] then 0
    else CountShowing(s[..|s| - 1]) + (if Showing(s[|s| - 1]) then 1 else 0)
  }

  /**
   * `applyPaginationToVisibleItems`: every showing item whose rank among the
   * showing items falls after the first page gets `display: none`.
   */
  function PaginateVisible(s: seq<Style>, ipp: nat): seq<Style>
    requires ipp >= 1
  {
    seq(|s|, i requires 0 <= i < |s| =>
      if Showing(s[i]) && PageOf(CountShowing(s[..i]), ipp) != 1 then s[i].(displayNone := true) else s[i])
  }

  /**
   * The evaluation's `showItem`/`hideItem` both set `opacity: 0` before
   * anything else reads the items, so `applyPaginationToVisibleItems`, called
   * right after it, finds no showing item and changes nothing.
   */
  lemma VisiblePaginationHidesNothing(s: seq<Style>, ipp: nat)
    requires ipp >= 1
    requires forall i :: 0 <= i < |s| ==> s[i].opacityZero
    ensures PaginateVisible(s, ipp) == s
  {
  }

  /**
   * Were the items fully faded in, it would keep exactly the first `ipp`
   * showing items: a showing item stays displayed iff fewer than `ipp`
   * showing items precede it.
   */
  lemma VisiblePaginationKeepsFirstPage(s: seq<Style>, ipp: nat, i: nat)
    requires ipp >= 1 && i < |s| && Showing(s[i])
    ensures !PaginateVisible(s, ipp)[i].displayNone <==> CountShowing(s[..i]) < ipp
  {
    PageOfIff(CountShowing(s[..i]), ipp, 1);
  }

  /** The items after the evaluation: matching items shown, the others hidden, all at `opacity: 0`. */
  function FilteredStyles(tagAttrs: seq<Option<string>>, groups: map<string, seq<string>>, between: string, within: string): seq<Style> {
    seq(|tagAttrs|, i requires 0 <= i < |tagAttrs| => Style(!ItemShown(tagAttrs[i], groups, between, within), true))
  }

  /**
   * The items after `showAllItems`: all shown at `opacity: 0`, and when they do
   * not fit on one page, `applyPaginationToAllItems` by raw index (first page
   * fully shown, the rest `display: none`).
   */
  function AllItemsStyles(n: nat, ipp: nat): seq<Style> {
    seq(n, i requires 0 <= i < n =>
      if n <= ipp then Style(false, true)
      else if i < ipp then Style(false, false)
      else Style(true, true))
  }

  /** The region after `showPagination` (`shown`) or `hidePagination`; no region, no change. */
  function RegionSet(c: Controls, paginated: bool, shown: bool): (r: Controls)
    ensures r.loadMore == c.loadMore && r.listShown == c.listShown && |r.activeLinks| == |c.activeLinks|
  {
    if paginated then c.(regionDisplayed := shown, regionVisible := shown) else c
  }

  /** The region after `resetPaginationToFirstPage`: page info 1, only the first link active. */
  function FirstPageControls(c: Controls, paginated: bool, hasPageInfo: bool): (r: Controls)
    ensures r.loadMore == c.loadMore && r.listShown == c.listShown && |r.activeLinks| == |c.activeLinks|
    ensures r.regionDisplayed == c.regionDisplayed && r.regionVisible == c.regionVisible
  {
    if !paginated then c
    else c.(pageInfo := if hasPageInfo then 1 else c.pageInfo,
            activeLinks := seq(|c.activeLinks|, k requires 0 <= k < |c.activeLinks| => k == 0))
  }

  /** The no-results panel after `showNoResultsMessage` (`shown`) or `hideNoResultsMessage`. */
  function PanelSet(before: bool, hasNoResults: bool, shown: bool): bool {
    if hasNoResults then shown else before
  }

  /**
   * The controls left once `n` items are shown, by `showAllItems` or by an
   * evaluation that matched `n` items: the region is shown exactly when they do
   * not fit on one page, and then its indicators are reset to page 1.
   */
  function ShownControls(c: Controls, n: nat, ipp: nat, paginated: bool, hasPageInfo: bool): (r: Controls)
    ensures r.loadMore == c.loadMore && r.listShown == c.listShown && |r.activeLinks| == |c.activeLinks|
    ensures paginated ==> r.regionDisplayed == (n > ipp) && r.regionVisible == (n > ipp)
  {
    if n > ipp then FirstPageControls(RegionSet(c, paginated, true), paginated, hasPageInfo)
    else RegionSet(c, paginated, false)
  }

  /** The listeners `initMultiSelectFilters` attaches to one container, and the state their closures share. */
  class MultiSelectFilter {
    const dom: Container
    /** The container carries `multiselect-filter-container`. */
    const multiselect: bool
    /** Whether the listeners were attached (the container has tag boxes and grid items). */
    var listening: bool

    ghost predicate Valid()
      reads this, dom
    {
      dom.Valid()
    }

    /** The page size the filter reads from `data-items-per-page`. */
    function ItemsPerPage(): (ipp: nat)
      ensures ipp >= 1
    {
      dom.ItemsPerPage()
    }

    /** `data-filter-logic || 'and'` and `data-category-logic || 'or'`, as the evaluation reads them. */
    function Between(): string {
      LogicAttr(dom.filterLogicAttr, "and")
    }

    function Within(): string {
      LogicAttr(dom.categoryLogicAttr, "or")
    }

    constructor (dom: Container, multiselect: bool)
      requires dom.Valid()
      ensures Valid() && this.dom == dom && this.multiselect == multiselect && !listening
    {
      this.dom := dom;
      this.multiselect := multiselect;
      listening := false;
    }

    /**
     * `initMultiSelectFilters` for this container: nothing without tag boxes or
     * grid items; otherwise the listeners are attached and every item is shown.
     */
    method Init() returns (notices: seq<Notice>)
      requires Valid()
      modifies this, dom
      ensures Valid() && dom.checked == old(dom.checked) && dom.allChecked == old(dom.allChecked)
      ensures dom.noResultsShown == PanelSet(old(dom.noResultsShown), dom.hasNoResults && listening, false)
      ensures listening <==> multiselect && |dom.boxes| > 0 && |dom.tagAttrs| > 0
      ensures !listening ==> notices == [] && dom.styles == old(dom.styles) && dom.controls == old(dom.controls)
      ensures listening ==>
        && notices == [Cleared]
        && dom.styles == AllItemsStyles(|dom.tagAttrs|, ItemsPerPage())
        && dom.controls == ShownControls(old(dom.controls), |dom.tagAttrs|, ItemsPerPage(), dom.paginated, dom.hasPageInfo)
    {
      if !multiselect || |dom.boxes| == 0 || |dom.tagAttrs| == 0 {
        listening := false;
        return [];
      }
      listening := true;
      notices := ShowAllItems();
    }

    /**
     * A `change` of the "All" box. Checking it unchecks every tag box and shows
     * every item; unchecking it changes nothing else.
     */
    method ToggleAllBox() returns (notices: seq<Notice>)
      requires Valid() && dom.hasAllBox
      modifies dom
      ensures Valid()
      ensures dom.allChecked == !old(dom.allChecked)
      ensures listening && dom.allChecked ==>
        && dom.checked == seq(|dom.boxes|, _ => false)
        && notices == [Cleared]
        && dom.styles == AllItemsStyles(|dom.tagAttrs|, ItemsPerPage())
        && dom.controls == ShownControls(old(dom.controls), |dom.tagAttrs|, ItemsPerPage(), dom.paginated, dom.hasPageInfo)
        && dom.noResultsShown == PanelSet(old(dom.noResultsShown), dom.hasNoResults, false)
      ensures dom.controls.loadMore == old(dom.controls.loadMore) && dom.controls.listShown == old(dom.controls.listShown)
      ensures !(listening && dom.allChecked) ==>
        && notices == [] && dom.checked == old(dom.checked) && dom.styles == old(dom.styles)
        && dom.controls == old(dom.controls) && dom.noResultsShown == old(dom.noResultsShown)
    {
      dom.allChecked := !dom.allChecked;
      if listening && dom.allChecked {
        dom.checked := seq(|dom.boxes|, _ => false);
        notices := ShowAllItems();
      } else {
        notices := [];
      }
    }

    /**
     * A `change` of the `k`-th tag box. Checking it unchecks "All"; when no tag
     * box is left checked and "All" exists, "All" is checked and every item is
     * shown; otherwise the checked tags are evaluated.
     */
    method ToggleTagBox(k: nat) returns (notices: seq<Notice>)
      requires Valid() && k < |dom.boxes|
      modifies dom
      ensures Valid()
      ensures dom.checked == old(dom.checked)[k := !old(dom.checked)[k]]
      ensures !listening ==>
        && notices == [] && dom.allChecked == old(dom.allChecked)
        && dom.styles == old(dom.styles) && dom.controls == old(dom.controls)
        && dom.noResultsShown == old(dom.noResultsShown)
      ensures listening && dom.checked[k] && dom.hasAllBox ==> !dom.allChecked
      ensures listening && dom.hasAllBox && (forall j :: 0 <= j < |dom.boxes| ==> !dom.checked[j]) ==>
        && dom.allChecked
        && notices == [Cleared]
        && dom.styles == AllItemsStyles(|dom.tagAttrs|, ItemsPerPage())
        && dom.controls == ShownControls(old(dom.controls), |dom.tagAttrs|, ItemsPerPage(), dom.paginated, dom.hasPageInfo)
        && dom.noResultsShown == PanelSet(old(dom.noResultsShown), dom.hasNoResults, false)
      ensures listening && !dom.hasAllBox && (forall j :: 0 <= j < |dom.boxes| ==> !dom.checked[j]) ==>
        && dom.allChecked == old(dom.allChecked)
        && notices == [Cleared]
        && dom.styles == AllItemsStyles(|dom.tagAttrs|, ItemsPerPage())
        && dom.controls == ShownControls(old(dom.controls), |dom.tagAttrs|, ItemsPerPage(), dom.paginated, dom.hasPageInfo)
        && dom.noResultsShown == PanelSet(old(dom.noResultsShown), dom.hasNoResults, false)
      ensures listening && (exists j :: 0 <= j < |dom.boxes| && dom.checked[j]) ==>
        var groups := Grouped(dom.boxes, dom.checked);
        var count := |Matched(dom.tagAttrs, groups, Between(), Within())|;
        && dom.allChecked == (if dom.checked[k] && dom.hasAllBox then false else old(dom.allChecked))
        && notices == [Applied(groups, count)]
        && dom.styles == FilteredStyles(dom.tagAttrs, groups, Between(), Within())
        && dom.controls == (if count == 0 then RegionSet(old(dom.controls), dom.paginated, false)
                            else ShownControls(old(dom.controls), count, ItemsPerPage(), dom.paginated, dom.hasPageInfo))
        && dom.noResultsShown == PanelSet(old(dom.noResultsShown), dom.hasNoResults, count == 0)
      ensures dom.controls.loadMore == old(dom.controls.loadMore) && dom.controls.listShown == old(dom.controls.listShown)
      ensures |notices| <= 1
    {
      dom.checked := dom.checked[k := !dom.checked[k]];
      if !listening {
        return [];
      }
      if dom.checked[k] && dom.hasAllBox {
        dom.allChecked := false;
      }
      notices := AfterTagChange();
    }

    /**
     * The rest of the tag box's `change` handler: with no tag box checked and
     * an "All" box, "All" is checked and every item shown; otherwise the
     * checked tags are evaluated.
     */
    method AfterTagChange() returns (notices: seq<Notice>)
      requires Valid()
      modifies dom
      ensures Valid() && dom.checked == old(dom.checked)
      ensures dom.hasAllBox && (forall j :: 0 <= j < |dom.boxes| ==> !dom.checked[j]) ==>
        && dom.allChecked
        && notices == [Cleared]
        && dom.styles == AllItemsStyles(|dom.tagAttrs|, ItemsPerPage())
        && dom.controls == ShownControls(old(dom.controls), |dom.tagAttrs|, ItemsPerPage(), dom.paginated, dom.hasPageInfo)
        && dom.noResultsShown == PanelSet(old(dom.noResultsShown), dom.hasNoResults, false)
      ensures !dom.hasAllBox && (forall j :: 0 <= j < |dom.boxes| ==> !dom.checked[j]) ==>
        && dom.allChecked == old(dom.allChecked)
        && notices == [Cleared]
        && dom.styles == AllItemsStyles(|dom.tagAttrs|, ItemsPerPage())
        && dom.controls == ShownControls(old(dom.controls), |dom.tagAttrs|, ItemsPerPage(), dom.paginated, dom.hasPageInfo)
        && dom.noResultsShown == PanelSet(old(dom.noResultsShown), dom.hasNoResults, false)
      ensures (exists j :: 0 <= j < |dom.boxes| && dom.checked[j]) ==>
        var groups := Grouped(dom.boxes, dom.checked);
        var count := |Matched(dom.tagAttrs, groups, Between(), Within())|;
        && dom.allChecked == old(dom.allChecked)
        && notices == [Applied(groups, count)]
        && dom.styles == FilteredStyles(dom.tagAttrs, groups, Between(), Within())
        && dom.controls == (if count == 0 then RegionSet(old(dom.controls), dom.paginated, false)
                            else ShownControls(old(dom.controls), count, ItemsPerPage(), dom.paginated, dom.hasPageInfo))
        && dom.noResultsShown == PanelSet(old(dom.noResultsShown), dom.hasNoResults, count == 0)
      ensures dom.controls.loadMore == old(dom.controls.loadMore) && dom.controls.listShown == old(dom.controls.listShown)
      ensures |notices| <= 1
    {
      var anyChecked := AnyChecked();
      if !anyChecked && dom.hasAllBox {
        dom.allChecked := true;
        notices := ShowAllItems();
        return;
      }
      notices := ApplyFilter();
      GroupedEmptyIff(dom.boxes, dom.checked);
    }

    /** `Array.from(checkboxes).some(cb => cb.checked)` */
    method AnyChecked() returns (any: bool)
      requires Valid()
      ensures any <==> exists j :: 0 <= j < |dom.boxes| && dom.checked[j]
    {
      any := false;
      for j := 0 to |dom.boxes|
        invariant any <==> exists j' :: 0 <= j' < j && dom.checked[j']
      {
        if dom.checked[j] {
          any := true;
        }
      }
    }

    /** The checked boxes' tags grouped by `data-category || 'general'`, built one box at a time. */
    method GroupSelected() returns (groups: map<string, seq<string>>)
      requires Valid()
      ensures groups == Grouped(dom.boxes, dom.checked)
      ensures groups.Keys == SelectedCategories(dom.boxes, dom.checked)
      ensures forall c :: c in groups ==> groups[c] == CheckedTagsIn(dom.boxes, dom.checked, c)
    {
      groups := map[];
      for j := 0 to |dom.boxes|
        invariant groups == Grouped(dom.boxes[..j], dom.checked[..j])
      {
        assert dom.boxes[..j + 1][..j] == dom.boxes[..j];
        assert dom.checked[..j + 1][..j] == dom.checked[..j];
        if dom.checked[j] {
          var c := CategoryOf(dom.boxes[j]);
          if c !in groups {
            groups := groups[c := []];
          }
          groups := groups[c := groups[c] + [dom.boxes[j].tag]];
        }
      }
      assert dom.boxes[..|dom.boxes|] == dom.boxes;
      assert dom.checked[..|dom.checked|] == dom.checked;
      GroupedIsByCategory(dom.boxes, dom.checked);
    }

    /**
     * `applyMultiSelectFilter`. With nothing checked: every item shown, the
     * panel hidden, only the "cleared" notification. Otherwise each item is
     * shown iff it matches; with no match the panel is shown and the region
     * hidden; the region is shown iff more items match than fit on a page;
     * and the "applied" notification carries the grouping and the count.
     */
    method ApplyFilter() returns (notices: seq<Notice>)
      requires Valid()
      modifies dom
      ensures Valid() && dom.checked == old(dom.checked) && dom.allChecked == old(dom.allChecked)
      ensures Grouped(dom.boxes, dom.checked) == map[] ==>
        && notices == [Cleared]
        && dom.styles == AllItemsStyles(|dom.tagAttrs|, ItemsPerPage())
        && dom.controls == ShownControls(old(dom.controls), |dom.tagAttrs|, ItemsPerPage(), dom.paginated, dom.hasPageInfo)
      ensures Grouped(dom.boxes, dom.checked) != map[] ==>
        var groups := Grouped(dom.boxes, dom.checked);
        var count := |Matched(dom.tagAttrs, groups, Between(), Within())|;
        && notices == [Applied(groups, count)]
        && dom.styles == FilteredStyles(dom.tagAttrs, groups, Between(), Within())
        && (count == 0 ==> dom.controls == RegionSet(old(dom.controls), dom.paginated, false))
        && (count != 0 ==> dom.controls == ShownControls(old(dom.controls), count, ItemsPerPage(), dom.paginated, dom.hasPageInfo))
      ensures dom.noResultsShown == PanelSet(old(dom.noResultsShown), dom.hasNoResults,
        Grouped(dom.boxes, dom.checked) != map[] && |Matched(dom.tagAttrs, Grouped(dom.boxes, dom.checked), Between(), Within())| == 0)
    {
      var groups := GroupSelected();
      if groups == map[] {
        notices := ShowAllItems();
        dom.SetNoResults(false);
        return;
      }
      var s, count := MatchItems(groups, Between(), Within());
      dom.styles := s;
      if count == 0 {
        dom.SetNoResults(true);
        dom.SetRegion(false);
      } else {
        dom.SetNoResults(false);
        var ipp := ItemsPerPage();
        if count > ipp {
          dom.SetRegion(true);
          ApplyPaginationToVisibleItems();
        } else {
          dom.SetRegion(false);
        }
      }
      notices := [Applied(groups, count)];
    }

    /** The pass over the grid items: each one's new style, and how many match. */
    method MatchItems(groups: map<string, seq<string>>, between: string, within: string) returns (s: seq<Style>, count: nat)
      requires Valid()
      ensures s == FilteredStyles(dom.tagAttrs, groups, between, within)
      ensures count == |Matched(dom.tagAttrs, groups, between, within)|
    {
      var attrs := dom.tagAttrs;
      ghost var flags := ShownFlags(attrs, groups, between, within);
      s := dom.styles;
      count := 0;
      for i := 0 to |attrs|
        invariant |s| == |attrs|
        invariant forall j :: 0 <= j < i ==> s[j] == Style(!flags[j], true)
        invariant count == |Indices(flags[..i])|
      {
        assert flags[..i + 1][..i] == flags[..i];
        if ItemShown(attrs[i], groups, between, within) {
          s := s[i := Style(false, true)];
          count := count + 1;
        } else {
          s := s[i := Style(true, true)];
        }
      }
      assert flags[..|flags|] == flags;
      assert flags[..|flags|] == flags;
    }

    /**
     * `applyPaginationToVisibleItems` (a showing item after the first page by
     * rank gets `display: none`), then `resetPaginationToFirstPage`.
     */
    method ApplyPaginationToVisibleItems()
      requires Valid()
      modifies dom
      ensures Valid() && dom.FilterStateKept()
      ensures dom.styles == PaginateVisible(old(dom.styles), ItemsPerPage())
      ensures dom.controls == FirstPageControls(old(dom.controls), dom.paginated, dom.hasPageInfo)
    {
      var ipp := ItemsPerPage();
      var s := dom.styles;
      var visibleIndex := 0;
      for i := 0 to |s|
        invariant |s| == |dom.styles|
        invariant visibleIndex == CountShowing(dom.styles[..i])
        invariant forall j :: 0 <= j < i ==> s[j] == PaginateVisible(dom.styles, ipp)[j]
        invariant forall j :: i <= j < |s| ==> s[j] == dom.styles[j]
      {
        assert dom.styles[..i + 1][..i] == dom.styles[..i];
        if Showing(s[i]) {
          if PageOf(visibleIndex, ipp) != 1 {
            s := s[i := s[i].(displayNone := true)];
          }
          visibleIndex := visibleIndex + 1;
        }
      }
      dom.styles := s;
      ResetPaginationToFirstPage();
    }

    /**
     * `showAllItems`: every item shown and the panel hidden; when the items do
     * not fit on one page, the region is shown and the first page applied by
     * raw index, otherwise the region is hidden; then the "cleared"
     * notification. It reads the page size even when the container has no
     * pagination (`data-items-per-page` 0 falls back to 6).
     */
    method ShowAllItems() returns (notices: seq<Notice>)
      requires Valid()
      modifies dom
      ensures Valid()
      ensures dom.checked == old(dom.checked) && dom.allChecked == old(dom.allChecked)
      ensures dom.noResultsShown == PanelSet(old(dom.noResultsShown), dom.hasNoResults, false)
      ensures notices == [Cleared]
      ensures dom.styles == AllItemsStyles(|dom.tagAttrs|, ItemsPerPage())
      ensures dom.controls == ShownControls(old(dom.controls), |dom.tagAttrs|, ItemsPerPage(), dom.paginated, dom.hasPageInfo)
    {
      var s := dom.styles;
      for i := 0 to |s|
        invariant |s| == |dom.styles|
        invariant forall j :: 0 <= j < i ==> s[j] == Style(false, true)
      {
        s := s[i := Style(false, true)];
      }
      dom.styles := s;
      dom.SetNoResults(false);
      var ipp := ItemsPerPage();
      if |s| > ipp {
        dom.SetRegion(true);
        ApplyPaginationToAllItems();
      } else {
        dom.SetRegion(false);
      }
      notices := [Cleared];
    }

    /** `applyPaginationToAllItems`: raw first page shown at full opacity, the rest `display: none`; then the reset. */
    method ApplyPaginationToAllItems()
      requires Valid()
      modifies dom
      ensures Valid() && dom.FilterStateKept()
      ensures forall i :: 0 <= i < |dom.styles| ==>
        dom.styles[i] == if PageOf(i, ItemsPerPage()) == 1 then Style(false, false) else old(dom.styles)[i].(displayNone := true)
      ensures |dom.styles| == |old(dom.styles)|
      ensures dom.controls == FirstPageControls(old(dom.controls), dom.paginated, dom.hasPageInfo)
    {
      var ipp := ItemsPerPage();
      var s := dom.styles;
      for i := 0 to |s|
        invariant |s| == |dom.styles|
        invariant forall j :: 0 <= j < i ==> s[j] == if PageOf(j, ipp) == 1 then Style(false, false) else dom.styles[j].(displayNone := true)
        invariant forall j :: i <= j < |s| ==> s[j] == dom.styles[j]
      {
        if PageOf(i, ipp) == 1 {
          s := s[i := Style(false, false)];
        } else {
          s := s[i := s[i].(displayNone := true)];
        }
      }
      dom.styles := s;
      ResetPaginationToFirstPage();
    }

    /** `resetPaginationToFirstPage`: page info 1, only the first page link active. */
    method ResetPaginationToFirstPage()
      requires Valid()
      modifies dom
      ensures Valid() && dom.FilterStateKept()
      ensures dom.styles == old(dom.styles)
      ensures dom.controls == FirstPageControls(old(dom.controls), dom.paginated, dom.hasPageInfo)
      ensures dom.paginated ==> forall k :: 0 <= k < |dom.pageLinks| ==> (dom.controls.activeLinks[k] <==> k == 0)
    {
      if !dom.paginated {
        return;
      }
      var c := dom.controls;
      if dom.hasPageInfo {
        c := c.(pageInfo := 1);
      }
      var active := c.activeLinks;
      for k := 0 to |active|
        invariant |active| == |c.activeLinks|
        invariant forall j :: 0 <= j < k ==> active[j] == (j == 0)
      {
        active := active[k := k == 0];
      }
      dom.controls := c.(activeLinks := active);
    }
  }
}
