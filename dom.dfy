/**
 * One products container as both scripts see it: the markup and attributes
 * fixed at render time, and the pieces of state the scripts write (item
 * styles, checkbox states, the no-results panel and the pagination region).
 * Every operation acts on the container it is handed, never on the first
 * container of the document.
 */
module Dom {
  import opened Wrappers
  import Matching
  import Paging

  /** The inline style of a grid item as the scripts test it: `display === 'none'`, `opacity === '0'`. */
  datatype Style = Style(displayNone: bool, opacityZero: bool)

  /** The load-more button: shown or `display: none`, its text, and its `data-total-pages`. */
  datatype Button = Button(shown: bool, text: string, totalPages: int)

  /** The pagination region `.pagination-container` and the controls inside it. */
  datatype Controls = Controls(
    regionDisplayed: bool,   // its `display` is not `none`
    regionVisible: bool,     // its `visibility` is not `hidden`
    listShown: bool,         // `ul.uk-pagination` is not `display: none`
    activeLinks: seq<bool>,  // which `.pagination-page` links carry `uk-active`, in document order
    prevDisabled: bool,      // `.pagination-prev` carries `uk-disabled`
    nextDisabled: bool,      // `.pagination-next` carries `uk-disabled`
    pageInfo: int,           // the text of `.current-page`
    loadMore: Option<Button> // the `.load-more-btn` in the region, if any
  )

  /** What the filter script announces to the pagination script. */
  datatype Notice =
    | Applied(selection: map<string, seq<string>>, visibleCount: nat) // `multiselectFilterApplied`
    | Cleared                                                        // `multiselectFilterCleared`

  class Container {
    /** `data-tag` of each grid item (`.js-filter > div`), in grid order. */
    const tagAttrs: seq<Option<string>>
    /** The `.filter-tag-checkbox` boxes, in document order. */
    const boxes: seq<Matching.TagBox>
    /** Whether a `.filter-all-checkbox` exists. */
    const hasAllBox: bool
    /** `data-filter-logic` and `data-category-logic`. */
    const filterLogicAttr: Option<string>
    const categoryLogicAttr: Option<string>
    /** `data-items-per-page`, as `parseInt` reads it (`None` for a missing or unparsable value). */
    const itemsPerPageAttr: Option<nat>
    /** `data-pagination="true"`: pagination is on; the template renders the pagination region only when the element also has tags. */
    const paginated: bool
    /** Whether the `.no-results-message` panel exists. */
    const hasNoResults: bool
    /** Whether the region holds `ul.uk-pagination`, and its `data-total-pages`. */
    const hasList: bool
    const listTotalPages: nat
    /** `data-page` of each `.pagination-page` link, in document order. */
    const pageLinks: seq<nat>
    /** Whether the region holds the `.current-page` span. */
    const hasPageInfo: bool

    var styles: seq<Style>
    var checked: seq<bool>
    var allChecked: bool
    var noResultsShown: bool
    var controls: Controls

    ghost predicate Valid()
      reads this
    {
      && |styles| == |tagAttrs|
      && |checked| == |boxes|
      && |controls.activeLinks| == |pageLinks|
      && (hasList ==> paginated)
    }

    /** The checkboxes and the no-results panel are as they were. */
    twostate predicate FilterStateKept()
      reads this
    {
      checked == old(checked) && allChecked == old(allChecked) && noResultsShown == old(noResultsShown)
    }

    /** The page size both scripts read from `data-items-per-page`. */
    function ItemsPerPage(): (ipp: nat)
      ensures ipp >= 1
    {
      Paging.ItemsPerPage(itemsPerPageAttr)
    }

    constructor (tagAttrs: seq<Option<string>>, boxes: seq<Matching.TagBox>, hasAllBox: bool,
                 filterLogicAttr: Option<string>, categoryLogicAttr: Option<string>,
                 itemsPerPageAttr: Option<nat>, paginated: bool, hasNoResults: bool,
                 hasList: bool, listTotalPages: nat, pageLinks: seq<nat>, hasPageInfo: bool,
                 styles: seq<Style>, controls: Controls)
      requires |styles| == |tagAttrs| && |controls.activeLinks| == |pageLinks|
      requires hasList ==> paginated
      ensures Valid()
      ensures this.tagAttrs == tagAttrs && this.boxes == boxes && this.hasAllBox == hasAllBox
      ensures this.filterLogicAttr == filterLogicAttr && this.categoryLogicAttr == categoryLogicAttr
      ensures this.itemsPerPageAttr == itemsPerPageAttr && this.paginated == paginated
      ensures this.hasNoResults == hasNoResults && this.hasList == hasList
      ensures this.listTotalPages == listTotalPages && this.pageLinks == pageLinks
      ensures this.hasPageInfo == hasPageInfo
      ensures this.styles == styles && this.controls == controls
      ensures checked == seq(|boxes|, _ => false) && allChecked && !noResultsShown
    {
      this.tagAttrs, this.boxes, this.hasAllBox := tagAttrs, boxes, hasAllBox;
      this.filterLogicAttr, this.categoryLogicAttr := filterLogicAttr, categoryLogicAttr;
      this.itemsPerPageAttr, this.paginated, this.hasNoResults := itemsPerPageAttr, paginated, hasNoResults;
      this.hasList, this.listTotalPages, this.pageLinks, this.hasPageInfo := hasList, listTotalPages, pageLinks, hasPageInfo;
      this.styles, this.controls := styles, controls;
      checked := seq(|boxes|, _ => false);
      allChecked := true;
      noResultsShown := false;
    }

    /** `showNoResultsMessage` / `hideNoResultsMessage`: a missing panel makes both no-ops. */
    method SetNoResults(shown: bool)
      requires Valid()
      modifies this
      ensures Valid()
      ensures noResultsShown == if hasNoResults then shown else old(noResultsShown)
      ensures styles == old(styles) && checked == old(checked) && allChecked == old(allChecked)
      ensures controls == old(controls)
    {
      if hasNoResults {
        noResultsShown := shown;
      }
    }

    /**
     * `showPagination` / `hidePagination` of the filter script: sets both the
     * region's `display` and its `visibility`; without a region, a no-op.
     */
    method SetRegion(shown: bool)
      requires Valid()
      modifies this
      ensures Valid()
      ensures controls == if paginated then old(controls).(regionDisplayed := shown, regionVisible := shown) else old(controls)
      ensures styles == old(styles) && checked == old(checked) && allChecked == old(allChecked)
      ensures noResultsShown == old(noResultsShown)
    {
      if paginated {
        controls := controls.(regionDisplayed := shown, regionVisible := shown);
      }
    }
  }
}
