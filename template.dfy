/**
 * The products element's template: the prop resets, the container's data
 * attributes the two scripts read, the page arithmetic behind each item's
 * `data-page` and initial visibility, and which pagination controls are
 * rendered.
 */
module Template {
  import opened Wrappers
  import opened Php
  import Paging

  // ---------------------------------------------------------------------------
  // Resets
  // ---------------------------------------------------------------------------

  /**
   * `r` is `props` after the resets: a linked panel clears the title and
   * image links, and a justified parallax without a parallax value gets `'0'`.
   * Every other prop is as it was.
   */
  ghost predicate ResetOf(props: map<string, Value>, r: map<string, Value>) {
    && (Truthy(Get(props, "panel_link")) ==> Get(r, "title_link") == Str("") && Get(r, "image_link") == Str(""))
    && (!Truthy(Get(props, "panel_link")) ==>
          Get(r, "title_link") == Get(props, "title_link") && Get(r, "image_link") == Get(props, "image_link"))
    && Get(r, "grid_parallax") ==
         (if !Truthy(Get(props, "grid_parallax")) && Truthy(Get(props, "grid_parallax_justify"))
          then Str("0") else Get(props, "grid_parallax"))
    && (forall k :: k != "title_link" && k != "image_link" && k != "grid_parallax" ==> Get(r, k) == Get(props, k))
  }

  /** The two in-place resets at the top of the template. */
  method ApplyResets(props: map<string, Value>) returns (r: map<string, Value>)
    ensures ResetOf(props, r)
  {
    r := props;
    if Truthy(Get(r, "panel_link")) {
      r := r["title_link" := Str("")];
      r := r["image_link" := Str("")];
    }
    if !Truthy(Get(r, "grid_parallax")) && Truthy(Get(r, "grid_parallax_justify")) {
      r := r["grid_parallax" := Str("0")];
    }
  }

  /** Resetting props that were already reset changes nothing. */
  lemma ResetsIdempotent(props: map<string, Value>, r: map<string, Value>, r2: map<string, Value>)
    requires ResetOf(props, r) && ResetOf(r, r2)
    ensures forall k :: Get(r2, k) == Get(r, k)
  {
    assert Get(r, "panel_link") == Get(props, "panel_link");
    assert Get(r, "grid_parallax_justify") == Get(props, "grid_parallax_justify");
  }

  // ---------------------------------------------------------------------------
  // PHP's (int) cast
  // ---------------------------------------------------------------------------

  predicate IsDigit(c: char) { '0' <= c <= '9' }

  predicate AllDigits(s: string) {
    forall i :: 0 <= i < |s| ==> IsDigit(s[i])
  }

  /** The white space a numeric string may start with. */
  predicate IsNumericSpace(c: char) {
    c == ' ' || c == '\t' || c == '\n' || c == '\r' || c == '\U{B}' || c == '\U{C}'
  }

  /** The length of the longest prefix of `s` made of digits. */
  function DigitRun(s: string): (n: nat)
    ensures n <= |s| && AllDigits(s[..n])
    ensures n < |s| ==> !IsDigit(s[n])
  {
    if s == [] || !IsDigit(s[0]) then 0
    else
      var n := DigitRun(s[1..]) + 1;
      assert s[..n] == [s[0]] + s[1..][..n - 1];
      n
  }

  /** The number a string of decimal digits denotes. */
  function ParseDigits(s: string): nat
    requires AllDigits(s)
  {
    if s == [] then 0
    else
      var n := |s| - 1;
      ParseDigits(s[..n]) * 10 + (s[n] as int - '0' as int)
  }

  /** `s` without its leading numeric white space. */
  function SkipSpace(s: string): (r: string)
    ensures |r| <= |s| && r == s[|s| - |r|..]
    ensures r == [] || !IsNumericSpace(r[0])
  {
    if s != [] && IsNumericSpace(s[0]) then SkipSpace(s[1..]) else s
  }

  /**
   * `(int)` of a string: leading white space, an optional sign and the digits
   * that follow; anything after them (a fraction included) is ignored.
   */
  function LeadingInt(s: string): int {
    var t := SkipSpace(s);
    if t != [] && (t[0] == '-' || t[0] == '+') then
      var u := t[1..];
      var n: int := ParseDigits(u[..DigitRun(u)]);
      if t[0] == '-' then -n else n
    else
      ParseDigits(t[..DigitRun(t)])
  }

  /** PHP's `(int)` cast of a prop. */
  function IntCast(v: Value): int {
    match v
    case Null => 0
    case Bool(b) => if b then 1 else 0
    case Int(i) => i
    case Str(s) => LeadingInt(s)
  }

  /** Appending a digit multiplies by ten and adds it. */
  lemma ParseDigitsSnoc(a: string, c: char)
    requires AllDigits(a) && IsDigit(c)
    ensures AllDigits(a + [c]) && ParseDigits(a + [c]) == ParseDigits(a) * 10 + (c as int - '0' as int)
  {
    assert (a + [c])[..|a|] == a;
  }

  /** A number below ten is written as its one digit. */
  lemma SingleDigit(d: nat)
    requires d < 10
    ensures |Digits(d)| == 1 && IsDigit(Digits(d)[0]) && ParseDigits(Digits(d)) == d
  {
    var c := Digits(d)[0];
    assert Digits(d) == [c];
    assert [c][..0] == [];
  }

  lemma {:induction false} ParseDigitsOfDigits(n: nat)
    ensures AllDigits(Digits(n)) && ParseDigits(Digits(n)) == n
  {
    if n < 10 {
      SingleDigit(n);
    } else {
      ParseDigitsOfDigits(n / 10);
      var b := Digits(n % 10);
      SingleDigit(n % 10);
      assert b == [b[0]];
      assert Digits(n) == Digits(n / 10) + [b[0]];
      ParseDigitsSnoc(Digits(n / 10), b[0]);
    }
  }

  lemma DigitRunAll(d: string)
    requires AllDigits(d)
    ensures DigitRun(d) == |d|
  {
  }

  /** A digit string casts to the number it spells. */
  lemma LeadingIntOfDigits(d: string, n: nat)
    requires AllDigits(d) && d != [] && ParseDigits(d) == n
    ensures LeadingInt(d) == n
  {
    DigitRunAll(d);
    assert d[..|d|] == d;
    assert SkipSpace(d) == d by {
      assert !IsNumericSpace(d[0]);
    }
    assert d[0] != '-' && d[0] != '+' by {
      assert IsDigit(d[0]);
    }
  }

  /** A digit string after a minus sign casts to the negated number. */
  lemma LeadingIntOfMinusDigits(d: string, n: nat)
    requires AllDigits(d) && d != [] && ParseDigits(d) == n
    ensures LeadingInt("-" + d) == -(n as int)
  {
    var s := "-" + d;
    assert SkipSpace(s) == s;
    assert s[0] == '-';
    assert s[1..] == d;
    DigitRunAll(d);
    assert d[..DigitRun(d)] == d;
  }

  lemma ToStrOfInt(i: int)
    ensures ToStr(Int(i)) == if i < 0 then "-" + Digits(-i) else Digits(i)
  {
  }

  /** The decimal string of a negative integer: a minus sign, then the digits. */
  lemma LeadingIntOfNegative(i: int)
    requires i < 0
    ensures LeadingInt(ToStr(Int(i))) == i
  {
    ParseDigitsOfDigits(-i);
    LeadingIntOfMinusDigits(Digits(-i), -i);
    ToStrOfInt(i);
  }

  /** The decimal string of a non-negative integer: its digits. */
  lemma LeadingIntOfNonNegative(i: int)
    requires i >= 0
    ensures LeadingInt(ToStr(Int(i))) == i
  {
    ParseDigitsOfDigits(i);
    LeadingIntOfDigits(Digits(i), i);
    ToStrOfInt(i);
  }

  /** Casting the decimal string of an integer gives the integer back. */
  lemma CastRoundTrip(i: int)
    ensures IntCast(Str(ToStr(Int(i)))) == i
  {
    var s := ToStr(Int(i));
    if i < 0 {
      LeadingIntOfNegative(i);
    } else {
      LeadingIntOfNonNegative(i);
    }
    assert IntCast(Str(s)) == LeadingInt(s);
  }

  // ---------------------------------------------------------------------------
  // PHP numbers, floor and ceil
  // ---------------------------------------------------------------------------

  /** A PHP number: an int, or a float that holds a whole value (what `floor` and `ceil` return). */
  datatype Number = IntNum(i: int) | FloatNum(f: int)

  function NumericValue(x: Number): int {
    match x
    case IntNum(i) => i
    case FloatNum(f) => f
  }

  /** `===`: equal types and equal values. */
  predicate StrictEquals(x: Number, y: Number) {
    x == y
  }

  /** `==` between numbers: equal values, whatever their types. */
  predicate LooseEquals(x: Number, y: Number) {
    NumericValue(x) == NumericValue(y)
  }

  /** `floor($n / $d)` for a non-negative `n`, as a whole number. */
  function FloorDiv(n: nat, d: int): (q: int)
    requires d != 0
    ensures d > 0 ==> q * d <= n < q * d + d
    ensures d < 0 ==> q * d + d < n <= q * d
  {
    if d > 0 then n / d else -((n - d - 1) / -d)
  }

  /** `ceil($n / $d)` for a non-negative `n`, as a whole number. */
  function CeilDiv(n: nat, d: int): (q: int)
    requires d != 0
    ensures d > 0 ==> q * d - d < n <= q * d
    ensures d < 0 ==> q * d <= n < q * d - d
  {
    if d > 0 then (n + d - 1) / d else -(n / -d)
  }

  // ---------------------------------------------------------------------------
  // The container's attributes
  // ---------------------------------------------------------------------------

  /** Whether the element uses the multiselect checkbox filter rather than UIkit's `uk-filter`. */
  predicate MultiselectMode(props: map<string, Value>) {
    Truthy(Get(props, "filter_multiselect")) && Get(props, "filter_style") == Str("checkbox")
  }

  predicate Paginated(props: map<string, Value>) {
    Truthy(Get(props, "pagination"))
  }

  /** The configured page size, `(int)($props['pagination_items_per_page'] ?: 6)`. */
  function ConfiguredPageSize(props: map<string, Value>): int {
    IntCast(Elvis(Get(props, "pagination_items_per_page"), Int(6)))
  }

  /** The attributes of the outer `div`. */
  datatype ContainerAttrs = ContainerAttrs(
    ukFilter: Option<Value>, // `uk-filter`, with the value of its `animation:` option, or absent
    multiselectClass: bool,  // the `multiselect-filter-container` class
    filterLogic: Value,      // `data-filter-logic`
    categoryLogic: Value,    // `data-category-logic`
    filterAnimation: Value,  // `data-filter-animation`
    pagination: bool,        // `data-pagination` is `"true"`
    itemsPerPage: int        // `data-items-per-page`
  )

  /**
   * With tags, exactly one of the two filters is set up: the multiselect
   * class in checkbox-multiselect mode, `uk-filter` otherwise. The category
   * logic and the animation always have a non-empty value, and the page size
   * is written only for a paginated element.
   */
  function ContainerAttributes(props: map<string, Value>, hasTags: bool): (a: ContainerAttrs)
    ensures a.multiselectClass <==> hasTags && MultiselectMode(props)
    ensures a.ukFilter.Some? <==> hasTags && !MultiselectMode(props)
    ensures a.ukFilter.Some? ==> a.ukFilter.value == Get(props, "filter_animation")
    ensures a.filterLogic == Get(props, "filter_logic")
    ensures Truthy(a.categoryLogic) && Truthy(a.filterAnimation)
    ensures Truthy(Get(props, "filter_category_logic")) ==> a.categoryLogic == Get(props, "filter_category_logic")
    ensures !Truthy(Get(props, "filter_category_logic")) ==> a.categoryLogic == Str("or")
    ensures Truthy(Get(props, "filter_multiselect_animation")) ==> a.filterAnimation == Get(props, "filter_multiselect_animation")
    ensures !Truthy(Get(props, "filter_multiselect_animation")) ==> a.filterAnimation == Str("fade")
    ensures a.pagination <==> Paginated(props)
    ensures a.itemsPerPage == if Paginated(props) then ConfiguredPageSize(props) else 0
  {
    var multiselect := hasTags && MultiselectMode(props);
    ContainerAttrs(
      if hasTags && !MultiselectMode(props) then Some(Get(props, "filter_animation")) else None,
      multiselect,
      Get(props, "filter_logic"),
      Elvis(Get(props, "filter_category_logic"), Str("or")),
      Elvis(Get(props, "filter_multiselect_animation"), Str("fade")),
      Paginated(props),
      if Paginated(props) then ConfiguredPageSize(props) else 0)
  }

  /**
   * The page size the scripts read back from `data-items-per-page`: an unset
   * size gives 6, a size stored as a number or as its decimal string gives
   * that number, and an unpaginated element's 0 makes the scripts fall back
   * to 6.
   */
  lemma ScriptPageSize(props: map<string, Value>, hasTags: bool)
    ensures var a := ContainerAttributes(props, hasTags);
      && (Paginated(props) && !Truthy(Get(props, "pagination_items_per_page")) ==> a.itemsPerPage == 6)
      && (forall n: nat :: Paginated(props) && n != 0 && Get(props, "pagination_items_per_page") == Str(ToStr(Int(n))) ==>
            a.itemsPerPage == n && Paging.ItemsPerPage(Some(n)) == n)
      && (!Paginated(props) ==> a.itemsPerPage == 0 && Paging.ItemsPerPage(Some(0)) == 6)
  {
    forall n: nat | Paginated(props) && n != 0 && Get(props, "pagination_items_per_page") == Str(ToStr(Int(n)))
      ensures ConfiguredPageSize(props) == n
    {
      CastRoundTrip(n);
      ToStrTruthy(Int(n));
    }
  }

  // ---------------------------------------------------------------------------
  // Page arithmetic
  // ---------------------------------------------------------------------------

  /** `$itemsPerPage`: the configured size when paginated, else every child on one page. */
  function PageSize(props: map<string, Value>, count: nat): int {
    if Paginated(props) then ConfiguredPageSize(props) else count
  }

  /** `$totalPages`; `None` where `$totalItems / $itemsPerPage` divides by zero and PHP throws. */
  function TotalPages(props: map<string, Value>, count: nat): Option<int> {
    if !Paginated(props) then Some(1)
    else if PageSize(props, count) == 0 then None
    else Some(CeilDiv(count, PageSize(props, count)))
  }

  /** With a positive page size, the template's page count is the scripts' `Math.ceil`. */
  lemma TotalPagesIsPageCount(props: map<string, Value>, count: nat)
    requires Paginated(props) && PageSize(props, count) >= 1
    ensures TotalPages(props, count) == Some(Paging.PageCount(count, PageSize(props, count)))
  {
    var d := PageSize(props, count);
    Paging.PageCountIsCeiling(count, d);
  }

  /** Without pagination, there is one page and every item is on it. */
  lemma UnpaginatedOnePage(props: map<string, Value>, count: nat, index: nat)
    requires !Paginated(props) && index < count
    ensures TotalPages(props, count) == Some(1)
    ensures PageNumber(index, PageSize(props, count)) == FloatNum(1)
  {
  }

  /** `floor($index / $itemsPerPage) + 1`: a float, since `floor` returns one. */
  function PageNumber(index: nat, perPage: int): (p: Number)
    requires perPage != 0
    ensures p.FloatNum?
    ensures perPage >= 1 ==> NumericValue(p) == Paging.PageOf(index, perPage)
  {
    FloatNum(FloorDiv(index, perPage) + 1)
  }

  // ---------------------------------------------------------------------------
  // Item visibility
  // ---------------------------------------------------------------------------

  /** `$isVisible` as written: `!pagination || $pageNumber === 1`, an int compared strictly with a float. */
  predicate IsVisibleAsWritten(paginated: bool, pageNumber: Number) {
    !paginated || StrictEquals(pageNumber, IntNum(1))
  }

  /** As written, a paginated element renders every item hidden, its first item included. */
  lemma AsWrittenHidesFirstPage(index: nat, perPage: int)
    requires perPage != 0
    ensures !IsVisibleAsWritten(true, PageNumber(index, perPage))
  {
  }

  /** `$isVisible` as intended: the page number compared by value with 1. */
  predicate IsVisible(paginated: bool, pageNumber: Number) {
    !paginated || LooseEquals(pageNumber, IntNum(1))
  }

  /**
   * As intended, a paginated element shows exactly the first page: with a
   * positive page size the first `perPage` items, with a negative one (whose
   * page numbers fall below 1) only the first item.
   */
  lemma VisibleIffFirstPage(index: nat, perPage: int)
    requires perPage != 0
    ensures IsVisible(true, PageNumber(index, perPage)) <==> index == 0 || index < perPage
    ensures perPage >= 1 ==> (IsVisible(true, PageNumber(index, perPage)) <==> Paging.PageOf(index, perPage) == 1)
  {
    var q := FloorDiv(index, perPage);
    if perPage > 0 {
      if index >= perPage {
        assert q != 0;
      }
    } else if index > 0 {
      assert q < 0 by {
        if q >= 0 {
          Paging.MulMonotone(0, q, -perPage);
        }
      }
    }
  }

  /** One rendered item: its `data-tag`, `data-page`, `data-item-index` and whether it starts hidden. */
  datatype Cell = Cell(tags: Assoc<string>, page: Number, index: nat, hidden: bool)

  /**
   * The loop over the children. Each item is numbered with its page and
   * starts hidden unless it is on the first page of a paginated element
   * (an unpaginated element hides nothing).
   */
  method RenderItems(paginated: bool, perPage: int, children: seq<Assoc<string>>) returns (cells: seq<Cell>)
    requires perPage != 0 || children == []
    ensures |cells| == |children|
    ensures forall i :: 0 <= i < |cells| ==>
      && cells[i].index == i
      && cells[i].tags == children[i]
      && cells[i].page == PageNumber(i, perPage)
      && (cells[i].hidden <==> paginated && i > 0 && i >= perPage)
  {
    cells := [];
    for index := 0 to |children|
      invariant |cells| == index
      invariant forall i :: 0 <= i < index ==>
        && cells[i].index == i
        && cells[i].tags == children[i]
        && cells[i].page == PageNumber(i, perPage)
        && (cells[i].hidden <==> paginated && i > 0 && i >= perPage)
    {
      var pageNumber := PageNumber(index, perPage);
      var isVisible := IsVisible(paginated, pageNumber);
      VisibleIffFirstPage(index, perPage);
      cells := cells + [Cell(children[index], pageNumber, index, !isVisible)];
    }
  }

  // ---------------------------------------------------------------------------
  // Pagination controls
  // ---------------------------------------------------------------------------

  /** A `.pagination-page` link: its `data-page` and whether it carries `uk-active`. */
  datatype PageLink = PageLink(page: int, active: bool)

  /** What the pagination region holds, by `pagination_style`. */
  datatype RegionContent =
    | LoadMoreButton(totalPages: int) // `'load-more'`: the button alone, at page 1 of `totalPages`
    | PageList(                       // every other style: the `ul.uk-pagination` list
        totalPages: int,
        prevDisabled: bool,
        links: seq<PageLink>,         // only for `'default'`
        nextDisabled: bool,
        info: Option<int>)            // `'previous-next'`: "Page 1 of N", holding N

  /** The `.pagination-container`: its alignment class, whether it starts hidden, and its contents. */
  datatype Region = Region(align: Value, hidden: bool, content: RegionContent)

  /** The numbered links `1..totalPages`, only the first one active. */
  method RenderLinks(totalPages: int) returns (links: seq<PageLink>)
    ensures |links| == if totalPages < 0 then 0 else totalPages
    ensures forall k :: 0 <= k < |links| ==> links[k].page == k + 1 && (links[k].active <==> k == 0)
  {
    links := [];
    var i := 1;
    while i <= totalPages
      invariant 1 <= i && (totalPages >= 0 ==> i <= totalPages + 1) && (totalPages < 1 ==> i == 1)
      invariant |links| == i - 1
      invariant forall k :: 0 <= k < |links| ==> links[k].page == k + 1 && (links[k].active <==> k == 0)
    {
      links := links + [PageLink(i, i == 1)];
      i := i + 1;
    }
  }

  /**
   * The region of a paginated element: hidden when there is at most one page;
   * the load-more style renders only its button, every other style the list,
   * whose previous link starts disabled and whose next link starts disabled
   * exactly when there is at most one page.
   */
  method RenderRegion(props: map<string, Value>, totalPages: int) returns (region: Region)
    ensures region.hidden <==> totalPages <= 1
    ensures region.align == Elvis(Get(props, "pagination_align"), Str("center"))
    ensures region.content.LoadMoreButton? <==> Get(props, "pagination_style") == Str("load-more")
    ensures region.content.totalPages == totalPages
    ensures region.content.PageList? ==>
      && region.content.prevDisabled
      && (region.content.nextDisabled <==> totalPages <= 1)
      && (region.content.info.Some? <==> Get(props, "pagination_style") == Str("previous-next"))
      && (region.content.info.Some? ==> region.content.info.value == totalPages)
      && (Get(props, "pagination_style") == Str("default") ==>
            |region.content.links| == (if totalPages < 0 then 0 else totalPages)
            && forall k :: 0 <= k < |region.content.links| ==>
                 region.content.links[k].page == k + 1 && (region.content.links[k].active <==> k == 0))
      && (Get(props, "pagination_style") != Str("default") ==> region.content.links == [])
  {
    var style := Get(props, "pagination_style");
    var content;
    if style == Str("load-more") {
      content := LoadMoreButton(totalPages);
    } else {
      var links := [];
      if style == Str("default") {
        links := RenderLinks(totalPages);
      }
      var info := if style == Str("previous-next") then Some(totalPages) else None;
      content := PageList(totalPages, true, links, totalPages <= 1, info);
    }
    region := Region(Elvis(Get(props, "pagination_align"), Str("center")), totalPages <= 1, content);
  }

  /** With a positive page size, the region starts hidden exactly when every item fits on one page. */
  lemma RegionHiddenIffOnePage(props: map<string, Value>, count: nat)
    requires Paginated(props) && PageSize(props, count) >= 1
    ensures TotalPages(props, count).value <= 1 <==> count <= PageSize(props, count)
  {
    TotalPagesIsPageCount(props, count);
    Paging.MoreThanOnePage(count, PageSize(props, count));
  }

  // ---------------------------------------------------------------------------
  // The whole template
  // ---------------------------------------------------------------------------

  /** What the template renders. */
  datatype Markup =
    | Unfiltered(container: ContainerAttrs, items: nat) // no tags: plain grid cells
    | Filtered(
        container: ContainerAttrs,
        cells: seq<Cell>,
        noResults: Option<Value>, // the no-results panel and its message, in multiselect mode
        region: Option<Region>)   // the pagination region, when paginated
    | DivisionByZero(container: ContainerAttrs) // a paginated element whose page size casts to 0

  /** The resets touch none of the props the filter and pagination depend on. */
  lemma ResetKeepsSettings(props: map<string, Value>, r: map<string, Value>, count: nat)
    requires ResetOf(props, r)
    ensures Paginated(r) == Paginated(props)
    ensures MultiselectMode(r) == MultiselectMode(props)
    ensures ConfiguredPageSize(r) == ConfiguredPageSize(props)
    ensures PageSize(r, count) == PageSize(props, count)
    ensures TotalPages(r, count) == TotalPages(props, count)
  {
    assert Get(r, "pagination") == Get(props, "pagination");
    assert Get(r, "pagination_items_per_page") == Get(props, "pagination_items_per_page");
    assert Get(r, "filter_multiselect") == Get(props, "filter_multiselect");
    assert Get(r, "filter_style") == Get(props, "filter_style");
  }

  /** The part of the template inside `if ($tags)`, on props already reset. */
  method RenderFiltered(props: map<string, Value>, container: ContainerAttrs, children: seq<Assoc<string>>)
    returns (m: Markup)
    ensures m.container == container
    ensures !m.Unfiltered?
    ensures m.DivisionByZero? <==> TotalPages(props, |children|).None?
    ensures m.Filtered? ==>
      && |m.cells| == |children|
      && (forall i :: 0 <= i < |m.cells| ==>
            m.cells[i].index == i && m.cells[i].tags == children[i]
            && (m.cells[i].hidden <==> Paginated(props) && i > 0 && i >= PageSize(props, |children|)))
      && (m.noResults.Some? <==> MultiselectMode(props))
      && (m.noResults.Some? ==> Truthy(m.noResults.value))
      && (m.region.Some? <==> Paginated(props))
      && (m.region.Some? ==>
            m.region.value.content.totalPages == TotalPages(props, |children|).value
            && (m.region.value.hidden <==> TotalPages(props, |children|).value <= 1))
  {
    var perPage := PageSize(props, |children|);
    var total := TotalPages(props, |children|);
    if total.None? {
      return DivisionByZero(container);
    }
    var cells := RenderItems(Paginated(props), perPage, children);
    var noResults := None;
    if MultiselectMode(props) {
      noResults := Some(Elvis(Get(props, "filter_no_results_message"), Str("No products found")));
    }
    var region := None;
    if Paginated(props) {
      var reg := RenderRegion(props, total.value);
      region := Some(reg);
    }
    m := Filtered(container, cells, noResults, region);
  }

  /**
   * The template for an element with props `props`, the tags its transform
   * collected, and the `tags` of each child. Without tags the children are
   * rendered plainly; otherwise each is numbered with its page, a paginated
   * element whose page size casts to 0 fails on the division, and the
   * no-results panel and the pagination region follow the settings.
   */
  method Render(props: map<string, Value>, tags: Assoc<string>, children: seq<Assoc<string>>) returns (m: Markup)
    ensures exists r :: ResetOf(props, r) && m.container == ContainerAttributes(r, tags != [])
    ensures m.Unfiltered? <==> tags == []
    ensures m.Unfiltered? ==> m.items == |children|
    ensures m.DivisionByZero? <==> tags != [] && Paginated(props) && ConfiguredPageSize(props) == 0
    ensures m.Filtered? ==>
      && |m.cells| == |children|
      && (forall i :: 0 <= i < |m.cells| ==>
            m.cells[i].index == i && m.cells[i].tags == children[i]
            && (m.cells[i].hidden <==> Paginated(props) && i > 0 && i >= PageSize(props, |children|)))
      && (m.noResults.Some? <==> MultiselectMode(props))
      && (m.region.Some? <==> Paginated(props))
      && (m.region.Some? ==>
            m.region.value.content.totalPages == TotalPages(props, |children|).value
            && (m.region.value.hidden <==> TotalPages(props, |children|).value <= 1))
  {
    var r := ApplyResets(props);
    ResetKeepsSettings(props, r, |children|);
    var container := ContainerAttributes(r, tags != []);
    if tags == [] {
      return Unfiltered(container, |children|);
    }
    m := RenderFiltered(r, container, children);
  }
}
