# Products element: multiselect filter, pagination, tag index, template and migration

This project models a YOOtheme "Products" builder element. It has two
halves.

The client side is two scripts that act on one products container:

- The multiselect filter (`products/app/multiselect-filter.js`) is a
  state machine over the "All" checkbox and the tag checkboxes.
  - An evaluation groups the checked tags by category.
  - It tests each grid item with a two-level any/all combination and
    counts the matches.
  - It shows or hides the no-results panel and the pagination region.
  - It truncates the shown items to the first page.
  - It announces the outcome with a `multiselectFilterApplied` or a
    `multiselectFilterCleared` notification.
- The pagination script (`products/app/pagination.js`) supports three
  presentations:
  - numbered or previous/next pages, where a closure keeps `currentPage`;
  - a load-more button whose counter only grows;
  - after a filter, a switch to a load-more presentation over the
    filtered items, which is undone when the filter is cleared.

The server side is PHP:

- The element's render transform (`products/element.php`) builds each
  child's tags and categorised tags.
  - Tag keys are normalised: trim, spaces become `-`, and falsy keys are
    dropped.
  - The children's tags and categories are merged into the parent with
    a first-key-wins union.
  - The parent's tags are sorted with a manual-order or natural-order
    comparator, and optionally reversed.
- The template (`products/templates/template.php`):
  - resets props in place;
  - derives the container's data attributes;
  - computes the page arithmetic behind each item's `data-page` and its
    initial visibility;
  - decides which pagination controls are rendered.
- A stored-props migration (`Product_item/updates.php`) applies
  `ucwords` to a non-empty `tags` prop.

The modules follow the program:

- `Wrappers`: `Option`.
- `Php`: truthiness, `?:`, string conversion, `trim`, `str_replace` of
  one character, `explode`, ASCII case mapping. It also holds string-keyed
  arrays, kept as insertion-ordered entry lists, with `$a[$k] = $v` and
  `$a + $b`.
- `Paging`: the `parseInt(attr) || 6` page size, `floor(index/ipp)+1`,
  `Math.ceil`.
- `ItemTags`: `getItemTags`.
- `Matching`: the grouping of checked tags and `shouldShow`.
- `Dom`: one container's markup and the state the scripts write.
- `FilterScript`: a `MultiSelectFilter` class whose methods are the
  listeners and their helpers.
- `PaginationScript`: a `Pagination` class. Its fields are the closures'
  state: `currentPage`, `totalPages`, the load-more counter, and the
  filtered load-more listener.
- `Page`: the two `DOMContentLoaded` handlers and notification delivery.
- `TagIndex`, `TagOrder` and `Element`: the render transform. `Element`
  has a `Node` class whose `tags` and `categorized` fields the transform
  writes.
- `Template`.
- `Migration`: a `StoredNode` class.

Modelling choices:

- Every script operation acts on the container it is given. In the
  scripts, many functions look up the first container of the document
  instead.
- A notification is returned by the filter method that raises it.
  `Page` delivers it to the pagination object. The document-level
  applied listener of `pagination.js:318` runs first, then the listener
  of the active presentation (`pagination.js:127`/`:172`). This is the
  order in which the script registers them.
- An item's style is two flags: `display: none` and `opacity: 0`.
  - `showItem` and `hideItem` set opacity `0` synchronously.
  - `hideItem`'s delayed `display: none` is applied at once. The filter
    therefore leaves the logical set of visible items.
  - The timer that restores opacity `1` is not modelled.
- The evaluation reads its between-categories logic as
  `data-filter-logic || 'and'` (`multiselect-filter.js:64`). It ignores
  the `'or'` default that `initMultiSelectFilters` computes and passes
  in (`:17`, `:61`).

Literal behaviours the model keeps and proves:

- `applyPaginationToVisibleItems` counts only items that are neither
  `display: none` nor at opacity `0`. Right after an evaluation every
  item is at opacity `0`, so it hides nothing
  (`FilterScript.VisiblePaginationHidesNothing`).
- Standard mode's `showPageItems` selects items by raw grid index, not
  by rank among the filtered items (`PaginationScript.Pagination.GoToPage`).
- A tag whose trimmed text is `0` is dropped, because its key is falsy
  in PHP (`TagIndex.NormalizeShape`).
- On page load, `showAllItems` raises a cleared notification. That
  notification makes the pagination script hide an existing load-more
  button (`Page.Load`).

`strip_tags` and `strnatcmp` are parameters of the model (`Stripper`, `Comparator`).

## Model

| member | source | states |
|---|---|---|
| Php.Elvis | products/templates/template.php:26-29 | `$v ?: $d` is `v` when `v` is truthy and `d` otherwise |
| Php.ToStrTruthy | products/element.php:33-40 | the string form of a prop is truthy exactly when the prop is, so a non-empty field explodes into a non-empty text |
| Php.Trim | products/element.php:21-22 | `trim` cuts a run of trim characters from each end and nothing else; the result neither starts nor ends with one |
| Php.TrimIdempotent | products/element.php:21-22 | trimming twice is trimming once |
| Php.ReplaceChar | products/element.php:21 | `str_replace(' ', '-', s)` keeps the length and replaces each space, and only spaces, by `-` |
| Php.Explode | products/element.php:17 | `explode` always gives at least one piece and no piece contains the separator |
| Php.JoinExplode | products/element.php:17 | gluing the pieces of `explode` back with the separator gives the input: nothing is lost |
| Php.ExplodeJoin | products/element.php:75 | exploding a join of separator-free pieces gives the pieces back |
| Php.ToLowerChar | products/element.php:74-78 | one byte of `strtolower`: an uppercase ASCII letter moves 32 code points up to its lowercase form, any other character is unchanged |
| Php.ToLower | products/element.php:74-78 | `strtolower` maps each character through `ToLowerChar`, keeps the length and leaves no uppercase ASCII letter |
| Php.ToUpperChar | Product_item/updates.php:8 | a lowercase ASCII letter becomes the uppercase letter 32 code points below it, which `ToLowerChar` maps back; any other character is unchanged |
| Php.LookupFinds | products/element.php:58 | `isset($a[$k])` holds exactly when some entry has key `k` |
| Php.Put | products/element.php:22 | after `$a[$k] = $v`, `k` maps to `v` and every other key keeps its value |
| Php.PutKeys | products/element.php:22 | `$a[$k] = $v` keeps every key in place and appends `k` only when it is new |
| Php.PutOverwrite | products/element.php:43-44 | writing a key twice leaves the second value where the first write put the key |
| Php.PutUnique | products/element.php:22 | assignment keeps the keys distinct |
| Php.Union | products/element.php:50 | `$a + $b` starts with `a` unchanged, and a key gives `a`'s value when `a` has it and `b`'s otherwise |
| Php.UnionUnique | products/element.php:50 | the union keeps the keys distinct |
| Paging.ItemsPerPage | products/app/pagination.js:39 | `parseInt(attr) \|\| 6` is the attribute when present and non-zero, else 6, and never below 1 |
| Paging.PageOfIff | products/app/pagination.js:106 | an item is on page `p` exactly when its index is in `[(p-1)*ipp, p*ipp)` |
| Paging.PageAtMost | products/app/pagination.js:157-158 | an item is on page `p` or earlier exactly when its index is below `p*ipp` |
| Paging.PageOfMonotone | products/app/pagination.js:106 | a later item never falls on an earlier page |
| Paging.PageCountIsCeiling | products/app/pagination.js:233 | `Math.ceil(count/ipp)` is the least number of pages that holds `count` items, and 0 only for no items |
| Paging.MoreThanOnePage | products/app/pagination.js:196-199 | there is more than one page exactly when the items exceed the page size |
| Paging.PageOfInRange | products/app/pagination.js:106 | every item falls on a page between 1 and the page count |
| Paging.EveryPageInhabited | products/app/pagination.js:100-116 | every page from 1 to the page count holds an item, the one at `(p-1)*ipp` |
| ItemTags.SplitRuns | products/app/multiselect-filter.js:161 | `split(/[\s,]+/)` gives at least one piece and no piece contains white space or a comma |
| ItemTags.NonEmpty | products/app/multiselect-filter.js:161 | the filter keeps only non-empty pieces of the split |
| ItemTags.ItemTagsOf | products/app/multiselect-filter.js:156-162 | every tag of an item is non-empty and free of separators; a missing attribute gives none |
| ItemTags.SplitHead | products/app/multiselect-filter.js:161 | the first piece of the split is the attribute's leading word, and the non-empty pieces after it are the words of the rest |
| ItemTags.SplitFilterIsTokens | products/app/multiselect-filter.js:161 | split-then-filter yields exactly the maximal words of the attribute, in order |
| ItemTags.TokensConcat | products/app/multiselect-filter.js:161 | a separator between two strings splits their tags apart |
| ItemTags.TokensOfToken | products/app/multiselect-filter.js:161 | a single tag reads back as itself |
| ItemTags.ReadBackJoined | products/app/multiselect-filter.js:156-162 | tags written space-separated into `data-tag` are read back as the same tags |
| Matching.CategoryOf | products/app/multiselect-filter.js:73 | a box's category is its `data-category`, or `general` when that is missing or empty |
| Matching.GroupedIsByCategory | products/app/multiselect-filter.js:67-79 | the selection has exactly the categories with a checked box, each with its checked tags in document order |
| Matching.NoneCheckedIn | products/app/multiselect-filter.js:67-79 | a category without a checked box has no selected tags |
| Matching.GroupedEmptyIff | products/app/multiselect-filter.js:81-87 | the selection is empty exactly when no box is checked |
| Matching.LogicAttr | products/app/multiselect-filter.js:63-64 | a non-empty logic attribute is used as written; a missing or empty one gives the default (`'or'` within a category, `'and'` between categories) |
| Matching.CheckAddsTag | products/app/multiselect-filter.js:67-79 | checking a box appends its tag to its own category's list and changes no other category |
| Matching.CheckKeepsCategories | products/app/multiselect-filter.js:67-79 | checking a box in an already selected category keeps the set of categories |
| Matching.CheckingIsMonotone | products/app/multiselect-filter.js:95-121 | adding a tag to a selected category never hides a shown item under within-`or`, and never reveals a hidden one otherwise |
| Matching.Matched | products/app/multiselect-filter.js:89-128 | the evaluation shows exactly the items `shouldShow` accepts, in grid order |
| Dom.Container.SetNoResults | products/app/multiselect-filter.js:257-271 | the no-results panel is shown or hidden, a missing panel makes this a no-op, and nothing else changes |
| Dom.Container.SetRegion | products/app/multiselect-filter.js:273-287 | the region's display and visibility are set together, a missing region makes this a no-op, and nothing else changes |
| FilterScript.VisiblePaginationHidesNothing | products/app/multiselect-filter.js:289-309 | when every item is at opacity 0, as the evaluation leaves them, paginating the visible items changes nothing |
| FilterScript.VisiblePaginationKeepsFirstPage | products/app/multiselect-filter.js:289-309 | a showing item stays displayed exactly when fewer than `ipp` showing items precede it |
| FilterScript.RegionSet | products/app/multiselect-filter.js:273-287 | only the region's display and visibility change |
| FilterScript.FirstPageControls | products/app/multiselect-filter.js:328-346 | the page reset touches neither the region's visibility nor the list nor the button |
| FilterScript.ShownControls | products/app/multiselect-filter.js:130-147 | once `n` items are shown (by an evaluation here, by `showAllItems` at lines 236-255) the region is shown exactly when `n` exceeds the page size, and the list and the load-more button are untouched |
| FilterScript.MultiSelectFilter.Init | products/app/multiselect-filter.js:13-58 | listeners are attached exactly to a multiselect container with boxes and items, and then all items are shown with a cleared notification |
| FilterScript.MultiSelectFilter.ToggleAllBox | products/app/multiselect-filter.js:26-33 | checking "All" unchecks every tag box and shows all items; unchecking it changes nothing else |
| FilterScript.MultiSelectFilter.ToggleTagBox | products/app/multiselect-filter.js:37-53 | the box flips; checking a tag unchecks "All", and otherwise "All" keeps its state unless no tag is left and it exists, when it is checked; with no tag left every item is shown, the panel hidden and the region set for all items; otherwise exactly the matching items are shown, the panel is shown iff none match, the region follows the match count, and the grouping and count are announced; without listeners nothing but the box changes |
| FilterScript.MultiSelectFilter.AfterTagChange | products/app/multiselect-filter.js:43-52 | with no tag checked and an "All" box, "All" is checked and every item shown; otherwise the checked tags are evaluated, with the items, panel, region and notice the evaluation gives |
| FilterScript.MultiSelectFilter.AnyChecked | products/app/multiselect-filter.js:44 | true exactly when some tag box is checked |
| FilterScript.MultiSelectFilter.GroupSelected | products/app/multiselect-filter.js:67-79 | the loop builds the selection by category, one checked box at a time |
| FilterScript.MultiSelectFilter.ApplyFilter | products/app/multiselect-filter.js:61-154 | an empty selection shows all items; otherwise exactly the matching items are shown, the count drives the panel and region, and the count is announced |
| FilterScript.MultiSelectFilter.MatchItems | products/app/multiselect-filter.js:89-128 | each item ends shown exactly when it passes the test, hidden otherwise, and the count is the number of matching items |
| FilterScript.MultiSelectFilter.ApplyPaginationToVisibleItems | products/app/multiselect-filter.js:289-309 | showing items beyond the first `ipp` showing ones are hidden, then the page indicators are reset |
| FilterScript.MultiSelectFilter.ShowAllItems | products/app/multiselect-filter.js:236-255 | every item is shown, truncated to the raw first page when there are more items than the page size; the panel is hidden; only a cleared notification is raised |
| FilterScript.MultiSelectFilter.ApplyPaginationToAllItems | products/app/multiselect-filter.js:312-326 | items with raw index below `ipp` are displayed at full opacity and the rest hidden |
| FilterScript.MultiSelectFilter.ResetPaginationToFirstPage | products/app/multiselect-filter.js:328-346 | the page indicator reads 1 and only the first page link is active |
| PaginationScript.PrefixStylesAt | products/app/pagination.js:283-300 | the `j`-th filtered item is displayed exactly when `j` is below the limit, and no other item is touched |
| PaginationScript.DisplayedIndices | products/app/pagination.js:319-320 | the filtered list is exactly the items not `display: none`, in grid order |
| PaginationScript.EachItemOnOnePage | products/app/pagination.js:100-116 | each item falls on one page between 1 and the page count, and is displayed on that page and no other |
| PaginationScript.FirstPageIsPrefix | products/app/pagination.js:100-116 | page 1 by raw index displays exactly the items before `ipp` |
| PaginationScript.HideLaterBoundsDisplayed | products/app/pagination.js:172-184 | after the load-more reset no item at or past index `ipp` is displayed |
| PaginationScript.RevealedAllPages | products/app/pagination.js:144-158 | once the load-more counter reaches the page count, every item is displayed |
| PaginationScript.LastFilteredStepShowsAll | products/app/pagination.js:283-300 | a filtered step whose limit reaches the list's length displays every filtered item |
| PaginationScript.NewLoadMoreButton | products/app/pagination.js:231-243 | a created button is displayed and its page count is `ceil(count/ipp)` |
| PaginationScript.UpdatedButton | products/app/pagination.js:245-253 | an updated button's page count is `ceil(count/ipp)` and its text has a trailing space exactly when there is more than one page |
| PaginationScript.FilteredButton | products/app/pagination.js:217-225 | the button left in the region is displayed with the filtered page count |
| PaginationScript.Pagination.Init | products/app/pagination.js:13-36 | a list selects numbered paging at page 1, else a button selects load-more; on a paginated container an item is displayed exactly when its index is below `ipp` |
| PaginationScript.Pagination.ShowFirstPage | products/app/pagination.js:38-48 | items before index `ipp` are displayed and the rest hidden |
| PaginationScript.Pagination.ClickPrev | products/app/pagination.js:55-61 | the page moves back one only when it is above 1, and stays within `[1, totalPages]` |
| PaginationScript.Pagination.ClickNext | products/app/pagination.js:55-63 | the page moves on one only when it is below `totalPages`, and stays within `[1, totalPages]` |
| PaginationScript.Pagination.ClickPageLink | products/app/pagination.js:64-69 | a link with page 0 or the current page is ignored, any other goes to its page; with links within range the page stays within range |
| PaginationScript.Pagination.GoToPage | products/app/pagination.js:72-91 | the current page is set; exactly that page's items by raw index are displayed; a link is active exactly when its page is current; prev is disabled iff the page is at most 1, next iff it is at least `totalPages` |
| PaginationScript.Pagination.UpdatePaginationUI | products/app/pagination.js:79-91 | active links and prev/next disabling follow the current page |
| PaginationScript.Pagination.ShowPageItems | products/app/pagination.js:100-116 | items are displayed exactly when their raw page is the given page |
| PaginationScript.Pagination.ClickLoadMore | products/app/pagination.js:139-153 | a click reaches the live listener, so its counter grows by one and no displayed item is hidden by the original button |
| PaginationScript.Pagination.ClickOriginalLoadMore | products/app/pagination.js:139-153 | the counter grows by exactly one; items on pages up to it are revealed and none is hidden; the button hides once the counter reaches `totalPages` |
| PaginationScript.Pagination.ShowItemsUpToPage | products/app/pagination.js:155-169 | hidden items on the given page or earlier are displayed and nothing is hidden |
| PaginationScript.Pagination.ClickFilteredLoadMore | products/app/pagination.js:266-280 | the filtered counter grows by one, the first `counter*ipp` filtered items are displayed and the rest hidden, and the button hides once the counter reaches its page count |
| PaginationScript.Pagination.ShowFilteredItemsUpToPage | products/app/pagination.js:283-300 | the filtered items before `page*ipp` are displayed and the later ones hidden |
| PaginationScript.Pagination.AfterFilterSwitch | products/app/pagination.js:318-323 | the filtered list is read from the items still displayed and the presentation is updated for it |
| PaginationScript.Pagination.UpdatePaginationAfterFilter | products/app/pagination.js:187-205 | with no more filtered items than `ipp` the region is hidden; otherwise it is shown and switched to load-more |
| PaginationScript.Pagination.ShowRegionAsLoadMore | products/app/pagination.js:200-203 | the region is displayed, the list hidden, the button shown with the filtered page count, and the first `ipp` filtered items displayed |
| PaginationScript.Pagination.SwitchToLoadMoreStyle | products/app/pagination.js:207-229 | the list is hidden, the button is created or shown and updated, and the first `ipp` filtered items are displayed under a new listener at page 1 |
| PaginationScript.Pagination.InitLoadMoreForFiltered | products/app/pagination.js:255-265 | a new listener at page 1 replaces the old one and only the first `ipp` filtered items are displayed |
| PaginationScript.Pagination.AfterFilterReset | products/app/pagination.js:127-131 | numbered paging goes to page 1 only when it is not already there; load-more resets its counter to 1, hides items whose raw page is after the first, and shows the original button as "Load More" unless a filtered button has replaced its listener |
| PaginationScript.Pagination.HideLaterPages | products/app/pagination.js:177-183 | every item whose raw page is after the first is hidden and no other item changes |
| PaginationScript.Pagination.AfterFilterCleared | products/app/pagination.js:302-330 | the original list is shown again and the load-more button hidden |
| Page.Dispatch | products/app/pagination.js:318-330 | a cleared notification restores the list and hides the button; an applied one puts numbered paging on page 1 and switches to load-more when more than `ipp` items are displayed |
| Page.DeliverCleared | products/app/pagination.js:325-330 | after "cleared" a paginated container shows its list and no displayed load-more button |
| Page.DeliverApplied | products/app/pagination.js:318-323 | after "applied" numbered paging ends on page 1 and, when it had to move there, shows exactly the items before `ipp`; load-more keeps no item past `ipp` displayed, and more than `ipp` displayed items switch to load-more over them |
| Page.Deliver | products/app/pagination.js:318-330 | delivering in order keeps the strategy, and after a last applied notification numbered paging is on page 1 |
| Page.Load | products/app/multiselect-filter.js:9-11 | after both load handlers, a paginated container displays exactly the items before `ipp`, a filtering container's load-more button is hidden, and numbered paging is on page 1 |
| Page.ClickTag | products/app/multiselect-filter.js:37-53 | a tag click toggles that box; with no box left checked every item is shown as `showAllItems` leaves them; with some box checked, numbered paging ends on page 1, load-more displays nothing at or past `ipp`, and an unpaginated container displays exactly the matching items |
| Page.ClickAll | products/app/multiselect-filter.js:26-33 | an "All" click toggles it; checking it leaves no tag box checked and the items as `showAllItems` leaves them, which the cleared notice does not change |
| TagIndex.NormalizeShape | products/element.php:17-23 | a tag's key is its trimmed text with spaces replaced by `-`, its label is its trimmed text, and it is dropped exactly when the trimmed text is empty or `0` |
| TagIndex.PutEntriesKeys | products/element.php:17-24 | the loop adds exactly the prefixed keys of the surviving pieces and keeps every other key's value |
| TagIndex.PutEntriesLastWins | products/element.php:22 | a key carries the label of the last piece stored under it |
| TagIndex.PutPiecesStep | products/element.php:17-24 | one more piece stores its normalised entry, or nothing when dropped |
| TagIndex.CategoryTitle | products/element.php:27-30 | a category's title is its `tagN_label` prop, or `Tag 1` / `Tag 2` when that is empty |
| TagIndex.ChildCategoryEntries | products/element.php:32-46 | a child has a category exactly when its field is non-empty, with that title and the field's normalised tags |
| TagIndex.ChildCategoriesUnique | products/element.php:35 | a child's category keys are distinct |
| TagIndex.MergedTagsFirstWins | products/element.php:50 | on a key several children share, the earliest child's label wins |
| TagIndex.MergedTagsMissing | products/element.php:50 | a key no child has is not in the parent's tags |
| TagIndex.CombineCategory | products/element.php:58-64 | a merged category exists when either side has it, and keeps the parent's title when the parent had it |
| TagIndex.MergeChildLookup | products/element.php:57-65 | merging one child combines its categories into the parent's key by key |
| TagIndex.MergedCategoryTitle | products/element.php:54-67 | the parent has a category when some child has it, with the title of the first such child |
| TagIndex.MergedCategoryMissing | products/element.php:54-67 | a category no child has is not in the parent's |
| TagOrder.ManualOrder | products/element.php:73-76 | entry `i` of the manual order is the `i`-th comma-separated piece, trimmed and lowercased, one entry per piece |
| TagOrder.Search | products/element.php:78-79 | `array_search` gives the first position holding the text, or `false` exactly when it is absent |
| TagOrder.ManualIsOrder | products/element.php:77-87 | when `strnatcmp` is antisymmetric and transitive, so is the manual comparator |
| TagOrder.ManualSortedOrder | products/element.php:80-86 | in the sorted tags a listed label comes before any unlisted one, and listed labels follow their list positions |
| TagOrder.SortPermutes | products/element.php:77-89 | sorting only reorders the entries |
| TagOrder.SortOrders | products/element.php:77-89 | with an antisymmetric comparator each entry is not after the next |
| TagOrder.AdjacentIsSorted | products/element.php:77-89 | with a transitive comparator as well, no entry is after a later one |
| TagOrder.Sort | products/element.php:77-89 | the in-order insertion loop gives the stable sorted order, a permutation of its input |
| TagOrder.InsertPosition | products/element.php:77-89 | the insertion point of one entry: every entry after it compares greater, the one before it does not |
| TagOrder.Reverse | products/element.php:93 | `array_reverse($a, true)` puts entry `i` at position `n-1-i`, keys kept |
| TagOrder.ReversePermutes | products/element.php:93 | reversal only reorders, and reversing twice gives the input back |
| Element.ArrangedPermutes | products/element.php:69-94 | ordering keeps every key with its label, and with `filter_reverse` the order is exactly the reverse of the sorted one |
| Element.ArrangedFollowsManualOrder | products/element.php:69-87 | with a manual order and no reversal, listed labels come first in list order |
| Element.Node.BuildChildTags | products/element.php:13-48 | a child's tags and categories are its general tags followed by the `tag1` and `tag2` categories |
| Element.Node.AddCategory | products/element.php:32-48 | one custom field adds its category entry and prefixed tags when non-empty, and nothing otherwise |
| Element.Node.CategoryPieces | products/element.php:40-46 | each piece of a field goes into the tags under `field-key` and into the category under `key` |
| Element.Node.AddPieces | products/element.php:17-24 | the general pieces are stored under their normalised keys |
| Element.Node.Render | products/element.php:7-95 | without `filter` the tags stay empty; with it the parent's tags are the ordered first-wins union and its categories the merged categories |
| Element.Node.BuildChildren | products/element.php:12-51 | each child is built, and the parent's tags are the first-wins union of the children's |
| Element.Node.AddChild | products/element.php:12-50 | the child is built from its props and the parent's tags become the first-wins union of the children built so far |
| Element.Node.MergeChildCategories | products/element.php:53-67 | the parent's categories are the children's, merged in child order |
| Element.Node.MergeChildCategory | products/element.php:57-65 | a category first seen takes the child's title, and its tags are unioned first-wins |
| Element.Node.OrderTags | products/element.php:69-94 | the tags are sorted with the configured comparator, reversed when asked, and keep every entry |
| Template.ApplyResets | products/templates/template.php:4-12 | a linked panel clears the title and image links; a justified parallax without a value gets `'0'`; no other prop changes |
| Template.ResetsIdempotent | products/templates/template.php:4-12 | applying the resets to reset props changes nothing |
| Template.ResetKeepsSettings | products/templates/template.php:4-12 | the resets leave the filter and pagination settings as they were |
| Template.CastRoundTrip | products/templates/template.php:29 | `(int)` of an integer's decimal string gives the integer |
| Template.FloorDiv | products/templates/template.php:125 | `floor(n/d)` is the whole number below `n/d` by less than one, for either sign of `d` |
| Template.CeilDiv | products/templates/template.php:121 | `ceil(n/d)` is the whole number above `n/d` by less than one, for either sign of `d` |
| Template.ContainerAttributes | products/templates/template.php:14-31 | with tags exactly one of the multiselect class and `uk-filter` is set; a truthy category logic or multiselect animation is written as given, a falsy one becomes `or` or `fade`; the page size is written only when paginated |
| Template.ScriptPageSize | products/templates/template.php:29 | an unset size is written as 6, a numeric size round-trips to the scripts, and an unpaginated 0 makes the scripts use 6 |
| Template.TotalPagesIsPageCount | products/templates/template.php:119-121 | with a positive page size the template's page count is the scripts' `Math.ceil` |
| Template.UnpaginatedOnePage | products/templates/template.php:119-125 | without pagination there is one page and every item is on it |
| Template.PageNumber | products/templates/template.php:125 | `data-page` is a float equal to the scripts' page of the item |
| Template.AsWrittenHidesFirstPage | products/templates/template.php:126 | as written, a paginated element renders every item hidden, the first included |
| Template.VisibleIffFirstPage | products/templates/template.php:126 | as intended, a paginated element renders exactly its first page visible |
| Template.RenderItems | products/templates/template.php:124-134 | each item gets its index, its tags and its page; with the corrected comparison of the Findings row it starts hidden exactly when paginated and past the first page (as written, line 126 hides every paginated item) |
| Template.RenderLinks | products/templates/template.php:160-164 | the links are pages 1 to `totalPages`, only the first active |
| Template.RenderRegion | products/templates/template.php:147-178 | the region starts hidden iff there is at most one page; load-more renders only its button; otherwise prev starts disabled, next iff at most one page, links only for `default`, "Page 1 of N" only for `previous-next` |
| Template.RegionHiddenIffOnePage | products/templates/template.php:148 | the region starts hidden exactly when every item fits on one page |
| Template.RenderFiltered | products/templates/template.php:116-179 | the items (with the corrected first-page comparison), the no-results panel in multiselect mode and the region when paginated; a zero page size fails on the division |
| Template.Render | products/templates/template.php:4-194 | without tags the children render plainly; with tags the filtered markup above (with the corrected first-page comparison) follows the settings of the reset props |
| Migration.Ucwords | Product_item/updates.php:8 | `ucwords` keeps the length |
| Migration.UcwordsAt | Product_item/updates.php:8 | only a lowercase ASCII letter at the start or after a space, tab, CR, LF, form feed or vertical tab changes, to uppercase |
| Migration.UcwordsKeepsDelimiters | Product_item/updates.php:8 | the word delimiters stay where they were |
| Migration.UcwordsIdempotent | Product_item/updates.php:8 | capitalising twice is capitalising once |
| Migration.Migrated | Product_item/updates.php:7-9 | a truthy `tags` becomes `ucwords` of its string form; an empty, missing or `'0'` one and every other prop are unchanged |
| Migration.MigratedIdempotent | Product_item/updates.php:7-9 | running the migration twice is running it once |
| Migration.StoredNode.Upgrade | Product_item/updates.php:6-9 | the node's props become the migrated props |

## Left out

- Timers and animation classes are not modelled. This covers the
  `setTimeout` steps of `showItem` and `hideItem` and the removal of the
  `uk-animation-*` classes. The model keeps only the synchronous style
  writes and applies `hideItem`'s delayed `display: none` at once. It
  therefore does not capture the interval in which a hidden item is
  still displayed, or the reads of `pagination.js:319-320` during that
  interval.
- Page.ClickTag, Page.DeliverApplied: because the delayed hide is
  applied before the pagination listeners run, the model also moves that
  write before their synchronous writes. In numbered mode away from
  page 1, `goToPage(1)` (`pagination.js:127-129`) displays every raw
  index below the page size; in the browser the pending `hideItem`
  timers (`multiselect-filter.js:215-218`) then hide the unmatched ones
  again, so page 1 settles on the matching items below the page size.
  In the model the unmatched items below the page size stay displayed.
- Page lookup is not modelled. `document.querySelector` and
  `querySelectorAll` pick the first container of the page, and the
  model gives every operation its own container instead. A page with
  several products containers, where one script writes another
  container's region, is not modelled.
- Listener registration, `CustomEvent` objects and `window.*` exports
  are not modelled. Notifications are values delivered in the order the
  scripts register their listeners. The model assumes the filter script
  is loaded before the pagination script.
- `cloneNode`/`replaceChild` of the filtered load-more button is
  modelled only by its effect: the previous listener is gone, and the
  new one has its own counter.
- `data-original-pagination-style` (`pagination.js:25`) is written but
  never read, so it is not modelled. `updatePageInfo` is modelled
  through the page indicator.
- Negative and non-numeric page sizes are left out of the script
  model: `data-items-per-page` is a natural number or missing.
  `Paging.ItemsPerPage` therefore does not cover a negative
  `parseInt` result.
- Template.RenderItems, Template.RenderFiltered, Template.Render: they
  render with the corrected comparison of the Findings row, so the first
  page of a paginated element starts visible. As written,
  `template.php:126` compares a float with `===` and starts every
  paginated item hidden; that behaviour is `Template.IsVisibleAsWritten`
  and `Template.AsWrittenHidesFirstPage`, and the scripts' first-page
  display on load hides the difference.
- Template.IntCast does not model the exponent forms of numeric
  strings such as `"1e2"`, or saturation at the platform's integer
  width.
- Template.RenderItems keeps each child's tags as an entry list. It
  does not model how the element renderer serialises them into the
  `data-tag` attribute.
- The template's markup is not modelled: grid, lightbox, parallax,
  filter-grid classes, the filter navigation partial and the child
  renderer. This is presentation only.
- `strip_tags` and `strnatcmp` are uninterpreted parameters of the
  model. `array_search`'s loose `==` is modelled as string equality, so
  numeric-looking labels that compare equal as numbers are not
  modelled.
- PHP arrays turn numeric-string keys such as `"12"` into integers.
  Keys are kept as strings here, and integer-key renumbering is not
  modelled.
- `uasort` and `natsort` are modelled as a stable insertion sort. PHP
  8's sort is also stable, but its order can differ for a comparator
  that is not a total order.

## Findings

| source | as written | input that shows it | evidently intended | confidence | as-written member | corrected member |
|---|---|---|---|---|---|---|
| products/templates/template.php:126 | `$pageNumber === 1` compares the float returned by `floor(...) + 1` with the int `1`, so it never holds and every item of a paginated element is rendered with `display: none` | pagination on, 6 items per page, 7 children: item 0 has `$pageNumber` 1.0 and is rendered hidden | the items of page 1 are rendered visible (a comparison by value) | high, not executed; the pagination script's `showFirstPage` redisplays the first page on load, which masks it | Template.AsWrittenHidesFirstPage | Template.VisibleIffFirstPage |
