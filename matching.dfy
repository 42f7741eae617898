/**
 * The filter engine of the multi-select filter script: checked tag boxes are
 * grouped by category, and an item is shown when the two-level any/all
 * combination of the groups holds for its tags.
 */
module Matching {
  import opened Wrappers
  import ItemTags

  /** A tag checkbox as the filter reads it: its `data-tag` and its `data-category` attribute. */
  datatype TagBox = TagBox(tag: string, category: Option<string>)

  /** `cb.getAttribute('data-category') || 'general'`: a missing or empty category is `general`. */
  function CategoryOf(b: TagBox): (c: string)
    ensures c != ""
    ensures b.category.Some? && b.category.value != "" ==> c == b.category.value
    ensures b.category.None? || b.category.value == "" ==> c == "general"
  {
    match b.category
    case Some(c) => if c != "" then c else "general"
    case None => "general"
  }

  /** `selectedTagsByCategory`, as the `forEach` over the checked boxes builds it, one box at a time. */
  function Grouped(boxes: seq<TagBox>, checked: seq<bool>): map<string, seq<string>>
    requires |checked| == |boxes|
  {
    if boxes == [] then map[]
    else
      var n := |boxes| - 1;
      var g := Grouped(boxes[..n], checked[..n]);
      if !checked[n] then g
      else
        var c := CategoryOf(boxes[n]);
        g[c := (if c in g then g[c] else []) + [boxes[n].tag]]
  }

  /** The categories that have at least one checked box. */
  ghost function SelectedCategories(boxes: seq<TagBox>, checked: seq<bool>): set<string>
    requires |checked| == |boxes|
  {
    set j | 0 <= j < |boxes| && checked[j] :: CategoryOf(boxes[j])
  }

  /** The tags of the checked boxes of category `c`, in document order. */
  function CheckedTagsIn(boxes: seq<TagBox>, checked: seq<bool>, c: string): seq<string>
    requires |checked| == |boxes|
  {
    if boxes == [] then []
    else
      var n := |boxes| - 1;
      CheckedTagsIn(boxes[..n], checked[..n], c)
        + (if checked[n] && CategoryOf(boxes[n]) == c then [boxes[n].tag] else [])
  }

  /** The selected categories grow by the last box's category exactly when that box is checked. */
  lemma SelectedCategoriesStep(boxes: seq<TagBox>, checked: seq<bool>)
    requires |checked| == |boxes| > 0
    ensures var n := |boxes| - 1;
      SelectedCategories(boxes, checked)
        == SelectedCategories(boxes[..n], checked[..n]) + (if checked[n] then {CategoryOf(boxes[n])} else {})
  {
    var n := |boxes| - 1;
    var s0 := SelectedCategories(boxes[..n], checked[..n]);
    var s := SelectedCategories(boxes, checked);
    var last: set<string> := if checked[n] then {CategoryOf(boxes[n])} else {};
    forall c | c in s ensures c in s0 + last {
      var j :| 0 <= j < |boxes| && checked[j] && CategoryOf(boxes[j]) == c;
      if j < n { assert boxes[..n][j] == boxes[j] && checked[..n][j]; }
    }
    forall c | c in s0 ensures c in s {
      var j :| 0 <= j < n && checked[..n][j] && CategoryOf(boxes[..n][j]) == c;
      assert boxes[j] == boxes[..n][j];
    }
  }

  /**
   * The grouping holds exactly the categories with a checked box, and each
   * category holds the tags of its checked boxes, in document order.
   */
  lemma {:induction false} GroupedIsByCategory(boxes: seq<TagBox>, checked: seq<bool>)
    requires |checked| == |boxes|
    ensures Grouped(boxes, checked).Keys == SelectedCategories(boxes, checked)
    ensures forall c :: c in Grouped(boxes, checked) ==> Grouped(boxes, checked)[c] == CheckedTagsIn(boxes, checked, c)
  {
    if boxes != [] {
      var n := |boxes| - 1;
      GroupedIsByCategory(boxes[..n], checked[..n]);
      SelectedCategoriesStep(boxes, checked);
      if checked[n] {
        var c := CategoryOf(boxes[n]);
        if c !in SelectedCategories(boxes[..n], checked[..n]) {
          NoneCheckedIn(boxes[..n], checked[..n], c);
        }
      }
    }
  }

  /** A category without a checked box has no checked tags. */
  lemma {:induction false} NoneCheckedIn(boxes: seq<TagBox>, checked: seq<bool>, c: string)
    requires |checked| == |boxes|
    requires c !in SelectedCategories(boxes, checked)
    ensures CheckedTagsIn(boxes, checked, c) == []
  {
    if boxes != [] {
      var n := |boxes| - 1;
      assert c !in SelectedCategories(boxes[..n], checked[..n]) by {
        assert forall j :: 0 <= j < n ==> boxes[..n][j] == boxes[j] && checked[..n][j] == checked[j];
      }
      NoneCheckedIn(boxes[..n], checked[..n], c);
    }
  }

  /** The selection is empty exactly when no box is checked. */
  lemma GroupedEmptyIff(boxes: seq<TagBox>, checked: seq<bool>)
    requires |checked| == |boxes|
    ensures Grouped(boxes, checked) == map[] <==> forall j :: 0 <= j < |boxes| ==> !checked[j]
  {
    GroupedIsByCategory(boxes, checked);
    if exists j :: 0 <= j < |boxes| && checked[j] {
      var j :| 0 <= j < |boxes| && checked[j];
      assert CategoryOf(boxes[j]) in Grouped(boxes, checked).Keys;
    }
  }

  /**
   * `container.getAttribute(name) || fallback`, as the evaluation reads
   * `data-filter-logic` (fallback `'and'`) and `data-category-logic`
   * (fallback `'or'`): a non-empty attribute is taken as written, a missing or
   * empty one gives the fallback.
   */
  function LogicAttr(attr: Option<string>, fallback: string): (r: string)
    ensures attr.Some? && attr.value != "" ==> r == attr.value
    ensures attr.None? || attr.value == "" ==> r == fallback
    ensures fallback != "" ==> r != ""
  {
    if attr.Some? && attr.value != "" then attr.value else fallback
  }

  /** One category's test: `'or'` needs some selected tag on the item, anything else needs them all. */
  predicate CategoryMatches(selected: seq<string>, itemTags: seq<string>, within: string) {
    if within == "or" then exists t :: t in selected && t in itemTags
    else forall t :: t in selected ==> t in itemTags
  }

  /** `shouldShow`: `'and'` needs every selected category to match, anything else needs some. */
  predicate ShouldShow(groups: map<string, seq<string>>, itemTags: seq<string>, between: string, within: string) {
    if between == "and" then forall c :: c in groups ==> CategoryMatches(groups[c], itemTags, within)
    else exists c :: c in groups && CategoryMatches(groups[c], itemTags, within)
  }

  /** Checking box `k` adds its tag to its category's list and changes no other category. */
  lemma {:induction false} CheckAddsTag(boxes: seq<TagBox>, checked: seq<bool>, k: nat, c: string)
    requires |checked| == |boxes| && k < |boxes| && !checked[k]
    ensures var after := CheckedTagsIn(boxes, checked[k := true], c);
            var before := CheckedTagsIn(boxes, checked, c);
            && (forall t :: t in before ==> t in after)
            && (forall t :: t in after ==> t in before || (t == boxes[k].tag && c == CategoryOf(boxes[k])))
  {
    var checked' := checked[k := true];
    var n := |boxes| - 1;
    var before := CheckedTagsIn(boxes, checked, c);
    var after := CheckedTagsIn(boxes, checked', c);
    var last := if checked[n] && CategoryOf(boxes[n]) == c then [boxes[n].tag] else [];
    var last' := if checked'[n] && CategoryOf(boxes[n]) == c then [boxes[n].tag] else [];
    assert before == CheckedTagsIn(boxes[..n], checked[..n], c) + last;
    assert after == CheckedTagsIn(boxes[..n], checked'[..n], c) + last';
    if k < n {
      assert checked'[..n] == checked[..n][k := true];
      assert last' == last;
      assert boxes[..n][k] == boxes[k];
      CheckAddsTag(boxes[..n], checked[..n], k, c);
      forall t | t in before ensures t in after {
        assert t in CheckedTagsIn(boxes[..n], checked[..n], c) || t in last;
      }
      forall t | t in after ensures t in before || (t == boxes[k].tag && c == CategoryOf(boxes[k])) {
        assert t in CheckedTagsIn(boxes[..n], checked'[..n], c) || t in last;
      }
    } else {
      assert checked'[..n] == checked[..n];
      assert last == [];
    }
  }

  /** Checking a box whose category already has a selection leaves the set of selected categories as it was. */
  lemma CheckKeepsCategories(boxes: seq<TagBox>, checked: seq<bool>, k: nat)
    requires |checked| == |boxes| && k < |boxes| && !checked[k]
    requires CategoryOf(boxes[k]) in Grouped(boxes, checked)
    ensures Grouped(boxes, checked[k := true]).Keys == Grouped(boxes, checked).Keys
  {
    var checked' := checked[k := true];
    GroupedIsByCategory(boxes, checked);
    GroupedIsByCategory(boxes, checked');
    forall c | c in SelectedCategories(boxes, checked') ensures c in SelectedCategories(boxes, checked) {
      var j :| 0 <= j < |boxes| && checked'[j] && CategoryOf(boxes[j]) == c;
      if j != k {
        assert checked[j];
      }
    }
    forall c | c in SelectedCategories(boxes, checked) ensures c in SelectedCategories(boxes, checked') {
      var j :| 0 <= j < |boxes| && checked[j] && CategoryOf(boxes[j]) == c;
      assert checked'[j];
    }
  }

  /**
   * Adding a tag to a category that already has a selection: under a within
   * `'or'` no shown item becomes hidden, and under a within AND no hidden item
   * becomes shown, whatever the combination across categories.
   */
  lemma CheckingIsMonotone(boxes: seq<TagBox>, checked: seq<bool>, k: nat, itemTags: seq<string>, between: string, within: string)
    requires |checked| == |boxes| && k < |boxes| && !checked[k]
    requires CategoryOf(boxes[k]) in Grouped(boxes, checked)
    ensures within == "or" && ShouldShow(Grouped(boxes, checked), itemTags, between, within)
            ==> ShouldShow(Grouped(boxes, checked[k := true]), itemTags, between, within)
    ensures within != "or" && ShouldShow(Grouped(boxes, checked[k := true]), itemTags, between, within)
            ==> ShouldShow(Grouped(boxes, checked), itemTags, between, within)
  {
    var checked' := checked[k := true];
    var g, g' := Grouped(boxes, checked), Grouped(boxes, checked');
    CheckKeepsCategories(boxes, checked, k);
    GroupedIsByCategory(boxes, checked);
    GroupedIsByCategory(boxes, checked');
    forall c | c in g
      ensures within == "or" && CategoryMatches(g[c], itemTags, within) ==> CategoryMatches(g'[c], itemTags, within)
      ensures within != "or" && CategoryMatches(g'[c], itemTags, within) ==> CategoryMatches(g[c], itemTags, within)
 {
      assert c in g';
      assert g[c] == CheckedTagsIn(boxes, checked, c);
      assert g'[c] == CheckedTagsIn(boxes, checked', c);
      CheckAddsTag(boxes, checked, k, c);
      if within != "or" && CategoryMatches(g'[c], itemTags, within) {
        forall t | t in g[c] ensures t in itemTags {
          assert t in g'[c];
        }
      }
    }
    if between != "and" {
      if within == "or" && ShouldShow(g, itemTags, between, within) {
        var c :| c in g && CategoryMatches(g[c], itemTags, within);
        assert c in g';
      }
      if within != "or" && ShouldShow(g', itemTags, between, within) {
        var c :| c in g' && CategoryMatches(g'[c], itemTags, within);
        assert c in g;
      }
    }
  }

  /** The test the filter applies to one grid item, given its `data-tag` attribute. */
  predicate ItemShown(tagAttr: Option<string>, groups: map<string, seq<string>>, between: string, within: string) {
    ShouldShow(groups, ItemTags.ItemTagsOf(tagAttr), between, within)
  }

  /** The positions of `flags` that hold, in increasing order. */
  function Indices(flags: seq<bool>): (r: seq<nat>)
    ensures forall j :: 0 <= j < |r| ==> r[j] < |flags| && flags[r[j]]
    ensures forall i :: 0 <= i < |flags| && flags[i] ==> i in r
    ensures forall j, j' :: 0 <= j < j' < |r| ==> r[j] < r[j']
  {
    if flags == [] then []
    else
      var n := |flags| - 1;
      var r := Indices(flags[..n]);
      assert forall i :: 0 <= i < n ==> flags[..n][i] == flags[i];
      if flags[n] then r + [n] else r
  }

  /** Whether each grid item passes the test. */
  function ShownFlags(tagAttrs: seq<Option<string>>, groups: map<string, seq<string>>, between: string, within: string): seq<bool> {
    seq(|tagAttrs|, i requires 0 <= i < |tagAttrs| => ItemShown(tagAttrs[i], groups, between, within))
  }

  /** The indices of the items an evaluation shows, in grid order. */
  function Matched(tagAttrs: seq<Option<string>>, groups: map<string, seq<string>>, between: string, within: string): (r: seq<nat>)
    ensures forall j :: 0 <= j < |r| ==> r[j] < |tagAttrs| && ItemShown(tagAttrs[r[j]], groups, between, within)
    ensures forall i :: 0 <= i < |tagAttrs| && ItemShown(tagAttrs[i], groups, between, within) ==> i in r
    ensures forall j, j' :: 0 <= j < j' < |r| ==> r[j] < r[j']
  {
    Indices(ShownFlags(tagAttrs, groups, between, within))
  }
}
