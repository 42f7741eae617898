/**
 * The element's `render` transform: the tag data of each child and of the
 * parent node, built in place on the nodes, then ordered.
 */
module Element {
  import opened Wrappers
  import opened Php
  import opened TagIndex
  import opened TagOrder

  /** The comparator the parent's tags are sorted with: manual when configured, `strnatcmp` otherwise. */
  function OrderComparator(props: map<string, Value>, natcmp: Comparator): Comparator {
    if Get(props, "filter_order") == Str("manual") && Truthy(Get(props, "filter_order_manual"))
    then Manual(ManualOrder(ToStr(Get(props, "filter_order_manual"))), natcmp)
    else natcmp
  }

  /** The parent's tags once sorted and, when `filter_reverse` is set, reversed. */
  function Arranged(props: map<string, Value>, natcmp: Comparator, merged: Assoc<string>): Assoc<string> {
    var sorted := InsertionSort(merged, OrderComparator(props, natcmp));
    if Truthy(Get(props, "filter_reverse")) then Reverse(sorted) else sorted
  }

  /**
   * Ordering keeps every key with its text; with reversal on, the order is
   * exactly the sorted order backwards.
   */
  lemma ArrangedPermutes(props: map<string, Value>, natcmp: Comparator, merged: Assoc<string>)
    ensures multiset(Arranged(props, natcmp, merged)) == multiset(merged)
    ensures Truthy(Get(props, "filter_reverse")) ==>
      Reverse(Arranged(props, natcmp, merged)) == InsertionSort(merged, OrderComparator(props, natcmp))
  {
    var sorted := InsertionSort(merged, OrderComparator(props, natcmp));
    SortPermutes(merged, OrderComparator(props, natcmp));
    ReversePermutes(sorted);
  }

  /**
   * With a manual order and a `strnatcmp` that is a total preorder, the
   * unreversed tags list the texts found in the manual order first, in that
   * order.
   */
  lemma ArrangedFollowsManualOrder(props: map<string, Value>, natcmp: Comparator, merged: Assoc<string>, i: nat, j: nat)
    requires Get(props, "filter_order") == Str("manual") && Truthy(Get(props, "filter_order_manual"))
    requires !Truthy(Get(props, "filter_reverse"))
    requires Antisymmetric(natcmp) && Transitive(natcmp)
    requires i < j < |merged|
    ensures var order := ManualOrder(ToStr(Get(props, "filter_order_manual")));
      var r := Arranged(props, natcmp, merged);
      Rank(order, r[j].1).Some? ==> Rank(order, r[i].1).Some? && Rank(order, r[i].1).value <= Rank(order, r[j].1).value
  {
    var order := ManualOrder(ToStr(Get(props, "filter_order_manual")));
    var cmp := Manual(order, natcmp);
    ManualIsOrder(order, natcmp);
    SortOrders(merged, cmp);
    AdjacentIsSorted(InsertionSort(merged, cmp), cmp);
    ManualSortedOrder(order, natcmp, InsertionSort(merged, cmp), i, j);
  }

  /** Every child's tags, in child order. */
  function AllChildTags(strip: Stripper, children: seq<Node>): (r: seq<Assoc<string>>)
    ensures |r| == |children|
  {
    seq(|children|, j requires 0 <= j < |children| => ChildTags(strip, children[j].props))
  }

  /** Every child's categories, in child order. */
  function AllChildCategories(strip: Stripper, children: seq<Node>): (r: seq<Assoc<Category>>)
    ensures |r| == |children|
  {
    seq(|children|, j requires 0 <= j < |children| => ChildCategories(strip, children[j].props))
  }

  /** A builder node: its props, its children, and the `tags` / `categorized_tags` the transform sets. */
  class Node {
    const props: map<string, Value>
    const children: seq<Node>
    var tags: Assoc<string>
    var categorized: Assoc<Category>

    constructor (props: map<string, Value>, children: seq<Node>)
      ensures this.props == props && this.children == children
      ensures tags == [] && categorized == []
    {
      this.props := props;
      this.children := children;
      tags := [];
      categorized := [];
    }

    /** The per-child part of the transform: general tags, then the `tag1` and `tag2` categories. */
    method BuildChildTags(strip: Stripper)
      modifies this
      ensures tags == ChildTags(strip, props)
      ensures categorized == ChildCategories(strip, props)
    {
      tags := [];
      categorized := [];
      AddPieces(strip, Pieces(props, "tags"), "");
      for f := 0 to |Fields|
        invariant tags == ChildTagsUpTo(strip, props, f)
        invariant categorized == ChildCategoriesUpTo(strip, props, f)
      {
        AddCategory(strip, f);
      }
    }

    /**
     * One custom field with a truthy prop: its category entry, titled by the
     * field's label or the fallback, and its pieces stored both under
     * `field-key` in the tags and under `key` in the category.
     */
    method AddCategory(strip: Stripper, f: nat)
      requires f < |Fields|
      requires tags == ChildTagsUpTo(strip, props, f) && categorized == ChildCategoriesUpTo(strip, props, f)
      modifies this
      ensures tags == ChildTagsUpTo(strip, props, f + 1)
      ensures categorized == ChildCategoriesUpTo(strip, props, f + 1)
    {
      var field := Fields[f].0;
      if !Truthy(Get(props, field)) {
        return;
      }
      var title := CategoryTitle(props, field, Fields[f].1);
      categorized := Put(categorized, field, Category(title, []));
      var ps := Pieces(props, field);
      var catTags := CategoryPieces(strip, ps, field);
      PutOverwrite(ChildCategoriesUpTo(strip, props, f), field, Category(title, []), Category(title, catTags));
      categorized := Put(categorized, field, Category(title, catTags));
    }

    /** The inner `foreach` of a custom field: each piece goes into the tags and into the category's own list. */
    method CategoryPieces(strip: Stripper, ps: seq<string>, field: string) returns (catTags: Assoc<string>)
      modifies this`tags
      ensures tags == PutPieces(strip, old(tags), ps, field + "-")
      ensures catTags == PutPieces(strip, [], ps, "")
      ensures categorized == old(categorized)
    {
      catTags := [];
      var prefix := field + "-";
      ghost var start := tags;
      for i := 0 to |ps|
        invariant tags == PutPieces(strip, start, ps[..i], prefix)
        invariant catTags == PutPieces(strip, [], ps[..i], "")
      {
        var e := Normalize(strip, ps[i]);
        PutPiecesStep(strip, start, ps, i, prefix);
        PutPiecesStep(strip, [], ps, i, "");
        if e.Some? {
          tags := Put(tags, prefix + e.value.0, e.value.1);
          catTags := Put(catTags, "" + e.value.0, e.value.1);
        }
      }
      assert ps[..|ps|] == ps;
    }

    /** Stores each surviving piece under `prefix + key`. */
    method AddPieces(strip: Stripper, ps: seq<string>, prefix: string)
      modifies this
      ensures tags == PutPieces(strip, old(tags), ps, prefix)
      ensures categorized == old(categorized)
    {
      for i := 0 to |ps|
        invariant tags == PutPieces(strip, old(tags), ps[..i], prefix)
        invariant categorized == old(categorized)
      {
        PutPiecesStep(strip, old(tags), ps, i, prefix);
        var e := Normalize(strip, ps[i]);
        if e.Some? {
          tags := Put(tags, prefix + e.value.0, e.value.1);
        }
      }
      assert ps[..|ps|] == ps;
    }

    /**
     * The `render` transform on a parent node. Without `filter` the parent's
     * tags are empty and the children are untouched. Otherwise every child's
     * tags and categories are built, the parent's are merged from them,
     * earliest child first, and the parent's tags are ordered.
     */
    method Render(strip: Stripper, natcmp: Comparator)
      requires this !in children
      modifies this, set c | c in children
      ensures !Truthy(Get(props, "filter")) ==>
        && tags == [] && categorized == old(categorized)
        && forall c :: c in children ==> c.tags == old(c.tags) && c.categorized == old(c.categorized)
      ensures Truthy(Get(props, "filter")) ==>
        && (forall j :: 0 <= j < |children| ==>
              children[j].tags == ChildTags(strip, children[j].props)
              && children[j].categorized == ChildCategories(strip, children[j].props))
        && categorized == MergedCategories(AllChildCategories(strip, children))
        && tags == Arranged(props, natcmp, MergedTags(AllChildTags(strip, children)))
    {
      tags := [];
      if !Truthy(Get(props, "filter")) {
        return;
      }
      BuildChildren(strip);
      categorized := [];
      MergeChildCategories(strip);
      OrderTags(natcmp);
    }

    /** The first `foreach` over the children: each child's tags built, then added with `+=`. */
    method BuildChildren(strip: Stripper)
      requires this !in children && tags == []
      modifies this`tags, set c | c in children
      ensures forall j :: 0 <= j < |children| ==>
        children[j].tags == ChildTags(strip, children[j].props)
        && children[j].categorized == ChildCategories(strip, children[j].props)
      ensures tags == MergedTags(AllChildTags(strip, children))
    {
      ghost var all := AllChildTags(strip, children);
      for i := 0 to |children|
        invariant forall j :: 0 <= j < i ==>
          children[j].tags == ChildTags(strip, children[j].props)
          && children[j].categorized == ChildCategories(strip, children[j].props)
        invariant tags == MergedTags(all[..i])
      {
        AddChild(strip, i, all);
      }
      assert all[..|children|] == all;
    }

    /** One pass of the first `foreach`: child `i` built, then its tags added with `+=`. */
    method AddChild(strip: Stripper, i: nat, ghost all: seq<Assoc<string>>)
      requires this !in children && i < |children| && all == AllChildTags(strip, children)
      requires tags == MergedTags(all[..i])
      requires forall j :: 0 <= j < i ==>
        children[j].tags == ChildTags(strip, children[j].props)
        && children[j].categorized == ChildCategories(strip, children[j].props)
      modifies this`tags, children[i]
      ensures forall j :: 0 <= j <= i ==>
        children[j].tags == ChildTags(strip, children[j].props)
        && children[j].categorized == ChildCategories(strip, children[j].props)
      ensures tags == MergedTags(all[..i + 1])
    {
      var child := children[i];
      child.BuildChildTags(strip);
      assert all[..i + 1][..i] == all[..i];
      assert all[i] == child.tags;
      tags := Union(tags, child.tags);
    }

    /** The second `foreach` over the children: their categories merged into the parent's. */
    method MergeChildCategories(strip: Stripper)
      requires this !in children && categorized == []
      requires forall j :: 0 <= j < |children| ==> children[j].categorized == ChildCategories(strip, children[j].props)
      modifies this`categorized
      ensures categorized == MergedCategories(AllChildCategories(strip, children))
    {
      ghost var all := AllChildCategories(strip, children);
      for i := 0 to |children|
        invariant categorized == MergedCategories(all[..i])
      {
        var child := children[i];
        assert all[..i + 1][..i] == all[..i];
        assert all[i] == child.categorized;
        if child.categorized != [] {
          MergeChildCategory(child.categorized);
        }
      }
      assert all[..|children|] == all;
    }

    /** The inner `foreach`: a category first seen takes the child's title; then `+=` of its tags. */
    method MergeChildCategory(cats: Assoc<Category>)
      modifies this`categorized
      ensures categorized == MergeChild(old(categorized), cats)
    {
      for m := 0 to |cats|
        invariant categorized == MergeChild(old(categorized), cats[..m])
      {
        assert cats[..m + 1][..m] == cats[..m];
        var key := cats[m].0;
        var data := cats[m].1;
        if Lookup(categorized, key).None? {
          categorized := Put(categorized, key, Category(data.title, []));
        }
        var entry := Lookup(categorized, key).value;
        categorized := Put(categorized, key, Category(entry.title, Union(entry.tags, data.tags)));
      }
      assert cats[..|cats|] == cats;
    }

    /** `uasort` with the manual comparator or `natsort`, then `array_reverse` when `filter_reverse` is set. */
    method OrderTags(natcmp: Comparator)
      modifies this`tags
      ensures tags == Arranged(props, natcmp, old(tags))
      ensures multiset(tags) == multiset(old(tags))
    {
      var cmp := OrderComparator(props, natcmp);
      tags := Sort(tags, cmp);
      if Truthy(Get(props, "filter_reverse")) {
        tags := Reverse(tags);
      }
      ArrangedPermutes(props, natcmp, old(tags));
    }
  }
}
