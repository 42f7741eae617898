/**
 * The tag data the element's render transform builds: each child's tags
 * (general ones and the two custom categories), and the parent's tags and
 * categories merged from its children, earliest child first.
 */
module TagIndex {
  import opened Wrappers
  import opened Php

  /** `strip_tags`, which the model leaves uninterpreted. */
  type Stripper = string -> string

  /** A category entry of `categorized_tags`: its title and its tags, key to displayed text. */
  datatype Category = Category(title: string, tags: Assoc<string>)

  /**
   * One comma-separated piece: stripped and trimmed it is the displayed text, with
   * spaces turned into `-` it is the key. A key PHP reads as false (`""` or
   * `"0"`) drops the piece.
   */
  function Normalize(strip: Stripper, piece: string): Option<(string, string)> {
    var text := Trim(strip(piece));
    var key := ReplaceChar(text, ' ', '-');
    if Truthy(Str(key)) then Some((key, text)) else None
  }

  /**
   * A surviving piece's text is the trimmed, stripped piece and its key is
   * that text with each space turned into `-`; a piece is dropped exactly
   * when its text is `""` or `"0"`.
   */
  lemma NormalizeShape(strip: Stripper, piece: string)
    ensures var e := Normalize(strip, piece);
      e.Some? ==> var key := e.value.0; var text := e.value.1;
      && text == Trim(strip(piece))
      && |key| == |text| && ' ' !in key
      && (forall i :: 0 <= i < |key| ==> key[i] == (if text[i] == ' ' then '-' else text[i]))
    ensures Normalize(strip, piece).None? <==> Trim(strip(piece)) == "" || Trim(strip(piece)) == "0"
  {
    var text := Trim(strip(piece));
    var key := ReplaceChar(text, ' ', '-');
    assert forall i :: 0 <= i < |key| ==> key[i] != ' ';
    if key == "0" {
      assert text[0] != ' ';
      assert text == "0";
    }
  }

  /** Each piece, normalised. */
  function NormalizeAll(strip: Stripper, pieces: seq<string>): (r: seq<Option<(string, string)>>)
    ensures |r| == |pieces|
  {
    seq(|pieces|, i requires 0 <= i < |pieces| => Normalize(strip, pieces[i]))
  }

  /**
   * The `foreach` over the normalised pieces: each surviving piece is stored
   * under `prefix + key`, overwriting the text of an earlier piece with that key.
   */
  function PutEntries(acc: Assoc<string>, entries: seq<Option<(string, string)>>, prefix: string): Assoc<string> {
    if entries == [] then acc
    else
      var n := |entries| - 1;
      var r := PutEntries(acc, entries[..n], prefix);
      var e := entries[n];
      if e.None? then r else Put(r, prefix + e.value.0, e.value.1)
  }

  function PutPieces(strip: Stripper, acc: Assoc<string>, pieces: seq<string>, prefix: string): Assoc<string> {
    PutEntries(acc, NormalizeAll(strip, pieces), prefix)
  }

  /** The piece survived and is stored under the key `k`. */
  predicate Adds(e: Option<(string, string)>, prefix: string, k: string) {
    e.Some? && prefix + e.value.0 == k
  }

  /** Some piece is stored under the key `k`. */
  ghost predicate KeyFromEntries(entries: seq<Option<(string, string)>>, prefix: string, k: string) {
    exists i :: 0 <= i < |entries| && Adds(entries[i], prefix, k)
  }

  /** The pieces add exactly their normalised keys and keep every key already there. */
  lemma {:induction false} PutEntriesKeys(acc: Assoc<string>, entries: seq<Option<(string, string)>>, prefix: string, k: string)
    ensures Lookup(PutEntries(acc, entries, prefix), k).Some? <==>
      Lookup(acc, k).Some? || KeyFromEntries(entries, prefix, k)
    ensures !KeyFromEntries(entries, prefix, k) ==> Lookup(PutEntries(acc, entries, prefix), k) == Lookup(acc, k)
  {
    if entries != [] {
      var n := |entries| - 1;
      var front := entries[..n];
      PutEntriesKeys(acc, front, prefix, k);
      if KeyFromEntries(front, prefix, k) {
        var i :| 0 <= i < n && Adds(front[i], prefix, k);
        assert front[i] == entries[i];
      }
      if KeyFromEntries(entries, prefix, k) && !Adds(entries[n], prefix, k) {
        var i :| 0 <= i < |entries| && Adds(entries[i], prefix, k);
        assert front[i] == entries[i];
      }
    }
  }

  /** A key carries the text of the last piece stored under it: a later piece overwrites an earlier one. */
  lemma {:induction false} PutEntriesLastWins(acc: Assoc<string>, entries: seq<Option<(string, string)>>, prefix: string, k: string, i: nat)
    requires i < |entries| && Adds(entries[i], prefix, k)
    requires forall j :: i < j < |entries| ==> !Adds(entries[j], prefix, k)
    ensures Lookup(PutEntries(acc, entries, prefix), k) == Some(entries[i].value.1)
  {
    var n := |entries| - 1;
    if i < n {
      var front := entries[..n];
      assert front[i] == entries[i];
      PutEntriesLastWins(acc, front, prefix, k, i);
    }
  }

  /** One more piece through the `foreach`. */
  lemma PutPiecesStep(strip: Stripper, acc: Assoc<string>, pieces: seq<string>, i: nat, prefix: string)
    requires i < |pieces|
    ensures var e := Normalize(strip, pieces[i]);
      var r := PutPieces(strip, acc, pieces[..i], prefix);
      PutPieces(strip, acc, pieces[..i + 1], prefix) == if e.None? then r else Put(r, prefix + e.value.0, e.value.1)
  {
    assert NormalizeAll(strip, pieces[..i + 1])[..i] == NormalizeAll(strip, pieces[..i]);
  }

  /** `$child->props[$field]`, converted to a string and cut at the commas. */
  function Pieces(props: map<string, Value>, field: string): seq<string> {
    Explode(',', ToStr(Get(props, field)))
  }

  /** The title of a custom category: its `tagN_label` prop, or `Tag 1` / `Tag 2`. */
  function CategoryTitle(props: map<string, Value>, field: string, fallback: string): (t: string)
    ensures Truthy(Get(props, field + "_label")) ==> t == ToStr(Get(props, field + "_label"))
    ensures !Truthy(Get(props, field + "_label")) ==> t == fallback
  {
    ToStr(Elvis(Get(props, field + "_label"), Str(fallback)))
  }

  /** The custom category fields, in the order the transform visits them, with their fallback titles. */
  const Fields: seq<(string, string)> := [("tag1", "Tag 1"), ("tag2", "Tag 2")]

  /** A child's `tags` after its general tags and the first `n` custom fields. */
  function ChildTagsUpTo(strip: Stripper, props: map<string, Value>, n: nat): Assoc<string>
    requires n <= |Fields|
  {
    if n == 0 then PutPieces(strip, [], Pieces(props, "tags"), "")
    else
      var r := ChildTagsUpTo(strip, props, n - 1);
      var field := Fields[n - 1].0;
      if Truthy(Get(props, field)) then PutPieces(strip, r, Pieces(props, field), field + "-") else r
  }

  /** A child's `categorized_tags` after the first `n` custom fields. */
  function ChildCategoriesUpTo(strip: Stripper, props: map<string, Value>, n: nat): Assoc<Category>
    requires n <= |Fields|
  {
    if n == 0 then []
    else
      var r := ChildCategoriesUpTo(strip, props, n - 1);
      var (field, fallback) := Fields[n - 1];
      if Truthy(Get(props, field))
      then Put(r, field, Category(CategoryTitle(props, field, fallback), PutPieces(strip, [], Pieces(props, field), "")))
      else r
  }

  function ChildTags(strip: Stripper, props: map<string, Value>): Assoc<string> {
    ChildTagsUpTo(strip, props, |Fields|)
  }

  function ChildCategories(strip: Stripper, props: map<string, Value>): Assoc<Category> {
    ChildCategoriesUpTo(strip, props, |Fields|)
  }

  /**
   * A child has a category entry exactly for each custom field whose prop is
   * truthy, titled by its `tagN_label` prop or the fallback, holding the field's
   * normalised pieces.
   */
  lemma ChildCategoryEntries(strip: Stripper, props: map<string, Value>, field: string)
    ensures Lookup(ChildCategories(strip, props), field).Some? <==>
      (field == "tag1" || field == "tag2") && Truthy(Get(props, field))
    ensures field == "tag1" && Truthy(Get(props, field)) ==>
      Lookup(ChildCategories(strip, props), field) == Some(Category(CategoryTitle(props, field, "Tag 1"), PutPieces(strip, [], Pieces(props, field), "")))
    ensures field == "tag2" && Truthy(Get(props, field)) ==>
      Lookup(ChildCategories(strip, props), field) == Some(Category(CategoryTitle(props, field, "Tag 2"), PutPieces(strip, [], Pieces(props, field), "")))
  {
    var c0 := ChildCategoriesUpTo(strip, props, 0);
    var c1 := ChildCategoriesUpTo(strip, props, 1);
    assert Lookup(c0, field).None?;
    assert Lookup(c1, field) == if field == "tag1" && Truthy(Get(props, "tag1"))
      then Some(Category(CategoryTitle(props, "tag1", "Tag 1"), PutPieces(strip, [], Pieces(props, "tag1"), "")))
      else None;
  }

  /** A category's keys are distinct, as in any PHP array. */
  lemma ChildCategoriesUnique(strip: Stripper, props: map<string, Value>)
    ensures UniqueKeys(ChildCategories(strip, props))
  {
    var c0 := ChildCategoriesUpTo(strip, props, 0);
    var c1 := ChildCategoriesUpTo(strip, props, 1);
    if Truthy(Get(props, "tag1")) {
      PutUnique(c0, "tag1", Category(CategoryTitle(props, "tag1", "Tag 1"), PutPieces(strip, [], Pieces(props, "tag1"), "")));
    }
    if Truthy(Get(props, "tag2")) {
      PutUnique(c1, "tag2", Category(CategoryTitle(props, "tag2", "Tag 2"), PutPieces(strip, [], Pieces(props, "tag2"), "")));
    }
  }

  // ---------------------------------------------------------------------------
  // The parent
  // ---------------------------------------------------------------------------

  /** `$node->tags += $child->tags` over the children, in order. */
  function MergedTags(children: seq<Assoc<string>>): Assoc<string> {
    if children == [] then []
    else
      var n := |children| - 1;
      Union(MergedTags(children[..n]), children[n])
  }

  /** On a key several children have, the earliest child's text wins. */
  lemma {:induction false} MergedTagsFirstWins(children: seq<Assoc<string>>, k: string, i: nat)
    requires i < |children| && Lookup(children[i], k).Some?
    requires forall j :: 0 <= j < i ==> Lookup(children[j], k).None?
    ensures Lookup(MergedTags(children), k) == Lookup(children[i], k)
  {
    var n := |children| - 1;
    var front := children[..n];
    if i < n {
      assert front[i] == children[i];
      assert forall j :: 0 <= j < i ==> front[j] == children[j];
      MergedTagsFirstWins(front, k, i);
      assert Lookup(MergedTags(front), k).Some?;
    } else {
      assert forall j :: 0 <= j < n ==> front[j] == children[j];
      MergedTagsMissing(front, k);
    }
    assert Lookup(MergedTags(children), k) == if Lookup(MergedTags(front), k).Some? then Lookup(MergedTags(front), k) else Lookup(children[n], k);
  }

  /** A key no child has is not in the parent's tags. */
  lemma {:induction false} MergedTagsMissing(children: seq<Assoc<string>>, k: string)
    requires forall j :: 0 <= j < |children| ==> Lookup(children[j], k).None?
    ensures Lookup(MergedTags(children), k).None?
  {
    if children != [] {
      MergedTagsMissing(children[..|children| - 1], k);
    }
  }

  /** What one category key holds after a child's entry (`b`) is merged into the parent's (`a`). */
  function CombineCategory(a: Option<Category>, b: Option<Category>): (r: Option<Category>)
    ensures r.Some? <==> a.Some? || b.Some?
    ensures a.Some? ==> r.value.title == a.value.title
    ensures a.None? && b.Some? ==> r.value.title == b.value.title
  {
    match (a, b)
    case (None, None) => None
    case (Some(c), None) => Some(c)
    case (None, Some(d)) => Some(Category(d.title, Union([], d.tags)))
    case (Some(c), Some(d)) => Some(Category(c.title, Union(c.tags, d.tags)))
  }

  /**
   * The inner `foreach` over one child's categories: a category first seen
   * takes the child's title and an empty tag list; then the child's tags are
   * added with `+=`.
   */
  function MergeChild(acc: Assoc<Category>, cats: Assoc<Category>): Assoc<Category>
    decreases |cats|
  {
    if cats == [] then acc
    else
      var n := |cats| - 1;
      var r := MergeChild(acc, cats[..n]);
      var (key, data) := cats[n];
      var r' := if Lookup(r, key).None? then Put(r, key, Category(data.title, [])) else r;
      var entry := Lookup(r', key).value;
      Put(r', key, Category(entry.title, Union(entry.tags, data.tags)))
  }

  /** Merging one child's (duplicate-free) categories combines them key by key. */
  lemma {:induction false} MergeChildLookup(acc: Assoc<Category>, cats: Assoc<Category>, k: string)
    requires UniqueKeys(cats)
    ensures Lookup(MergeChild(acc, cats), k) == CombineCategory(Lookup(acc, k), Lookup(cats, k))
    decreases |cats|
  {
    if cats != [] {
      var n := |cats| - 1;
      var front := cats[..n];
      assert UniqueKeys(front);
      MergeChildLookup(acc, front, k);
      var (key, data) := cats[n];
      LookupDrop(cats, k);
      if k == key {
        MissingBeforeLast(cats);
        var r := MergeChild(acc, front);
        if Lookup(r, key).Some? {
          UnionLeftEmptyLike(Lookup(r, key).value.tags, data.tags);
        } else {
          assert Lookup(Put(r, key, Category(data.title, [])), key) == Some(Category(data.title, []));
        }
      }
    }
  }

  /** The last entry of a duplicate-free array is looked up where it stands, the others in the front part. */
  lemma LookupDrop(cats: Assoc<Category>, k: string)
    requires cats != [] && UniqueKeys(cats)
    ensures k == cats[|cats| - 1].0 ==> Lookup(cats, k) == Some(cats[|cats| - 1].1)
    ensures k != cats[|cats| - 1].0 ==> Lookup(cats, k) == Lookup(cats[..|cats| - 1], k)
  {
    var n := |cats| - 1;
    assert cats == cats[..n] + [cats[n]];
    if k == cats[n].0 {
      LookupAt(cats, n);
    } else {
      LookupSplit(cats[..n], cats[n], k);
    }
  }

  /** Looking up a key other than the appended one ignores the appended entry. */
  lemma {:induction false} LookupSplit<V>(a: Assoc<V>, e: (string, V), k: string)
    requires k != e.0
    ensures Lookup(a + [e], k) == Lookup(a, k)
  {
    if a != [] {
      assert (a + [e])[1..] == a[1..] + [e];
      LookupSplit(a[1..], e, k);
    }
  }

  /** In a duplicate-free array the last key is not among the earlier ones. */
  lemma MissingBeforeLast(cats: Assoc<Category>)
    requires cats != [] && UniqueKeys(cats)
    ensures Lookup(cats[..|cats| - 1], cats[|cats| - 1].0).None?
  {
    var n := |cats| - 1;
    var front := cats[..n];
    LookupFinds(front, cats[n].0);
  }

  /** `$a + $b` depends on `a` only through its lookups, here applied to a fresh empty list. */
  lemma UnionLeftEmptyLike(a: Assoc<string>, b: Assoc<string>)
    ensures forall k :: Lookup(Union(a, b), k) == if Lookup(a, k).Some? then Lookup(a, k) else Lookup(b, k)
  {
  }

  /** The outer `foreach` over the children. */
  function MergedCategories(children: seq<Assoc<Category>>): Assoc<Category> {
    if children == [] then []
    else
      var n := |children| - 1;
      MergeChild(MergedCategories(children[..n]), children[n])
  }

  /**
   * The parent has a category exactly when some child has it, and its title
   * is the title of the first child that has it.
   */
  lemma {:induction false} MergedCategoryTitle(children: seq<Assoc<Category>>, k: string, i: nat)
    requires forall j :: 0 <= j < |children| ==> UniqueKeys(children[j])
    requires i < |children| && Lookup(children[i], k).Some?
    requires forall j :: 0 <= j < i ==> Lookup(children[j], k).None?
    ensures Lookup(MergedCategories(children), k).Some?
    ensures Lookup(MergedCategories(children), k).value.title == Lookup(children[i], k).value.title
  {
    var n := |children| - 1;
    var front := children[..n];
    MergeChildLookup(MergedCategories(front), children[n], k);
    if i < n {
      MergedCategoryTitle(front, k, i);
    } else {
      MergedCategoryMissing(front, k);
    }
  }

  /** A category no child has is not in the parent's. */
  lemma {:induction false} MergedCategoryMissing(children: seq<Assoc<Category>>, k: string)
    requires forall j :: 0 <= j < |children| ==> UniqueKeys(children[j])
    requires forall j :: 0 <= j < |children| ==> Lookup(children[j], k).None?
    ensures Lookup(MergedCategories(children), k).None?
  {
    if children != [] {
      var n := |children| - 1;
      MergedCategoryMissing(children[..n], k);
      MergeChildLookup(MergedCategories(children[..n]), children[n], k);
    }
  }
}
