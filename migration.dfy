/**
 * The product item's stored-props migration for version 2.5.0-beta.1.3: a
 * non-empty `tags` prop is rewritten with PHP's `ucwords`, so that every
 * word of the comma-separated tag list starts with a capital letter.
 */
module Migration {
  import opened Php

  /** The word delimiters `ucwords` uses when none are given: space, tab, CR, LF, form feed and vertical tab. */
  predicate IsWordDelimiter(c: char) {
    c == ' ' || c == '\t' || c == '\r' || c == '\n' || c == '\U{C}' || c == '\U{B}'
  }

  /** Whether `ucwords` capitalises position `i` of `s`: the first character and every one after a delimiter. */
  predicate StartsWord(s: string, i: int)
    requires 0 <= i < |s|
  {
    i == 0 || IsWordDelimiter(s[i - 1])
  }

  /** `ucwords`, built left to right as PHP's loop walks the string. */
  function Ucwords(s: string): (r: string)
    ensures |r| == |s|
    decreases |s|
  {
    if s == [] then []
    else
      var n := |s| - 1;
      Ucwords(s[..n]) + [if StartsWord(s, n) then ToUpperChar(s[n]) else s[n]]
  }

  /**
   * The length is kept, and only a lowercase ASCII letter at the start of a
   * word changes, to its uppercase form.
   */
  lemma {:induction false} UcwordsAt(s: string, i: int)
    requires 0 <= i < |s|
    ensures Ucwords(s)[i] == if StartsWord(s, i) then ToUpperChar(s[i]) else s[i]
    ensures Ucwords(s)[i] != s[i] <==> StartsWord(s, i) && IsAsciiLower(s[i])
    decreases |s|
  {
    var n := |s| - 1;
    if i < n {
      UcwordsAt(s[..n], i);
      assert StartsWord(s[..n], i) == StartsWord(s, i);
    }
  }

  /** `ucwords` leaves the delimiters where they were, so the words are the same words. */
  lemma UcwordsKeepsDelimiters(s: string, i: int)
    requires 0 <= i < |s|
    ensures IsWordDelimiter(Ucwords(s)[i]) <==> IsWordDelimiter(s[i])
  {
    UcwordsAt(s, i);
  }

  /** Capitalising words twice is capitalising them once. */
  lemma UcwordsIdempotent(s: string)
    ensures Ucwords(Ucwords(s)) == Ucwords(s)
  {
    var r := Ucwords(s);
    forall i | 0 <= i < |r|
      ensures Ucwords(r)[i] == r[i]
    {
      UcwordsAt(r, i);
      UcwordsAt(s, i);
      if i > 0 {
        UcwordsKeepsDelimiters(s, i - 1);
      }
    }
  }

  /** The props after the migration: a truthy `tags` becomes `ucwords` of its string form. */
  function Migrated(props: map<string, Value>): (r: map<string, Value>)
    ensures r.Keys == props.Keys
    ensures forall k :: k in props && k != "tags" ==> r[k] == props[k]
    ensures !Truthy(Get(props, "tags")) ==> r == props
    ensures Truthy(Get(props, "tags")) ==> r["tags"] == Str(Ucwords(ToStr(props["tags"])))
  {
    if Truthy(Get(props, "tags")) then props["tags" := Str(Ucwords(ToStr(props["tags"])))] else props
  }

  /** The migrated tags are still truthy, so the migration is a no-op the second time. */
  lemma MigratedIdempotent(props: map<string, Value>)
    ensures Migrated(Migrated(props)) == Migrated(props)
  {
    if Truthy(Get(props, "tags")) {
      var s := ToStr(props["tags"]);
      ToStrTruthy(props["tags"]);
      UcwordsIdempotent(s);
      var r := Ucwords(s);
      assert r != "0" by {
        if r == "0" {
          UcwordsAt(s, 0);
        }
      }
    }
  }

  /** A stored builder node whose props the migration rewrites in place. */
  class StoredNode {
    var props: map<string, Value>

    constructor (props: map<string, Value>)
      ensures this.props == props
    {
      this.props := props;
    }

    /** The `'2.5.0-beta.1.3'` update: `ucwords` on a non-empty `tags` prop, nothing else. */
    method Upgrade()
      modifies this`props
      ensures props == Migrated(old(props))
    {
      if Truthy(Get(props, "tags")) {
        props := props["tags" := Str(Ucwords(ToStr(props["tags"])))];
      }
    }
  }
}
