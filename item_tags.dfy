/**
 * `getItemTags` of the filter script: the tags of a grid item are its
 * `data-tag` attribute split on runs of white space and commas.
 */
module ItemTags {
  import opened Wrappers

  /** JavaScript's `\s`: the WhiteSpace and LineTerminator code points. */
  predicate IsJsSpace(c: char) {
    || c == '\t' || c == '\n' || c == '\U{B}' || c == '\U{C}' || c == '\r' || c == ' '
    || c == '\U{A0}' || c == '\U{1680}' || ('\U{2000}' <= c <= '\U{200A}')
    || c == '\U{2028}' || c == '\U{2029}' || c == '\U{202F}' || c == '\U{205F}'
    || c == '\U{3000}' || c == '\U{FEFF}'
  }

  /** A character of the class `[\s,]`. */
  predicate IsSeparator(c: char) {
    IsJsSpace(c) || c == ','
  }

  predicate NoSeparator(s: string) {
    forall i :: 0 <= i < |s| ==> !IsSeparator(s[i])
  }

  /** A tag as the item carries it: non-empty and free of separators. */
  predicate IsToken(t: string) {
    t != [] && NoSeparator(t)
  }

  /** The length of the longest prefix of `s` without a separator. */
  function WordLength(s: string): (n: nat)
    ensures n <= |s|
  {
    if s == [] || IsSeparator(s[0]) then 0 else WordLength(s[1..]) + 1
  }

  /**
   * `s.split(/[\s,]+/)`: the pieces between maximal runs of separators. A run
   * at the start or at the end yields an empty first or last piece, and the
   * empty string yields one empty piece. Read from the front: a word
   * character extends the first piece, a separator that starts a run opens a
   * new, empty first piece, and a separator followed by another is part of
   * the same run.
   */
  function SplitRuns(s: string): (r: seq<string>)
    ensures |r| >= 1
    ensures forall i :: 0 <= i < |r| ==> NoSeparator(r[i])
  {
    if s == [] then [""]
    else
      var r := SplitRuns(s[1..]);
      if !IsSeparator(s[0]) then [[s[0]] + r[0]] + r[1..]
      else if |s| > 1 && IsSeparator(s[1]) then r
      else [""] + r
  }

  /**
   * `.filter(tag => tag.trim())`. A piece holds no white space, so its trimmed
   * form is the piece itself and the filter keeps exactly the non-empty pieces.
   */
  function NonEmpty(pieces: seq<string>): (r: seq<string>)
    ensures forall i :: 0 <= i < |r| ==> r[i] != [] && r[i] in pieces
  {
    if pieces == [] then []
    else if pieces[0] == [] then NonEmpty(pieces[1..])
    else [pieces[0]] + NonEmpty(pieces[1..])
  }

  /** `getItemTags(item)`: a missing or empty `data-tag` gives no tags. */
  function ItemTagsOf(attr: Option<string>): (tags: seq<string>)
    ensures forall i :: 0 <= i < |tags| ==> IsToken(tags[i])
  {
    match attr
    case None => []
    case Some(s) => if s == "" then [] else NonEmpty(SplitRuns(s))
  }

  /** The tokens of `s`, read left to right: skip a separator, or take a whole word. */
  function Tokens(s: string): seq<string>
    decreases |s|
  {
    if s == [] then []
    else if IsSeparator(s[0]) then Tokens(s[1..])
    else
      var n := WordLength(s);
      [s[..n]] + Tokens(s[n..])
  }

  /** The filter on one more piece in front. */
  lemma NonEmptyCons(x: string, rest: seq<string>)
    ensures NonEmpty([x] + rest) == if x == [] then NonEmpty(rest) else [x] + NonEmpty(rest)
  {
    assert ([x] + rest)[1..] == rest;
  }

  /**
   * The first piece of the split is the leading word, and the non-empty
   * pieces after it are the tokens of what follows that word.
   */
  lemma {:induction false} SplitHead(t: string)
    ensures var r := SplitRuns(t);
      && r[0] == t[..WordLength(t)]
      && NonEmpty(r[1..]) == Tokens(t[WordLength(t)..])
  {
    if t == [] {
    } else if !IsSeparator(t[0]) {
      var u := t[1..];
      SplitHead(u);
      var r' := SplitRuns(u);
      var w := WordLength(u);
      assert t[..w + 1] == [t[0]] + u[..w];
      assert t[w + 1..] == u[w..];
      assert ([[t[0]] + r'[0]] + r'[1..])[1..] == r'[1..];
    } else {
      var u := t[1..];
      SplitHead(u);
      var r' := SplitRuns(u);
      assert t[..0] == [] && t[0..] == t;
      if |t| > 1 && IsSeparator(t[1]) {
        assert u[0..] == u;
      } else {
        assert ([""] + r')[1..] == r';
        if u != [] {
          assert r' == [r'[0]] + r'[1..];
          NonEmptyCons(r'[0], r'[1..]);
        }
      }
    }
  }

  /** The split-then-filter of the script reads the same tokens as `Tokens`. */
  lemma SplitFilterIsTokens(s: string)
    ensures NonEmpty(SplitRuns(s)) == Tokens(s)
  {
    var r := SplitRuns(s);
    SplitHead(s);
    assert r == [r[0]] + r[1..];
    NonEmptyCons(r[0], r[1..]);
    if s != [] && IsSeparator(s[0]) {
      assert s[0..] == s;
    }
  }

  /** A word without separators is its own leading word. */
  lemma {:induction false} WordLengthOfWord(t: string)
    requires NoSeparator(t)
    ensures WordLength(t) == |t|
  {
    if t != [] {
      WordLengthOfWord(t[1..]);
    }
  }

  /** A separator ends the leading word. */
  lemma {:induction false} WordLengthBeforeSeparator(a: string, rest: string)
    requires rest != [] && IsSeparator(rest[0])
    ensures WordLength(a + rest) == WordLength(a)
  {
    if a != [] {
      assert (a + rest)[1..] == a[1..] + rest;
      if !IsSeparator(a[0]) {
        WordLengthBeforeSeparator(a[1..], rest);
      }
    }
  }

  /** A separator between two strings splits their tokens apart: tokens are exactly the maximal words. */
  lemma {:induction false} TokensConcat(a: string, c: char, b: string)
    requires IsSeparator(c)
    ensures Tokens(a + [c] + b) == Tokens(a) + Tokens(b)
    decreases |a|
  {
    var s := a + [c] + b;
    if a == [] {
      assert s[1..] == b;
    } else if IsSeparator(a[0]) {
      assert s[1..] == a[1..] + [c] + b;
      TokensConcat(a[1..], c, b);
    } else {
      assert s == a + ([c] + b);
      WordLengthBeforeSeparator(a, [c] + b);
      var n := WordLength(a);
      assert s[..n] == a[..n];
      assert s[n..] == a[n..] + [c] + b;
      TokensConcat(a[n..], c, b);
    }
  }

  /** A single token reads as itself. */
  lemma TokensOfToken(t: string)
    requires IsToken(t)
    ensures Tokens(t) == [t]
  {
    WordLengthOfWord(t);
    assert t[..|t|] == t && t[|t|..] == [];
  }

  /** The tags joined by single spaces, as a template would write them into `data-tag`. */
  function JoinWithSpaces(tags: seq<string>): string {
    if tags == [] then ""
    else if |tags| == 1 then tags[0]
    else tags[0] + " " + JoinWithSpaces(tags[1..])
  }

  /** Writing tokens into `data-tag` separated by spaces and reading them back gives the same tags. */
  lemma {:induction false} ReadBackJoined(tags: seq<string>)
    requires forall i :: 0 <= i < |tags| ==> IsToken(tags[i])
    ensures ItemTagsOf(Some(JoinWithSpaces(tags))) == tags
  {
    TokensOfJoin(tags);
    var s := JoinWithSpaces(tags);
    SplitFilterIsTokens(s);
    if s == "" {
      assert tags == [];
    }
  }

  lemma {:induction false} TokensOfJoin(tags: seq<string>)
    requires forall i :: 0 <= i < |tags| ==> IsToken(tags[i])
    ensures Tokens(JoinWithSpaces(tags)) == tags
  {
    if |tags| == 1 {
      TokensOfToken(tags[0]);
    } else if |tags| > 1 {
      TokensOfJoin(tags[1..]);
      TokensOfToken(tags[0]);
      TokensConcat(tags[0], ' ', JoinWithSpaces(tags[1..]));
      assert tags[0] + " " + JoinWithSpaces(tags[1..]) == tags[0] + [' '] + JoinWithSpaces(tags[1..]);
      assert tags == [tags[0]] + tags[1..];
    }
  }
}
