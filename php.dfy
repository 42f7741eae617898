/**
 * The part of PHP's value model and string library that the element's render
 * transform, its template and its migration rely on: truthiness, `trim`,
 * `str_replace` of one character, `explode`, ASCII case mapping, and arrays
 * with string keys kept in insertion order.
 */
module Php {
  import opened Wrappers

  /** A scalar as it can appear in an element's props. */
  datatype Value = Null | Bool(b: bool) | Int(i: int) | Str(s: string)

  /** PHP's conversion to bool, as used by `if ($v)`, `!empty($v)` and `$v ?: $d`. */
  predicate Truthy(v: Value) {
    match v
    case Null => false
    case Bool(b) => b
    case Int(i) => i != 0
    case Str(s) => s != "" && s != "0"
  }

  /** `$props[$k]`: a missing key reads as null. */
  function Get(props: map<string, Value>, k: string): Value {
    if k in props then props[k] else Null
  }

  /** `$v ?: $d` */
  function Elvis(v: Value, d: Value): (r: Value)
    ensures Truthy(v) ==> r == v
    ensures !Truthy(v) ==> r == d
  {
    if Truthy(v) then v else d
  }

  /** The decimal digits of `n`, most significant first. */
  function Digits(n: nat): (r: string)
    ensures |r| >= 1 && (n >= 10 <==> |r| >= 2)
    ensures forall k :: 0 <= k < |r| ==> '0' <= r[k] <= '9'
    ensures r[0] == '0' ==> n == 0
  {
    if n < 10 then [['0', '1', '2', '3', '4', '5', '6', '7', '8', '9'][n]]
    else Digits(n / 10) + Digits(n % 10)
  }

  /** PHP's conversion to string, as `explode` and `ucwords` apply it to their argument. */
  function ToStr(v: Value): string {
    match v
    case Null => ""
    case Bool(b) => if b then "1" else ""
    case Int(i) => if i < 0 then "-" + Digits(-i) else Digits(i)
    case Str(s) => s
  }

  /** Converting a scalar to a string keeps its truthiness. */
  lemma ToStrTruthy(v: Value)
    ensures Truthy(Str(ToStr(v))) <==> Truthy(v)
  {
    if v.Int? && v.i > 0 {
      var r := Digits(v.i);
      assert r != "0" by {
        if v.i < 10 {
          assert r[0] != '0';
        }
      }
    }
  }

  // ---------------------------------------------------------------------------
  // trim
  // ---------------------------------------------------------------------------

  /** The characters `trim` removes when no character list is given. */
  predicate IsTrimChar(c: char) {
    c == ' ' || c == '\t' || c == '\n' || c == '\r' || c == '\0' || c == '\U{B}'
  }

  /** `ltrim`: the longest suffix of `s` that does not start with a trim character. */
  function TrimStart(s: string): (r: string)
    ensures |r| <= |s| && r == s[|s| - |r|..]
    ensures r == [] || !IsTrimChar(r[0])
    ensures forall k :: 0 <= k < |s| - |r| ==> IsTrimChar(s[k])
  {
    if s != [] && IsTrimChar(s[0]) then TrimStart(s[1..]) else s
  }

  /** `rtrim`: the longest prefix of `s` that does not end with a trim character. */
  function TrimEnd(s: string): (r: string)
    ensures |r| <= |s| && r == s[..|r|]
    ensures r == [] || !IsTrimChar(r[|r| - 1])
    ensures forall k :: |r| <= k < |s| ==> IsTrimChar(s[k])
  {
    if s != [] && IsTrimChar(s[|s| - 1]) then TrimEnd(s[..|s| - 1]) else s
  }

  /** True when `r` is `s` with a run of trim characters cut from each end. */
  ghost predicate CutFrom(s: string, r: string, i: int) {
    && 0 <= i <= |s| - |r|
    && s[i..i + |r|] == r
    && (forall k :: 0 <= k < i ==> IsTrimChar(s[k]))
    && (forall k :: i + |r| <= k < |s| ==> IsTrimChar(s[k]))
  }

  /** `trim`: drops the leading and trailing trim characters and nothing else. */
  function Trim(s: string): (r: string)
    ensures r == [] || (!IsTrimChar(r[0]) && !IsTrimChar(r[|r| - 1]))
    ensures exists i :: CutFrom(s, r, i)
  {
    var t := TrimStart(s);
    var r := TrimEnd(t);
    assert CutFrom(s, r, |s| - |t|) by {
      assert s[|s| - |t|..][..|r|] == r;
    }
    r
  }

  /** Trimming is idempotent. */
  lemma TrimIdempotent(s: string)
    ensures Trim(Trim(s)) == Trim(s)
  {
    var r := Trim(s);
    assert TrimStart(r) == r;
    assert TrimEnd(r) == r;
  }

  // ---------------------------------------------------------------------------
  // str_replace of one character by another
  // ---------------------------------------------------------------------------

  /** `str_replace($a, $b, $s)` for one-character `$a` and `$b`. */
  function ReplaceChar(s: string, a: char, b: char): (r: string)
    ensures |r| == |s|
    ensures forall i :: 0 <= i < |s| ==> r[i] == (if s[i] == a then b else s[i])
  {
    if s == [] then [] else [if s[0] == a then b else s[0]] + ReplaceChar(s[1..], a, b)
  }

  // ---------------------------------------------------------------------------
  // explode
  // ---------------------------------------------------------------------------

  /** The position of the first `c` in `s`. */
  function FirstIndex(s: string, c: char): (k: nat)
    requires c in s
    ensures k < |s| && s[k] == c && c !in s[..k]
  {
    if s[0] == c then 0 else FirstIndex(s[1..], c) + 1
  }

  /** `explode($sep, $s)`: the pieces between the separators; never empty, `explode(',', '')` is `['']`. */
  function Explode(sep: char, s: string): (r: seq<string>)
    ensures |r| >= 1
    ensures forall i :: 0 <= i < |r| ==> sep !in r[i]
    decreases |s|
  {
    if sep !in s then [s]
    else
      var k := FirstIndex(s, sep);
      [s[..k]] + Explode(sep, s[k + 1..])
  }

  /** `implode($sep, $parts)` */
  function Join(sep: char, parts: seq<string>): string
    requires |parts| >= 1
  {
    if |parts| == 1 then parts[0] else parts[0] + [sep] + Join(sep, parts[1..])
  }

  /** Exploding loses nothing: the pieces glued back with the separator give the input. */
  lemma {:induction false} JoinExplode(sep: char, s: string)
    ensures Join(sep, Explode(sep, s)) == s
    decreases |s|
  {
    if sep in s {
      var k := FirstIndex(s, sep);
      JoinExplode(sep, s[k + 1..]);
      assert s == s[..k] + [sep] + s[k + 1..];
    }
  }

  /** Exploding a join of separator-free pieces gives the pieces back. */
  lemma {:induction false} ExplodeJoin(sep: char, parts: seq<string>)
    requires |parts| >= 1
    requires forall i :: 0 <= i < |parts| ==> sep !in parts[i]
    ensures Explode(sep, Join(sep, parts)) == parts
  {
    if |parts| > 1 {
      var s := Join(sep, parts);
      var rest := Join(sep, parts[1..]);
      assert s == parts[0] + [sep] + rest;
      assert sep in s by { assert s[|parts[0]|] == sep; }
      var k := FirstIndex(s, sep);
      assert k == |parts[0]| by {
        assert s[..|parts[0]|] == parts[0];
      }
      assert s[..k] == parts[0];
      assert s[k + 1..] == rest;
      ExplodeJoin(sep, parts[1..]);
    }
  }

  // ---------------------------------------------------------------------------
  // ASCII case mapping (PHP 8's strtolower, strtoupper and ucwords are locale-independent)
  // ---------------------------------------------------------------------------

  predicate IsAsciiUpper(c: char) { 'A' <= c <= 'Z' }
  predicate IsAsciiLower(c: char) { 'a' <= c <= 'z' }

  /** One byte of `strtolower`: `A`-`Z` move 32 code points up to `a`-`z`, and nothing else changes. */
  function ToLowerChar(c: char): (l: char)
    ensures IsAsciiUpper(c) ==> IsAsciiLower(l) && l as int == c as int + 32
    ensures !IsAsciiUpper(c) ==> l == c
  {
    if IsAsciiUpper(c) then (c as int + 32) as char else c
  }

  /** One byte of `strtoupper`, as `ucwords` applies it: `a`-`z` move 32 code points down, and back again with `ToLowerChar`. */
  function ToUpperChar(c: char): (u: char)
    ensures IsAsciiLower(c) ==> IsAsciiUpper(u) && u as int == c as int - 32 && ToLowerChar(u) == c
    ensures !IsAsciiLower(c) ==> u == c
  {
    if IsAsciiLower(c) then (c as int - 32) as char else c
  }

  /** `strtolower` */
  function ToLower(s: string): (r: string)
    ensures |r| == |s|
    ensures forall i :: 0 <= i < |s| ==> r[i] == ToLowerChar(s[i]) && !IsAsciiUpper(r[i])
  {
    seq(|s|, i requires 0 <= i < |s| => ToLowerChar(s[i]))
  }

  // ---------------------------------------------------------------------------
  // Arrays with string keys, in insertion order
  // ---------------------------------------------------------------------------

  /** A PHP array whose keys are strings, as its entries in iteration order. */
  type Assoc<V> = seq<(string, V)>

  function KeysOf<V>(a: Assoc<V>): seq<string> {
    seq(|a|, i requires 0 <= i < |a| => a[i].0)
  }

  /** No key occurs twice: every PHP array has this shape. */
  ghost predicate UniqueKeys<V>(a: Assoc<V>) {
    forall i, j :: 0 <= i < j < |a| ==> a[i].0 != a[j].0
  }

  /** `$a[$k] ?? null`: the value of the first entry with key `k`. */
  function Lookup<V>(a: Assoc<V>, k: string): Option<V> {
    if a == [] then None
    else if a[0].0 == k then Some(a[0].1) else Lookup(a[1..], k)
  }

  /** A key is found exactly when some entry has it. */
  lemma {:induction false} LookupFinds<V>(a: Assoc<V>, k: string)
    ensures Lookup(a, k).Some? <==> k in KeysOf(a)
  {
    if a != [] {
      KeysCons(a);
      LookupFinds(a[1..], k);
    }
  }

  lemma KeysCons<V>(a: Assoc<V>)
    requires a != []
    ensures KeysOf(a) == [a[0].0] + KeysOf(a[1..])
  {
  }

  /** `$a[$k] = $v`: an existing key keeps its position and takes the new value; a new key is appended. */
  function Put<V>(a: Assoc<V>, k: string, v: V): (r: Assoc<V>)
    ensures Lookup(r, k) == Some(v)
    ensures forall k' :: k' != k ==> Lookup(r, k') == Lookup(a, k')
  {
    if a == [] then [(k, v)]
    else if a[0].0 == k then [(k, v)] + a[1..]
    else [a[0]] + Put(a[1..], k, v)
  }

  /** `$a[$k] = $v` leaves every key where it was, and appends a key that was new. */
  lemma {:induction false} PutKeys<V>(a: Assoc<V>, k: string, v: V)
    ensures KeysOf(Put(a, k, v)) == if k in KeysOf(a) then KeysOf(a) else KeysOf(a) + [k]
  {
    if a != [] {
      KeysCons(a);
      KeysCons(Put(a, k, v));
      if a[0].0 != k {
        PutKeys(a[1..], k, v);
      }
    }
  }

  /** Writing a key twice leaves the second value where the first was put. */
  lemma {:induction false} PutOverwrite<V>(a: Assoc<V>, k: string, v: V, w: V)
    ensures Put(Put(a, k, v), k, w) == Put(a, k, w)
  {
    if a != [] && a[0].0 != k {
      PutOverwrite(a[1..], k, v, w);
    }
  }

  /**
   * `$a + $b`: the entries of `a`, then those of `b` whose key `a` lacks.
   * On a key both have, the left-hand (earlier) value wins.
   */
  function Union<V>(a: Assoc<V>, b: Assoc<V>): (r: Assoc<V>)
    ensures |r| >= |a| && r[..|a|] == a
    ensures forall k :: Lookup(r, k) == if Lookup(a, k).Some? then Lookup(a, k) else Lookup(b, k)
    decreases |b|
  {
    if b == [] then a
    else if Lookup(a, b[0].0).Some? then
      assert forall k :: Lookup(b, k) == if k == b[0].0 then Some(b[0].1) else Lookup(b[1..], k);
      Union(a, b[1..])
    else
      assert forall k :: Lookup(b, k) == if k == b[0].0 then Some(b[0].1) else Lookup(b[1..], k);
      LookupAppend(a, b[0]);
      var r := Union(a + [b[0]], b[1..]);
      assert r[..|a|] == (r[..|a| + 1])[..|a|];
      r
  }

  /** Appending an entry with a new key adds exactly that key. */
  lemma {:induction false} LookupAppend<V>(a: Assoc<V>, e: (string, V))
    requires Lookup(a, e.0).None?
    ensures forall k :: Lookup(a + [e], k) == if k == e.0 then Some(e.1) else Lookup(a, k)
  {
    if a != [] {
      assert (a + [e])[1..] == a[1..] + [e];
      LookupAppend(a[1..], e);
    }
  }

  /** Lookup in a duplicate-free array finds the entry at its position. */
  lemma {:induction false} LookupAt<V>(a: Assoc<V>, i: nat)
    requires UniqueKeys(a) && i < |a|
    ensures Lookup(a, a[i].0) == Some(a[i].1)
  {
    if i > 0 {
      LookupAt(a[1..], i - 1);
    }
  }

  /** `$a[$k] = $v` keeps the keys distinct. */
  lemma PutUnique<V>(a: Assoc<V>, k: string, v: V)
    requires UniqueKeys(a)
    ensures UniqueKeys(Put(a, k, v))
  {
    var r := Put(a, k, v);
    PutKeys(a, k, v);
    assert forall i :: 0 <= i < |r| ==> r[i].0 == KeysOf(r)[i];
    assert forall i :: 0 <= i < |a| ==> a[i].0 == KeysOf(a)[i];
  }

  /** `$a + $b` keeps the keys distinct. */
  lemma {:induction false} UnionUnique<V>(a: Assoc<V>, b: Assoc<V>)
    requires UniqueKeys(a)
    ensures UniqueKeys(Union(a, b))
    decreases |b|
  {
    if b != [] && Lookup(a, b[0].0).None? {
      var a' := a + [b[0]];
      LookupFinds(a, b[0].0);
      assert UniqueKeys(a') by {
        forall i | 0 <= i < |a|
          ensures a'[i].0 != b[0].0
        {
          assert a[i].0 == KeysOf(a)[i];
        }
      }
      UnionUnique(a', b[1..]);
    } else if b != [] {
      UnionUnique(a, b[1..]);
    }
  }
}
