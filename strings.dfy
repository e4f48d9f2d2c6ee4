/**
 * The string operations the scraper, the API server and the browser client
 * share: whitespace trimming (Python `str.strip()`, JavaScript `trim()`),
 * lower-casing (`str.lower()`, `toLowerCase()`), substring search (`in`,
 * `includes`), splitting on one character (`split(",")`) and joining
 * (`join(", ")`). Strings are sequences of characters. Python and JavaScript
 * disagree on what counts as whitespace, so trimming takes the whitespace rule
 * of the runtime that performs it; lower-casing treats only ASCII letters.
 */
module Strings {

  /**
   * The characters Python's `str.strip()` and `int()` treat as whitespace: the
   * ASCII controls tab to carriage return, the information separators U+001C
   * to U+001F, the space, NEL (U+0085), the Unicode space separators and the
   * line and paragraph separators.
   */
  predicate PythonSpace(c: char) {
    || c == ' ' || '\t' <= c <= '\r' || '\U{001C}' <= c <= '\U{001F}' || c == '\U{0085}'
    || c == '\U{00A0}' || c == '\U{1680}' || '\U{2000}' <= c <= '\U{200A}'
    || c == '\U{2028}' || c == '\U{2029}' || c == '\U{202F}' || c == '\U{205F}' || c == '\U{3000}'
  }

  /**
   * The characters JavaScript's `trim()` removes: tab to carriage return, the
   * space, the Unicode space separators, the line and paragraph separators
   * and the byte-order mark (U+FEFF); not U+001C to U+001F and not NEL.
   */
  predicate JavaScriptSpace(c: char) {
    || c == ' ' || '\t' <= c <= '\r'
    || c == '\U{00A0}' || c == '\U{1680}' || '\U{2000}' <= c <= '\U{200A}'
    || c == '\U{2028}' || c == '\U{2029}' || c == '\U{202F}' || c == '\U{205F}' || c == '\U{3000}'
    || c == '\U{FEFF}'
  }

  // The trimming operations below take the whitespace rule `ws` of the runtime
  // that performs them: `PythonSpace` or `JavaScriptSpace`.

  /** No whitespace at either end. */
  predicate Trimmed(ws: char -> bool, s: string) {
    s == [] || (!ws(s[0]) && !ws(s[|s| - 1]))
  }

  predicate AllSpace(ws: char -> bool, s: string) {
    forall i :: 0 <= i < |s| ==> ws(s[i])
  }

  /** `lstrip()`: drops the leading whitespace. */
  function TrimStart(ws: char -> bool, s: string): (r: string)
    ensures |r| <= |s|
    ensures r == [] || !ws(r[0])
  {
    if |s| > 0 && ws(s[0]) then TrimStart(ws, s[1..]) else s
  }

  /** `rstrip()`: drops the trailing whitespace. */
  function TrimEnd(ws: char -> bool, s: string): (r: string)
    ensures |r| <= |s|
    ensures r == [] || (r[0] == s[0] && !ws(r[|r| - 1]))
  {
    if |s| > 0 && ws(s[|s| - 1]) then TrimEnd(ws, s[..|s| - 1]) else s
  }

  /** What `lstrip()` cuts away is a run of whitespace at the front. */
  lemma {:induction false} TrimStartSlice(ws: char -> bool, s: string)
    ensures var r := TrimStart(ws, s); r == s[|s| - |r|..] && AllSpace(ws, s[..|s| - |r|])
  {
    if |s| > 0 && ws(s[0]) {
      TrimStartSlice(ws, s[1..]);
      var r := TrimStart(ws, s[1..]);
      assert s[..|s| - |r|] == [s[0]] + s[1..][..|s| - 1 - |r|];
    }
  }

  /** What `rstrip()` cuts away is a run of whitespace at the back. */
  lemma {:induction false} TrimEndSlice(ws: char -> bool, s: string)
    ensures var r := TrimEnd(ws, s); r == s[..|r|] && AllSpace(ws, s[|r|..])
  {
    if |s| > 0 && ws(s[|s| - 1]) {
      TrimEndSlice(ws, s[..|s| - 1]);
      var r := TrimEnd(ws, s[..|s| - 1]);
      assert s[|r|..] == s[..|s| - 1][|r|..] + [s[|s| - 1]];
    }
  }

  /** Strips whitespace at both ends. */
  function Trim(ws: char -> bool, s: string): (r: string)
    ensures Trimmed(ws, r)
  {
    TrimEnd(ws, TrimStart(ws, s))
  }

  /**
   * What trimming cuts away: the result is a contiguous piece of `s` between
   * two runs of whitespace.
   */
  lemma TrimSlice(ws: char -> bool, s: string)
    ensures var r, i := Trim(ws, s), |s| - |TrimStart(ws, s)|;
      i + |r| <= |s| && r == s[i..i + |r|] && AllSpace(ws, s[..i]) && AllSpace(ws, s[i + |r|..])
  {
    var a := TrimStart(ws, s);
    var r := TrimEnd(ws, a);
    var i := |s| - |a|;
    TrimStartSlice(ws, s);
    TrimEndSlice(ws, a);
    assert Trim(ws, s) == r;
    assert r == s[i..i + |r|];
    assert s[i + |r|..] == a[|r|..];
  }

  /** Trimming a string that is already trimmed changes nothing. */
  lemma TrimOfTrimmed(ws: char -> bool, s: string)
    requires Trimmed(ws, s)
    ensures Trim(ws, s) == s
  {
  }

  /** `strip()` is idempotent. */
  lemma TrimIdempotent(ws: char -> bool, s: string)
    ensures Trim(ws, Trim(ws, s)) == Trim(ws, s)
  {
    TrimOfTrimmed(ws, Trim(ws, s));
  }

  /** A string trims to the empty string exactly when it is all whitespace. */
  lemma {:induction false} TrimEmptyIffAllSpace(ws: char -> bool, s: string)
    ensures Trim(ws, s) == [] <==> AllSpace(ws, s)
  {
    TrimSlice(ws, s);
    var r := Trim(ws, s);
    var i := |s| - |TrimStart(ws, s)|;
    if r == [] {
      forall k | 0 <= k < |s| ensures ws(s[k]) {
        if k < i { assert s[k] == s[..i][k]; }
      }
    } else {
      assert r[0] == s[i] && !ws(r[0]);
    }
  }

  /** Leading whitespace does not survive trimming. */
  lemma TrimLeadingSpace(ws: char -> bool, c: char, s: string)
    requires ws(c)
    ensures Trim(ws, [c] + s) == Trim(ws, s)
  {
    assert ([c] + s)[1..] == s;
  }

  /** Every character of the trimmed string occurs in the original. */
  lemma TrimChars(ws: char -> bool, s: string, c: char)
    requires c in Trim(ws, s)
    ensures c in s
  {
    TrimSlice(ws, s);
    var r := Trim(ws, s);
    var i := |s| - |TrimStart(ws, s)|;
    var k :| 0 <= k < |r| && r[k] == c;
    assert s[i + k] == c;
  }

  function LowerChar(c: char): char {
    if 'A' <= c <= 'Z' then (c as int - 'A' as int + 'a' as int) as char else c
  }

  /** `lower()` / `toLowerCase()`: position by position, ASCII capitals become small letters. */
  function Lower(s: string): (r: string)
    ensures |r| == |s|
    ensures forall i :: 0 <= i < |s| ==> r[i] == LowerChar(s[i])
  {
    seq(|s|, i requires 0 <= i < |s| => LowerChar(s[i]))
  }

  /** `needle` occurs in `hay` starting at `i`. */
  ghost predicate OccursAt(hay: string, needle: string, i: int) {
    0 <= i && i + |needle| <= |hay| && hay[i..i + |needle|] == needle
  }

  /**
   * The substring test `needle in hay` / `hay.includes(needle)`: true exactly
   * when `needle` occurs somewhere in `hay` (the empty needle occurs everywhere).
   */
  function Contains(hay: string, needle: string): (b: bool)
    ensures b <==> exists i :: OccursAt(hay, needle, i)
  {
    if needle <= hay then
      assert OccursAt(hay, needle, 0);
      true
    else if |hay| == 0 then
      false
    else
      var b := Contains(hay[1..], needle);
      assert b ==> exists i :: OccursAt(hay, needle, i) by {
        if b {
          var i :| OccursAt(hay[1..], needle, i);
          assert hay[1..][i..i + |needle|] == hay[i + 1..i + 1 + |needle|];
          assert OccursAt(hay, needle, i + 1);
        }
      }
      assert (exists i :: OccursAt(hay, needle, i)) ==> b by {
        if exists i :: OccursAt(hay, needle, i) {
          var i :| OccursAt(hay, needle, i);
          assert i != 0;
          assert hay[1..][i - 1..i - 1 + |needle|] == hay[i..i + |needle|];
          assert OccursAt(hay[1..], needle, i - 1);
        }
      }
      b
  }

  /**
   * JavaScript `s.split(sep)` for a one-character separator: the pieces
   * between separators, in order, empty pieces included; `""` splits to `[""]`.
   */
  function Split(s: string, sep: char): (parts: seq<string>)
    ensures |parts| >= 1
    ensures forall k :: 0 <= k < |parts| ==> sep !in parts[k]
    ensures Join(parts, [sep]) == s
  {
    if s == [] then [[]]
    else
      var rest := Split(s[1..], sep);
      if s[0] == sep then
        assert Join([[]] + rest, [sep]) == [] + [sep] + Join(rest, [sep]);
        [[]] + rest
      else
        var parts := [[s[0]] + rest[0]] + rest[1..];
        JoinCons(rest, s[0], [sep]);
        parts
  }

  /** `parts.join(delim)`: the pieces with `delim` between neighbours; `[]` joins to `""`. */
  function Join(parts: seq<string>, delim: string): string
  {
    if |parts| == 0 then []
    else if |parts| == 1 then parts[0]
    else parts[0] + delim + Join(parts[1..], delim)
  }

  /** Putting a character in front of the first piece puts it in front of the joined string. */
  lemma JoinCons(parts: seq<string>, c: char, delim: string)
    requires |parts| >= 1
    ensures Join([[c] + parts[0]] + parts[1..], delim) == [c] + Join(parts, delim)
  {
    var ps := [[c] + parts[0]] + parts[1..];
    assert ps[1..] == parts[1..];
  }

  /** Joining pieces that are free of the separator and splitting again gives the pieces back. */
  lemma {:induction false} SplitJoin(parts: seq<string>, sep: char)
    requires |parts| >= 1
    requires forall k :: 0 <= k < |parts| ==> sep !in parts[k]
    ensures Split(Join(parts, [sep]), sep) == parts
  {
    if |parts| == 1 {
      SplitPiece(parts[0], sep);
    } else {
      SplitJoin(parts[1..], sep);
      SplitPrefix(parts[0], Join(parts[1..], [sep]), sep);
      assert [parts[0]] + parts[1..] == parts;
    }
  }

  /** A string free of the separator splits into itself alone. */
  lemma {:induction false} SplitPiece(p: string, sep: char)
    requires sep !in p
    ensures Split(p, sep) == [p]
  {
    if p != [] {
      SplitPiece(p[1..], sep);
      assert [p[0]] + p[1..] == p;
    }
  }

  /** Splitting `p + sep + rest`, where `p` is free of the separator, yields `p` and then the pieces of `rest`. */
  lemma {:induction false} SplitPrefix(p: string, rest: string, sep: char)
    requires sep !in p
    ensures Split(p + [sep] + rest, sep) == [p] + Split(rest, sep)
  {
    if p == [] {
      assert p + [sep] + rest == [sep] + rest;
      assert ([sep] + rest)[1..] == rest;
    } else {
      var s := p + [sep] + rest;
      assert s[0] == p[0] && s[1..] == p[1..] + [sep] + rest;
      SplitPrefix(p[1..], rest, sep);
      assert [p[0]] + p[1..] == p;
    }
  }

  /** Splitting distributes over a separator: the pieces of `a + sep + b` are those of `a` then those of `b`. */
  lemma {:induction false} SplitAppend(a: string, b: string, sep: char)
    ensures Split(a + [sep] + b, sep) == Split(a, sep) + Split(b, sep)
  {
    if a == [] {
      assert a + [sep] + b == [sep] + b;
      assert ([sep] + b)[1..] == b;
    } else {
      var s := a + [sep] + b;
      assert s[0] == a[0] && s[1..] == a[1..] + [sep] + b;
      SplitAppend(a[1..], b, sep);
    }
  }

  /** The text after the last underscore of `s` (all of `s` when it has none). */
  function AfterLastUnderscore(s: string): string {
    if s == [] then []
    else if s[|s| - 1] == '_' then []
    else AfterLastUnderscore(s[..|s| - 1]) + [s[|s| - 1]]
  }

  /** Whatever precedes the last underscore, the text after it is what follows it. */
  lemma {:induction false} AfterLastUnderscoreOf(p: string, d: string)
    requires '_' !in d
    ensures AfterLastUnderscore(p + "_" + d) == d
  {
    if d != [] {
      var s := p + "_" + d;
      assert s[..|s| - 1] == p + "_" + d[..|d| - 1];
      AfterLastUnderscoreOf(p, d[..|d| - 1]);
      assert d == d[..|d| - 1] + [d[|d| - 1]];
    }
  }

  /** Python's `a <= b` on strings: lexicographic order by code point, a prefix first. */
  predicate StrLe(a: string, b: string) {
    a == [] || (b != [] && (a[0] < b[0] || (a[0] == b[0] && StrLe(a[1..], b[1..]))))
  }

  lemma {:induction false} StrLeTotal(a: string, b: string)
    ensures StrLe(a, b) || StrLe(b, a)
  {
    if a != [] && b != [] && a[0] == b[0] {
      StrLeTotal(a[1..], b[1..]);
    }
  }

  lemma {:induction false} StrLeTransitive(a: string, b: string, c: string)
    requires StrLe(a, b) && StrLe(b, c)
    ensures StrLe(a, c)
  {
    if a != [] && a[0] == b[0] && b[0] == c[0] {
      StrLeTransitive(a[1..], b[1..], c[1..]);
    }
  }

  /** Two strings each `<=` the other are equal. */
  lemma {:induction false} StrLeAntisymmetric(a: string, b: string)
    requires StrLe(a, b) && StrLe(b, a)
    ensures a == b
  {
    if a != [] {
      StrLeAntisymmetric(a[1..], b[1..]);
      assert a == [a[0]] + a[1..] && b == [b[0]] + b[1..];
    }
  }
}
