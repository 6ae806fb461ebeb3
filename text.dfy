/** The JavaScript string operations the pages use: `toLowerCase`, `includes`,
    `startsWith`, `trim`, `replace` of the first occurrence of a literal, and the
    default `Array.prototype.sort` order on strings. */
module Text {

  /** `toLowerCase` on one character (ASCII letters only; every other character is kept). */
  function LowerChar(c: char): char {
    if 'A' <= c <= 'Z' then (c as int - 'A' as int + 'a' as int) as char else c
  }

  /** `s.toLowerCase()`. */
  function Lower(s: string): (r: string)
    ensures |r| == |s|
    ensures forall i :: 0 <= i < |s| ==> r[i] == LowerChar(s[i])
  {
    if s == [] then [] else [LowerChar(s[0])] + Lower(s[1..])
  }

  /** `s.startsWith(p)`. */
  predicate StartsWith(s: string, p: string) {
    |p| <= |s| && s[..|p|] == p
  }

  /** `s.includes(q)`: `q` occurs somewhere in `s`, the empty string everywhere. */
  predicate Includes(s: string, q: string)
    decreases |s|
  {
    StartsWith(s, q) || (s != [] && Includes(s[1..], q))
  }

  /** `includes` means: some position of `s` starts an occurrence of `q`. */
  lemma {:induction false} IncludesAt(s: string, q: string)
    ensures Includes(s, q) <==> exists i :: 0 <= i <= |s| && StartsWith(s[i..], q)
    decreases |s|
  {
    assert s[0..] == s;
    if s != [] {
      IncludesAt(s[1..], q);
      if Includes(s[1..], q) {
        var i :| 0 <= i <= |s[1..]| && StartsWith(s[1..][i..], q);
        assert s[i + 1..] == s[1..][i..];
      }
      if exists i :: 0 <= i <= |s| && StartsWith(s[i..], q) {
        var i :| 0 <= i <= |s| && StartsWith(s[i..], q);
        if i > 0 {
          assert s[1..][i - 1..] == s[i..];
        }
      }
    }
  }

  /** Lower-casing twice is lower-casing once. */
  lemma LowerIdempotent(s: string)
    ensures Lower(Lower(s)) == Lower(s)
  {
    assert forall i :: 0 <= i < |s| ==> LowerChar(LowerChar(s[i])) == LowerChar(s[i]);
  }

  /** The search rule the list pages share: with `q` the lower-cased search text,
      `!q || a.toLowerCase().includes(q) || b.toLowerCase().includes(q)`. */
  predicate SearchHits(search: string, a: string, b: string) {
    var q := Lower(search);
    q == [] || Includes(Lower(a), q) || Includes(Lower(b), q)
  }

  /** `q` occurs at some position of `s`. */
  ghost predicate OccursIn(s: string, q: string) {
    exists i :: 0 <= i <= |s| && StartsWith(s[i..], q)
  }

  /** An empty search hits everything; any other search hits exactly when its
      lower-cased text occurs at some position of one of the lower-cased fields;
      and the search ignores the case of its own text. */
  lemma SearchHitsSpec(search: string, a: string, b: string)
    ensures search == [] ==> SearchHits(search, a, b)
    ensures search != [] ==>
              (SearchHits(search, a, b) <==> OccursIn(Lower(a), Lower(search)) || OccursIn(Lower(b), Lower(search)))
    ensures SearchHits(Lower(search), a, b) == SearchHits(search, a, b)
  {
    var q := Lower(search);
    IncludesAt(Lower(a), q);
    IncludesAt(Lower(b), q);
    assert Includes(Lower(a), q) == OccursIn(Lower(a), q);
    assert Includes(Lower(b), q) == OccursIn(Lower(b), q);
    LowerIdempotent(search);
  }

  /** Position of the first occurrence of `p` in `s` (`indexOf`), or -1. */
  function IndexOf(s: string, p: string): (r: int)
    ensures -1 <= r <= |s|
    ensures r == -1 <==> !Includes(s, p)
    ensures r >= 0 ==> StartsWith(s[r..], p) && forall j :: 0 <= j < r ==> !StartsWith(s[j..], p)
    decreases |s|
  {
    if StartsWith(s, p) then 0
    else if s == [] then -1
    else
      var k := IndexOf(s[1..], p);
      if k < 0 then -1
      else
        assert forall j :: 1 <= j <= k ==> s[j..] == s[1..][j - 1..];
        k + 1
  }

  /** `s.replace(p, '')`: the first occurrence of `p` removed, or `s` when there is none. */
  function RemoveFirst(s: string, p: string): (r: string)
    ensures !Includes(s, p) ==> r == s
    ensures Includes(s, p) ==> var i := IndexOf(s, p); i + |p| <= |s| && r == s[..i] + s[i + |p|..]
  {
    var i := IndexOf(s, p);
    if i < 0 then s else s[..i] + s[i + |p|..]
  }

  /** The characters `String.prototype.trim` strips: the white space and line
      terminators of section 12.2 and 12.3 of ECMA-262. */
  predicate IsSpace(c: char) {
    c == '\t' || c == '\n' || c == '\U{000B}' || c == '\U{000C}' || c == '\r' || c == ' '
    || c == '\U{00A0}' || c == '\U{1680}' || ('\U{2000}' <= c <= '\U{200A}')
    || c == '\U{2028}' || c == '\U{2029}' || c == '\U{202F}' || c == '\U{205F}'
    || c == '\U{3000}' || c == '\U{FEFF}'
  }

  /** A string made of white space only (possibly empty). */
  predicate Blank(s: string) {
    forall i :: 0 <= i < |s| ==> IsSpace(s[i])
  }

  function TrimStart(s: string): (r: string)
    ensures |r| <= |s| && r == s[|s| - |r|..]
    ensures r == [] || !IsSpace(r[0])
    ensures Blank(s[..|s| - |r|])
  {
    if s == [] || !IsSpace(s[0]) then s
    else
      var r := TrimStart(s[1..]);
      assert s[..|s| - |r|] == [s[0]] + s[1..][..|s| - 1 - |r|];
      r
  }

  function TrimEnd(s: string): (r: string)
    ensures |r| <= |s| && r == s[..|r|]
    ensures r == [] || !IsSpace(r[|r| - 1])
    ensures Blank(s[|r|..])
  {
    if s == [] || !IsSpace(s[|s| - 1]) then s
    else
      var r := TrimEnd(s[..|s| - 1]);
      assert s[|r|..] == s[..|s| - 1][|r|..] + [s[|s| - 1]];
      r
  }

  /** `s.trim()`. */
  function Trim(s: string): string {
    TrimEnd(TrimStart(s))
  }

  /** The guard `!s.trim()` of the save handlers: the trimmed string is empty
      exactly when the string is all white space. */
  lemma TrimEmpty(s: string)
    ensures Trim(s) == [] <==> Blank(s)
  {
    var a := TrimStart(s);
    assert a != [] ==> a[0] == s[|s| - |a|];
    assert a[0..] == a;
    assert s[..|s|] == s;
  }

  /** The order of `Array.prototype.sort()` without a comparator on strings:
      lexicographic by character code, a proper prefix first. */
  predicate LexLe(a: string, b: string)
    decreases |a|
  {
    if a == [] then true
    else if b == [] then false
    else if a[0] != b[0] then a[0] < b[0]
    else LexLe(a[1..], b[1..])
  }

  lemma {:induction false} LexLeTotal(a: string, b: string)
    ensures LexLe(a, b) || LexLe(b, a)
    decreases |a|
  {
    if a != [] && b != [] && a[0] == b[0] {
      LexLeTotal(a[1..], b[1..]);
    }
  }

  lemma {:induction false} LexLeTrans(a: string, b: string, c: string)
    requires LexLe(a, b) && LexLe(b, c)
    ensures LexLe(a, c)
    decreases |a|
  {
    if a != [] && b != [] && c != [] && a[0] == b[0] && b[0] == c[0] {
      LexLeTrans(a[1..], b[1..], c[1..]);
    }
  }
}
