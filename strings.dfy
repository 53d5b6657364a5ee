/** The few Python string operations the core relies on: `str.isspace`,
    `str.lower`, `str.strip` as a blank test, `str.split()` with no
    separator, `' '.join` and the substring test `w in s`. */
module Strings {

  /** Python's whitespace: the characters for which `str.isspace()` holds. */
  predicate IsSpace(c: char) {
    || c == ' '
    || ('\t' <= c <= '\r')
    || ('\U{1c}' <= c <= '\U{1f}')
    || c == '\U{85}' || c == '\U{a0}' || c == '\U{1680}'
    || ('\U{2000}' <= c <= '\U{200a}')
    || c == '\U{2028}' || c == '\U{2029}' || c == '\U{202f}'
    || c == '\U{205f}' || c == '\U{3000}'
  }

  /** `not s.strip()`: the string is empty or whitespace only. */
  predicate IsBlank(s: string) {
    forall i :: 0 <= i < |s| ==> IsSpace(s[i])
  }

  /** A token of `str.split()`: non-empty and free of whitespace. */
  predicate IsWord(w: string) {
    w != [] && forall i :: 0 <= i < |w| ==> !IsSpace(w[i])
  }

  function LowerChar(c: char): char {
    if 'A' <= c <= 'Z' then (c as int + 32) as char else c
  }

  /** `s.lower()`, folding the ASCII letters. */
  function Lower(s: string): (r: string)
    ensures |r| == |s|
    ensures forall i :: 0 <= i < |s| ==> r[i] == LowerChar(s[i])
  {
    seq(|s|, i requires 0 <= i < |s| => LowerChar(s[i]))
  }

  lemma LowerConcat(a: string, b: string)
    ensures Lower(a + b) == Lower(a) + Lower(b)
  {
  }

  /** `w in s` for strings: `w` occurs in `s` as a contiguous substring. */
  predicate Contains(s: string, w: string)
    decreases |s|
  {
    (|w| <= |s| && s[..|w|] == w) || (s != [] && Contains(s[1..], w))
  }

  /** An occurrence survives text added on either side. */
  lemma {:induction false} ContainsInConcat(a: string, b: string, w: string)
    requires Contains(a, w)
    ensures Contains(a + b, w) && Contains(b + a, w)
  {
    ContainsAppended(a, b, w);
    ContainsPrepended(b, a, w);
  }

  lemma {:induction false} ContainsAppended(a: string, b: string, w: string)
    requires Contains(a, w)
    ensures Contains(a + b, w)
    decreases |a|
  {
    if |w| <= |a| && a[..|w|] == w {
      assert (a + b)[..|w|] == w;
    } else {
      assert (a + b)[1..] == a[1..] + b;
      ContainsAppended(a[1..], b, w);
    }
  }

  lemma {:induction false} ContainsPrepended(b: string, a: string, w: string)
    requires Contains(a, w)
    ensures Contains(b + a, w)
    decreases |b|
  {
    if b == [] {
      assert b + a == a;
    } else {
      assert (b + a)[1..] == b[1..] + a;
      ContainsPrepended(b[1..], a, w);
    }
  }

  /** The input with its leading whitespace removed. */
  function DropSpaces(s: string): (r: string)
    ensures |r| <= |s| && r == s[|s| - |r|..]
    ensures r != [] ==> !IsSpace(r[0])
    ensures forall i :: 0 <= i < |s| - |r| ==> IsSpace(s[i])
  {
    if s != [] && IsSpace(s[0]) then DropSpaces(s[1..]) else s
  }

  /** Length of the longest whitespace-free prefix. */
  function WordLength(s: string): (n: nat)
    ensures n <= |s|
    ensures forall i :: 0 <= i < n ==> !IsSpace(s[i])
    ensures n < |s| ==> IsSpace(s[n])
  {
    if s == [] || IsSpace(s[0]) then 0 else 1 + WordLength(s[1..])
  }

  /** `s.split()`: the maximal runs of non-whitespace characters, in order. */
  function Split(s: string): (ws: seq<string>)
    ensures forall i :: 0 <= i < |ws| ==> IsWord(ws[i])
    decreases |s|
  {
    var t := DropSpaces(s);
    if t == [] then []
    else
      var n := WordLength(t);
      [t[..n]] + Split(t[n..])
  }

  /** `' '.join(ws)`. */
  function Join(ws: seq<string>): string {
    if ws == [] then ""
    else if |ws| == 1 then ws[0]
    else ws[0] + " " + Join(ws[1..])
  }

  /** Only blank text splits into no tokens. */
  lemma SplitEmptyIffBlank(s: string)
    ensures Split(s) == [] <==> IsBlank(s)
  {
    var t := DropSpaces(s);
    if t != [] {
      assert !IsSpace(s[|s| - |t|]);
    }
  }

  lemma {:induction false} WordLengthOfWord(w: string, rest: string)
    requires IsWord(w)
    requires rest == [] || IsSpace(rest[0])
    ensures WordLength(w + rest) == |w|
  {
    if |w| > 1 {
      assert (w + rest)[1..] == w[1..] + rest;
      WordLengthOfWord(w[1..], rest);
    } else {
      assert (w + rest)[1..] == rest;
    }
  }

  /** Splitting what `' '.join` produced from well-formed tokens gives
      the tokens back. */
  lemma {:induction false} SplitJoin(ws: seq<string>)
    requires forall i :: 0 <= i < |ws| ==> IsWord(ws[i])
    ensures Split(Join(ws)) == ws
  {
    if ws == [] {
    } else if |ws| == 1 {
      var w := ws[0];
      WordLengthOfWord(w, []);
      assert w + [] == w;
      assert w[|w|..] == [];
    } else {
      var w, rest := ws[0], Join(ws[1..]);
      var s := w + " " + rest;
      assert s == w + (" " + rest);
      WordLengthOfWord(w, " " + rest);
      assert s[..|w|] == w;
      assert s[|w|..] == " " + rest;
      assert (" " + rest)[1..] == rest;
      assert DropSpaces(" " + rest) == DropSpaces(rest);
      SplitJoin(ws[1..]);
    }
  }
}
