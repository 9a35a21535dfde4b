/** The pieces of Go's `strings` and `unicode` packages that the core calls. */
module Strings {

  /** The characters `unicode.IsSpace` accepts: the Latin-1 spaces (tab, line feed,
      vertical tab, form feed, carriage return, space, U+0085, U+00A0) and the other
      characters with the Unicode White_Space property. */
  const Spaces: set<char> := {
    '\t', '\n', '\U{000B}', '\U{000C}', '\r', ' ', '\U{0085}', '\U{00A0}', '\U{1680}',
    '\U{2000}', '\U{2001}', '\U{2002}', '\U{2003}', '\U{2004}', '\U{2005}', '\U{2006}',
    '\U{2007}', '\U{2008}', '\U{2009}', '\U{200A}',
    '\U{2028}', '\U{2029}', '\U{202F}', '\U{205F}', '\U{3000}'
  }

  /** `unicode.IsSpace`. */
  predicate IsSpace(c: char) {
    c in Spaces
  }

  /** Drops the leading white space. */
  function TrimLeft(s: string): (r: string)
    ensures |r| <= |s|
  {
    if s != [] && IsSpace(s[0]) then TrimLeft(s[1..]) else s
  }

  /** Drops the trailing white space. */
  function TrimRight(s: string): (r: string)
    ensures |r| <= |s|
  {
    if s != [] && IsSpace(s[|s| - 1]) then TrimRight(s[..|s| - 1]) else s
  }

  /** `strings.TrimSpace`. */
  function TrimSpace(s: string): (r: string)
    ensures |r| <= |s|
  {
    TrimRight(TrimLeft(s))
  }

  /** What TrimLeft drops is all white space, and what it keeps is a suffix of `s`
      that does not start with a space. */
  lemma {:induction false} TrimLeftShape(s: string)
    ensures |TrimLeft(s)| <= |s| && TrimLeft(s) == s[|s| - |TrimLeft(s)|..]
    ensures forall i :: 0 <= i < |s| - |TrimLeft(s)| ==> IsSpace(s[i])
    ensures TrimLeft(s) == [] || !IsSpace(TrimLeft(s)[0])
    decreases |s|
  {
    if s != [] && IsSpace(s[0]) {
      var t := s[1..];
      TrimLeftShape(t);
      var r := TrimLeft(s);
      assert r == TrimLeft(t);
      assert r == t[|t| - |r|..] == s[|s| - |r|..];
      forall i | 0 <= i < |s| - |r| ensures IsSpace(s[i]) {
        if i > 0 { assert s[i] == t[i - 1]; }
      }
    }
  }

  /** What TrimRight drops is all white space, and what it keeps is a prefix of `s`
      that does not end with a space. */
  lemma {:induction false} TrimRightShape(s: string)
    ensures |TrimRight(s)| <= |s| && TrimRight(s) == s[..|TrimRight(s)|]
    ensures forall i :: |TrimRight(s)| <= i < |s| ==> IsSpace(s[i])
    ensures TrimRight(s) == [] || !IsSpace(TrimRight(s)[|TrimRight(s)| - 1])
    decreases |s|
  {
    if s != [] && IsSpace(s[|s| - 1]) {
      var t := s[..|s| - 1];
      TrimRightShape(t);
      var r := TrimRight(s);
      assert r == TrimRight(t);
      assert r == t[..|r|] == s[..|r|];
      forall i | |r| <= i < |s| ensures IsSpace(s[i]) {
        if i < |s| - 1 { assert s[i] == t[i]; }
      }
    }
  }

  /** TrimSpace keeps one contiguous slice of its input, starting after the leading
      white space. */
  lemma TrimSpaceIsSlice(s: string)
    ensures |s| - |TrimLeft(s)| + |TrimSpace(s)| <= |s|
    ensures TrimSpace(s) == s[|s| - |TrimLeft(s)|..|s| - |TrimLeft(s)| + |TrimSpace(s)|]
  {
    var l := TrimLeft(s);
    TrimLeftShape(s);
    TrimRightShape(l);
    var lo := |s| - |l|;
    assert l == s[lo..];
    assert TrimSpace(s) == l[..|TrimSpace(s)|];
  }

  /** What TrimSpace drops on either side of the kept slice is white space. */
  lemma TrimSpaceDropsOnlySpace(s: string)
    ensures forall i :: 0 <= i < |s| - |TrimLeft(s)| ==> IsSpace(s[i])
    ensures forall i :: |s| - |TrimLeft(s)| + |TrimSpace(s)| <= i < |s| ==> IsSpace(s[i])
  {
    var l := TrimLeft(s);
    TrimLeftShape(s);
    TrimRightShape(l);
    var lo := |s| - |l|;
    forall i | lo + |TrimSpace(s)| <= i < |s| ensures IsSpace(s[i]) {
      assert s[i] == l[i - lo];
    }
  }

  /** The kept slice neither starts nor ends with white space. */
  lemma TrimSpaceTrimmed(s: string)
    ensures TrimSpace(s) == [] || (!IsSpace(TrimSpace(s)[0]) && !IsSpace(TrimSpace(s)[|TrimSpace(s)| - 1]))
  {
    var l := TrimLeft(s);
    TrimLeftShape(s);
    TrimRightShape(l);
    if TrimSpace(s) != [] {
      assert TrimSpace(s)[0] == l[0];
    }
  }

  /** A string that neither starts nor ends with white space is left as it is, so
      TrimSpace is idempotent. */
  lemma TrimSpaceFixes(s: string)
    requires s == [] || (!IsSpace(s[0]) && !IsSpace(s[|s| - 1]))
    ensures TrimSpace(s) == s
  {
  }

  lemma TrimSpaceIdempotent(s: string)
    ensures TrimSpace(TrimSpace(s)) == TrimSpace(s)
  {
    TrimSpaceTrimmed(s);
    TrimSpaceFixes(TrimSpace(s));
  }

  /** `unicode.ToUpper` restricted to ASCII letters. */
  function UpperRune(c: char): char {
    if 'a' <= c <= 'z' then (c as int - 32) as char else c
  }

  /** `strings.ToUpper`, character by character. */
  function ToUpper(s: string): (r: string)
    ensures |r| == |s|
    ensures forall i :: 0 <= i < |s| ==> r[i] == UpperRune(s[i])
  {
    if s == [] then [] else [UpperRune(s[0])] + ToUpper(s[1..])
  }

  /** A string with no lower-case ASCII letter is its own upper case. */
  lemma ToUpperFixesNonLower(t: string)
    requires forall i :: 0 <= i < |t| ==> !('a' <= t[i] <= 'z')
    ensures ToUpper(t) == t
  {
    assert forall i :: 0 <= i < |t| ==> ToUpper(t)[i] == t[i];
  }

  /** Two characters are the same letter up to ASCII case, or equal. */
  predicate SameLetter(a: char, b: char) {
    a == b
    || ('a' <= a <= 'z' && b as int == a as int - 32)
    || ('a' <= b <= 'z' && a as int == b as int - 32)
  }

  /** Case-insensitive ASCII equality, defined independently of ToUpper. */
  predicate EqualFold(s: string, t: string) {
    |s| == |t| && forall i :: 0 <= i < |s| ==> SameLetter(s[i], t[i])
  }

  /** Upper-casing both sides and comparing is exactly case-insensitive comparison. */
  lemma ToUpperEqualIffEqualFold(s: string, t: string)
    ensures ToUpper(s) == ToUpper(t) <==> EqualFold(s, t)
  {
    if ToUpper(s) == ToUpper(t) {
      forall i | 0 <= i < |s| ensures SameLetter(s[i], t[i]) {
        assert UpperRune(s[i]) == ToUpper(s)[i] == ToUpper(t)[i] == UpperRune(t[i]);
      }
    }
    if EqualFold(s, t) {
      forall i | 0 <= i < |s| ensures ToUpper(s)[i] == ToUpper(t)[i] {
        assert SameLetter(s[i], t[i]);
      }
    }
  }

  /** Comparing `ToUpper(s)` with an upper-case literal `t` accepts exactly the spellings
      of `t` in any mix of ASCII case. */
  lemma ToUpperMatchesLiteral(s: string, t: string)
    requires ToUpper(t) == t
    ensures ToUpper(s) == t <==> EqualFold(s, t)
  {
    ToUpperEqualIffEqualFold(s, t);
  }

  /** `strings.HasPrefix`. */
  predicate HasPrefix(s: string, prefix: string) {
    |prefix| <= |s| && s[..|prefix|] == prefix
  }
}
