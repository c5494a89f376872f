/** The few JavaScript value rules the front end relies on: a property that may be
    `undefined`, the truthiness test behind `a || b`, template interpolation `${v}`,
    and `String.prototype.trim`. */
module Js {

  /** A property that may be absent; `None` is JavaScript's `undefined`. */
  datatype Option<+T> = None | Some(value: T)

  /** A string-valued property is truthy when it is present and not the empty string. */
  predicate Truthy(v: Option<string>)
  {
    v.Some? && v.value != ""
  }

  /** `v || fallback` for a property `v` that is a string or `undefined`. */
  function OrElse(v: Option<string>, fallback: string): string
  {
    if Truthy(v) then v.value else fallback
  }

  /** `${v}` inside a template literal: `undefined` is written out as the word. */
  function Interpolate(v: Option<string>): string
  {
    if v.Some? then v.value else "undefined"
  }

  /** The characters `trim()` removes: ECMAScript WhiteSpace (TAB, VT, FF, ZWNBSP and
      the space separators of Unicode category Zs) and LineTerminator (LF, CR, LS, PS). */
  const WhitespaceChars: set<char> :=
    {'\t', '\n', '\U{B}', '\U{C}', '\r', ' ', '\U{A0}', '\U{1680}',
     '\U{2000}', '\U{2001}', '\U{2002}', '\U{2003}', '\U{2004}', '\U{2005}',
     '\U{2006}', '\U{2007}', '\U{2008}', '\U{2009}', '\U{200A}',
     '\U{2028}', '\U{2029}', '\U{202F}', '\U{205F}', '\U{3000}', '\U{FEFF}'}

  predicate IsWhitespace(c: char)
  {
    c in WhitespaceChars
  }

  /** Every character of `s` is whitespace (so the empty string is blank). */
  predicate Blank(s: string)
  {
    forall i :: 0 <= i < |s| ==> IsWhitespace(s[i])
  }

  /** Drops leading whitespace: what is left is a suffix of `s`, what was dropped is blank. */
  function TrimStart(s: string): (r: string)
    ensures |r| <= |s| && r == s[|s| - |r|..]
    ensures Blank(s[..|s| - |r|])
    ensures r != [] ==> !IsWhitespace(r[0])
    decreases |s|
  {
    if s != [] && IsWhitespace(s[0]) then TrimStart(s[1..]) else s
  }

  /** Drops trailing whitespace: what is left is a prefix of `s`, what was dropped is blank. */
  function TrimEnd(s: string): (r: string)
    ensures |r| <= |s| && r == s[..|r|]
    ensures Blank(s[|r|..])
    ensures r != [] ==> !IsWhitespace(r[|r| - 1])
    decreases |s|
  {
    if s != [] && IsWhitespace(s[|s| - 1]) then TrimEnd(s[..|s| - 1]) else s
  }

  /** `s.trim()`. The result is empty exactly when `s` is blank; otherwise it neither
      starts nor ends with whitespace. */
  function Trim(s: string): (r: string)
    ensures |r| <= |s|
    ensures r == "" <==> Blank(s)
    ensures r != "" ==> !IsWhitespace(r[0]) && !IsWhitespace(r[|r| - 1])
  {
    TrimEndOfTrimStart(s);
    TrimEnd(TrimStart(s))
  }

  /** What `Trim` needs: trimming both ends leaves nothing exactly when every character
      is whitespace. */
  lemma TrimEndOfTrimStart(s: string)
    ensures TrimEnd(TrimStart(s)) == "" <==> Blank(s)
    ensures TrimEnd(TrimStart(s)) != "" ==> TrimEnd(TrimStart(s))[0] == TrimStart(s)[0]
  {
    var t := TrimStart(s);
    var r := TrimEnd(t);
    var n := |s| - |t|;
    if r == "" {
      assert t == [] by {
        assert t[|r|..] == t;
      }
      assert s[..n] == s;
    } else {
      assert r[0] == t[0];
      assert s[n] == t[0];
    }
  }

  /** The result of `trim()` is a contiguous piece of its input, and what is cut off on
      either side of it is whitespace. */
  lemma TrimIsInfix(s: string)
    ensures var i := |s| - |TrimStart(s)|; i + |Trim(s)| <= |s| && Trim(s) == s[i..i + |Trim(s)|]
    ensures Blank(s[..|s| - |TrimStart(s)|])
    ensures Blank(s[|s| - |TrimStart(s)| + |Trim(s)|..])
  {
    var t := TrimStart(s);
    var r := TrimEnd(t);
    InfixPieces(s, |s| - |t|, t, r);
  }

  /** A prefix `r` of the suffix `t == s[i..]` is the slice of `s` starting at `i`, and what
      follows `r` in `t` is what follows it in `s`. */
  lemma InfixPieces(s: string, i: nat, t: string, r: string)
    requires i <= |s| && t == s[i..]
    requires |r| <= |t| && r == t[..|r|] && Blank(t[|r|..])
    ensures i + |r| <= |s| && r == s[i..i + |r|]
    ensures Blank(s[i + |r|..])
  {
    PrefixOfSuffix(s, i, |r|);
    SuffixOfSuffix(s, i, |r|);
  }

  lemma PrefixOfSuffix(s: string, i: nat, m: nat)
    requires i + m <= |s|
    ensures s[i..][..m] == s[i..i + m]
  {
  }

  lemma SuffixOfSuffix(s: string, i: nat, m: nat)
    requires i + m <= |s|
    ensures s[i..][m..] == s[i + m..]
  {
  }

  /** Trimming twice is trimming once. */
  lemma TrimIdempotent(s: string)
    ensures Trim(Trim(s)) == Trim(s)
  {
    var r := Trim(s);
    if r != "" {
      assert TrimStart(r) == r;
      assert TrimEnd(r) == r;
    }
  }
}
