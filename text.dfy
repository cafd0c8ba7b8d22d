/**
 * The two string normalisations the account code applies to collection
 * names and scraped anchor texts: Python's `str.strip()` with no argument
 * and `str.lower()`.
 */
module Text {

  /** The characters Python's `str.isspace` accepts, which `str.strip()` removes. */
  predicate IsSpace(c: char)
  {
    ('\t' <= c <= '\r') || ('\U{1c}' <= c <= '\U{1f}') || c == ' ' ||
    c == '\U{85}' || c == '\U{a0}' || c == '\U{1680}' ||
    ('\U{2000}' <= c <= '\U{200a}') || c == '\U{2028}' || c == '\U{2029}' ||
    c == '\U{202f}' || c == '\U{205f}' || c == '\U{3000}'
  }

  /** Every character of `s` is whitespace (this includes the empty string). */
  predicate AllSpace(s: string)
  {
    forall k :: 0 <= k < |s| ==> IsSpace(s[k])
  }

  /** `s` with its leading whitespace removed: the suffix that starts at the first non-space. */
  function TrimStart(s: string): (r: string)
    ensures |r| <= |s| && r == s[|s| - |r|..]
    ensures forall k :: 0 <= k < |s| - |r| ==> IsSpace(s[k])
    ensures r != [] ==> !IsSpace(r[0])
  {
    if |s| > 0 && IsSpace(s[0]) then TrimStart(s[1..]) else s
  }

  /** `s` with its trailing whitespace removed: the prefix that ends at the last non-space. */
  function TrimEnd(s: string): (r: string)
    ensures |r| <= |s| && r == s[..|r|]
    ensures forall k :: |r| <= k < |s| ==> IsSpace(s[k])
    ensures r != [] ==> !IsSpace(r[|r| - 1])
  {
    if |s| > 0 && IsSpace(s[|s| - 1]) then TrimEnd(s[..|s| - 1]) else s
  }

  /**
   * Python's `s.strip()`: what is left of `s` after removing the whitespace
   * on both ends. It is empty exactly when `s` is all whitespace.
   */
  function Strip(s: string): (r: string)
    ensures |r| <= |s|
    ensures r == [] <==> AllSpace(s)
    ensures r != [] ==> !IsSpace(r[0]) && !IsSpace(r[|r| - 1])
  {
    AllSpaceSplit(s, TrimStart(s));
    TrimEnd(TrimStart(s))
  }

  /**
   * `s.strip()` is the slice of `s` between a leading and a trailing run of
   * whitespace: nothing but whitespace is removed, and only at the ends.
   */
  lemma StripIsInfix(s: string)
    ensures exists i, j :: 0 <= i <= j <= |s| && Strip(s) == s[i..j] && AllSpace(s[..i]) && AllSpace(s[j..])
  {
    var t := TrimStart(s);
    var u := TrimEnd(t);
    var i, j := |s| - |t|, |s| - |t| + |u|;
    assert s[i..][..|u|] == s[i..j];
    assert AllSpace(s[..i]);
    assert AllSpace(s[j..]);
  }

  /** `s` is all whitespace exactly when what is left after trimming its front is empty. */
  lemma AllSpaceSplit(s: string, t: string)
    requires |t| <= |s| && t == s[|s| - |t|..]
    requires forall k :: 0 <= k < |s| - |t| ==> IsSpace(s[k])
    requires t != [] ==> !IsSpace(t[0])
    ensures AllSpace(s) <==> t == []
  {
    if t != [] {
      assert s[|s| - |t|] == t[0];
    }
  }

  /** Python's `c.lower()` on the characters whose lower case is a single ASCII letter. */
  function LowerChar(c: char): (l: char)
  {
    if 'A' <= c <= 'Z' then (c as int + 32) as char
    else if c == '\U{212a}' then 'k'  // KELVIN SIGN lower-cases to the Latin letter k
    else c
  }

  /** No ASCII capital survives lowering, and a character that changes becomes an ASCII lower-case letter. */
  lemma LowerCharIsLower(c: char)
    ensures !('A' <= LowerChar(c) <= 'Z')
    ensures LowerChar(c) != c ==> 'a' <= LowerChar(c) <= 'z'
  {
  }

  /** Python's `s.lower()`, character by character. */
  function Lower(s: string): (r: string)
    ensures |r| == |s|
    ensures forall k :: 0 <= k < |s| ==> r[k] == LowerChar(s[k])
  {
    if s == [] then [] else [LowerChar(s[0])] + Lower(s[1..])
  }

  /** `name.strip().lower()`: the normalisation the size and append operations apply. */
  function Normalise(name: string): (n: string)
  {
    Lower(Strip(name))
  }

  /** A name normalises to nothing exactly when it is all whitespace, and never grows. */
  lemma NormaliseBlank(name: string)
    ensures |Normalise(name)| <= |name|
    ensures Normalise(name) == [] <==> AllSpace(name)
  {
  }

  lemma StripOfStripped(s: string)
    requires s == [] || (!IsSpace(s[0]) && !IsSpace(s[|s| - 1]))
    ensures Strip(s) == s
  {
    assert TrimStart(s) == s;
    assert TrimEnd(s) == s;
  }

  /** Lower-casing never turns a space into a non-space or back. */
  lemma LowerKeepsSpaces(c: char)
    ensures IsSpace(LowerChar(c)) == IsSpace(c)
  {
  }

  /** Normalising a name that is already normalised changes nothing. */
  lemma NormaliseIdempotent(name: string)
    ensures Normalise(Normalise(name)) == Normalise(name)
  {
    var n := Normalise(name);
    NormalisedHasNoEdgeSpace(name);
    StripOfStripped(n);
    LowerIdempotent(Strip(name));
  }

  /** A normalised name neither starts nor ends with whitespace. */
  lemma NormalisedHasNoEdgeSpace(name: string)
    ensures var n := Normalise(name); n == [] || (!IsSpace(n[0]) && !IsSpace(n[|n| - 1]))
  {
    var s := Strip(name);
    if s != [] {
      LowerKeepsSpaces(s[0]);
      LowerKeepsSpaces(s[|s| - 1]);
    }
  }

  /** Written in ASCII lower-case letters and underscores only, like the collection names. */
  predicate IsLowerIdentifier(s: string)
  {
    forall k :: 0 <= k < |s| ==> ('a' <= s[k] <= 'z') || s[k] == '_'
  }

  /** A lower-case identifier has nothing to strip and nothing to lower: it is its own normal form. */
  lemma LowerIdentifierIsNormal(s: string)
    requires IsLowerIdentifier(s)
    ensures Normalise(s) == s
  {
    assert Strip(s) == s by {
      if s != [] {
        IdentifierCharIsNormal(s[0]);
        IdentifierCharIsNormal(s[|s| - 1]);
      }
      StripOfStripped(s);
    }
    assert Lower(s) == s by {
      forall k | 0 <= k < |s| ensures LowerChar(s[k]) == s[k] {
        IdentifierCharIsNormal(s[k]);
      }
      LowerFixed(s);
    }
  }

  lemma IdentifierCharIsNormal(c: char)
    requires ('a' <= c <= 'z') || c == '_'
    ensures LowerChar(c) == c && !IsSpace(c)
  {
  }

  /** A string with no upper-case letter is its own lower case. */
  lemma LowerFixed(s: string)
    requires forall k :: 0 <= k < |s| ==> LowerChar(s[k]) == s[k]
    ensures Lower(s) == s
  {
  }

  lemma LowerIdempotent(s: string)
    ensures Lower(Lower(s)) == Lower(s)
  {
    var l := Lower(s);
    assert forall k :: 0 <= k < |l| ==> Lower(l)[k] == l[k];
  }
}
