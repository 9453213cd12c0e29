/**
 * Python's notion of whitespace and `str.strip()` with no argument, on
 * strings modelled as sequences of characters.
 */
module Text {

  /** The characters for which Python's `str.isspace()` holds; these are the
      characters `str.strip()` removes when called without an argument. */
  const WHITESPACE: set<char> :=
    {'\t', '\n', '\U{000B}', '\U{000C}', '\r', '\U{001C}', '\U{001D}', '\U{001E}', '\U{001F}',
     ' ', '\U{0085}', '\U{00A0}', '\U{1680}', '\U{2000}', '\U{2001}', '\U{2002}', '\U{2003}',
     '\U{2004}', '\U{2005}', '\U{2006}', '\U{2007}', '\U{2008}', '\U{2009}', '\U{200A}',
     '\U{2028}', '\U{2029}', '\U{202F}', '\U{205F}', '\U{3000}'}

  predicate IsSpace(c: char) {
    c in WHITESPACE
  }

  predicate AllSpace(s: string) {
    forall i :: 0 <= i < |s| ==> IsSpace(s[i])
  }

  /** No whitespace at either end. */
  predicate Trimmed(s: string) {
    s == [] || (!IsSpace(s[0]) && !IsSpace(s[|s| - 1]))
  }

  /** `s.lstrip()`. */
  function TrimStart(s: string): string {
    if s != [] && IsSpace(s[0]) then TrimStart(s[1..]) else s
  }

  /** `s.rstrip()`. */
  function TrimEnd(s: string): string {
    if s != [] && IsSpace(s[|s| - 1]) then TrimEnd(s[..|s| - 1]) else s
  }

  /** What `TrimStart` removes is whitespace, and what remains is a suffix
      that does not start with whitespace. */
  lemma {:induction false} TrimStartFacts(s: string)
    ensures |TrimStart(s)| <= |s| && TrimStart(s) == s[|s| - |TrimStart(s)|..]
    ensures AllSpace(s[..|s| - |TrimStart(s)|])
    ensures TrimStart(s) == [] || !IsSpace(TrimStart(s)[0])
  {
    if s != [] && IsSpace(s[0]) {
      TrimStartFacts(s[1..]);
      var r := TrimStart(s[1..]);
      assert s[1..][|s| - 1 - |r|..] == s[|s| - |r|..];
      assert s[..|s| - |r|] == [s[0]] + s[1..][..|s| - 1 - |r|];
    }
  }

  /** What `TrimEnd` removes is whitespace, and what remains is a prefix
      that does not end with whitespace. */
  lemma {:induction false} TrimEndFacts(s: string)
    ensures |TrimEnd(s)| <= |s| && TrimEnd(s) == s[..|TrimEnd(s)|]
    ensures AllSpace(s[|TrimEnd(s)|..])
    ensures TrimEnd(s) == [] || !IsSpace(TrimEnd(s)[|TrimEnd(s)| - 1])
  {
    if s != [] && IsSpace(s[|s| - 1]) {
      TrimEndFacts(s[..|s| - 1]);
      var r := TrimEnd(s[..|s| - 1]);
      assert s[..|s| - 1][..|r|] == s[..|r|];
      assert s[|r|..] == s[..|s| - 1][|r|..] + [s[|s| - 1]];
    }
  }

  lemma {:induction false} TrimStartAllSpace(s: string)
    requires AllSpace(s)
    ensures TrimStart(s) == []
  {
    if s != [] {
      TrimStartAllSpace(s[1..]);
    }
  }

  /** Where the text kept by `Strip` begins: the length of the leading whitespace. */
  function StripStart(s: string): (i: nat)
    ensures i <= |s| && AllSpace(s[..i])
  {
    TrimStartFacts(s);
    |s| - |TrimStart(s)|
  }

  /** `s.strip()`: the result is the slice of `s` left after removing the
      maximal whitespace prefix and suffix. It is empty exactly when `s` is
      all whitespace. */
  function Strip(s: string): (r: string)
    ensures Trimmed(r)
    ensures r == [] <==> AllSpace(s)
    ensures StripStart(s) + |r| <= |s| && r == s[StripStart(s)..StripStart(s) + |r|]
    ensures AllSpace(s[StripStart(s) + |r|..])
  {
    var t := TrimStart(s);
    TrimStartFacts(s);
    TrimEndFacts(t);
    StripSlice(s, t, TrimEnd(t), |s| - |t|);
    StripEmpty(s, t, TrimEnd(t));
    TrimEnd(t)
  }

  /** The slice facts behind `Strip`'s contract. */
  lemma StripSlice(s: string, t: string, r: string, i: int)
    requires 0 <= i <= |s| && t == s[i..] && (t == [] || !IsSpace(t[0]))
    requires |r| <= |t| && r == t[..|r|] && AllSpace(t[|r|..]) && (r == [] || !IsSpace(r[|r| - 1]))
    ensures Trimmed(r)
    ensures i + |r| <= |s| && r == s[i..i + |r|]
    ensures AllSpace(s[i + |r|..])
  {
    assert s[i + |r|..] == t[|r|..];
  }

  /** The emptiness fact behind `Strip`'s contract. */
  lemma StripEmpty(s: string, t: string, r: string)
    requires t == TrimStart(s) && |t| <= |s| && t == s[|s| - |t|..] && AllSpace(s[..|s| - |t|])
    requires |r| <= |t| && r == t[..|r|] && AllSpace(t[|r|..])
    ensures r == [] <==> AllSpace(s)
  {
    if AllSpace(s) {
      TrimStartAllSpace(s);
    }
    if r == [] {
      assert t[|r|..] == t;
      assert s == s[..|s| - |t|] + t;
    }
  }

  /** `not s.strip()`: the test the source uses for "blank". */
  predicate Blank(s: string) {
    Strip(s) == []
  }

  lemma BlankIffAllSpace(s: string)
    ensures Blank(s) <==> AllSpace(s)
  {
  }

  /** Stripping a string without whitespace at its ends changes nothing. */
  lemma {:induction false} StripTrimmed(s: string)
    requires Trimmed(s)
    ensures Strip(s) == s
  {
    assert TrimStart(s) == s;
    assert TrimEnd(s) == s;
  }

  /** `strip()` is idempotent. */
  lemma {:induction false} StripIdempotent(s: string)
    ensures Strip(Strip(s)) == Strip(s)
  {
    StripTrimmed(Strip(s));
  }

  /** Every character of `s.strip()` is a character of `s`. */
  lemma {:induction false} StripKeepsCharacters(s: string, c: char)
    requires c in Strip(s)
    ensures c in s
  {
    var r := Strip(s);
    var i := StripStart(s);
    assert multiset(r) <= multiset(s) by {
      assert s == s[..i] + r + s[i + |r|..];
    }
    assert c in multiset(r);
  }
}
