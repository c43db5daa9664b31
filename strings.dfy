/**
 * The two string primitives the core relies on: ECMAScript's
 * `String.prototype.trim` and `String.prototype.startsWith`.
 */
module Strings {

  /**
   * The characters `trim` removes: the WhiteSpace and LineTerminator code
   * points of section 12.2 and 12.3 of ECMA-262 (TAB, VT, FF, SP, NBSP,
   * ZWNBSP, the Zs category, LF, CR, LS, PS).
   */
  predicate IsWhitespace(c: char) {
    || c == '\t' || c == '\n' || c == '\U{B}' || c == '\U{C}' || c == '\r' || c == ' '
    || c == '\U{A0}' || c == '\U{1680}' || ('\U{2000}' <= c <= '\U{200A}')
    || c == '\U{2028}' || c == '\U{2029}' || c == '\U{202F}' || c == '\U{205F}'
    || c == '\U{3000}' || c == '\U{FEFF}'
  }

  /** Every character of `s` is whitespace (vacuously true of ""). */
  predicate AllWhitespace(s: string) {
    forall i :: 0 <= i < |s| ==> IsWhitespace(s[i])
  }

  /** `s` neither starts nor ends with whitespace. */
  predicate IsTrimmed(s: string) {
    s == [] || (!IsWhitespace(s[0]) && !IsWhitespace(s[|s| - 1]))
  }

  /** Drops the leading whitespace of `s`. */
  function TrimStart(s: string): (r: string)
    ensures |r| <= |s| && r == s[|s| - |r|..]
    ensures AllWhitespace(s[..|s| - |r|])
    ensures r == [] || !IsWhitespace(r[0])
  {
    if s != [] && IsWhitespace(s[0]) then TrimStart(s[1..]) else s
  }

  /** Drops the trailing whitespace of `s`. */
  function TrimEnd(s: string): (r: string)
    ensures |r| <= |s| && r == s[..|r|]
    ensures AllWhitespace(s[|r|..])
    ensures r == [] || !IsWhitespace(r[|r| - 1])
  {
    if s != [] && IsWhitespace(s[|s| - 1]) then TrimEnd(s[..|s| - 1]) else s
  }

  /** `s.trim()`: `s` without its leading and trailing whitespace. */
  function Trim(s: string): (r: string)
    ensures IsTrimmed(r)
  {
    TrimEnd(TrimStart(s))
  }

  /**
   * What `trim` leaves is an infix of `s` with only whitespace before and
   * after it.
   */
  lemma TrimIsInfix(s: string)
    ensures exists a :: 0 <= a <= a + |Trim(s)| <= |s| && Trim(s) == s[a..a + |Trim(s)|]
              && AllWhitespace(s[..a]) && AllWhitespace(s[a + |Trim(s)|..])
  {
    var t := TrimStart(s);
    var r := TrimEnd(t);
    var a := |s| - |t|;
    assert t == s[a..];
    assert r == t[..|r|] == s[a..a + |r|];
    assert AllWhitespace(s[..a]);
    assert t[|r|..] == s[a + |r|..];
    assert AllWhitespace(s[a + |r|..]);
    assert r == Trim(s);
  }

  /** `s.startsWith(prefix)`. */
  predicate StartsWith(s: string, prefix: string) {
    |prefix| <= |s| && s[..|prefix|] == prefix
  }

  /** A string that is already trimmed is its own trim. */
  lemma {:induction false} TrimOfTrimmed(s: string)
    requires IsTrimmed(s)
    ensures Trim(s) == s
  {
    assert TrimStart(s) == s;
    assert TrimEnd(s) == s;
  }

  /** Trimming is idempotent. */
  lemma {:induction false} TrimIdempotent(s: string)
    ensures Trim(Trim(s)) == Trim(s)
  {
    TrimOfTrimmed(Trim(s));
  }

  /** A string trims to "" exactly when it is all whitespace. */
  lemma {:induction false} TrimBlankIff(s: string)
    ensures Trim(s) == "" <==> AllWhitespace(s)
  {
    var t := TrimStart(s);
    if !AllWhitespace(s) {
      var i :| 0 <= i < |s| && !IsWhitespace(s[i]);
      assert s[..|s| - |t|] == s[..|s| - |t|];
      assert t != [];
    }
  }

  /** Whitespace put around a string does not survive trimming. */
  lemma {:induction false} TrimIgnoresPadding(left: string, s: string, right: string)
    requires AllWhitespace(left) && AllWhitespace(right)
    ensures Trim(left + s + right) == Trim(s)
  {
    var tail := s + right;
    assert left + s + right == left + tail;
    calc {
      Trim(left + tail);
      TrimEnd(TrimStart(left + tail));
      { TrimStartSkipsPadding(left, tail); }
      TrimEnd(TrimStart(tail));
      { TrimStartOfSuffixed(s, right); }
      TrimEnd(TrimStart(s));
    }
  }

  lemma {:induction false} TrimStartSkipsPadding(left: string, s: string)
    requires AllWhitespace(left)
    ensures TrimStart(left + s) == TrimStart(s)
    decreases |left|
  {
    if left != [] {
      assert (left + s)[1..] == left[1..] + s;
      TrimStartSkipsPadding(left[1..], s);
    } else {
      assert left + s == s;
    }
  }

  lemma {:induction false} TrimEndSkipsPadding(s: string, right: string)
    requires AllWhitespace(right)
    ensures TrimEnd(s + right) == TrimEnd(s)
    decreases |right|
  {
    if right != [] {
      assert (s + right)[..|s + right| - 1] == s + right[..|right| - 1];
      TrimEndSkipsPadding(s, right[..|right| - 1]);
    } else {
      assert s + right == s;
    }
  }

  /** Trimming the front of `s + right` leaves `TrimStart(s) + right`, unless `s` is all whitespace. */
  lemma {:induction false} TrimStartOfSuffixed(s: string, right: string)
    requires AllWhitespace(right)
    ensures TrimEnd(TrimStart(s + right)) == TrimEnd(TrimStart(s))
    decreases |s|
  {
    if s == [] {
      assert s + right == right;
      TrimStartSkipsPadding(right, []);
      assert right + [] == right;
    } else if IsWhitespace(s[0]) {
      assert (s + right)[1..] == s[1..] + right;
      TrimStartOfSuffixed(s[1..], right);
    } else {
      TrimEndSkipsPadding(s, right);
    }
  }
}
