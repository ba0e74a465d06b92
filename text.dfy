/**
 * The handful of Python string operations the converter relies on:
 * `str.strip`, `str.split(',')`, `str.upper`, `str.lower`, `str.endswith`
 * and `','.join` (the inverse of the split).
 */
module Text {

  /** Python's `str.isspace` for one character (the whitespace `str.strip()` removes). */
  predicate IsSpace(c: char) {
    c == ' ' || ('\t' <= c <= '\r') || ('\U{1C}' <= c <= '\U{1F}')
    || c == '\U{85}' || c == '\U{A0}' || c == '\U{1680}'
    || ('\U{2000}' <= c <= '\U{200A}') || c == '\U{2028}' || c == '\U{2029}'
    || c == '\U{202F}' || c == '\U{205F}' || c == '\U{3000}'
  }

  /** Neither starts nor ends with whitespace, as the result of `str.strip()`. */
  predicate Stripped(s: string) {
    s == [] || (!IsSpace(s[0]) && !IsSpace(s[|s| - 1]))
  }

  /**
   * `s.strip()`: whitespace is removed from both ends until neither end is
   * whitespace (`StripSlice` shows the result is a slice of `s` and that
   * only whitespace is cut off).
   */
  function Strip(s: string): (r: string)
    ensures Stripped(r)
    ensures |r| <= |s|
  {
    if s != [] && IsSpace(s[0]) then Strip(s[1..])
    else if s != [] && IsSpace(s[|s| - 1]) then Strip(s[..|s| - 1])
    else s
  }

  /**
   * `s.strip()` is the slice of `s` starting at some `a`; everything before
   * `a` and everything after the slice is whitespace.
   */
  lemma {:induction false} StripSlice(s: string) returns (a: nat)
    ensures a + |Strip(s)| <= |s|
    ensures Strip(s) == s[a..a + |Strip(s)|]
    ensures forall k :: 0 <= k < a ==> IsSpace(s[k])
    ensures forall k :: a + |Strip(s)| <= k < |s| ==> IsSpace(s[k])
  {
    var n := |Strip(s)|;
    if s != [] && IsSpace(s[0]) {
      var t := s[1..];
      var b := StripSlice(t);
      a := b + 1;
      assert Strip(s) == t[b..b + n];
      assert t[b..b + n] == s[a..a + n];
      forall k | 0 <= k < a ensures IsSpace(s[k]) {
        if k > 0 {
          assert s[k] == t[k - 1];
        }
      }
      forall k | a + n <= k < |s| ensures IsSpace(s[k]) {
        assert s[k] == t[k - 1];
      }
    } else if s != [] && IsSpace(s[|s| - 1]) {
      var t := s[..|s| - 1];
      a := StripSlice(t);
      assert Strip(s) == t[a..a + n];
      assert t[a..a + n] == s[a..a + n];
      forall k | a + n <= k < |s| ensures IsSpace(s[k]) {
        if k < |s| - 1 {
          assert s[k] == t[k];
        }
      }
    } else {
      a := 0;
    }
  }

  /** A string that neither starts nor ends with whitespace is its own strip. */
  lemma StripStripped(s: string)
    requires Stripped(s)
    ensures Strip(s) == s
  {
  }

  /** Stripping is idempotent. */
  lemma StripIdempotent(s: string)
    ensures Strip(Strip(s)) == Strip(s)
  {
    StripStripped(Strip(s));
  }

  /** `s.strip()` is empty exactly when `s` is all whitespace (this is what drops an item). */
  lemma StripEmptyIff(s: string)
    ensures Strip(s) == [] <==> forall k :: 0 <= k < |s| ==> IsSpace(s[k])
  {
    var a := StripSlice(s);
    var r := Strip(s);
    assert r != [] ==> r[0] == s[a];
    assert r == [] ==> forall k :: 0 <= k < |s| ==> IsSpace(s[k]);
  }

  /**
   * `s.split(sep)` for a single-character separator: the pieces between the
   * separators, always at least one; `"".split(',')` is `[""]`.
   */
  function SplitOn(s: string, sep: char): (pieces: seq<string>)
    ensures |pieces| >= 1
    ensures forall p :: p in pieces ==> sep !in p
    ensures Join(pieces, sep) == s
  {
    if s == [] then [[]]
    else
      var rest := SplitOn(s[1..], sep);
      if s[0] == sep then
        assert Join([[]] + rest, sep) == [] + [sep] + Join(rest, sep);
        [[]] + rest
      else
        var pieces := [[s[0]] + rest[0]] + rest[1..];
        assert |rest| == 1 ==> Join(pieces, sep) == [s[0]] + rest[0];
        assert |rest| > 1 ==> Join(rest, sep) == rest[0] + [sep] + Join(rest[1..], sep);
        assert |rest| > 1 ==> pieces[1..] == rest[1..];
        pieces
  }

  /** `sep.join(pieces)`, the inverse of `SplitOn` (see `SplitJoin`). */
  function Join(pieces: seq<string>, sep: char): string {
    if pieces == [] then []
    else if |pieces| == 1 then pieces[0]
    else pieces[0] + [sep] + Join(pieces[1..], sep)
  }

  /** Splitting a piece free of the separator that is followed by the separator. */
  lemma {:induction false} SplitAfterPiece(a: string, sep: char, b: string)
    requires sep !in a
    ensures SplitOn(a + [sep] + b, sep) == [a] + SplitOn(b, sep)
  {
    if a == [] {
      assert a + [sep] + b == [sep] + b;
      assert ([sep] + b)[1..] == b;
    } else {
      SplitAfterPiece(a[1..], sep, b);
      assert (a + [sep] + b)[1..] == a[1..] + [sep] + b;
      assert [a[0]] + a[1..] == a;
    }
  }

  /** A string free of the separator splits into itself alone. */
  lemma {:induction false} SplitWhole(a: string, sep: char)
    requires sep !in a
    ensures SplitOn(a, sep) == [a]
  {
    if a != [] {
      SplitWhole(a[1..], sep);
      assert [a[0]] + a[1..] == a;
    }
  }

  /** Joining separator-free pieces and splitting again gives the pieces back. */
  lemma {:induction false} SplitJoin(pieces: seq<string>, sep: char)
    requires |pieces| >= 1
    requires forall p :: p in pieces ==> sep !in p
    ensures SplitOn(Join(pieces, sep), sep) == pieces
  {
    if |pieces| == 1 {
      SplitWhole(pieces[0], sep);
    } else {
      SplitJoin(pieces[1..], sep);
      SplitAfterPiece(pieces[0], sep, Join(pieces[1..], sep));
    }
  }

  /** `s.endswith(suffix)`. */
  predicate EndsWith(s: string, suffix: string) {
    |suffix| <= |s| && s[|s| - |suffix|..] == suffix
  }

  /** Python's `str.upper` on one character, for the ASCII letters. */
  function UpperChar(c: char): char {
    if 'a' <= c <= 'z' then (c as int - 32) as char else c
  }

  /** Python's `str.lower` on one character, for the ASCII letters. */
  function LowerChar(c: char): char {
    if 'A' <= c <= 'Z' then (c as int + 32) as char else c
  }

  /** `s.upper()`: the same length (see `UpperChars` for the characters). */
  function Upper(s: string): (r: string)
    ensures |r| == |s|
  {
    if s == [] then [] else [UpperChar(s[0])] + Upper(s[1..])
  }

  /** `s.upper()` upper-cases each character in place. */
  lemma {:induction false} UpperChars(s: string)
    ensures forall k :: 0 <= k < |s| ==> Upper(s)[k] == UpperChar(s[k])
  {
    if s != [] {
      UpperChars(s[1..]);
      assert forall k :: 1 <= k < |s| ==> Upper(s)[k] == Upper(s[1..])[k - 1];
    }
  }

  /** `s.lower()`: the same length (see `LowerChars` for the characters). */
  function Lower(s: string): (r: string)
    ensures |r| == |s|
  {
    if s == [] then [] else [LowerChar(s[0])] + Lower(s[1..])
  }

  /** `s.lower()` lower-cases each character in place. */
  lemma {:induction false} LowerChars(s: string)
    ensures forall k :: 0 <= k < |s| ==> Lower(s)[k] == LowerChar(s[k])
  {
    if s != [] {
      LowerChars(s[1..]);
      assert forall k :: 1 <= k < |s| ==> Lower(s)[k] == Lower(s[1..])[k - 1];
    }
  }

  /** `s.upper() == s` exactly when `s` has no lower-case ASCII letter. */
  lemma UpperFixedIff(s: string)
    ensures Upper(s) == s <==> forall k :: 0 <= k < |s| ==> !('a' <= s[k] <= 'z')
  {
    UpperChars(s);
    if Upper(s) == s {
      forall k | 0 <= k < |s| ensures !('a' <= s[k] <= 'z') {
        assert Upper(s)[k] == UpperChar(s[k]);
      }
    }
  }
}
