/**
 * The JavaScript string primitives the gateway relies on: the white-space
 * class shared by `String.prototype.trim` and the regular-expression escape
 * `\s`, `trim` itself, and `toLowerCase` restricted to ASCII letters.
 */
module JsString {

  /** ECMAScript WhiteSpace and LineTerminator code points (the set matched by
      `\s` and removed by `trim`): TAB, LF, VT, FF, CR, SPACE, NO-BREAK SPACE,
      the space separators of Unicode category Zs, LINE SEPARATOR,
      PARAGRAPH SEPARATOR and ZERO WIDTH NO-BREAK SPACE. */
  predicate IsSpace(c: char) {
    var n := c as int;
    || (0x09 <= n <= 0x0D)
    || n == 0x20
    || n == 0xA0
    || n == 0x1680
    || (0x2000 <= n <= 0x200A)
    || n == 0x2028
    || n == 0x2029
    || n == 0x202F
    || n == 0x205F
    || n == 0x3000
    || n == 0xFEFF
  }

  /** Every character of `s` is white space. */
  predicate AllSpace(s: string) {
    forall k :: 0 <= k < |s| ==> IsSpace(s[k])
  }

  /** `s` neither starts nor ends with white space. */
  predicate NoEdgeSpace(s: string) {
    s == [] || (!IsSpace(s[0]) && !IsSpace(s[|s| - 1]))
  }

  /** The non-white-space characters of `s`, in order. */
  function Visible(s: string): (r: string)
    ensures |r| <= |s|
  {
    if s == [] then []
    else (if IsSpace(s[0]) then [] else [s[0]]) + Visible(s[1..])
  }

  lemma {:induction false} VisibleConcat(a: string, b: string)
    ensures Visible(a + b) == Visible(a) + Visible(b)
  {
    if a == [] {
      assert a + b == b;
    } else {
      var head := if IsSpace(a[0]) then [] else [a[0]];
      assert (a + b)[0] == a[0];
      assert (a + b)[1..] == a[1..] + b;
      VisibleConcat(a[1..], b);
      assert Visible(a + b) == head + Visible(a[1..] + b);
      assert Visible(a) == head + Visible(a[1..]);
    }
  }

  lemma {:induction false} VisibleOfSpace(s: string)
    requires AllSpace(s)
    ensures Visible(s) == []
  {
    if s != [] {
      VisibleOfSpace(s[1..]);
    }
  }

  /** The number of white-space characters `s` starts with. */
  function LeadingSpace(s: string): (n: nat)
    ensures n <= |s|
    ensures forall k :: 0 <= k < n ==> IsSpace(s[k])
    ensures n == |s| || !IsSpace(s[n])
  {
    if s != [] && IsSpace(s[0]) then 1 + LeadingSpace(s[1..]) else 0
  }

  /** The number of white-space characters `s` ends with. */
  function TrailingSpace(s: string): (n: nat)
    ensures n <= |s|
    ensures forall k :: |s| - n <= k < |s| ==> IsSpace(s[k])
    ensures n == |s| || !IsSpace(s[|s| - n - 1])
  {
    if s != [] && IsSpace(s[|s| - 1]) then 1 + TrailingSpace(s[..|s| - 1]) else 0
  }

  /** `String.prototype.trim`: `s` without its leading and trailing white
      space. The result is the slice of `s` that starts at its first
      non-white-space character, and every character of `s` outside that
      slice is white space. */
  function Trim(s: string): (r: string)
    ensures NoEdgeSpace(r)
    ensures LeadingSpace(s) + |r| <= |s|
    ensures r == s[LeadingSpace(s)..LeadingSpace(s) + |r|]
    ensures forall k :: 0 <= k < |s| && !(LeadingSpace(s) <= k < LeadingSpace(s) + |r|) ==> IsSpace(s[k])
  {
    var lo := LeadingSpace(s);
    if lo == |s| then [] else s[lo..|s| - TrailingSpace(s)]
  }

  /** Trimming removes white space only. */
  lemma TrimKeepsVisible(s: string)
    ensures Visible(Trim(s)) == Visible(s)
  {
    var r := Trim(s);
    var lo := LeadingSpace(s);
    assert AllSpace(s[..lo]) && AllSpace(s[lo + |r|..]);
    assert s == s[..lo] + r + s[lo + |r|..];
    VisibleConcat(s[..lo] + r, s[lo + |r|..]);
    VisibleConcat(s[..lo], r);
    VisibleOfSpace(s[..lo]);
    VisibleOfSpace(s[lo + |r|..]);
  }

  /** A string with no white-space margins is left alone by `trim`. */
  lemma TrimOfTrimmed(s: string)
    requires NoEdgeSpace(s)
    ensures Trim(s) == s
  {
  }

  /** `toLowerCase` on one character, for the ASCII letters only. */
  function LowerChar(c: char): (d: char)
    ensures !('A' <= d <= 'Z')
    ensures ('A' <= c <= 'Z') <==> d != c
  {
    if 'A' <= c <= 'Z' then (c as int + 32) as char else c
  }

  /** `String.prototype.toLowerCase`, with case mapping limited to A-Z. */
  function ToLowerAscii(s: string): (r: string)
    ensures |r| == |s|
    ensures forall i :: 0 <= i < |s| ==> r[i] == LowerChar(s[i])
  {
    if s == [] then [] else [LowerChar(s[0])] + ToLowerAscii(s[1..])
  }

  /** `c` is the upper-case ASCII letter whose lower-case form is `d`:
      the two codes are 32 apart. */
  predicate UpperOf(c: char, d: char) {
    'A' <= c <= 'Z' && d as int == c as int + 32
  }

  /** `c` and `d` are the same character or the same ASCII letter in two
      cases. */
  predicate SameLetter(c: char, d: char) {
    c == d || UpperOf(c, d) || UpperOf(d, c)
  }

  /** `a` and `b` spell the same word up to the case of ASCII letters. */
  predicate SameIgnoringAsciiCase(a: string, b: string) {
    |a| == |b| && forall i :: 0 <= i < |a| ==> SameLetter(a[i], b[i])
  }

  /** Two characters lower-case alike exactly when they are the same letter
      up to ASCII case. */
  lemma LowerCharEqualIff(c: char, d: char)
    ensures LowerChar(c) == LowerChar(d) <==> SameLetter(c, d)
  {
  }

  /** Lower-casing identifies exactly the strings that differ in ASCII case. */
  lemma LowerEqualIff(a: string, b: string)
    ensures ToLowerAscii(a) == ToLowerAscii(b) <==> SameIgnoringAsciiCase(a, b)
  {
    forall i | 0 <= i < |a| && i < |b|
      ensures LowerChar(a[i]) == LowerChar(b[i]) <==> SameLetter(a[i], b[i])
    {
      LowerCharEqualIff(a[i], b[i]);
    }
    if SameIgnoringAsciiCase(a, b) {
      assert forall i :: 0 <= i < |a| ==> ToLowerAscii(a)[i] == ToLowerAscii(b)[i];
    }
    if ToLowerAscii(a) == ToLowerAscii(b) {
      assert forall i :: 0 <= i < |a| ==> LowerChar(a[i]) == LowerChar(b[i]);
    }
  }
}
