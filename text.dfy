/**
 * The handful of JavaScript string operations the application's handlers use:
 * `toLowerCase` (ASCII only), `includes`, `startsWith`, `trim`, `split(':')`,
 * `parseInt(s)` and the decimal rendering of an integer in a template literal.
 */
module Text {
  import opened Wrappers

  // ---------------------------------------------------------------------------
  // Lower case

  function LowerChar(c: char): char {
    if 'A' <= c <= 'Z' then (c as int + 32) as char else c
  }

  /** `s.toLowerCase()` restricted to ASCII letters: every character is mapped on its own. */
  function Lower(s: string): (r: string)
    ensures |r| == |s|
    ensures forall i :: 0 <= i < |s| ==> r[i] == LowerChar(s[i])
  {
    if s == [] then [] else [LowerChar(s[0])] + Lower(s[1..])
  }

  /** Lowercasing twice is lowercasing once. */
  lemma LowerIdempotent(s: string)
    ensures Lower(Lower(s)) == Lower(s)
  {
    assert forall i :: 0 <= i < |s| ==> LowerChar(LowerChar(s[i])) == LowerChar(s[i]);
  }

  // ---------------------------------------------------------------------------
  // includes, startsWith

  /** `t` occurs in `s` starting at index `i`. */
  predicate OccursAt(s: string, t: string, i: int) {
    0 <= i && i + |t| <= |s| && s[i..i + |t|] == t
  }

  /** `s.startsWith(p)`. */
  predicate StartsWith(s: string, p: string) {
    OccursAt(s, p, 0)
  }

  /** `s.includes(t)`: a left-to-right scan for the first place `t` occurs. */
  function Includes(s: string, t: string): (r: bool)
    ensures r <==> exists i :: OccursAt(s, t, i)
    decreases |s|
  {
    if |t| > |s| then
      assert forall i :: !OccursAt(s, t, i);
      false
    else if s[..|t|] == t then
      assert OccursAt(s, t, 0);
      true
    else
      var r := Includes(s[1..], t);
      assert forall i :: OccursAt(s[1..], t, i) <==> OccursAt(s, t, i + 1) by {
        forall i ensures OccursAt(s[1..], t, i) <==> OccursAt(s, t, i + 1) {
          if 0 <= i && i + |t| <= |s| - 1 {
            assert s[1..][i..i + |t|] == s[i + 1..i + 1 + |t|];
          }
        }
      }
      assert r ==> exists i :: OccursAt(s, t, i) by {
        if r {
          var i :| OccursAt(s[1..], t, i);
          assert OccursAt(s, t, i + 1);
        }
      }
      assert (exists i :: OccursAt(s, t, i)) ==> r by {
        if exists i :: OccursAt(s, t, i) {
          var i :| OccursAt(s, t, i);
          assert i != 0;
          assert OccursAt(s[1..], t, i - 1);
        }
      }
      r
  }

  /** Every string includes the empty string, so `includes('')` never rejects anything. */
  lemma IncludesEmpty(s: string)
    ensures Includes(s, "")
  {
    assert OccursAt(s, "", 0);
  }

  // ---------------------------------------------------------------------------
  // trim

  /**
   * The characters `String.prototype.trim` removes: ECMAScript's WhiteSpace
   * (tab, vertical tab, form feed, space, no-break space, byte order mark and
   * the Unicode space separators) and LineTerminator (LF, CR, U+2028, U+2029).
   */
  predicate IsJsWhitespace(c: char) {
    c == '\t' || c == '\n' || c == '\U{000B}' || c == '\U{000C}' || c == '\r' || c == ' '
    || c == '\U{00A0}' || c == '\U{1680}' || ('\U{2000}' <= c <= '\U{200A}')
    || c == '\U{2028}' || c == '\U{2029}' || c == '\U{202F}' || c == '\U{205F}'
    || c == '\U{3000}' || c == '\U{FEFF}'
  }

  predicate AllWhitespace(s: string) {
    forall i :: 0 <= i < |s| ==> IsJsWhitespace(s[i])
  }

  /** The index of the first non-blank at or after `i`, or `|s|` when there is none. */
  function FirstNonBlank(s: string, i: nat): (j: nat)
    requires i <= |s|
    ensures i <= j <= |s|
    ensures forall k :: i <= k < j ==> IsJsWhitespace(s[k])
    ensures j < |s| ==> !IsJsWhitespace(s[j])
    decreases |s| - i
  {
    if i < |s| && IsJsWhitespace(s[i]) then FirstNonBlank(s, i + 1) else i
  }

  /** The index just past the last non-blank before `j`, or 0 when there is none. */
  function EndOfText(s: string, j: nat): (i: nat)
    requires j <= |s|
    ensures i <= j
    ensures forall k :: i <= k < j ==> IsJsWhitespace(s[k])
    ensures 0 < i ==> !IsJsWhitespace(s[i - 1])
  {
    if 0 < j && IsJsWhitespace(s[j - 1]) then EndOfText(s, j - 1) else j
  }

  /** Drops leading whitespace: the result is the suffix of `s` that starts at its first non-blank. */
  function TrimStart(s: string): (r: string)
    ensures |r| <= |s| && r == s[|s| - |r|..]
    ensures AllWhitespace(s[..|s| - |r|])
    ensures r == [] || !IsJsWhitespace(r[0])
  {
    s[FirstNonBlank(s, 0)..]
  }

  /** Drops trailing whitespace: the result is the prefix of `s` that ends at its last non-blank. */
  function TrimEnd(s: string): (r: string)
    ensures |r| <= |s| && r == s[..|r|]
    ensures AllWhitespace(s[|r|..])
    ensures r == [] || !IsJsWhitespace(r[|r| - 1])
  {
    s[..EndOfText(s, |s|)]
  }

  /** `s.trim()`: no longer than `s`, and neither end is white space. */
  function Trim(s: string): (r: string)
    ensures |r| <= |s|
    ensures r == [] || (!IsJsWhitespace(r[0]) && !IsJsWhitespace(r[|r| - 1]))
  {
    var a := TrimStart(s);
    var r := TrimEnd(a);
    assert r != [] ==> r[0] == a[0];
    r
  }

  /**
   * What `trim` returns: a contiguous slice of `s` with only whitespace cut
   * off on either side, and no whitespace left at either end.
   */
  lemma TrimIsSlice(s: string)
    ensures exists lo, hi :: 0 <= lo <= hi <= |s| && Trim(s) == s[lo..hi]
              && AllWhitespace(s[..lo]) && AllWhitespace(s[hi..])
    ensures Trim(s) == [] || (!IsJsWhitespace(Trim(s)[0]) && !IsJsWhitespace(Trim(s)[|Trim(s)| - 1]))
  {
    var a := TrimStart(s);
    var b := TrimEnd(a);
    var lo := |s| - |a|;
    var hi := lo + |b|;
    assert b == s[lo..hi];
    assert a[|b|..] == s[hi..];
    if b != [] {
      assert b[0] == a[0];
    }
  }

  /** A trimmed name is empty exactly when the original held nothing but whitespace. */
  lemma TrimEmptyIffBlank(s: string)
    ensures Trim(s) == [] <==> AllWhitespace(s)
  {
    var a := TrimStart(s);
    if Trim(s) == [] {
      assert a[|TrimEnd(a)|..] == a;
      assert a == [];
      assert s[..|s|] == s;
    } else {
      assert a != [] && !IsJsWhitespace(a[0]);
      assert s[|s| - |a|] == a[0];
    }
  }

  /** Trimming an already trimmed string changes nothing. */
  lemma TrimIdempotent(s: string)
    ensures Trim(Trim(s)) == Trim(s)
  {
    var t := Trim(s);
    TrimIsSlice(s);
    if t != [] {
      assert TrimStart(t) == t;
      assert TrimEnd(t) == t;
    }
  }

  // ---------------------------------------------------------------------------
  // Decimal numbers

  predicate IsDigit(c: char) {
    '0' <= c <= '9'
  }

  function DigitValue(c: char): nat
    requires IsDigit(c)
  {
    c as int - '0' as int
  }

  function DigitChar(d: nat): (c: char)
    requires d < 10
    ensures IsDigit(c) && DigitValue(c) == d
  {
    ('0' as int + d) as char
  }

  predicate AllDigits(s: string) {
    forall i :: 0 <= i < |s| ==> IsDigit(s[i])
  }

  /** The value of a string of decimal digits, most significant first. */
  function DigitsValue(s: string): nat
    requires AllDigits(s)
  {
    if s == [] then 0 else DigitsValue(s[..|s| - 1]) * 10 + DigitValue(s[|s| - 1])
  }

  /** A natural number as a template literal prints it: no sign, no leading zeros. */
  function NatToString(n: nat): (r: string)
    ensures r != [] && AllDigits(r)
    ensures |r| > 1 ==> r[0] != '0'
  {
    if n < 10 then [DigitChar(n)] else NatToString(n / 10) + [DigitChar(n % 10)]
  }

  /** Printing a natural number and reading its digits back gives the number. */
  lemma {:induction false} NatToStringRoundTrip(n: nat)
    ensures DigitsValue(NatToString(n)) == n
  {
    if n >= 10 {
      var s := NatToString(n);
      NatToStringRoundTrip(n / 10);
      assert s[..|s| - 1] == NatToString(n / 10);
    }
  }

  /** An integer as a template literal prints it: a minus sign for negatives. */
  function IntToString(n: int): (r: string)
    ensures r != []
    ensures n >= 0 <==> r[0] != '-'
  {
    if n >= 0 then NatToString(n) else "-" + NatToString(-n)
  }

  /** The longest prefix of `s` made of decimal digits. */
  function LeadingDigits(s: string): (r: string)
    ensures |r| <= |s| && r == s[..|r|] && AllDigits(r)
    ensures |r| < |s| ==> !IsDigit(s[|r|])
  {
    if s != [] && IsDigit(s[0]) then
      var r := LeadingDigits(s[1..]);
      assert [s[0]] + r == s[..|r| + 1];
      [s[0]] + r
    else []
  }

  /**
   * `parseInt(s)` with no radix on decimal input: leading whitespace is
   * skipped, one optional sign is read, then the longest run of digits;
   * None stands for NaN, the result when no digit follows.
   */
  function ParseInt(s: string): (r: Option<int>)
  {
    ParseSigned(TrimStart(s))
  }

  /** `parseInt` gives NaN for blank text, and a number only when the text holds a digit. */
  lemma ParseIntNeedsDigit(s: string)
    ensures AllWhitespace(s) ==> ParseInt(s).None?
    ensures ParseInt(s).Some? ==> exists i :: 0 <= i < |s| && IsDigit(s[i])
  {
    BlankTrimsToEmpty(s);
    SignedNeedsDigit(TrimStart(s));
    DigitInSuffix(s, TrimStart(s));
  }

  /** A sign alone, or nothing, reads as NaN: some digit must follow. */
  lemma SignedNeedsDigit(t: string)
    ensures t == [] ==> ParseSigned(t).None?
    ensures ParseSigned(t).Some? ==> exists i :: 0 <= i < |t| && IsDigit(t[i])
  {
    UnsignedNeedsDigit(t);
    if t != [] {
      UnsignedNeedsDigit(t[1..]);
      if ParseSigned(t).Some? && (t[0] == '-' || t[0] == '+') {
        assert IsDigit(t[1]);
      }
    }
  }

  /** The unsigned stage reads a number only when the text starts with a digit. */
  lemma UnsignedNeedsDigit(body: string)
    ensures ParseUnsigned(body).Some? <==> body != [] && IsDigit(body[0])
  {
    var digits := LeadingDigits(body);
    assert digits != [] ==> digits[0] == body[0];
  }

  /** One optional sign, then the leading digits. */
  function ParseSigned(t: string): (r: Option<int>)
  {
    if t != [] && t[0] == '-' then
      match ParseUnsigned(t[1..])
      case None => None
      case Some(n) => Some(-(n as int))
    else if t != [] && t[0] == '+' then
      match ParseUnsigned(t[1..])
      case None => None
      case Some(n) => Some(n as int)
    else
      match ParseUnsigned(t)
      case None => None
      case Some(n) => Some(n as int)
  }

  /** The value of the leading digits; None when there are none. */
  function ParseUnsigned(body: string): (r: Option<nat>)
  {
    var digits := LeadingDigits(body);
    if digits == [] then None else Some(DigitsValue(digits))
  }

  lemma {:induction false} LeadingDigitsOfDigits(s: string, rest: string)
    requires AllDigits(s)
    requires rest == [] || !IsDigit(rest[0])
    ensures LeadingDigits(s + rest) == s
  {
    if s != [] {
      assert (s + rest)[1..] == s[1..] + rest;
      LeadingDigitsOfDigits(s[1..], rest);
    }
  }

  /** Only white space trims to nothing. */
  lemma BlankTrimsToEmpty(s: string)
    ensures AllWhitespace(s) ==> TrimStart(s) == []
  {
  }

  /** A digit of a suffix is a digit of the whole text. */
  lemma DigitInSuffix(s: string, t: string)
    requires |t| <= |s| && t == s[|s| - |t|..]
    ensures (exists i :: 0 <= i < |t| && IsDigit(t[i])) ==> exists i :: 0 <= i < |s| && IsDigit(s[i])
  {
    if exists i :: 0 <= i < |t| && IsDigit(t[i]) {
      var i :| 0 <= i < |t| && IsDigit(t[i]);
      assert s[|s| - |t| + i] == t[i];
    }
  }

  /** The leading digits of a run of digits are the whole run. */
  lemma ParseUnsignedDigits(s: string)
    requires s != [] && AllDigits(s)
    ensures ParseUnsigned(s) == Some(DigitsValue(s))
  {
    LeadingDigitsOfDigits(s, []);
    assert s + [] == s;
  }

  /** Text that starts with a non-blank is not changed by `TrimStart`. */
  lemma TrimStartNonBlank(t: string)
    requires t != [] && !IsJsWhitespace(t[0])
    ensures TrimStart(t) == t
  {
    assert FirstNonBlank(t, 0) == 0;
  }

  /** `parseInt` of a plain run of digits is the value of those digits. */
  lemma ParseDigits(s: string)
    requires s != [] && AllDigits(s)
    ensures ParseInt(s) == Some(DigitsValue(s))
  {
    DigitNotBlank(s[0]);
    TrimStartNonBlank(s);
    UnsignedDigits(s);
  }

  lemma DigitNotBlank(c: char)
    requires IsDigit(c)
    ensures !IsJsWhitespace(c)
  {
  }

  /** A run of digits has no sign, so its value is read as it stands. */
  lemma UnsignedDigits(s: string)
    requires s != [] && AllDigits(s)
    ensures ParseSigned(s) == Some(DigitsValue(s) as int)
  {
    assert s[0] != '-' && s[0] != '+';
    ParseUnsignedDigits(s);
  }

  /** `parseInt` of a minus sign and a run of digits is the negated value of the digits. */
  lemma ParseNegativeDigits(s: string)
    requires s != [] && AllDigits(s)
    ensures ParseInt("-" + s) == Some(-(DigitsValue(s) as int))
  {
    assert ("-" + s)[0] == '-';
    TrimStartNonBlank("-" + s);
    NegatedDigits(s);
  }

  /** A minus sign before a run of digits negates their value. */
  lemma NegatedDigits(s: string)
    requires s != [] && AllDigits(s)
    ensures ParseSigned("-" + s) == Some(-(DigitsValue(s) as int))
  {
    var t := "-" + s;
    assert t[0] == '-' && t[1..] == s;
    ParseUnsignedDigits(s);
  }

  /** Reading back what the template literal printed gives the integer again. */
  lemma ParseIntRoundTrip(n: int)
    ensures ParseInt(IntToString(n)) == Some(n)
  {
    if n >= 0 {
      ParseDigits(NatToString(n));
      NatToStringRoundTrip(n);
    } else {
      ParseNegativeDigits(NatToString(-n));
      NatToStringRoundTrip(-n);
    }
  }

  // ---------------------------------------------------------------------------
  // split

  /** The index of the first `c` in `s`, as `indexOf` finds it (None for -1). */
  function IndexOf(s: string, c: char): (r: Option<nat>)
    ensures r.None? <==> c !in s
    ensures r.Some? ==> r.value < |s| && s[r.value] == c && c !in s[..r.value]
  {
    if s == [] then None
    else if s[0] == c then Some(0)
    else
      var tail := IndexOf(s[1..], c);
      if tail.None? then None
      else
        assert s[..tail.value + 1] == [s[0]] + s[1..][..tail.value];
        Some(tail.value + 1)
  }

  /** The first `c` of `a + [c] + b` is the one after `a` when `a` has none. */
  lemma IndexOfJoin(a: string, c: char, b: string)
    requires c !in a
    ensures IndexOf(a + [c] + b, c) == Some(|a|)
  {
    var s := a + [c] + b;
    assert s[|a|] == c;
    assert s[..|a|] == a;
  }

  /** Cuts `s` at its first `c` into the text before and the text after it. */
  function SplitOnce(s: string, c: char): (r: Option<(string, string)>)
    ensures r.None? <==> c !in s
    ensures r.Some? ==> c !in r.value.0 && s == r.value.0 + [c] + r.value.1
  {
    match IndexOf(s, c)
    case None => None
    case Some(i) =>
      assert s == s[..i] + [c] + s[i + 1..];
      Some((s[..i], s[i + 1..]))
  }

  /** Cutting `a + [c] + b` at its first `c` gives back `a` and `b` when `a` has no `c`. */
  lemma SplitOnceJoin(a: string, c: char, b: string)
    requires c !in a
    ensures SplitOnce(a + [c] + b, c) == Some((a, b))
  {
    var s := a + [c] + b;
    IndexOfJoin(a, c, b);
    assert s[..|a|] == a && s[|a| + 1..] == b;
  }

  /** `s.split(c)[0]`: everything before the first `c`, or all of `s`. */
  function FieldBefore(s: string, c: char): (r: string)
    ensures c !in r
    ensures |r| <= |s| && r == s[..|r|]
    ensures c !in s ==> r == s
    ensures |r| < |s| ==> s[|r|] == c
  {
    match IndexOf(s, c)
    case None => s
    case Some(i) => s[..i]
  }

  /** `s.split(c)[1]`: the text between the first and the second `c`; None when `s` has no `c`. */
  function FieldAfter(s: string, c: char): (r: Option<string>)
    ensures r.None? <==> c !in s
    ensures r.Some? ==> c !in r.value
  {
    match IndexOf(s, c)
    case None => None
    case Some(i) => Some(FieldBefore(s[i + 1..], c))
  }

  /** Splitting `a + [c] + b` at `c` gives `a` and the part of `b` before its first `c`. */
  lemma SplitFields(a: string, c: char, b: string)
    requires c !in a
    ensures FieldBefore(a + [c] + b, c) == a
    ensures FieldAfter(a + [c] + b, c) == Some(FieldBefore(b, c))
  {
    var s := a + [c] + b;
    var i := IndexOf(s, c);
    assert s[|a|] == c;
    assert s[..|a|] == a;
    assert s[|a| + 1..] == b;
  }
}
