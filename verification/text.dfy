/** The two pieces of JavaScript string behaviour the board relies on:
    `String.prototype.trim` (used by the `required` check) and the decimal rendering
    of an integer (`Number.prototype.toString`, used by `required` on numbers and by
    the persons label). */
module Text {

  /** Whitespace removed by `trim`. JavaScript's set is larger (every Unicode space
      separator and line terminator); this is its common core. */
  predicate IsSpace(c: char) {
    c == ' ' || c == '\t' || c == '\n' || c == '\r' ||
    c == '\U{000B}' || c == '\U{000C}' || c == '\U{00A0}' || c == '\U{FEFF}'
  }

  /** Every character of `s` is whitespace (vacuously true of ""). */
  predicate AllSpace(s: string) {
    forall i :: 0 <= i < |s| ==> IsSpace(s[i])
  }

  /** Drops the leading whitespace of `s`. */
  function TrimStart(s: string): (r: string)
    ensures |r| <= |s| && r == s[|s| - |r|..]
    ensures AllSpace(s[..|s| - |r|])
    ensures |r| > 0 ==> !IsSpace(r[0])
  {
    if |s| > 0 && IsSpace(s[0]) then TrimStart(s[1..]) else s
  }

  /** Drops the trailing whitespace of `s`. */
  function TrimEnd(s: string): (r: string)
    ensures |r| <= |s| && r == s[..|r|]
    ensures AllSpace(s[|r|..])
    ensures |r| > 0 ==> !IsSpace(r[|r| - 1])
  {
    if |s| > 0 && IsSpace(s[|s| - 1]) then TrimEnd(s[..|s| - 1]) else s
  }

  /** `s.trim()`: `s` without leading and trailing whitespace. The result is never
      longer than `s`, and when not empty it neither starts nor ends with
      whitespace. */
  function Trim(s: string): (r: string)
    ensures |r| <= |s|
    ensures |r| > 0 ==> !IsSpace(r[0]) && !IsSpace(r[|r| - 1])
  {
    var t := TrimStart(s);
    var u := TrimEnd(t);
    assert |u| > 0 ==> u[0] == t[0];
    u
  }

  /** The trimmed string is a slice of the original, and everything cut off on
      either side is whitespace. */
  lemma TrimIsSlice(s: string)
    ensures exists a, b :: 0 <= a <= b <= |s| && Trim(s) == s[a..b]
                           && AllSpace(s[..a]) && AllSpace(s[b..])
  {
    var t := TrimStart(s);
    var u := TrimEnd(t);
    var a := |s| - |t|;
    var b := a + |u|;
    assert u == s[a..b] by {
      assert t == s[a..];
      assert u == t[..|u|];
    }
    assert AllSpace(s[b..]) by {
      assert s[b..] == t[|u|..];
    }
  }

  /** `s.trim().length === 0` holds exactly when `s` consists of whitespace only. */
  lemma TrimEmptyIffAllSpace(s: string)
    ensures |Trim(s)| == 0 <==> AllSpace(s)
  {
    var t := TrimStart(s);
    if |Trim(s)| == 0 {
      assert AllSpace(t[0..]);
      assert s == s[..|s| - |t|] + t;
    }
  }

  /** The characters of `s` outside the Basic Multilingual Plane; JavaScript stores
      each as a surrogate pair, two UTF-16 code units. */
  function AstralCount(s: string): nat {
    if |s| == 0 then 0 else (if s[0] as int > 0xFFFF then 1 else 0) + AstralCount(s[1..])
  }

  /** `s.length` in JavaScript: the number of UTF-16 code units of `s`, one per
      character plus a second one per character outside the Basic Multilingual
      Plane. */
  function Utf16Length(s: string): nat {
    |s| + AstralCount(s)
  }

  /** A text has at least one and at most two code units per character. */
  lemma {:induction false} Utf16LengthBounds(s: string)
    ensures |s| <= Utf16Length(s) <= 2 * |s|
  {
    if |s| > 0 {
      Utf16LengthBounds(s[1..]);
    }
  }

  /** A text made of Basic Multilingual Plane characters has one code unit per
      character. */
  lemma {:induction false} Utf16LengthOfBmp(s: string)
    requires forall i :: 0 <= i < |s| ==> s[i] as int <= 0xFFFF
    ensures Utf16Length(s) == |s|
  {
    if |s| > 0 {
      Utf16LengthOfBmp(s[1..]);
    }
  }

  /** Code units add up over concatenation. */
  lemma {:induction false} Utf16LengthAppend(a: string, b: string)
    ensures Utf16Length(a + b) == Utf16Length(a) + Utf16Length(b)
  {
    if |a| > 0 {
      assert (a + b)[0] == a[0];
      assert (a + b)[1..] == a[1..] + b;
      Utf16LengthAppend(a[1..], b);
    } else {
      assert a + b == b;
    }
  }

  /** A character outside the Basic Multilingual Plane, such as U+1F600, has length 2. */
  lemma AstralCharLength()
    ensures Utf16Length("\U{1F600}") == 2
  {
  }

  predicate IsDigit(c: char) {
    '0' <= c <= '9'
  }

  /** The decimal digit character for `d`. */
  function DigitChar(d: nat): (c: char)
    requires d < 10
    ensures IsDigit(c) && c as int - '0' as int == d
  {
    ('0' as int + d) as char
  }

  /** The decimal rendering of a natural number, most significant digit first,
      with no leading zero. */
  function NatToString(n: nat): (r: string)
    ensures |r| > 0
    ensures forall i :: 0 <= i < |r| ==> IsDigit(r[i])
    ensures |r| > 1 ==> r[0] != '0'
  {
    if n < 10 then [DigitChar(n)] else NatToString(n / 10) + [DigitChar(n % 10)]
  }

  /** The value of a decimal digit character. */
  function DigitValue(c: char): (d: nat)
    requires IsDigit(c)
    ensures d < 10 && DigitChar(d) == c
  {
    c as int - '0' as int
  }

  /** The value of a string of decimal digits. */
  function ParseNat(s: string): nat
    requires forall i :: 0 <= i < |s| ==> IsDigit(s[i])
  {
    if |s| == 0 then 0 else ParseNat(s[..|s| - 1]) * 10 + DigitValue(s[|s| - 1])
  }

  /** Reading back the decimal rendering gives the number rendered. */
  lemma {:induction false} NatRoundTrip(n: nat)
    ensures ParseNat(NatToString(n)) == n
  {
    if n >= 10 {
      var r := NatToString(n);
      assert r[..|r| - 1] == NatToString(n / 10);
      NatRoundTrip(n / 10);
    }
  }

  /** `n.toString()` for an integer-valued JavaScript number: a minus sign before the
      magnitude's digits when negative, and no leading zero. */
  function IntToString(n: int): (r: string)
    ensures |r| > 0
    ensures r[0] == '-' <==> n < 0
    ensures forall i :: 0 < i < |r| ==> IsDigit(r[i])
    ensures n >= 0 ==> (forall i :: 0 <= i < |r| ==> IsDigit(r[i])) && ParseNat(r) == n
    ensures n < 0 ==> ParseNat(r[1..]) == -n
    ensures n >= 0 && |r| > 1 ==> r[0] != '0'
    ensures n < 0 ==> |r| > 1 && r[1] != '0'
  {
    if n < 0 then
      var digits := NatToString(-n);
      NatRoundTrip(-n);
      assert ("-" + digits)[1..] == digits;
      "-" + digits
    else
      NatRoundTrip(n);
      NatToString(n)
  }

  /** Different integers render differently. */
  lemma IntToStringInjective(a: int, b: int)
    requires IntToString(a) == IntToString(b)
    ensures a == b
  {
    if a < 0 {
      assert IntToString(a)[1..] == NatToString(-a);
      assert IntToString(b)[1..] == NatToString(-b);
      NatRoundTrip(-a);
      NatRoundTrip(-b);
    } else {
      NatRoundTrip(a);
      NatRoundTrip(b);
    }
  }

  /** A rendered integer is never blank: `n.toString().trim()` is never empty. */
  lemma IntToStringNotBlank(n: int)
    ensures |Trim(IntToString(n))| > 0
  {
    var r := IntToString(n);
    assert !IsSpace(r[0]);
    TrimEmptyIffAllSpace(r);
  }
}
