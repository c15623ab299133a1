/**
  Character and string primitives the test library relies on: decimal
  rendering of integers (what `std::ostream << int` writes), C-string
  views of character sequences (NUL-terminated), `strcmp` and the
  ASCII-case-insensitive `_stricmp`.
 */
module Text {

  /** True for the ten ASCII decimal digits. */
  predicate IsDigit(c: char) {
    '0' <= c <= '9'
  }

  function DigitChar(d: nat): (c: char)
    requires d < 10
    ensures IsDigit(c)
    ensures c as int - '0' as int == d
  {
    ('0' as int + d) as char
  }

  function DigitValue(c: char): nat
    requires IsDigit(c)
  {
    c as int - '0' as int
  }

  /** Decimal rendering of a natural number, most significant digit first. */
  function NatToString(n: nat): (s: string)
    ensures |s| >= 1
    ensures forall k :: 0 <= k < |s| ==> IsDigit(s[k])
    ensures |s| > 1 ==> s[0] != '0'
    decreases n
  {
    if n < 10 then [DigitChar(n)] else NatToString(n / 10) + [DigitChar(n % 10)]
  }

  /** Decimal rendering of an integer, with a leading '-' when negative. */
  function IntToString(i: int): (s: string)
    ensures |s| >= 1
    ensures (s[0] == '-') <==> i < 0
    ensures s[0] == '-' || IsDigit(s[0])
    ensures forall k :: 0 < k < |s| ==> IsDigit(s[k])
  {
    if i < 0 then "-" + NatToString(-i) else NatToString(i)
  }

  /** A decimal numeral: an optional '-' and then digits. */
  predicate IsNumeral(s: string) {
    && |s| >= 1
    && (forall k :: 0 < k < |s| ==> IsDigit(s[k]))
    && (s[0] != '-' ==> IsDigit(s[0]))
  }

  /** Reads a sequence of decimal digits back as a number (reference reader). */
  function ParseNat(s: string): nat
    requires forall k :: 0 <= k < |s| ==> IsDigit(s[k])
  {
    if |s| == 0 then 0 else 10 * ParseNat(s[..|s| - 1]) + DigitValue(s[|s| - 1])
  }

  function ParseInt(s: string): int
    requires IsNumeral(s)
  {
    if s[0] == '-' then 0 - ParseNat(s[1..]) as int else ParseNat(s)
  }

  /** Rendering a natural number loses nothing: reading it back gives the number. */
  lemma {:induction false} ParseNatToString(n: nat)
    ensures ParseNat(NatToString(n)) == n
    decreases n
  {
    if n >= 10 {
      var s := NatToString(n);
      var prefix := NatToString(n / 10);
      assert s == prefix + [DigitChar(n % 10)];
      assert s[..|s| - 1] == prefix;
      ParseNatToString(n / 10);
    }
  }

  /** Rendering an integer loses nothing, sign included. */
  lemma IntToStringRoundTrip(i: int)
    ensures ParseInt(IntToString(i)) == i
  {
    var s := IntToString(i);
    if i < 0 {
      assert s[1..] == NatToString(-i);
      ParseNatToString(-i);
    } else {
      ParseNatToString(i);
    }
  }

  /** Two integers render alike only if they are equal. */
  lemma IntToStringInjective(i: int, j: int)
    ensures IntToString(i) == IntToString(j) ==> i == j
  {
    IntToStringRoundTrip(i);
    IntToStringRoundTrip(j);
  }

  /** Code of the character at position k of a C string, 0 past its end. */
  function CodeAt(s: string, k: nat): int {
    if k < |s| then s[k] as int else 0
  }

  /** The C string a character sequence denotes: everything before the first NUL. */
  function CStr(s: string): (r: string)
    ensures |r| <= |s| && r == s[..|r|]
    ensures forall k :: 0 <= k < |r| ==> r[k] != '\0'
    ensures |r| < |s| ==> s[|r|] == '\0'
  {
    if |s| == 0 || s[0] == '\0' then "" else [s[0]] + CStr(s[1..])
  }

  /**
    `strcmp`: the difference of the first differing codes, which is zero
    exactly when the two C strings are equal.
   */
  function StrCmp(a: string, b: string): (r: int)
    ensures r == 0 <==> CStr(a) == CStr(b)
    decreases |a|
  {
    var ca := CodeAt(a, 0);
    var cb := CodeAt(b, 0);
    if ca != cb then
      CStrFirstDiffers(a, b);
      ca - cb
    else if ca == 0 then 0
    else
      CStrStep(a, b);
      StrCmp(a[1..], b[1..])
  }

  /** The code of a character after ASCII lower-casing. */
  function LowerCode(x: int): (y: int)
    ensures y == 0 <==> x == 0
  {
    if 'A' as int <= x <= 'Z' as int then x + 32 else x
  }

  /** ASCII lower-casing of one character; every other character is left alone. */
  function Lower(c: char): (d: char)
    ensures d as int == LowerCode(c as int)
  {
    if 'A' <= c <= 'Z' then (c as int + 32) as char else c
  }

  function LowerStr(s: string): (r: string)
    ensures |r| == |s|
    ensures forall k :: 0 <= k < |s| ==> r[k] == Lower(s[k])
  {
    if |s| == 0 then [] else [Lower(s[0])] + LowerStr(s[1..])
  }

  /**
    `_stricmp`: `strcmp` on ASCII-lower-cased codes, which is zero exactly
    when the two C strings are equal after lower-casing.
   */
  function StrCaseCmp(a: string, b: string): (r: int)
    ensures r == 0 <==> LowerStr(CStr(a)) == LowerStr(CStr(b))
    decreases |a|
  {
    var ca := LowerCode(CodeAt(a, 0));
    var cb := LowerCode(CodeAt(b, 0));
    if ca != cb then
      LowerCStrFirstDiffers(a, b);
      ca - cb
    else if ca == 0 then 0
    else
      LowerCStrStep(a, b);
      StrCaseCmp(a[1..], b[1..])
  }

  lemma CStrCons(s: string)
    requires |s| > 0 && s[0] != '\0'
    ensures CStr(s) == [s[0]] + CStr(s[1..])
  {
  }

  /** C strings whose first codes differ are different. */
  lemma CStrFirstDiffers(a: string, b: string)
    requires CodeAt(a, 0) != CodeAt(b, 0)
    ensures CStr(a) != CStr(b)
  {
    if CodeAt(a, 0) == 0 {
      assert CStr(a) == "";
      assert |CStr(b)| > 0;
    } else if CodeAt(b, 0) == 0 {
      assert CStr(b) == "";
      assert |CStr(a)| > 0;
    } else {
      assert CStr(a)[0] != CStr(b)[0];
    }
  }

  /** C strings that agree on a non-NUL first code are equal exactly when their tails are. */
  lemma CStrStep(a: string, b: string)
    requires CodeAt(a, 0) == CodeAt(b, 0) != 0
    ensures CStr(a) == CStr(b) <==> CStr(a[1..]) == CStr(b[1..])
  {
    CStrCons(a);
    CStrCons(b);
    assert a[0] == b[0];
    if CStr(a) == CStr(b) {
      assert CStr(a[1..]) == CStr(a)[1..];
      assert CStr(b[1..]) == CStr(b)[1..];
    }
  }

  lemma LowerCStrFirstDiffers(a: string, b: string)
    requires LowerCode(CodeAt(a, 0)) != LowerCode(CodeAt(b, 0))
    ensures LowerStr(CStr(a)) != LowerStr(CStr(b))
  {
    if CodeAt(a, 0) == 0 {
      assert CStr(a) == "";
      assert |CStr(b)| > 0;
    } else if CodeAt(b, 0) == 0 {
      assert CStr(b) == "";
      assert |CStr(a)| > 0;
    } else {
      assert LowerStr(CStr(a))[0] != LowerStr(CStr(b))[0];
    }
  }

  lemma LowerCStrStep(a: string, b: string)
    requires LowerCode(CodeAt(a, 0)) == LowerCode(CodeAt(b, 0)) != 0
    ensures LowerStr(CStr(a)) == LowerStr(CStr(b)) <==> LowerStr(CStr(a[1..])) == LowerStr(CStr(b[1..]))
  {
    CStrCons(a);
    CStrCons(b);
    var la := LowerStr(CStr(a));
    var lb := LowerStr(CStr(b));
    assert la == [Lower(a[0])] + LowerStr(CStr(a[1..]));
    assert lb == [Lower(b[0])] + LowerStr(CStr(b[1..]));
    assert Lower(a[0]) == Lower(b[0]);
    if la == lb {
      assert LowerStr(CStr(a[1..])) == la[1..];
      assert LowerStr(CStr(b[1..])) == lb[1..];
    }
  }
}
