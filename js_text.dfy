/** The JavaScript string primitives the application relies on, written out:
    whitespace and `trim()`, `startsWith`, the decimal rendering of a
    non-negative integer (`n.toString()`), `padStart(3, '0')`, `parseInt` with
    no radix, `replace(c, '')` with a one-character pattern, and a code-point
    comparison standing in for `localeCompare`. */
module JsText {
  import opened Wrappers

  // ---------------------------------------------------------------------------
  // Whitespace and trim()

  /** The characters `String.prototype.trim` and `parseInt` skip: ECMAScript's
      WhiteSpace (tab, vertical tab, form feed, space, no-break space, the byte
      order mark and the Unicode space separators) and LineTerminator. */
  predicate IsWhitespace(c: char) {
    c == '\t' || c == '\n' || c == '\U{000B}' || c == '\U{000C}' || c == '\r' ||
    c == ' ' || c == '\U{00A0}' || c == '\U{1680}' ||
    ('\U{2000}' <= c <= '\U{200A}') ||
    c == '\U{2028}' || c == '\U{2029}' || c == '\U{202F}' || c == '\U{205F}' ||
    c == '\U{3000}' || c == '\U{FEFF}'
  }

  /** Every character is whitespace (the empty string included). */
  predicate IsBlank(s: string) {
    forall i :: 0 <= i < |s| ==> IsWhitespace(s[i])
  }

  function TrimStart(s: string): (r: string)
    ensures |r| <= |s| && r == s[|s| - |r|..]
    ensures r != [] ==> !IsWhitespace(r[0])
  {
    if s != [] && IsWhitespace(s[0]) then TrimStart(s[1..]) else s
  }

  function TrimEnd(s: string): (r: string)
    ensures |r| <= |s| && r == s[..|r|]
    ensures r != [] ==> !IsWhitespace(r[|r| - 1])
  {
    if s != [] && IsWhitespace(s[|s| - 1]) then TrimEnd(s[..|s| - 1]) else s
  }

  /** `s.trim()`. */
  function Trim(s: string): string {
    TrimEnd(TrimStart(s))
  }

  /** A string is blank iff its first character is whitespace and the rest is
      blank, or it is empty. */
  lemma BlankCons(s: string)
    requires s != []
    ensures IsBlank(s) <==> IsWhitespace(s[0]) && IsBlank(s[1..])
  {
    if IsWhitespace(s[0]) && IsBlank(s[1..]) {
      forall i | 1 <= i < |s| ensures IsWhitespace(s[i]) {
        assert s[i] == s[1..][i - 1];
      }
    }
  }

  lemma BlankSnoc(s: string)
    requires s != []
    ensures IsBlank(s) <==> IsWhitespace(s[|s| - 1]) && IsBlank(s[..|s| - 1])
  {
    if IsWhitespace(s[|s| - 1]) && IsBlank(s[..|s| - 1]) {
      forall i | 0 <= i < |s| - 1 ensures IsWhitespace(s[i]) {
        assert s[i] == s[..|s| - 1][i];
      }
    }
  }

  lemma {:induction false} TrimStartEmptyIffBlank(s: string)
    ensures TrimStart(s) == [] <==> IsBlank(s)
  {
    if s != [] {
      BlankCons(s);
      if IsWhitespace(s[0]) {
        TrimStartEmptyIffBlank(s[1..]);
      }
    }
  }

  lemma {:induction false} TrimEndEmptyIffBlank(s: string)
    ensures TrimEnd(s) == [] <==> IsBlank(s)
  {
    if s != [] {
      BlankSnoc(s);
      if IsWhitespace(s[|s| - 1]) {
        TrimEndEmptyIffBlank(s[..|s| - 1]);
      }
    }
  }

  /** `!s.trim()` holds exactly for the strings made of whitespace only: the
      form's "required" check rejects these and nothing else. */
  lemma TrimEmptyIffBlank(s: string)
    ensures Trim(s) == [] <==> IsBlank(s)
  {
    var t := TrimStart(s);
    TrimStartEmptyIffBlank(s);
    TrimEndEmptyIffBlank(t);
    if t != [] {
      assert !IsWhitespace(t[0]);
      assert !IsBlank(t);
    }
  }

  // ---------------------------------------------------------------------------
  // startsWith

  predicate StartsWith(s: string, prefix: string) {
    |prefix| <= |s| && s[..|prefix|] == prefix
  }

  // ---------------------------------------------------------------------------
  // Decimal digits, toString() and padStart(3, '0')

  predicate IsDigit(c: char) {
    '0' <= c <= '9'
  }

  predicate IsDigits(s: string) {
    forall i :: 0 <= i < |s| ==> IsDigit(s[i])
  }

  function DigitOf(c: char): (d: nat)
    requires IsDigit(c)
    ensures d < 10
  {
    (c as int) - ('0' as int)
  }

  function DigitChar(d: nat): (c: char)
    requires d < 10
    ensures IsDigit(c) && DigitOf(c) == d
  {
    (('0' as int) + d) as char
  }

  /** The number a string of decimal digits denotes (most significant first). */
  function DigitsValue(s: string): nat
    requires IsDigits(s)
  {
    if s == [] then 0 else DigitsValue(s[..|s| - 1]) * 10 + DigitOf(s[|s| - 1])
  }

  /** `n.toString()` for a non-negative integer. The string is a digit string
      denoting n, with no leading zero unless n is zero. */
  function Decimal(n: nat): (s: string)
    ensures |s| >= 1 && IsDigits(s) && DigitsValue(s) == n
    ensures n >= 1 ==> s[0] != '0'
    ensures n == 0 ==> s == "0"
  {
    if n < 10 then [DigitChar(n)]
    else
      var init := Decimal(n / 10);
      var s := init + [DigitChar(n % 10)];
      assert s[..|s| - 1] == init;
      s
  }

  /** The number of digits of `n.toString()`. */
  lemma {:induction false} DecimalLength(n: nat)
    ensures n < 10 ==> |Decimal(n)| == 1
    ensures 10 <= n < 100 ==> |Decimal(n)| == 2
    ensures 100 <= n < 1000 ==> |Decimal(n)| == 3
    ensures 1000 <= n ==> |Decimal(n)| >= 4
  {
    if n >= 10 {
      DecimalLength(n / 10);
    }
  }

  function Zeros(k: nat): (z: string)
    ensures |z| == k && IsDigits(z)
  {
    seq(k, _ => '0')
  }

  /** `s.padStart(3, '0')`: strings shorter than three get zeros in front,
      longer ones are left as they are. */
  function PadStart3(s: string): string {
    if |s| >= 3 then s else Zeros(3 - |s|) + s
  }

  lemma {:induction false} ZerosValue(k: nat)
    ensures DigitsValue(Zeros(k)) == 0
  {
    if k > 0 {
      assert Zeros(k)[..k - 1] == Zeros(k - 1);
      ZerosValue(k - 1);
    }
  }

  /** Leading zeros do not change the value of a digit string. */
  lemma {:induction false} LeadingZerosValue(k: nat, s: string)
    requires IsDigits(s)
    ensures IsDigits(Zeros(k) + s) && DigitsValue(Zeros(k) + s) == DigitsValue(s)
  {
    var z := Zeros(k) + s;
    assert IsDigits(z) by {
      forall i | 0 <= i < |z| ensures IsDigit(z[i]) {
        if i < k { assert z[i] == Zeros(k)[i]; } else { assert z[i] == s[i - k]; }
      }
    }
    if s == [] {
      assert z == Zeros(k);
      ZerosValue(k);
    } else {
      var init := s[..|s| - 1];
      assert z[..|z| - 1] == Zeros(k) + init;
      assert z[|z| - 1] == s[|s| - 1];
      LeadingZerosValue(k, init);
    }
  }

  /** The padded rendering of n is a digit string of length max(3, |toString|),
      ends with the unpadded rendering (nothing is truncated) and still
      denotes n. */
  lemma PaddedDecimal(n: nat)
    ensures var d, p := Decimal(n), PadStart3(Decimal(n));
      IsDigits(p) && DigitsValue(p) == n &&
      |p| == (if |d| >= 3 then |d| else 3) &&
      p[|p| - |d|..] == d
  {
    var d := Decimal(n);
    if |d| < 3 {
      LeadingZerosValue(3 - |d|, d);
      assert PadStart3(d)[3 - |d|..] == d;
    }
  }

  /** Distinct sequence values get distinct padded renderings. */
  lemma PaddedDecimalInjective(a: nat, b: nat)
    requires PadStart3(Decimal(a)) == PadStart3(Decimal(b))
    ensures a == b
  {
    PaddedDecimal(a);
    PaddedDecimal(b);
  }

  /** How `padStart(3, '0')` renders 1-9, 10-99 and 1000 upward. */
  lemma PaddedDecimalShape(n: nat)
    ensures 1 <= n <= 9 ==> PadStart3(Decimal(n)) == "00" + [DigitChar(n)]
    ensures 10 <= n <= 99 ==> PadStart3(Decimal(n)) == "0" + Decimal(n)
    ensures 100 <= n ==> PadStart3(Decimal(n)) == Decimal(n)
    ensures 1000 <= n ==> |PadStart3(Decimal(n))| >= 4
  {
    DecimalLength(n);
    if n < 10 {
      assert Zeros(2) == "00";
    } else if n < 100 {
      assert Zeros(1) == "0";
    }
  }

  // ---------------------------------------------------------------------------
  // parseInt(s) with no radix

  predicate IsHexDigit(c: char) {
    IsDigit(c) || 'a' <= c <= 'f' || 'A' <= c <= 'F'
  }

  function HexDigitOf(c: char): (d: nat)
    requires IsHexDigit(c)
    ensures d < 16
  {
    if IsDigit(c) then DigitOf(c)
    else if 'a' <= c <= 'f' then (c as int) - ('a' as int) + 10
    else (c as int) - ('A' as int) + 10
  }

  /** Where `parseInt` is while reading: before the number (white space may
      still be skipped), after the optional sign, before the first digit of a
      hexadecimal or decimal number, or inside one with the value read so
      far. */
  datatype ScanState =
    | Leading
    | Unsigned(negative: bool)
    | HexFirst(negative: bool)
    | HexMore(negative: bool, value: nat)
    | DecFirst(negative: bool)
    | DecMore(negative: bool, value: nat)

  function Rank(st: ScanState): nat {
    match st
    case Leading => 3
    case Unsigned(_) => 2
    case HexFirst(_) => 1
    case DecFirst(_) => 1
    case _ => 0
  }

  function Signed(negative: bool, v: nat): int {
    if negative then -(v as int) else v
  }

  /** The rest of `parseInt` from the given state: digits are read up to the
      first character that is not one; `None` stands for NaN (no digit). */
  function Scan(s: string, st: ScanState): Option<int>
    decreases |s|, Rank(st)
  {
    match st
    case Leading =>
      if s != [] && IsWhitespace(s[0]) then Scan(s[1..], Leading)
      else if s != [] && (s[0] == '-' || s[0] == '+') then Scan(s[1..], Unsigned(s[0] == '-'))
      else Scan(s, Unsigned(false))
    case Unsigned(neg) =>
      if |s| >= 2 && s[0] == '0' && (s[1] == 'x' || s[1] == 'X') then Scan(s[2..], HexFirst(neg))
      else Scan(s, DecFirst(neg))
    case HexFirst(neg) =>
      if s != [] && IsHexDigit(s[0]) then Scan(s[1..], HexMore(neg, HexDigitOf(s[0]))) else None
    case HexMore(neg, v) =>
      if s != [] && IsHexDigit(s[0]) then Scan(s[1..], HexMore(neg, v * 16 + HexDigitOf(s[0])))
      else Some(Signed(neg, v))
    case DecFirst(neg) =>
      if s != [] && IsDigit(s[0]) then Scan(s[1..], DecMore(neg, DigitOf(s[0]))) else None
    case DecMore(neg, v) =>
      if s != [] && IsDigit(s[0]) then Scan(s[1..], DecMore(neg, v * 10 + DigitOf(s[0])))
      else Some(Signed(neg, v))
  }

  /** `parseInt(s)` with no radix: skip leading white space, take an optional
      sign, read hexadecimal after a `0x`/`0X` prefix and decimal otherwise,
      up to the first character that is not a digit; `None` stands for NaN. */
  function ParseInt(s: string): Option<int> {
    Scan(s, Leading)
  }

  /** Reading decimal digits accumulates their value. */
  lemma {:induction false} ScanDigits(done: string, rest: string, neg: bool)
    requires done != [] && IsDigits(done) && IsDigits(rest)
    ensures IsDigits(done + rest)
    ensures Scan(rest, DecMore(neg, DigitsValue(done))) == Some(Signed(neg, DigitsValue(done + rest)))
    decreases |rest|
  {
    if rest == [] {
      assert done + rest == done;
    } else {
      var next := done + [rest[0]];
      assert IsDigits(next);
      assert next[..|next| - 1] == done;
      ScanDigits(next, rest[1..], neg);
      assert next + rest[1..] == done + rest;
    }
  }

  /** `parseInt` reads a positive number's own rendering back. */
  lemma ParseIntDecimal(n: nat)
    requires n >= 1
    ensures ParseInt(Decimal(n)) == Some(n)
  {
    var s := Decimal(n);
    assert IsDigit(s[0]) && s[0] != '0';
    assert !IsWhitespace(s[0]) && s[0] != '-' && s[0] != '+';
    assert DigitsValue([s[0]]) == DigitOf(s[0]) by {
      assert [s[0]][..0] == [];
    }
    ScanDigits([s[0]], s[1..], false);
    assert [s[0]] + s[1..] == s;
    assert Scan(s, Leading) == Scan(s, Unsigned(false));
    assert Scan(s, Unsigned(false)) == Scan(s, DecFirst(false));
    assert Scan(s, DecFirst(false)) == Scan(s[1..], DecMore(false, DigitOf(s[0])));
  }

  // ---------------------------------------------------------------------------
  // replace(c, '') and a stand-in for localeCompare

  /** `s.replace(c, '')` with a one-character pattern: drops the first
      occurrence of c, if any. */
  function RemoveFirst(s: string, c: char): (r: string)
    ensures c !in s ==> r == s
    ensures c in s ==> |r| == |s| - 1
  {
    if s == [] then []
    else if s[0] == c then s[1..]
    else [s[0]] + RemoveFirst(s[1..], c)
  }

  /** The occurrence that `replace` drops is the first one: with i the
      first index holding c, everything before i is kept, and so is
      everything after it. */
  lemma {:induction false} RemoveFirstDropsFirst(s: string, c: char, i: nat)
    requires i < |s| && s[i] == c && c !in s[..i]
    ensures RemoveFirst(s, c) == s[..i] + s[i + 1..]
  {
    if i == 0 {
      assert s[..0] == [];
    } else {
      assert s[0] in s[..i];
      var t := s[1..];
      assert t[..i - 1] == s[1..i];
      assert c !in t[..i - 1];
      RemoveFirstDropsFirst(t, c, i - 1);
      assert s[..i] == [s[0]] + t[..i - 1];
      assert s[i + 1..] == t[i..];
    }
  }

  /** Lexicographic order on code points (a Dafny string is a sequence of
      Unicode scalar values; this agrees with UTF-16 code-unit order except
      for characters above U+FFFF): negative, zero or positive as a sorts
      before, with or after b. */
  function CodePointCompare(a: string, b: string): (r: int)
    ensures r == 0 <==> a == b
  {
    if a == [] && b == [] then 0
    else if a == [] then -1
    else if b == [] then 1
    else if a[0] < b[0] then -1
    else if a[0] > b[0] then 1
    else CodePointCompare(a[1..], b[1..])
  }

  /** The comparison is antisymmetric: a sorts before b exactly when b sorts
      after a. */
  lemma {:induction false} CodePointCompareFlips(a: string, b: string)
    ensures CodePointCompare(a, b) < 0 <==> CodePointCompare(b, a) > 0
  {
    if a != [] && b != [] && a[0] == b[0] {
      CodePointCompareFlips(a[1..], b[1..]);
    }
  }
}
