/** The machine integers of the service and the two text conversions it relies on:
    `fmt`'s `%d` (used to build object names) and `strconv.Atoi` (used to read ids
    out of URL paths). Both are Go library code; they are modelled here after their
    implementation on a 64-bit platform, where `int` and `uint` are 64 bits wide. */
module Numbers {

  const MaxUint64: int := 0xFFFF_FFFF_FFFF_FFFF
  const MaxInt64: int := 0x7FFF_FFFF_FFFF_FFFF
  const MinInt64: int := -0x8000_0000_0000_0000

  type Uint64 = x: int | 0 <= x <= 0xFFFF_FFFF_FFFF_FFFF
  type Uint32 = x: int | 0 <= x <= 0xFFFF_FFFF
  type Int64 = x: int | -0x8000_0000_0000_0000 <= x <= 0x7FFF_FFFF_FFFF_FFFF
  type Byte = x: int | 0 <= x < 0x100

  predicate IsDigit(c: char) {
    '0' <= c <= '9'
  }

  function DigitValue(c: char): (d: nat)
    requires IsDigit(c)
    ensures d < 10
  {
    c as int - '0' as int
  }

  function DigitChar(d: nat): (c: char)
    requires d < 10
    ensures IsDigit(c) && DigitValue(c) == d
  {
    ('0' as int + d) as char
  }

  /** `fmt`'s `%d` of a non-negative integer: its decimal digits, most significant
      first, without leading zeros. */
  function Decimal(n: nat): (s: string)
    ensures |s| > 0 && forall i | 0 <= i < |s| :: IsDigit(s[i])
    ensures |s| > 1 ==> s[0] != '0'
  {
    if n < 10 then [DigitChar(n)] else Decimal(n / 10) + [DigitChar(n % 10)]
  }

  /** `fmt`'s `%d` of a signed integer. */
  function FormatInt(i: int): (s: string)
    ensures |s| > 0
    ensures s[0] == '-' <==> i < 0
  {
    if i < 0 then "-" + Decimal(-i) else Decimal(i)
  }

  /** Where the digit loop of `strconv.ParseUint(s, 10, 64)` stands once it has read
      every character of `s`: the value read so far, a syntax error (a character that
      is not a decimal digit), or a range error. The loop returns at the first error,
      so once it has failed, the characters after that point are never looked at. */
  datatype Scan = Digits(value: Uint64) | Syntax | Overflow

  function ScanUint(s: string): (r: Scan)
    ensures r.Digits? ==> forall i | 0 <= i < |s| :: IsDigit(s[i])
    ensures (forall i | 0 <= i < |s| :: IsDigit(s[i])) ==> r != Syntax
  {
    if s == [] then Digits(0)
    else
      var last := s[|s| - 1];
      match ScanUint(s[..|s| - 1])
      case Syntax => Syntax
      case Overflow => Overflow
      case Digits(v) =>
        if !IsDigit(last) then Syntax
        else if v * 10 + DigitValue(last) > MaxUint64 then Overflow
        else Digits(v * 10 + DigitValue(last))
  }

  /** `strconv.Atoi`, keeping only the value (the callers discard the error): an
      optionally signed decimal numeral gives its value, clamped to the nearest
      64-bit bound when out of range; the empty text and a lone sign give 0. Other
      text gives 0 when the digit loop meets a non-digit before the digits read so
      far overflow, but the nearest bound when they overflow first: the loop returns
      at its first error and never reads the rest. */
  function Atoi(s: string): (r: Int64)
    ensures r < 0 ==> |s| > 1 && s[0] == '-'
    ensures r > 0 ==> |s| > 0 && s[0] != '-'
  {
    if s == [] then 0
    else
      var negative := s[0] == '-';
      var body := if s[0] == '-' || s[0] == '+' then s[1..] else s;
      if body == [] then 0
      else
        match ScanUint(body)
        case Syntax => 0
        case Overflow => if negative then MinInt64 else MaxInt64
        case Digits(u) =>
          if !negative then (if u > MaxInt64 then MaxInt64 else u)
          else (if u > -MinInt64 then MinInt64 else -(u as int))
  }

  /** Reading back the decimal rendering of a number gives the number, or a range
      error once the number no longer fits in 64 bits. */
  lemma {:induction false} ScanDecimal(n: nat)
    ensures ScanUint(Decimal(n)) == if n <= MaxUint64 then Digits(n) else Overflow
  {
    var s := Decimal(n);
    if n < 10 {
      assert s[..|s| - 1] == [];
    } else {
      assert s[..|s| - 1] == Decimal(n / 10);
      ScanDecimal(n / 10);
    }
  }

  /** The decimal rendering of 64-bit values is one-to-one. */
  lemma DecimalInjective(a: Uint64, b: Uint64)
    requires Decimal(a) == Decimal(b)
    ensures a == b
  {
    ScanDecimal(a);
    ScanDecimal(b);
  }

  /** A non-digit met while the digits before it still fit in 64 bits stops the loop
      with a syntax error, whatever follows it. */
  lemma {:induction false} ScanSyntaxAt(s: string, k: nat)
    requires k < |s| && !IsDigit(s[k]) && ScanUint(s[..k]).Digits?
    ensures ScanUint(s) == Syntax
  {
    if |s| == k + 1 {
      assert s[..|s| - 1] == s[..k];
    } else {
      var prefix := s[..|s| - 1];
      assert prefix[..k] == s[..k] && prefix[k] == s[k];
      ScanSyntaxAt(prefix, k);
    }
  }

  /** Once the digits read overflow, the loop stops with a range error, whatever
      follows, non-digits included. */
  lemma {:induction false} ScanOverflowSticks(s: string, rest: string)
    requires ScanUint(s) == Overflow
    ensures ScanUint(s + rest) == Overflow
    decreases |rest|
  {
    if rest != [] {
      var t := s + rest;
      assert t[..|t| - 1] == s + rest[..|rest| - 1];
      ScanOverflowSticks(s, rest[..|rest| - 1]);
    } else {
      assert s + rest == s;
    }
  }

  /** `sign + digits` is text on which Atoi meets the non-digit at index k of
      `digits` before the digits in front of it overflow: a numeral with a stray
      character in it (`12x`, ` 7`, `1.5`, `--3`). */
  predicate MalformedAt(sign: string, digits: string, k: nat) {
    && (sign == "" || sign == "+" || sign == "-")
    && k < |digits| && !IsDigit(digits[k]) && ScanUint(digits[..k]).Digits?
    && (sign == "" ==> digits[0] != '+' && digits[0] != '-')
  }

  /** Atoi reads a numeral with a stray character in it as 0. */
  lemma AtoiMalformed(sign: string, digits: string, k: nat)
    requires MalformedAt(sign, digits, k)
    ensures Atoi(sign + digits) == 0
  {
    var s := sign + digits;
    if sign == "" {
      assert s == digits;
    } else {
      assert s[1..] == digits;
    }
    ScanSyntaxAt(digits, k);
  }

  /** Atoi reads a numeral too large for 64 bits followed by anything, non-digits
      included, as the largest int: the loop stops at the overflow before it reaches
      the stray characters. */
  lemma AtoiOverflowIgnoresRest(n: nat, rest: string)
    requires n > MaxUint64
    ensures Atoi(Decimal(n) + rest) == MaxInt64
  {
    ScanDecimal(n);
    ScanOverflowSticks(Decimal(n), rest);
    var s := Decimal(n) + rest;
    assert s[0] == Decimal(n)[0];
  }

  /** The three stray-character texts named above are malformed in this sense. */
  lemma MalformedExamples()
    ensures MalformedAt("", "12x", 2) && MalformedAt("", " 7", 0) && MalformedAt("", "1.5", 1)
  {
    assert "12x"[..2] == "12" && "1.5"[..1] == "1";
    assert "12"[..1] == "1" && "1"[..0] == [] && "12"[1] == '2';
  }

  /** A leading zero does not change what the digit loop reads, whatever follows. */
  lemma {:induction false} ScanLeadingZero(d: string)
    ensures ScanUint(['0'] + d) == ScanUint(d)
    decreases |d|
  {
    var s := ['0'] + d;
    if d == [] {
      assert s[..|s| - 1] == [];
    } else {
      assert s[..|s| - 1] == ['0'] + d[..|d| - 1];
      assert d[|d| - 1] == s[|s| - 1];
      ScanLeadingZero(d[..|d| - 1]);
    }
  }

  /** Atoi reads text padded with leading zeros as the unpadded text, provided the
      text does not itself start with a sign. */
  lemma {:induction false} AtoiZeroPadded(zeros: string, d: string)
    requires forall i | 0 <= i < |zeros| :: zeros[i] == '0'
    requires d != [] ==> d[0] != '+' && d[0] != '-'
    ensures Atoi(zeros + d) == Atoi(d)
    decreases |zeros|
  {
    if zeros != [] {
      var rest := zeros[1..] + d;
      assert zeros + d == ['0'] + rest;
      AtoiZeroPadded(zeros[1..], d);
      ScanLeadingZero(rest);
      assert rest != [] ==> rest[0] != '+' && rest[0] != '-' by {
        if rest != [] && zeros[1..] != [] { assert rest[0] == zeros[1]; }
      }
    } else {
      assert zeros + d == d;
    }
  }

  /** A leading '+' is dropped: Atoi reads `+s` as `s` when `s` has no sign of its own. */
  lemma AtoiPlusSign(s: string)
    requires s != [] ==> s[0] != '+' && s[0] != '-'
    ensures Atoi("+" + s) == Atoi(s)
  {
    assert ("+" + s)[1..] == s;
  }

  /** Atoi reads a numeral padded with zeros, with or without a leading '+', as the
      numeral's value, clamped to the largest int. */
  lemma AtoiPaddedDecimal(zeros: string, n: nat)
    requires forall i | 0 <= i < |zeros| :: zeros[i] == '0'
    ensures Atoi(zeros + Decimal(n)) == if n <= MaxInt64 then n else MaxInt64
    ensures Atoi("+" + zeros + Decimal(n)) == if n <= MaxInt64 then n else MaxInt64
  {
    var s := zeros + Decimal(n);
    AtoiDecimal(n);
    AtoiZeroPadded(zeros, Decimal(n));
    assert s[0] != '+' && s[0] != '-' by {
      if zeros != [] { assert s[0] == zeros[0]; } else { assert s[0] == Decimal(n)[0]; }
    }
    AtoiPlusSign(s);
    assert "+" + zeros + Decimal(n) == "+" + s;
  }

  /** Atoi reads an unsigned numeral as its value, clamped to the largest int. */
  lemma AtoiDecimal(n: nat)
    ensures Atoi(Decimal(n)) == if n <= MaxInt64 then n else MaxInt64
  {
    ScanDecimal(n);
  }

  /** Atoi reads a negative numeral as its value, clamped to the smallest int. */
  lemma AtoiNegativeDecimal(n: nat)
    ensures Atoi("-" + Decimal(n)) == if n <= -MinInt64 then -(n as int) else MinInt64
  {
    var s := "-" + Decimal(n);
    assert s[1..] == Decimal(n);
    ScanDecimal(n);
  }

  /** Reading back `%d` of a 64-bit int gives the same int. */
  lemma AtoiFormatInt(i: Int64)
    ensures Atoi(FormatInt(i)) == i
  {
    if i < 0 {
      AtoiNegativeDecimal(-(i as int));
    } else {
      AtoiDecimal(i);
    }
  }

  /** The rendering of 64-bit ints is one-to-one. */
  lemma FormatIntInjective(a: Int64, b: Int64)
    requires FormatInt(a) == FormatInt(b)
    ensures a == b
  {
    AtoiFormatInt(a);
    AtoiFormatInt(b);
  }

  /** Text with no digit in it reads as 0, so an absent path variable (read as the
      empty text) and a word both read as 0. */
  lemma AtoiWithoutDigits(s: string)
    requires forall k | 0 <= k < |s| :: !IsDigit(s[k])
    ensures Atoi(s) == 0
  {
    if s != [] {
      var body := if s[0] == '-' || s[0] == '+' then s[1..] else s;
      if body != [] {
        assert body[0] == s[|s| - |body|] && body[..0] == [];
        ScanSyntaxAt(body, 0);
      }
    }
  }
}
