/** The few pieces of the Go standard library the command-line front end relies on for its
    argument checks: `strings.Split` with a one-character separator (and `strings.Join`, its
    inverse), `strconv.Atoi` (and `strconv.Itoa`, its inverse) on a 64-bit platform, and the
    wrapping conversion `int32(x)`. */
module GoStd {

  datatype Option<T> = None | Some(value: T)

  datatype Result<T, E> = Ok(value: T) | Err(error: E)

  /** Number of occurrences of `c` in `s`. */
  function Count(s: string, c: char): nat
  {
    if s == [] then 0 else (if s[0] == c then 1 else 0) + Count(s[1..], c)
  }

  /** `strings.Split(s, string(sep))`: the pieces of `s` between the occurrences of `sep`.
      The empty string gives one empty piece, a trailing separator gives a trailing empty
      piece. */
  function Split(s: string, sep: char): (parts: seq<string>)
    ensures |parts| >= 1
  {
    if s == [] then [""]
    else
      var rest := Split(s[1..], sep);
      if s[0] == sep then [""] + rest else [[s[0]] + rest[0]] + rest[1..]
  }

  /** `strings.Join(parts, string(sep))`. */
  function Join(parts: seq<string>, sep: char): string
    requires |parts| >= 1
  {
    if |parts| == 1 then parts[0] else parts[0] + [sep] + Join(parts[1..], sep)
  }

  /** `strings.Split` returns one more piece than there are separators. */
  lemma {:induction false} SplitLength(s: string, sep: char)
    ensures |Split(s, sep)| == Count(s, sep) + 1
  {
    if s != [] {
      SplitLength(s[1..], sep);
    }
  }

  /** No piece contains the separator. */
  lemma {:induction false} SplitPiecesFree(s: string, sep: char)
    ensures forall i :: 0 <= i < |Split(s, sep)| ==> sep !in Split(s, sep)[i]
  {
    if s != [] {
      SplitPiecesFree(s[1..], sep);
      var rest := Split(s[1..], sep);
      if s[0] != sep {
        assert forall i :: 1 <= i < |Split(s, sep)| ==> Split(s, sep)[i] == rest[i];
        assert sep !in rest[0];
        assert Split(s, sep)[0] == [s[0]] + rest[0];
      }
    }
  }

  /** Joining the pieces with the separator gives back the original string. */
  lemma {:induction false} JoinSplit(s: string, sep: char)
    ensures Join(Split(s, sep), sep) == s
  {
    if s != [] {
      JoinSplit(s[1..], sep);
      var rest := Split(s[1..], sep);
      if s[0] == sep {
        assert ([""] + rest)[1..] == rest;
      } else {
        var parts := [[s[0]] + rest[0]] + rest[1..];
        if |rest| == 1 {
          assert parts == [[s[0]] + rest[0]];
        } else {
          assert parts[1..] == rest[1..];
          assert rest == [rest[0]] + rest[1..];
          assert Join(rest, sep) == rest[0] + [sep] + Join(rest[1..], sep);
        }
      }
    }
  }

  /** Splitting a join of separator-free pieces gives back the pieces. */
  lemma {:induction false} SplitJoin(parts: seq<string>, sep: char)
    requires |parts| >= 1
    requires forall i :: 0 <= i < |parts| ==> sep !in parts[i]
    ensures Split(Join(parts, sep), sep) == parts
  {
    if |parts| == 1 {
      SplitNoSep(parts[0], sep);
    } else {
      SplitJoin(parts[1..], sep);
      SplitPrefix(parts[0], Join(parts[1..], sep), sep);
      assert [parts[0]] + parts[1..] == parts;
    }
  }

  /** A string without the separator is a single piece. */
  lemma {:induction false} SplitNoSep(s: string, sep: char)
    requires sep !in s
    ensures Split(s, sep) == [s]
  {
    if s != [] {
      SplitNoSep(s[1..], sep);
      assert [s[0]] + s[1..] == s;
    }
  }

  /** A separator-free head followed by the separator splits off as the first piece. */
  lemma {:induction false} SplitPrefix(head: string, tail: string, sep: char)
    requires sep !in head
    ensures Split(head + [sep] + tail, sep) == [head] + Split(tail, sep)
  {
    if head != [] {
      SplitPrefix(head[1..], tail, sep);
      assert (head + [sep] + tail)[1..] == head[1..] + [sep] + tail;
      assert [head[0]] + head[1..] == head;
    } else {
      assert (head + [sep] + tail)[1..] == tail;
    }
  }

  // ---------------------------------------------------------------------------------------
  // strconv.Atoi / strconv.Itoa

  const MinInt64: int := -0x8000_0000_0000_0000
  const MaxInt64: int := 0x7FFF_FFFF_FFFF_FFFF
  const MaxUint64: int := 0xFFFF_FFFF_FFFF_FFFF

  datatype AtoiError = ErrSyntax | ErrRange

  predicate IsDigit(ch: char)
  {
    '0' <= ch <= '9'
  }

  predicate AllDigits(s: string)
  {
    forall i :: 0 <= i < |s| ==> IsDigit(s[i])
  }

  /** Value of a string of decimal digits, read left to right. */
  function DigitsValue(s: string): nat
    requires AllDigits(s)
  {
    if s == [] then 0
    else DigitsValue(s[..|s| - 1]) * 10 + (s[|s| - 1] as int - '0' as int)
  }

  /** The text after an optional leading `+` or `-`. */
  function Magnitude(s: string): (m: string)
    ensures |m| <= |s| && m == s[|s| - |m|..]
  {
    if s != [] && (s[0] == '+' || s[0] == '-') then s[1..] else s
  }

  /** The longest run of digits at the start of `s`. */
  function LeadingDigits(s: string): (d: string)
    ensures d <= s && AllDigits(d)
    ensures |d| < |s| ==> !IsDigit(s[|d|])
  {
    if s != [] && IsDigit(s[0]) then [s[0]] + LeadingDigits(s[1..]) else []
  }

  /** The text Atoi accepts: an optional sign and at least one decimal digit. */
  predicate IsDecimal(s: string)
  {
    var body := Magnitude(s);
    body != [] && AllDigits(body)
  }

  /** `strconv.Atoi` on a 64-bit platform: an optional `+` or `-` followed by one or more
      ASCII digits, whose value must fit a 64-bit `int`. The digits are read left to right
      and reading stops with a range error as soon as the value passes 2^64 - 1, so a long
      enough run of leading digits is a range error even when a non-digit follows it. */
  function Atoi(s: string): (r: Result<int, AtoiError>)
    ensures r.Ok? ==> IsDecimal(s) && MinInt64 <= r.value <= MaxInt64
    ensures DigitsValue(LeadingDigits(Magnitude(s))) > MaxUint64 ==> r == Err(ErrRange)
    ensures !IsDecimal(s) && DigitsValue(LeadingDigits(Magnitude(s))) <= MaxUint64 ==> r == Err(ErrSyntax)
  {
    var body := Magnitude(s);
    var digits := LeadingDigits(body);
    if DigitsValue(digits) > MaxUint64 then Err(ErrRange)
    else if body == [] || |digits| < |body| then Err(ErrSyntax)
    else
      assert digits == body;
      var n: int := if s[0] == '-' then -(DigitsValue(digits) as int) else DigitsValue(digits);
      if n < MinInt64 || MaxInt64 < n then Err(ErrRange) else Ok(n)
  }

  /** A string of digits is its own leading run. */
  lemma {:induction false} LeadingDigitsAll(s: string)
    requires AllDigits(s)
    ensures LeadingDigits(s) == s
  {
    if s != [] {
      LeadingDigitsAll(s[1..]);
    }
  }

  function DigitChar(d: nat): char
    requires d < 10
  {
    ('0' as int + d) as char
  }

  /** Decimal digits of `n`, most significant first, no leading zeros. */
  function FormatNat(n: nat): (s: string)
    ensures s != [] && AllDigits(s)
  {
    if n < 10 then [DigitChar(n)] else FormatNat(n / 10) + [DigitChar(n % 10)]
  }

  /** `strconv.Itoa`. */
  function Itoa(n: int): string
  {
    if n < 0 then "-" + FormatNat(-n) else FormatNat(n)
  }

  lemma {:induction false} DigitsOfFormat(n: nat)
    ensures DigitsValue(FormatNat(n)) == n
  {
    var s := FormatNat(n);
    if n >= 10 {
      DigitsOfFormat(n / 10);
      assert s[..|s| - 1] == FormatNat(n / 10);
    }
  }

  /** Atoi reads back every 64-bit integer that Itoa writes. */
  lemma AtoiItoa(n: int)
    requires MinInt64 <= n <= MaxInt64
    ensures Atoi(Itoa(n)) == Ok(n)
  {
    var s := Itoa(n);
    if n < 0 {
      var body := FormatNat(-n);
      DigitsOfFormat(-n);
      LeadingDigitsAll(body);
      assert s[0] == '-' && s[1..] == body;
      assert Magnitude(s) == body;
    } else {
      var body := FormatNat(n);
      DigitsOfFormat(n);
      LeadingDigitsAll(body);
      assert s == body && IsDigit(body[0]);
      assert Magnitude(s) == body;
    }
  }

  function Pow10(k: nat): (p: nat)
    ensures p >= 1
  {
    if k == 0 then 1 else 10 * Pow10(k - 1)
  }

  lemma {:induction false} PowMonotone(j: nat, k: nat)
    requires j <= k
    ensures Pow10(j) <= Pow10(k)
  {
    if j < k {
      PowMonotone(j, k - 1);
    }
  }

  /** A run of digits led by a 2 or more is worth at least twice ten to the number of digits
      after the first. */
  lemma {:induction false} LedByTwoOrMore(d: string)
    requires d != [] && AllDigits(d) && d[0] >= '2'
    ensures DigitsValue(d) >= 2 * Pow10(|d| - 1)
  {
    if |d| > 1 {
      var init := d[..|d| - 1];
      LedByTwoOrMore(init);
      assert DigitsValue(d) >= DigitsValue(init) * 10;
    }
  }

  /** On text made of an optional sign and digits, Atoi returns the signed value of the
      digits when a 64-bit `int` holds it, and a range error otherwise. So `+5` reads as 5,
      `007` as 7 and `-0` as 0, and `9223372036854775808` is a range error. */
  lemma AtoiDecimal(s: string)
    requires IsDecimal(s)
    ensures var v := if s[0] == '-' then -(DigitsValue(Magnitude(s)) as int) else DigitsValue(Magnitude(s)) as int;
      Atoi(s) == if MinInt64 <= v <= MaxInt64 then Ok(v) else Err(ErrRange)
  {
    LeadingDigitsAll(Magnitude(s));
  }

  /** Itoa writes only a minus sign and digits. */
  lemma ItoaChars(n: int)
    ensures forall i :: 0 <= i < |Itoa(n)| ==> Itoa(n)[i] == '-' || IsDigit(Itoa(n)[i])
  {
    if n < 0 {
      var body := FormatNat(-n);
      assert Itoa(n) == "-" + body;
      assert forall i :: 1 <= i < |Itoa(n)| ==> Itoa(n)[i] == body[i - 1];
    }
  }

  /** The leading run of digits stops at the first non-digit, or at the end. */
  lemma {:induction false} LeadingDigitsStop(digits: string, rest: string)
    requires AllDigits(digits)
    requires rest == [] || !IsDigit(rest[0])
    ensures LeadingDigits(digits + rest) == digits
  {
    if digits != [] {
      LeadingDigitsStop(digits[1..], rest);
      assert (digits + rest)[1..] == digits[1..] + rest;
    }
  }

  /** Twenty digits or more, led by a digit of at least 2, overflow `uint64` before the
      reader reaches whatever follows them: with or without a sign, and whether the text
      goes on with a non-digit (`99999999999999999999x`) or ends, Atoi reports a range
      error, never a syntax error. */
  lemma OverflowBeforeJunk(sign: string, digits: string, rest: string)
    requires sign == "" || sign == "-" || sign == "+"
    requires AllDigits(digits) && |digits| >= 20 && digits[0] >= '2'
    requires rest == [] || !IsDigit(rest[0])
    ensures Atoi(sign + digits + rest) == Err(ErrRange)
  {
    LeadingDigitsStop(digits, rest);
    TwentyDigitsOverflow(digits);
    var text := sign + digits + rest;
    assert Magnitude(text) == digits + rest by {
      if sign == "" {
        assert text == digits + rest;
      } else {
        assert text[1..] == digits + rest;
      }
    }
  }

  /** Ten to the nineteenth, the smallest twenty-digit number. */
  lemma Pow10Nineteen()
    ensures Pow10(19) == 10_000_000_000_000_000_000
  {
    assert Pow10(5) == 100_000;
    assert Pow10(10) == 10_000_000_000;
    assert Pow10(15) == 1_000_000_000_000_000;
  }

  /** Twenty digits led by a 2 or more are worth more than 2^64 - 1. */
  lemma TwentyDigitsOverflow(digits: string)
    requires AllDigits(digits) && |digits| >= 20 && digits[0] >= '2'
    ensures DigitsValue(digits) > MaxUint64
  {
    LedByTwoOrMore(digits);
    PowMonotone(19, |digits| - 1);
    Pow10Nineteen();
  }

  // ---------------------------------------------------------------------------------------
  // int32(x)

  newtype int32 = x: int | -0x8000_0000 <= x < 0x8000_0000

  /** Go's conversion `int32(x)` of a 64-bit `int`: keeps the low 32 bits, read as two's
      complement. */
  function ToInt32(x: int): (r: int32)
    ensures (x - r as int) % 0x1_0000_0000 == 0
    ensures -0x8000_0000 <= x < 0x8000_0000 ==> r as int == x
  {
    ((x + 0x8000_0000) % 0x1_0000_0000 - 0x8000_0000) as int32
  }
}
