/** C integers: 32-bit wrap-around, the `%d` printer and the `strtol` reader. */
module Numbers {

  const TWO_31: int := 0x8000_0000
  const TWO_32: int := 0x1_0000_0000
  const LONG_MAX: int := 0x7FFF_FFFF_FFFF_FFFF
  const LONG_MIN: int := -LONG_MAX - 1

  type uint32 = n: int | 0 <= n < TWO_32
  type int32 = n: int | -TWO_31 <= n < TWO_31

  /** `a + b` on unsigned 32-bit operands. */
  function Add32(a: uint32, b: uint32): (r: uint32)
    ensures r == a + b || r == a + b - TWO_32
    ensures r == a + b <==> a + b < TWO_32
  {
    if a + b < TWO_32 then a + b else a + b - TWO_32
  }

  /** `(int)v` for a 64-bit `v`: reduction modulo 2^32 into the signed range. */
  function ToInt32(v: int): (r: int32)
    ensures (v - r) % TWO_32 == 0
    ensures -TWO_31 <= v < TWO_31 ==> r == v
  {
    (v + TWO_31) % TWO_32 - TWO_31
  }

  /** `(unsigned int)v` for a 32-bit signed `v`. */
  function ToUint32(v: int32): (r: uint32)
    ensures v >= 0 ==> r == v
    ensures v < 0 ==> r == v + TWO_32
  {
    if v >= 0 then v else v + TWO_32
  }

  /** A C double: a number, an infinity or NaN. */
  datatype Double = Num(value: real) | Infinite(negative: bool) | NaN

  /** C's `<`, which is false for NaN on either side. */
  predicate Less(a: Double, b: Double) {
    match (a, b)
    case (Num(x), Num(y)) => x < y
    case (Num(_), Infinite(negative)) => !negative
    case (Infinite(negative), Num(_)) => negative
    case (Infinite(m), Infinite(n)) => m && !n
    case _ => false
  }

  predicate IsDigit(c: char) { '0' <= c <= '9' }

  function DigitValue(c: char): nat
    requires IsDigit(c)
  {
    c as int - '0' as int
  }

  function DigitChar(d: nat): (c: char)
    requires d < 10
    ensures IsDigit(c) && DigitValue(c) == d
  {
    ('0' as int + d) as char
  }

  predicate AllDigits(s: string) {
    forall i :: 0 <= i < |s| ==> IsDigit(s[i])
  }

  function Digits(n: nat): (s: string)
    ensures AllDigits(s) && |s| >= 1
  {
    if n < 10 then [DigitChar(n)] else Digits(n / 10) + [DigitChar(n % 10)]
  }

  /** printf("%d"). */
  function Decimal(n: int): (s: string)
    ensures |s| >= 1
  {
    if n < 0 then "-" + Digits(-n) else Digits(n)
  }

  /** The longest run of leading digits, read in base ten on top of `acc`. */
  function ReadDigits(acc: int, s: string): int
    decreases |s|
  {
    if s == "" || !IsDigit(s[0]) then acc else ReadDigits(acc * 10 + DigitValue(s[0]), s[1..])
  }

  predicate IsSpace(c: char) {
    c == ' ' || '\t' <= c <= '\r'
  }

  function SkipSpaces(s: string): string
  {
    if s != "" && IsSpace(s[0]) then SkipSpaces(s[1..]) else s
  }

  function Clamp(v: int): int {
    if v > LONG_MAX then LONG_MAX else if v < LONG_MIN then LONG_MIN else v
  }

  /** strtol(s, NULL, 10) with a 64-bit long: optional space, optional sign, digits, saturation. */
  function Strtol(s: string): int {
    var t := SkipSpaces(s);
    if t != "" && t[0] == '-' then Clamp(-ReadDigits(0, t[1..]))
    else if t != "" && t[0] == '+' then Clamp(ReadDigits(0, t[1..]))
    else Clamp(ReadDigits(0, t))
  }

  lemma {:induction false} ReadDigitsSnoc(acc: int, s: string, c: char)
    requires AllDigits(s) && IsDigit(c)
    ensures ReadDigits(acc, s + [c]) == ReadDigits(acc, s) * 10 + DigitValue(c)
    decreases |s|
  {
    if s == "" {
      assert ([c])[1..] == "";
      assert ReadDigits(acc, [c]) == ReadDigits(acc * 10 + DigitValue(c), "");
      assert s + [c] == [c];
    } else {
      assert (s + [c])[1..] == s[1..] + [c];
      ReadDigitsSnoc(acc * 10 + DigitValue(s[0]), s[1..], c);
    }
  }

  lemma {:induction false} ReadDigitsOfDigits(n: nat)
    ensures ReadDigits(0, Digits(n)) == n
  {
    if n < 10 {
      ReadDigitsSnoc(0, "", DigitChar(n));
      assert "" + [DigitChar(n)] == [DigitChar(n)];
    } else {
      ReadDigitsOfDigits(n / 10);
      ReadDigitsSnoc(0, Digits(n / 10), DigitChar(n % 10));
    }
  }

  /** Every 32-bit integer survives `%d` followed by `(int)strtol`. */
  lemma DecimalRoundTrip(n: int)
    requires -TWO_31 <= n < TWO_31
    ensures ToInt32(Strtol(Decimal(n))) == n
  {
    if n < 0 {
      ReadDigitsOfDigits(-n);
      assert Decimal(n)[1..] == Digits(-n);
    } else {
      ReadDigitsOfDigits(n);
      assert IsDigit(Digits(n)[0]);
    }
  }

  // ---- what strtol makes of any text --------------------------------------

  /** Blank space, a sign or none, the digits of `n`, and text that does not go on with a digit. */
  predicate Reads(blanks: string, sign: string, rest: string) {
    && (forall i :: 0 <= i < |blanks| ==> blanks[i] == ' ' || 9 <= blanks[i] as int <= 13)
    && (sign == "" || sign == "+" || sign == "-")
    && (rest == "" || !('0' <= rest[0] <= '9'))
  }

  lemma {:induction false} SkipSpacesOver(blanks: string, t: string)
    requires (forall i :: 0 <= i < |blanks| ==> IsSpace(blanks[i])) && (t == "" || !IsSpace(t[0]))
    ensures SkipSpaces(blanks + t) == t
  {
    if blanks == "" {
      assert blanks + t == t;
    } else {
      assert (blanks + t)[1..] == blanks[1..] + t;
      SkipSpacesOver(blanks[1..], t);
    }
  }

  lemma {:induction false} ReadDigitsStop(acc: int, ds: string, rest: string)
    requires AllDigits(ds) && (rest == "" || !IsDigit(rest[0]))
    ensures ReadDigits(acc, ds + rest) == ReadDigits(acc, ds)
    decreases |ds|
  {
    if ds == "" {
      assert ds + rest == rest;
    } else {
      assert (ds + rest)[1..] == ds[1..] + rest;
      ReadDigitsStop(acc * 10 + DigitValue(ds[0]), ds[1..], rest);
    }
  }

  /** The sign and the digits as strtol and strtoul meet them behind the blank space. */
  lemma SignedDigits(blanks: string, sign: string, ds: string, rest: string)
    requires Reads(blanks, sign, rest) && AllDigits(ds)
    requires ds == "" && sign == "" && rest != "" ==> !IsSpace(rest[0]) && rest[0] != '+' && rest[0] != '-'
    ensures var t := SkipSpaces(blanks + sign + ds + rest);
      && (sign != "" <==> t != "" && (t[0] == '+' || t[0] == '-'))
      && (sign == "-" <==> t != "" && t[0] == '-')
      && ReadDigits(0, if sign == "" then t else t[1..]) == ReadDigits(0, ds)
  {
    var t := sign + ds + rest;
    assert blanks + sign + ds + rest == blanks + t;
    SkipSpacesOver(blanks, t);
    ReadDigitsStop(0, ds, rest);
    if sign == "" { assert t == ds + rest; } else { assert t[1..] == ds + rest; }
  }

  /** A number in decimal, signed or not, is read as itself behind any blank space and whatever
      follows it; beyond 64 bits the nearest bound is read. */
  lemma StrtolReads(blanks: string, sign: string, n: nat, rest: string)
    requires Reads(blanks, sign, rest)
    ensures var v := if sign == "-" then 0 - n else n as int;
      Strtol(blanks + sign + Digits(n) + rest)
        == if v > 0x7FFF_FFFF_FFFF_FFFF then 0x7FFF_FFFF_FFFF_FFFF
           else if v < -0x8000_0000_0000_0000 then -0x8000_0000_0000_0000 else v
  {
    SignedDigits(blanks, sign, Digits(n), rest);
    ReadDigitsOfDigits(n);
  }

  /** Text without digits is read as 0. */
  lemma StrtolWithoutDigits(blanks: string, sign: string, rest: string)
    requires Reads(blanks, sign, rest)
    requires sign == "" && rest != "" ==> !IsSpace(rest[0]) && rest[0] != '+' && rest[0] != '-'
    ensures Strtol(blanks + sign + rest) == 0
  {
    assert blanks + sign + rest == blanks + sign + "" + rest;
    SignedDigits(blanks, sign, "", rest);
  }

  lemma DecimalLiterals()
    ensures Decimal(0) == "0" && Decimal(120) == "120" && Decimal(-45) == "-45"
  {
    assert Digits(1) == "1" && Digits(12) == "12" && Digits(120) == "120";
    assert Digits(4) == "4" && Digits(45) == "45";
  }

  function Pow10(k: nat): (p: nat)
    ensures p >= 1
  {
    if k == 0 then 1 else 10 * Pow10(k - 1)
  }

  lemma {:induction false} DigitsLength(n: nat, k: nat)
    requires k >= 1 && n < Pow10(k)
    ensures |Digits(n)| <= k
  {
    if n >= 10 {
      assert k >= 2 by { assert Pow10(1) == 10 * Pow10(0); }
      DigitsLength(n / 10, k - 1);
    }
  }

  /** A printed 32-bit integer takes at most eleven characters, none of which ends a bare token. */
  lemma DecimalShape(n: int)
    requires -TWO_31 <= n < TWO_31
    ensures |Decimal(n)| <= 11
    ensures forall c :: c in Decimal(n) ==> IsDigit(c) || c == '-'
  {
    assert Pow10(10) == 10_000_000_000;
    DigitsLength(if n < 0 then -n else n, 10);
  }
}
