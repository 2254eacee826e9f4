/** Numbers as text: what the printing loops produce, how long it is, and what parsing it gives back. */
module Numerals {

  const INT_MIN: int := -0x8000_0000
  const INT_MAX: int := 0x7fff_ffff

  /** Arithmetic in a 32-bit signed register. */
  function Wrap32(x: int): (r: int)
    ensures INT_MIN <= r <= INT_MAX
    ensures INT_MIN <= x <= INT_MAX ==> r == x
  {
    (x + 0x8000_0000) % 0x1_0000_0000 - 0x8000_0000
  }

  /** Division and remainder as C has them: rounded towards zero. */
  function Quot(a: int, b: int): (q: int)
    requires b > 0
    ensures b >= 2 && a > 0 ==> 0 <= q < a
    ensures b >= 2 && a < 0 ==> a < q <= 0
    ensures a == 0 ==> q == 0
  {
    if a >= 0 then a / b else -(-a / b)
  }

  function Rem(a: int, b: int): int
    requires b > 0
  {
    if a >= 0 then a % b else -(-a % b)
  }

  // ----- writing -----

  predicate BaseOk(base: int) {
    2 <= base <= 36
  }

  /** The character emitted for a remainder, which a negative number makes negative. */
  function DigitChar(d: int): char
    requires -36 < d < 36
  {
    if d > 9 then ('a' as int + (d - 10)) as char else ('0' as int + d) as char
  }

  /** The digits the division loop emits, most significant first; none for 0. */
  function Digits(v: int, base: int): string
    requires BaseOk(base)
    decreases if v < 0 then -v else v
  {
    if v == 0 then "" else Digits(Quot(v, base), base) + [DigitChar(Rem(v, base))]
  }

  function Numeral(v: int, base: int): string
    requires BaseOk(base)
  {
    if v == 0 then "0" else Digits(v, base)
  }

  /** What `itoa` leaves in its buffer: only base 10 has a sign, and negating the least number wraps. */
  function Itoa(n: int, base: int): string
    requires BaseOk(base)
  {
    if n < 0 && base == 10 then "-" + Numeral(Wrap32(-n), base) else Numeral(n, base)
  }

  // ----- reading -----

  function DigitValue(c: char): int {
    if '0' <= c <= '9' then c as int - '0' as int else if 'a' <= c <= 'z' then c as int - 'a' as int + 10 else -1
  }

  /** The number a string of digits stands for. */
  function Value(s: string, base: int): int {
    if s == "" then 0 else Value(s[..|s| - 1], base) * base + DigitValue(s[|s| - 1])
  }

  predicate IsDecimal(c: char) {
    '0' <= c <= '9'
  }

  /** The digit loop of `atoi`, in 32-bit arithmetic, up to the first character that is not a digit. */
  function Accumulate(s: string, result: int): int {
    if s == "" || !IsDecimal(s[0]) then result
    else Accumulate(s[1..], Wrap32(result * 10 + (s[0] as int - '0' as int)))
  }

  function SkipSpaces(s: string): string {
    if s != "" && s[0] == ' ' then SkipSpaces(s[1..]) else s
  }

  /** `atoi` */
  function Atoi(str: string): int {
    var s := SkipSpaces(str);
    if s != "" && s[0] == '-' then Wrap32(-Accumulate(s[1..], 0))
    else if s != "" && s[0] == '+' then Accumulate(s[1..], 0)
    else Accumulate(s, 0)
  }

  // ----- the digits stand for the number -----

  lemma DigitOfChar(d: int)
    requires 0 <= d < 36
    ensures DigitValue(DigitChar(d)) == d
  {
  }

  lemma DivSmaller(v: int, base: int)
    requires v > 0 && base >= 2
    ensures 0 <= v / base < v && 0 <= v % base < base && v == v / base * base + v % base
  {
  }

  lemma {:induction false} ValueOfDigits(v: nat, base: int)
    requires BaseOk(base)
    ensures Value(Digits(v, base), base) == v
    ensures v > 0 ==> Digits(v, base) != "" && Digits(v, base)[0] != '0'
    decreases v
  {
    if v > 0 {
      DivSmaller(v, base);
      ValueOfDigits(v / base, base);
      var s := Digits(v / base, base);
      var c := DigitChar(v % base);
      assert Digits(v, base) == s + [c] && (s + [c])[..|s|] == s;
      DigitOfChar(v % base);
      if v / base == 0 {
        assert v % base == v;
      }
    }
  }

  /** Reading a numeral back gives the number, in every base, and a numeral has no leading zero. */
  lemma NumeralRoundTrip(v: nat, base: int)
    requires BaseOk(base)
    ensures Value(Numeral(v, base), base) == v
    ensures Numeral(v, base)[0] == '0' <==> v == 0
  {
    ValueOfDigits(v, base);
    if v == 0 {
      assert "0"[..0] == "";
      assert Value("0", base) == Value("", base) * base + DigitValue('0');
    }
  }

  // ----- lengths -----

  function Power(base: int, k: nat): int {
    if k == 0 then 1 else base * Power(base, k - 1)
  }

  lemma {:induction false} DigitsBounded(v: nat, base: int, k: nat)
    requires BaseOk(base) && v < Power(base, k)
    ensures |Digits(v, base)| <= k
    decreases k
  {
    if v > 0 {
      DivSmaller(v, base);
      assert k > 0;
      QuotientBelow(v, base, Power(base, k - 1));
      DigitsBounded(v / base, base, k - 1);
    }
  }

  lemma QuotientBelow(v: nat, base: int, m: int)
    requires base >= 2 && v < base * m
    ensures v / base < m
  {
    var q := v / base;
    assert q * base <= v;
    assert (q - m) * base == q * base - m * base;
    assert q >= m ==> (q - m) * base >= 0;
  }

  lemma {:induction false} PowerAdds(base: int, j: nat, k: nat)
    ensures Power(base, j + k) == Power(base, j) * Power(base, k)
  {
    if j > 0 {
      PowerAdds(base, j - 1, k);
      assert base * (Power(base, j - 1) * Power(base, k)) == base * Power(base, j - 1) * Power(base, k);
    }
  }

  lemma Powers64()
    ensures Power(10, 20) == 100_000_000_000_000_000_000
    ensures Power(16, 16) == 0x1_0000_0000_0000_0000 && Power(2, 64) == 0x1_0000_0000_0000_0000
    ensures Power(16, 8) == 0x1_0000_0000
  {
    assert Power(10, 1) == 10 && Power(16, 1) == 16 && Power(2, 1) == 2;
    PowerAdds(10, 1, 1);
    PowerAdds(10, 2, 2);
    PowerAdds(10, 1, 4);
    PowerAdds(10, 5, 5);
    PowerAdds(10, 10, 10);
    PowerAdds(16, 1, 1);
    PowerAdds(16, 2, 2);
    PowerAdds(16, 4, 4);
    PowerAdds(16, 8, 8);
    PowerAdds(2, 1, 1);
    PowerAdds(2, 2, 2);
    PowerAdds(2, 4, 4);
    PowerAdds(2, 8, 8);
    PowerAdds(2, 16, 16);
    PowerAdds(2, 32, 32);
    hide Power;
  }

  /** A 64-bit number takes at most 20 decimal, 16 hexadecimal or 64 binary digits. */
  lemma Lengths64(v: nat)
    requires v < 0x1_0000_0000_0000_0000
    ensures |Numeral(v, 10)| <= 20 && |Numeral(v, 16)| <= 16 && |Numeral(v, 2)| <= 64
  {
    Powers64();
    DigitsBounded(v, 10, 20);
    DigitsBounded(v, 16, 16);
    DigitsBounded(v, 2, 64);
    hide Digits, Power;
  }

  // ----- atoi undoes itoa -----

  predicate AllDecimal(s: string) {
    forall c <- s :: IsDecimal(c)
  }

  lemma {:induction false} AccumulateAppend(s: string, c: char, result: int)
    requires AllDecimal(s) && IsDecimal(c)
    ensures Accumulate(s + [c], result) == Wrap32(Accumulate(s, result) * 10 + (c as int - '0' as int))
  {
    if s == "" {
      assert ("" + [c])[1..] == "";
    } else {
      assert (s + [c])[1..] == s[1..] + [c] && s[0] in s;
      AccumulateAppend(s[1..], c, Wrap32(result * 10 + (s[0] as int - '0' as int)));
    }
  }

  lemma {:induction false} AccumulateDigits(v: nat)
    requires v <= INT_MAX
    ensures AllDecimal(Digits(v, 10)) && Accumulate(Digits(v, 10), 0) == v
    decreases v
  {
    if v > 0 {
      DivSmaller(v, 10);
      AccumulateDigits(v / 10);
      AccumulateAppend(Digits(v / 10, 10), DigitChar(v % 10), 0);
      assert Digits(v, 10) == Digits(v / 10, 10) + [DigitChar(v % 10)];
    }
  }

  lemma AccumulateNumeral(v: nat)
    requires v <= INT_MAX
    ensures Accumulate(Numeral(v, 10), 0) == v && IsDecimal(Numeral(v, 10)[0])
  {
    if v == 0 {
      assert Accumulate("0", 0) == Accumulate("0"[1..], 0) && "0"[1..] == "";
    } else {
      AccumulateDigits(v);
      ValueOfDigits(v, 10);
      assert Digits(v, 10)[0] in Digits(v, 10);
    }
    hide Digits;
  }

  /** A negative number leaves characters worth nothing, and the first is no digit at all. */
  lemma {:induction false} NegativeDigits(v: int, base: int)
    requires BaseOk(base) && v < 0
    ensures Digits(v, base) != "" && DigitValue(Digits(v, base)[0]) < 0
    ensures forall c <- Digits(v, base) :: DigitValue(c) <= 0
    decreases -v
  {
    DivSmaller(-v, base);
    if Quot(v, base) != 0 {
      NegativeDigits(Quot(v, base), base);
    } else {
      assert Digits(Quot(v, base), base) == "";
      assert Rem(v, base) == v;
    }
  }

  /** Printing a 32-bit number in base 10 and parsing it gives it back exactly when it is not the least
      one: that one's negation wraps to itself, and its "digits" stop `atoi` at once. */
  lemma AtoiOfItoa(n: int)
    requires INT_MIN <= n <= INT_MAX
    ensures Atoi(Itoa(n, 10)) == n <==> n != INT_MIN
  {
    hide Digits, Numeral, Wrap32;
    if n >= 0 {
      AccumulateNumeral(n);
      assert SkipSpaces(Itoa(n, 10)) == Itoa(n, 10);
    } else if n > INT_MIN {
      AccumulateNumeral(-n);
      AtoiNegative(Numeral(-n, 10));
    } else {
      assert Wrap32(-n) == n by { LeastWraps(); }
      NegativeNumeral(n);
      AtoiNegative(Numeral(n, 10));
      LeastWraps();
    }
  }

  lemma LeastWraps()
    ensures Wrap32(-INT_MIN) == INT_MIN && Wrap32(0) == 0
  {
  }

  lemma NegativeNumeral(n: int)
    requires n < 0
    ensures Accumulate(Numeral(n, 10), 0) == 0
  {
    NegativeDigits(n, 10);
    assert !IsDecimal(Digits(n, 10)[0]);
    hide Digits;
  }

  lemma AtoiNegative(s: string)
    ensures Atoi("-" + s) == Wrap32(-Accumulate(s, 0))
  {
    var t := "-" + s;
    assert SkipSpaces(t) == t && t[1..] == s;
    hide Wrap32, Accumulate;
  }

  // ----- which numbers itoa writes correctly -----

  predicate AllDigits(s: string, base: int) {
    s != "" && forall c <- s :: 0 <= DigitValue(c) < base
  }

  /** The text is a number in this base: digits, possibly behind a minus sign. */
  predicate Denotes(text: string, base: int, n: int) {
    || (AllDigits(text, base) && Value(text, base) == n)
    || (text != "" && text[0] == '-' && AllDigits(text[1..], base) && -Value(text[1..], base) == n)
  }

  lemma {:induction false} DigitsAreDigits(v: nat, base: int)
    requires BaseOk(base)
    ensures forall c <- Digits(v, base) :: 0 <= DigitValue(c) < base
    decreases v
  {
    if v > 0 {
      DivSmaller(v, base);
      DigitsAreDigits(v / base, base);
      DigitOfChar(v % base);
    }
  }

  lemma NumeralDenotes(v: nat, base: int)
    requires BaseOk(base)
    ensures AllDigits(Numeral(v, base), base) && Value(Numeral(v, base), base) == v
  {
    NumeralRoundTrip(v, base);
    DigitsAreDigits(v, base);
  }

  lemma {:induction false} WorthNothing(s: string, base: int)
    requires forall c <- s :: DigitValue(c) == 0
    ensures Value(s, base) == 0
  {
    if s != "" {
      WorthNothing(s[..|s| - 1], base);
    }
  }

  /** Without a sign of its own, a negative number is not written: even where the first character happens
      to be a minus sign, what follows is zero or no number. */
  lemma NegativeIsNotDenoted(n: int, base: int)
    requires BaseOk(base) && n < 0
    ensures !Denotes(Digits(n, base), base, n) && !AllDigits(Digits(n, base), base)
  {
    NegativeDigits(n, base);
    var s := Digits(n, base);
    assert s[0] in s;
    hide Digits;
    if AllDigits(s[1..], base) {
      forall c | c in s[1..] ensures DigitValue(c) == 0 {
        assert c in s;
      }
      WorthNothing(s[1..], base);
    }
  }

  lemma SignedDenotes(s: string, base: int, n: int)
    requires BaseOk(base)
    ensures Denotes("-" + s, base, n) <==> AllDigits(s, base) && -Value(s, base) == n
  {
    var t := "-" + s;
    assert t[1..] == s && t[0] in t && DigitValue('-') < 0;
    hide Value;
  }

  /** `itoa` writes a 32-bit number, in any base, exactly if it is not negative, or the base is 10 and it
      is not the least one. */
  lemma ItoaDenotesIff(n: int, base: int)
    requires BaseOk(base) && INT_MIN <= n <= INT_MAX
    ensures Denotes(Itoa(n, base), base, n) <==> n >= 0 || (base == 10 && n > INT_MIN)
  {
    hide Digits, Value, Denotes, AllDigits, Wrap32;
    if n >= 0 {
      NumeralDenotes(n, base);
      UnsignedDenotes(Numeral(n, base), base, n);
    } else if base != 10 {
      NegativeIsNotDenoted(n, base);
    } else if n > INT_MIN {
      NumeralDenotes(-n, base);
      SignedDenotes(Numeral(-n, base), base, n);
    } else {
      LeastWraps();
      NegativeIsNotDenoted(n, base);
      SignedDenotes(Numeral(n, base), base, n);
    }
  }

  lemma UnsignedDenotes(s: string, base: int, n: int)
    requires AllDigits(s, base) && Value(s, base) == n
    ensures Denotes(s, base, n)
  {
  }

  // ----- what atoi reads -----

  lemma WrapTimes(a: int, m: int, b: int)
    ensures Wrap32(Wrap32(a) * m + b) == Wrap32(a * m + b)
  {
    var k := (a + 0x8000_0000) / 0x1_0000_0000;
    assert Wrap32(a) == a - k * 0x1_0000_0000;
    assert Wrap32(a) * m + b + 0x8000_0000 + (k * m) * 0x1_0000_0000 == a * m + b + 0x8000_0000 by {
      assert (a - k * 0x1_0000_0000) * m == a * m - (k * m) * 0x1_0000_0000;
    }
    WholeTurns(Wrap32(a) * m + b + 0x8000_0000, k * m);
  }

  lemma WholeTurns(x: int, k: int)
    ensures (x + k * 0x1_0000_0000) % 0x1_0000_0000 == x % 0x1_0000_0000
  {
  }

  /** The digit loop computes the value of the digits, wrapped to 32 bits. */
  lemma {:induction false} AccumulateValue(s: string)
    requires AllDecimal(s)
    ensures Accumulate(s, 0) == Wrap32(Value(s, 10))
  {
    if s != "" {
      var init, c := s[..|s| - 1], s[|s| - 1];
      assert s == init + [c] && c in s;
      AccumulateValue(init);
      AccumulateAppend(init, c, 0);
      WrapTimes(Value(init, 10), 10, DigitValue(c));
    }
  }

  /** It stops at the first character that is no digit. */
  lemma {:induction false} AccumulateStops(s: string, tail: string, result: int)
    requires AllDecimal(s) && (tail != "" ==> !IsDecimal(tail[0]))
    ensures Accumulate(s + tail, result) == Accumulate(s, result)
  {
    if s == "" {
      assert s + tail == tail;
    } else {
      assert s[0] in s && (s + tail)[1..] == s[1..] + tail;
      AccumulateStops(s[1..], tail, Wrap32(result * 10 + (s[0] as int - '0' as int)));
    }
  }

  function Spaces(n: nat): string {
    if n == 0 then "" else " " + Spaces(n - 1)
  }

  lemma {:induction false} SpacesSkipped(n: nat, s: string)
    requires s == "" || s[0] != ' '
    ensures SkipSpaces(Spaces(n) + s) == s
  {
    if n == 0 {
      assert "" + s == s;
    } else {
      assert (Spaces(n) + s)[1..] == Spaces(n - 1) + s;
      SpacesSkipped(n - 1, s);
    }
  }

  /** On spaces, at most one sign, digits and anything that does not go on like these, `atoi` returns the
      signed value of the digits, in 32 bits; without digits that is 0. Every string is of this form. */
  lemma AtoiReads(spaces: nat, sign: string, digits: string, tail: string)
    requires sign in {"", "+", "-"} && AllDecimal(digits) && (tail != "" ==> !IsDecimal(tail[0]))
    requires sign == "" && digits == "" && tail != "" ==> tail[0] !in {' ', '+', '-'}
    ensures Atoi(Spaces(spaces) + (sign + (digits + tail)))
            == Wrap32(if sign == "-" then -Value(digits, 10) else Value(digits, 10))
  {
    hide Accumulate, SkipSpaces, Value, Wrap32;
    var s := sign + (digits + tail);
    assert sign == "" ==> s == digits + tail;
    assert digits == "" ==> digits + tail == tail;
    assert digits != "" ==> digits[0] in digits && (digits + tail)[0] == digits[0];
    assert sign != "" ==> s[0] == sign[0] && s[1..] == digits + tail;
    SpacesSkipped(spaces, s);
    AccumulateStops(digits, tail, 0);
    AccumulateValue(digits);
    WrapNegates(Value(digits, 10));
  }

  lemma WrapNegates(x: int)
    ensures Wrap32(-Wrap32(x)) == Wrap32(-x)
  {
    WrapTimes(x, -1, 0);
    hide Wrap32;
  }

  /** The characters printed for the digits of any base. */
  lemma DigitChars(d: nat)
    requires d < 36
    ensures DigitChar(d) == "0123456789abcdefghijklmnopqrstuvwxyz"[d]
  {
  }
}
