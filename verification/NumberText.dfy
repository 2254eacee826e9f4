/** Number printing as it runs: digits emitted backwards into a buffer and reversed in place, or emitted
    forwards by recursion or through a small temporary. */
module NumberText {
  import opened Numerals

  function Reversed(s: string): (r: string)
    ensures |r| == |s| && forall i | 0 <= i < |s| :: r[i] == s[|s| - 1 - i]
  {
    if s == "" then "" else Reversed(s[1..]) + [s[0]]
  }

  lemma ReversedPush(s: string, c: char)
    ensures Reversed(s + [c]) == [c] + Reversed(s)
  {
  }

  /** Swap inwards from both ends. */
  method ReverseInPlace(buf: array<char>, lo: nat, hi: nat)
    requires lo <= hi <= buf.Length
    modifies buf
    ensures buf[lo..hi] == Reversed(old(buf[lo..hi]))
    ensures buf[..lo] == old(buf[..lo]) && buf[hi..] == old(buf[hi..])
  {
    hide Reversed;
    ghost var was := buf[..];
    var i, j := lo, hi - 1;
    while i < j
      invariant lo <= i && i + j == lo + hi - 1 && j >= i - 1
      invariant forall k | lo <= k < i :: buf[k] == was[lo + hi - 1 - k] && buf[lo + hi - 1 - k] == was[k]
      invariant forall k | i <= k <= j :: buf[k] == was[k]
      invariant buf[..lo] == was[..lo] && buf[hi..] == was[hi..]
    {
      buf[i], buf[j] := buf[j], buf[i];
      i, j := i + 1, j - 1;
    }
    forall k | 0 <= k < hi - lo ensures buf[lo..hi][k] == Reversed(was[lo..hi])[k] {
      Mirrored(buf[..], was, lo, hi, i, j, lo + k);
      assert was[lo..hi][hi - lo - 1 - k] == was[hi - 1 - k];
    }
    assert was[lo..hi] == old(buf[lo..hi]) && was[..lo] == old(buf[..lo]) && was[hi..] == old(buf[hi..]);
  }

  /** Once the two ends have met, every character is its mirror image. */
  lemma Mirrored(s: string, was: string, lo: nat, hi: nat, i: int, j: int, k: nat)
    requires lo <= k < hi <= |s| == |was| && lo <= i && i + j == lo + hi - 1 && i - 1 <= j <= i
    requires forall x | lo <= x < i :: s[x] == was[lo + hi - 1 - x] && s[lo + hi - 1 - x] == was[x]
    requires forall x | i <= x <= j :: s[x] == was[x]
    ensures s[k] == was[lo + hi - 1 - k]
  {
    var m := lo + hi - 1 - k;
    if k >= i && m < i {
      assert s[lo + hi - 1 - m] == was[m];
    }
  }

  /** The division loop of `uint64ToString` and `itoa`: the digits of `v`, last one first, from `at` on. */
  method EmitBackwards(buf: array<char>, at: nat, v: int, base: int) returns (end: nat)
    requires BaseOk(base) && at + |Digits(v, base)| <= buf.Length
    modifies buf
    ensures end == at + |Digits(v, base)| && Reversed(buf[at..end]) == Digits(v, base)
    ensures buf[..at] == old(buf[..at])
  {
    var rest := v;
    end := at;
    while rest != 0
      invariant at <= end && end + |Digits(rest, base)| <= buf.Length
      invariant Digits(rest, base) + Reversed(buf[at..end]) == Digits(v, base)
      invariant buf[..at] == old(buf[..at])
      decreases if rest < 0 then -rest else rest
    {
      ghost var done := buf[at..end];
      var c := DigitChar(Rem(rest, base));
      assert Digits(rest, base) == Digits(Quot(rest, base), base) + [c];
      buf[end] := c;
      end := end + 1;
      rest := Quot(rest, base);
      assert buf[at..end] == done + [c];
      ReversedPush(done, c);
      assert Digits(rest, base) + [c] + Reversed(done) == Digits(rest, base) + ([c] + Reversed(done));
    }
  }

  /** `uint64ToString` into the buffer from `at` on. */
  method ToString(value: nat, buf: array<char>, at: nat, base: int) returns (end: nat)
    requires BaseOk(base) && at + |Numeral(value, base)| < buf.Length
    modifies buf
    ensures end == at + |Numeral(value, base)| && buf[at..end] == Numeral(value, base) && buf[end] == '\0'
    ensures buf[..at] == old(buf[..at])
  {
    if value == 0 {
      buf[at], buf[at + 1] := '0', '\0';
      return at + 1;
    }
    end := EmitBackwards(buf, at, value, base);
    buf[end] := '\0';
    ghost var digits := buf[at..end];
    ReverseInPlace(buf, at, end);
    assert buf[end] == buf[end..][0];
    hide Digits;
  }

  /** `itoa`; the caller's buffer must hold the text and its terminator. */
  method ItoaInto(num: int, str: array<char>, base: int) returns (end: nat)
    requires BaseOk(base) && INT_MIN <= num <= INT_MAX && |Itoa(num, base)| < str.Length
    modifies str
    ensures end == |Itoa(num, base)| && str[..end] == Itoa(num, base) && str[end] == '\0'
  {
    hide Digits, Reversed, Itoa;
    if num == 0 {
      ZeroText(base);
      str[0], str[1] := '0', '\0';
      return 1;
    }
    ItoaIs(num, base);
    var negative, v := false, num;
    if num < 0 && base == 10 {
      negative, v := true, Wrap32(-num);
    }
    end := EmitBackwards(str, 0, v, base);
    if negative {
      end := AppendSign(str, end);
    }
    str[end] := '\0';
    Terminate(str, end);
  }

  method AppendSign(str: array<char>, at: nat) returns (end: nat)
    requires at < str.Length
    modifies str
    ensures end == at + 1 && Reversed(str[0..end]) == ['-'] + Reversed(old(str[0..at]))
  {
    ghost var digits := str[0..at];
    str[at] := '-';
    end := at + 1;
    assert str[0..end] == digits + ['-'];
    ReversedPush(digits, '-');
  }

  /** The closing reversal, up to the terminator. */
  method Terminate(str: array<char>, end: nat)
    requires end < str.Length && str[end] == '\0'
    modifies str
    ensures str[..end] == Reversed(old(str[0..end])) && str[end] == '\0'
  {
    hide Reversed;
    assert str[end..][0] == '\0';
    ReverseInPlace(str, 0, end);
    assert str[..end] == str[0..end] && str[end] == str[end..][0];
  }

  lemma ZeroText(base: int)
    requires BaseOk(base)
    ensures Itoa(0, base) == "0"
  {
  }

  lemma ItoaIs(num: int, base: int)
    requires BaseOk(base) && num != 0 && INT_MIN <= num <= INT_MAX
    ensures Itoa(num, base) == if num < 0 && base == 10 then ['-'] + Digits(Wrap32(-num), base) else Digits(num, base)
  {
    hide Digits;
  }

  /** `atoi` on a string and its terminator: spaces, a sign, digits. */
  method ParseInt(str: string) returns (r: int)
    ensures r == Atoi(str)
  {
    hide Wrap32, Accumulate;
    var i := 0;
    while i < |str| && str[i] == ' '
      invariant 0 <= i <= |str| && SkipSpaces(str[i..]) == SkipSpaces(str)
    {
      assert str[i..][1..] == str[i + 1..];
      i := i + 1;
    }
    ghost var s := str[i..];
    assert s == SkipSpaces(str);
    var negative := false;
    if i < |str| && str[i] == '-' {
      negative := true;
      i := i + 1;
    } else if i < |str| && str[i] == '+' {
      i := i + 1;
    }
    assert str[i..] == if s != "" && (s[0] == '-' || s[0] == '+') then s[1..] else s;
    r := ParseDigits(str, i);
    if negative {
      r := Wrap32(-r);
    }
  }

  method ParseDigits(str: string, start: nat) returns (result: int)
    requires start <= |str|
    ensures result == Accumulate(str[start..], 0)
  {
    hide Wrap32;
    var i := start;
    result := 0;
    while i < |str| && IsDecimal(str[i])
      invariant start <= i <= |str| && Accumulate(str[i..], result) == Accumulate(str[start..], 0)
    {
      assert str[i..][1..] == str[i + 1..];
      result := Wrap32(result * 10 + (str[i] as int - '0' as int));
      i := i + 1;
    }
  }

  /** `write_unsigned` and `write_ulong`: recursion first, then the last digit. */
  method WriteUnsigned(buf: array<char>, at: nat, u: nat) returns (end: nat)
    requires at + |Numeral(u, 10)| <= buf.Length
    modifies buf
    ensures end == at + |Numeral(u, 10)| && buf[at..end] == Numeral(u, 10)
    ensures buf[..at] == old(buf[..at])
    decreases u
  {
    NumeralStep(u);
    hide Digits, Numeral;
    end := at;
    if u >= 10 {
      end := WriteUnsigned(buf, at, u / 10);
    }
    ghost var before := buf[at..end];
    buf[end] := ('0' as int + u % 10) as char;
    end := end + 1;
    assert buf[at..end] == before + [DigitChar(u % 10)];
  }

  lemma NumeralStep(u: nat)
    ensures Numeral(u, 10) == if u >= 10 then Numeral(u / 10, 10) + [DigitChar(u % 10)] else [DigitChar(u % 10)]
  {
    if 0 < u < 10 {
      assert Digits(Quot(u, 10), 10) == "";
    }
  }

  /** `write_int`; the negation is done in 32 bits, and the cast to unsigned undoes the wrap. */
  method WriteInt(buf: array<char>, at: nat, d: int) returns (end: nat)
    requires INT_MIN <= d <= INT_MAX
    requires at + |Signed(d)| <= buf.Length
    modifies buf
    ensures end == at + |Signed(d)| && buf[at..end] == Signed(d)
    ensures buf[..at] == old(buf[..at])
  {
    hide Numeral;
    end := at;
    if d < 0 {
      buf[end] := '-';
      ghost var before := buf[..end + 1];
      end := WriteUnsigned(buf, end + 1, Wrap32(-d) % 0x1_0000_0000);
      assert Wrap32(-d) % 0x1_0000_0000 == -d;
      assert buf[at] == before[at] == '-';
      assert buf[at..end] == ['-'] + buf[at + 1..end];
      assert buf[..at] == before[..at];
    } else {
      end := WriteUnsigned(buf, end, d);
    }
  }

  /** The sign and the magnitude: correct for the least number too. */
  function Signed(d: int): string {
    if d < 0 then "-" + Numeral(-d, 10) else Numeral(d, 10)
  }

  /** What `write_int` writes stands for the number, for every number. */
  lemma SignedIsDenoted(d: int)
    ensures Denotes(Signed(d), 10, d)
  {
    NumeralDenotes(if d < 0 then -d else d, 10);
    hide Numeral, Value, AllDigits;
    if d < 0 {
      SignedDenotes(Numeral(-d, 10), 10, d);
    }
  }

  /** `write_hex` with 8 temporary characters, `write_hex_long` with 16: the temporary never overflows. */
  method WriteHex(buf: array<char>, at: nat, x: nat, width: nat) returns (end: nat)
    requires x < Power(16, width) && at + |Numeral(x, 16)| <= buf.Length
    modifies buf
    ensures end == at + |Numeral(x, 16)| && buf[at..end] == Numeral(x, 16)
    ensures buf[..at] == old(buf[..at])
  {
    hide Digits, Power, Reversed;
    var temp := new char[width];
    if x == 0 {
      buf[at] := '0';
      return at + 1;
    }
    DigitsBounded(x, 16, width);
    var n := EmitBackwards(temp, 0, x, 16);
    end := CopyBackwards(temp, n, buf, at);
  }

  method CopyBackwards(temp: array<char>, n: nat, buf: array<char>, at: nat) returns (end: nat)
    requires n <= temp.Length && at + n <= buf.Length && temp != buf
    modifies buf
    ensures end == at + n && buf[at..end] == Reversed(temp[0..n])
    ensures buf[..at] == old(buf[..at])
  {
    hide Reversed;
    ghost var text := Reversed(temp[0..n]);
    var i := n;
    end := at;
    while i > 0
      invariant 0 <= i <= n && end == at + n - i
      invariant buf[at..end] == text[..n - i] && buf[..at] == old(buf[..at])
    {
      i := i - 1;
      ghost var before := buf[at..end];
      assert text[n - 1 - i] == temp[0..n][i] == temp[i];
      buf[end] := temp[i];
      end := end + 1;
      assert buf[at..end] == before + [temp[i]] == text[..n - 1 - i] + [text[n - 1 - i]];
    }
    assert text[..n] == text;
  }

  /** The buffers `drawDecimal`, `drawHexa` and `drawBin` declare are large enough for any 64-bit value. */
  method DrawnText(value: nat, base: int) returns (buffer: array<char>, start: nat, end: nat)
    requires value < 0x1_0000_0000_0000_0000 && base in {10, 16, 2}
    ensures fresh(buffer) && buffer.Length == (if base == 10 then 21 else if base == 16 then 19 else 67)
    ensures start <= end < buffer.Length && buffer[end] == '\0' && buffer[start..end] == Numeral(value, base)
    ensures buffer[..start] == if base == 10 then "" else if base == 16 then "0x" else "0b"
  {
    Lengths64(value);
    hide Numeral;
    if base == 10 {
      buffer := new char[21];
      start := 0;
    } else if base == 16 {
      buffer := new char[19];
      buffer[0], buffer[1] := '0', 'x';
      start := 2;
    } else {
      buffer := new char[67];
      buffer[0], buffer[1] := '0', 'b';
      start := 2;
    }
    end := ToString(value, buffer, start, base);
  }
}
