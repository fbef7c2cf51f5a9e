// The text helpers of the message logger (MessageLogger.cpp): `itoa`
// in bases 2 to 16, the split of a time in seconds into hours, minutes
// and seconds, and its "HH:MM:SS.sss" rendering.

module MessageLogging {

  const INT_MIN: int := -0x8000_0000
  const INT_MAX: int := 0x7FFF_FFFF

  /** Digit `d` of `itoa`'s alphabet "0123456789abcdef". */
  function DigitChar(d: nat): (c: char)
    requires d < 16
    ensures DigitValue(c) == d
    ensures d < 10 ==> '0' <= c <= '9'
    ensures d >= 10 ==> 'a' <= c <= 'f'
  {
    if d < 10 then ('0' as int + d) as char else ('a' as int + d - 10) as char
  }

  /** C's `/` on `int`: the quotient truncated toward zero. */
  function TruncDiv(a: int, b: int): (q: int)
    requires b > 0
    ensures Abs(q) == Abs(a) / b
  {
    if a >= 0 then a / b else -((-a) / b)
  }

  /** C's `%` on `int`: the remainder has the sign of the dividend. */
  function TruncMod(a: int, b: int): (r: int)
    requires b > 0
    ensures Abs(r) == Abs(a) % b
  {
    if a >= 0 then a % b else -((-a) % b)
  }

  function Abs(a: int): nat
  {
    if a < 0 then -a else a
  }

  /** The base-`b` digits of `n`, most significant first, with no leading
      zero except for `n == 0` itself. */
  function Digits(n: nat, b: nat): (s: string)
    requires 2 <= b <= 16
    ensures |s| >= 1
    decreases n
  {
    if n < b then [DigitChar(n)] else Digits(n / b, b) + [DigitChar(n % b)]
  }

  /** `c` is one of the first `b` characters of "0123456789abcdef". */
  predicate IsDigit(c: char, b: nat)
  {
    ('0' <= c <= '9' || 'a' <= c <= 'f') && DigitValue(c) < b
  }

  /** The value of a digit character. */
  function DigitValue(c: char): nat
  {
    if '0' <= c <= '9' then (c - '0') as nat
    else if 'a' <= c <= 'f' then (c - 'a') as nat + 10
    else 0
  }

  /** Reading a digit string back in base `b`. */
  function FromDigits(s: string, b: nat): nat
  {
    if s == [] then 0 else FromDigits(s[..|s| - 1], b) * b + DigitValue(s[|s| - 1])
  }

  /** What `itoa(value, result, base)` leaves in `result`: nothing for a
      base outside 2..16; otherwise the digits of `|value|`, with a minus
      sign in front only for a negative value in base 10. */
  function ItoaText(value: int, base: int): string
  {
    if base < 2 || base > 16 then ""
    else (if value < 0 && base == 10 then "-" else "") + Digits(Abs(value), base)
  }

  /** `itoa` (MessageLogger.cpp:220-250): the do-while loop writes the
      digits least significant first into the buffer, the sign goes after
      them, and `std::reverse` puts the buffer in reading order. The
      buffer is the 34 characters a 32-bit value in base 2 can need. */
  method Itoa(value: int, base: int) returns (s: string)
    requires INT_MIN <= value <= INT_MAX
    ensures s == ItoaText(value, base)
  {
    if base < 2 || base > 16 {
      return "";
    }
    var result := new char[34];
    var out := WriteDigits(result, value, base);
    if value < 0 && base == 10 {
      ReversedSnoc(result[..out], '-');
      result[out] := '-';
      out := out + 1;
    }
    ghost var written := result[..out];
    assert Reversed(written) == ItoaText(value, base);
    ReverseRange(result, out);
    s := result[..out];
  }

  /** The do-while loop of `itoa`: `quotient % base` (C's remainder, so
      negative for a negative value, hence `std::abs`) picks the digit,
      `quotient /= base` truncates toward zero, and the loop runs once
      even for zero. The buffer then holds the digits of `|value|` least
      significant first. */
  method WriteDigits(result: array<char>, value: int, base: int) returns (out: nat)
    requires 2 <= base <= 16 && result.Length == 34
    requires INT_MIN <= value <= INT_MAX
    modifies result
    ensures out <= 32 && Reversed(result[..out]) == Digits(Abs(value), base)
  {
    out := 0;
    var quotient := value;
    ghost var n := Abs(value);
    DigitsBound(n, base);
    while true
      invariant 0 <= out <= 32 && |Digits(n, base)| <= 32
      invariant out == 0 ==> quotient == value
      invariant out > 0 ==> quotient != 0
      invariant quotient != 0 ==> Digits(n, base) == Digits(Abs(quotient), base) + Reversed(result[..out])
      invariant quotient != 0 ==> out + |Digits(Abs(quotient), base)| <= 32
      decreases Abs(quotient), if out == 0 then 1 else 0
    {
      ghost var m := Abs(quotient);
      ghost var before := result[..out];
      var d := TruncMod(quotient, base);
      result[out] := DigitChar(Abs(d));
      assert result[..out + 1] == before + [DigitChar(m % base)];
      ReversedSnoc(before, DigitChar(m % base));
      out := out + 1;
      quotient := TruncDiv(quotient, base);
      DigitStep(m, base);
      if quotient == 0 {
        if before == [] {
          assert m == n && Reversed(before) == [];
        }
        return;
      }
    }
  }

  /** One turn of the do-while: a single digit leaves quotient zero;
      otherwise the quotient shrinks and keeps the leading digits. */
  lemma DigitStep(m: nat, b: nat)
    requires 2 <= b <= 16
    ensures m / b == 0 <==> m < b
    ensures m < b ==> Digits(m, b) == [DigitChar(m % b)]
    ensures m >= b ==> m / b < m && Digits(m, b) == Digits(m / b, b) + [DigitChar(m % b)]
  {
    DivMod(m, b);
    if m < b {
      assert m / b == 0 && m % b == m;
    } else {
      DivHalf(m, b);
      assert m / b != 0;
    }
  }

  /** A 32-bit magnitude has at most 32 digits in any base from 2 on. */
  lemma DigitsBound(n: nat, b: nat)
    requires 2 <= b <= 16 && n <= 0x8000_0000
    ensures |Digits(n, b)| <= 32
  {
    assert Pow2(8) == 0x100;
    assert Pow2(16) == 0x1_0000;
    assert Pow2(24) == 0x100_0000;
    assert Pow2(32) == 0x1_0000_0000;
    DigitsLength(n, b, 32);
  }

  /** Fewer than `2^k` means at most `k` digits. */
  lemma {:induction false} DigitsLength(n: nat, b: nat, k: nat)
    requires 2 <= b <= 16 && 1 <= k && n < Pow2(k)
    ensures |Digits(n, b)| <= k
    decreases k
  {
    if n >= b {
      DivHalf(n, b);
      DigitsLength(n / b, b, k - 1);
    }
  }

  /** Dividing by a base of at least 2 at least halves. */
  lemma DivHalf(n: nat, b: nat)
    requires 2 <= b
    ensures n / b <= n / 2
  {
    assert (n / b) * 2 <= (n / b) * b <= n;
  }

  function Pow2(k: nat): (r: nat)
    ensures r >= 1
  {
    if k == 0 then 1 else 2 * Pow2(k - 1)
  }

  function Reversed(s: string): (r: string)
    ensures |r| == |s| && forall i :: 0 <= i < |s| ==> r[i] == s[|s| - 1 - i]
  {
    if s == [] then [] else Reversed(s[1..]) + [s[0]]
  }

  lemma ReversedSnoc(s: string, c: char)
    ensures Reversed(s + [c]) == [c] + Reversed(s)
  {
    assert Reversed(s + [c]) == [c] + Reversed(s) by {
      var r := [c] + Reversed(s);
      assert |Reversed(s + [c])| == |r|;
      forall i | 0 <= i < |r| ensures Reversed(s + [c])[i] == r[i] {
      }
    }
  }

  /** `std::reverse(result, out)`: the first `n` characters in reverse
      order, the rest untouched. */
  method ReverseRange(a: array<char>, n: nat)
    requires n <= a.Length
    modifies a
    ensures a[..n] == Reversed(old(a[..n]))
    ensures a[n..] == old(a[n..])
  {
    var i := 0;
    while i < n / 2
      invariant 0 <= i <= n / 2
      invariant forall k :: 0 <= k < i ==> a[k] == old(a[n - 1 - k]) && a[n - 1 - k] == old(a[k])
      invariant forall k :: i <= k < n - i ==> a[k] == old(a[k])
      invariant a[n..] == old(a[n..])
    {
      a[i], a[n - 1 - i] := a[n - 1 - i], a[i];
      i := i + 1;
    }
  }

  /** Reading `itoa`'s digits back in the same base gives `|value|`. */
  lemma {:induction false} DigitsRoundTrip(n: nat, b: nat)
    requires 2 <= b <= 16
    ensures FromDigits(Digits(n, b), b) == n
    decreases n
  {
    if n < b {
      var s := Digits(n, b);
      assert s == [DigitChar(n)];
      assert s[..0] == [];
    } else {
      DigitsRoundTrip(n / b, b);
      LastDigitStep(n, b);
    }
  }

  /** One step of the round trip: the digits of `n` are those of `n / b`
      followed by the digit `n % b`. */
  lemma LastDigitStep(n: nat, b: nat)
    requires 2 <= b <= 16 && n >= b
    requires FromDigits(Digits(n / b, b), b) == n / b
    ensures FromDigits(Digits(n, b), b) == n
  {
    var s := Digits(n, b);
    assert s[..|s| - 1] == Digits(n / b, b);
    assert FromDigits(s, b) == (n / b) * b + n % b;
    DivMod(n, b);
  }

  lemma DivMod(n: nat, b: nat)
    requires 2 <= b
    ensures (n / b) * b + n % b == n
  {
  }

  /** Every character `itoa` writes for a magnitude is a digit of the
      base. */
  lemma {:induction false} DigitsInBase(n: nat, b: nat)
    requires 2 <= b <= 16
    ensures forall i :: 0 <= i < |Digits(n, b)| ==> IsDigit(Digits(n, b)[i], b)
    decreases n
  {
    DigitStep(n, b);
    if n >= b {
      var q, d := n / b, n % b;
      DigitsInBase(q, b);
      AppendDigit(Digits(q, b), d, b, Digits(n, b));
    }
  }

  lemma AppendDigit(p: string, d: nat, b: nat, s: string)
    requires d < b <= 16
    requires forall i :: 0 <= i < |p| ==> IsDigit(p[i], b)
    requires s == p + [DigitChar(d)]
    ensures forall i :: 0 <= i < |s| ==> IsDigit(s[i], b)
  {
  }

  /** The do-while writes one digit even for zero. */
  lemma ItoaZero(b: int)
    requires 2 <= b <= 16
    ensures ItoaText(0, b) == "0"
  {
  }

  /** The minus sign appears exactly for a negative value in base 10. */
  lemma ItoaSign(value: int, b: int)
    requires 2 <= b <= 16
    ensures |ItoaText(value, b)| > 0
    ensures ItoaText(value, b)[0] == '-' <==> value < 0 && b == 10
  {
    var d := Digits(Abs(value), b);
    DigitsInBase(Abs(value), b);
    assert IsDigit(d[0], b);
  }

  /** Hours, minutes and seconds; `seconds` is a `float` in the source. */
  datatype FormattedTime = FormattedTime(hours: nat, minutes: nat, seconds: real)

  /** `convertToFormattedTime` (MessageLogger.cpp:147-160): whole minutes
      truncated to `unsigned short`, the remainder as seconds, then whole
      hours split off the minutes. The integer casts are exact for a
      time whose minute count fits in 16 bits; the seconds are a `float`
      in the source, so they agree with the model up to rounding. */
  function ConvertToFormattedTime(t: real): (r: FormattedTime)
    requires 0.0 <= t < 65536.0 * 60.0
    ensures r.minutes < 60 && 0.0 <= r.seconds < 60.0
    ensures (r.hours * 3600) as real + (r.minutes * 60) as real + r.seconds == t
  {
    var totalMinutes := (t / 60.0).Floor;
    var seconds := t - totalMinutes as real * 60.0;
    var hours := totalMinutes / 60;
    FormattedTime(hours, totalMinutes - hours * 60, seconds)
  }

  /** Two or more decimal digits: a leading '0' below 10. */
  function TwoDigits(n: nat): (s: string)
  {
    if n >= 10 then ItoaText(n, 10) else "0" + ItoaText(n, 10)
  }

  /** Padded fields read back as their value and are exactly two
      characters below 100. */
  lemma TwoDigitsRoundTrip(n: nat)
    ensures FromDigits(TwoDigits(n), 10) == n
    ensures n < 100 ==> |TwoDigits(n)| == 2
  {
    assert ItoaText(n, 10) == Digits(n, 10);
    DigitsRoundTrip(n, 10);
    if n < 10 {
      var s := TwoDigits(n);
      assert s == ['0', DigitChar(n)];
      assert s[..1] == ['0'] && ['0'][..0] == [];
      assert FromDigits(['0'], 10) == 0;
    } else {
      assert TwoDigits(n) == Digits(n, 10);
      if n < 100 {
        assert Digits(n / 10, 10) == [DigitChar(n / 10)];
      }
    }
  }

  /** `convertToStringTime` (MessageLogger.cpp:169-217): hours and minutes
      through `itoa`, each padded with '0' below 10, then the seconds as
      `sprintf("%2.3f")` prints them (here `secondsText`), padded the same
      way, the fields joined by ':'. */
  method ConvertToStringTime(t: FormattedTime, secondsText: string) returns (s: string)
    requires t.hours < 0x1_0000 && t.minutes < 0x1_0000
    ensures s == TwoDigits(t.hours) + ":" + TwoDigits(t.minutes) + ":"
                 + (if t.seconds >= 10.0 then secondsText else "0" + secondsText)
  {
    var buffer := Itoa(t.hours, 10);
    if t.hours >= 10 {
      s := buffer;
    } else {
      s := "0" + buffer;
    }
    s := s + ":";
    buffer := Itoa(t.minutes, 10);
    if t.minutes >= 10 {
      s := s + buffer;
    } else {
      s := s + "0" + buffer;
    }
    s := s + ":";
    if t.seconds >= 10.0 {
      s := s + secondsText;
    } else {
      s := s + "0" + secondsText;
    }
  }

  /** For a time of less than 100 hours the fields are separated by ':'
      at positions 2 and 5. */
  lemma StringTimeLayout(t: FormattedTime, secondsText: string)
    requires t.hours < 100 && t.minutes < 60
    ensures var s := TwoDigits(t.hours) + ":" + TwoDigits(t.minutes) + ":"
                     + (if t.seconds >= 10.0 then secondsText else "0" + secondsText);
            |s| >= 6 && s[2] == ':' && s[5] == ':'
  {
    TwoDigitsRoundTrip(t.hours);
    TwoDigitsRoundTrip(t.minutes);
  }
}
