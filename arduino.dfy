/** The parts of the ESP8266 Arduino runtime whose exact arithmetic the control loop
    depends on: 32-bit `unsigned long` time stamps from `millis()`, the 32-bit `int`/`long`,
    `String::toInt()` (the C library's `atol`) and `String(int)` decimal formatting. */
module Arduino {

  const TwoTo32: int := 0x1_0000_0000
  const LongMin: int := -0x8000_0000
  const LongMax: int := 0x7FFF_FFFF

  /** `unsigned long` on the ESP8266: 32 bits, arithmetic modulo 2^32. */
  type U32 = x: int | 0 <= x < 0x1_0000_0000

  /** `int` and `long` on the ESP8266: 32-bit two's complement. */
  type I32 = x: int | -0x8000_0000 <= x <= 0x7FFF_FFFF

  /** `uint16_t`, the port parameter of `WiFiClient::connect`. */
  type U16 = x: int | 0 <= x < 0x1_0000

  /** Passing an `int` where a `uint16_t` is expected keeps its value modulo 2^16. */
  function ToU16(x: int): (r: U16)
    ensures (x - r) % 0x1_0000 == 0
    ensures 0 <= x < 0x1_0000 ==> r == x
  {
    x % 0x1_0000
  }

  /** `now - since` evaluated on `unsigned long`: the difference wraps modulo 2^32, so a
      time stamp taken before `millis()` rolled over still yields the true elapsed time. */
  function ElapsedMillis(now: U32, since: U32): (d: U32)
    ensures (since + d) % TwoTo32 == now
    ensures now >= since ==> d == now - since
    ensures now < since ==> d == TwoTo32 - since + now
  {
    (now - since) % TwoTo32
  }

  // ---------------------------------------------------------------- characters

  /** C `isspace` in the "C" locale. */
  predicate IsSpace(c: char) {
    c == ' ' || 9 <= c as int <= 13
  }

  predicate IsDigit(c: char) {
    '0' <= c <= '9'
  }

  predicate AllDigits(s: string) {
    forall i | 0 <= i < |s| :: IsDigit(s[i])
  }

  function DigitValue(c: char): (d: nat)
    requires IsDigit(c)
    ensures d < 10
  {
    c as int - '0' as int
  }

  function DigitChar(d: nat): (c: char)
    requires d < 10
    ensures IsDigit(c) && DigitValue(c) == d
  {
    ('0' as int + d) as char
  }

  /** The value of a run of decimal digits, most significant first. */
  function DigitsValue(s: string): nat
    requires AllDigits(s)
  {
    if s == [] then 0 else DigitsValue(s[..|s| - 1]) * 10 + DigitValue(s[|s| - 1])
  }

  // ---------------------------------------------------------------- String::toInt

  /** What is left of `s` once its leading white space is skipped. */
  function SkipSpace(s: string): (t: string)
    ensures |t| <= |s| && t == s[|s| - |t|..]
    ensures t != [] ==> !IsSpace(t[0])
  {
    if s != [] && IsSpace(s[0]) then SkipSpace(s[1..]) else s
  }

  /** The length of the longest prefix of `s` made of decimal digits. */
  function DigitRun(s: string): (n: nat)
    ensures n <= |s| && AllDigits(s[..n])
    ensures n < |s| ==> !IsDigit(s[n])
  {
    if s == [] || !IsDigit(s[0]) then 0
    else
      var n := 1 + DigitRun(s[1..]);
      assert s[..n] == [s[0]] + s[1..][..n - 1];
      n
  }

  /** The value of the digits that start `s` (0 when `s` does not start with a digit). */
  function LeadingValue(s: string): nat {
    DigitsValue(s[..DigitRun(s)])
  }

  /** `strtol` clamps a value that does not fit in a `long`. */
  function Saturate(x: int): I32 {
    if x < LongMin then LongMin else if x > LongMax then LongMax else x
  }

  /** `String::toInt()`, which returns `atol(buffer)`: newlib's `atol` is `strtol(s, NULL, 10)`,
      which skips leading white space, takes an optional sign and then the longest run of
      decimal digits, stops at the first other character, yields 0 when there are no digits,
      and saturates at the bounds of `long`. */
  function ToInt(s: string): (r: I32)
    ensures SkipSpace(s) == [] ==> r == 0
    ensures SkipSpace(s) != [] && !IsDigit(SkipSpace(s)[0]) && SkipSpace(s)[0] != '-' && SkipSpace(s)[0] != '+' ==> r == 0
  {
    var t := SkipSpace(s);
    if t != [] && (t[0] == '-' || t[0] == '+') then
      var m: int := LeadingValue(t[1..]);
      Saturate(if t[0] == '-' then -m else m)
    else
      Saturate(LeadingValue(t))
  }

  // ---------------------------------------------------------------- String(int)

  /** Decimal digits of `n`, without leading zeros. */
  function NatToString(n: nat): (s: string)
    ensures s != [] && AllDigits(s)
    ensures DigitsValue(s) == n
    ensures |s| > 1 ==> s[0] != '0'
  {
    if n < 10 then [DigitChar(n)]
    else
      var p := NatToString(n / 10);
      var s := p + [DigitChar(n % 10)];
      assert s[..|s| - 1] == p;
      s
  }

  /** `String(int)`: `itoa(value, buf, 10)`, a minus sign before the magnitude when negative. */
  function IntToString(n: int): (s: string)
    ensures s != [] && (s[0] == '-' || IsDigit(s[0]))
    ensures n < 0 <==> s[0] == '-'
  {
    if n < 0 then "-" + NatToString(-n) else NatToString(n)
  }

  // ---------------------------------------------------------------- lemmas

  /** On a string of digits alone, the digit run covers the whole string. */
  lemma {:induction false} DigitRunOfDigits(s: string)
    requires AllDigits(s)
    ensures DigitRun(s) == |s|
  {
    if s != [] {
      DigitRunOfDigits(s[1..]);
    }
  }

  /** The digit run stops at the first non-digit: appending a non-digit tail does not
      change the value of the leading digits. */
  lemma {:induction false} DigitRunStops(d: string, tail: string)
    requires AllDigits(d)
    requires tail != [] ==> !IsDigit(tail[0])
    ensures DigitRun(d + tail) == |d|
    ensures LeadingValue(d + tail) == DigitsValue(d)
  {
    if d != [] {
      assert (d + tail)[1..] == d[1..] + tail;
      DigitRunStops(d[1..], tail);
    }
    assert (d + tail)[..|d|] == d;
  }

  /** `toInt` stops at the first non-digit: a run of digits followed by anything that does
      not start with a digit reads as the value of those digits (saturated to `long`). */
  lemma ToIntStopsAtNonDigit(d: string, tail: string)
    requires d != [] && AllDigits(d)
    requires tail != [] ==> !IsDigit(tail[0])
    ensures ToInt(d + tail) == Saturate(DigitsValue(d))
  {
    var s := d + tail;
    DigitRunStops(d, tail);
    assert s[0] == d[0];
    SkipSpaceNoop(s);
    assert s[0] != '-' && s[0] != '+';
    assert ToInt(s) == Saturate(LeadingValue(s));
  }

  /** The digits `String(int)` prints for a magnitude read back as that magnitude. */
  lemma LeadingValueOfNatToString(m: nat)
    ensures LeadingValue(NatToString(m)) == m
  {
    var d := NatToString(m);
    DigitRunOfDigits(d);
    assert d[..|d|] == d;
  }

  /** White space is skipped only at the front: a string that does not start with it is
      read from its first character. */
  lemma SkipSpaceNoop(s: string)
    requires s != [] && !IsSpace(s[0])
    ensures SkipSpace(s) == s
  {
  }

  /** `toInt` reads back a negative value printed by `String(int)`. */
  lemma ToIntOfNegative(n: I32)
    requires n < 0
    ensures ToInt(IntToString(n)) == n
  {
    var s := IntToString(n);
    SkipSpaceNoop(s);
    var m: nat := -(n as int);
    assert s[1..] == NatToString(m);
    LeadingValueOfNatToString(m);
  }

  /** `toInt` reads back a non-negative value printed by `String(int)`. */
  lemma ToIntOfNonNegative(n: I32)
    requires n >= 0
    ensures ToInt(IntToString(n)) == n
  {
    var s := IntToString(n);
    SkipSpaceNoop(s);
    assert s == NatToString(n);
    LeadingValueOfNatToString(n);
  }

  /** Parsing what `String(int)` printed gives the number back: `toInt` inverts `String(int)`
      on every 32-bit value. */
  lemma ToIntOfIntToString(n: I32)
    ensures ToInt(IntToString(n)) == n
  {
    if n < 0 {
      ToIntOfNegative(n);
    } else {
      ToIntOfNonNegative(n);
    }
  }

  /** A string without a single decimal digit reads as 0. */
  lemma NoDigitsReadsZero(s: string)
    requires forall i | 0 <= i < |s| :: !IsDigit(s[i])
    ensures ToInt(s) == 0
  {
    var t := SkipSpace(s);
    if t != [] {
      assert t[0] == s[|s| - |t|];
      if t[0] == '-' || t[0] == '+' {
        if |t| > 1 {
          assert t[1..][0] == s[|s| - |t| + 1];
        }
        assert DigitRun(t[1..]) == 0;
      } else {
        assert DigitRun(t) == 0;
      }
    }
  }
}
