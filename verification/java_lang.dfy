/** The few pieces of the Java platform that the point-of-sale core relies on:
    `String.format("%0Nd", n)`, `Integer.parseInt`, `String.hashCode`,
    `Objects.hash`, `String.trim()` blankness, string concatenation with `null`,
    and `LocalDateTime` as an opaque instant. */
module JavaLang {
  import opened Wrappers

  /** `LocalDateTime.now()` is an input of the model: an instant is an opaque number. */
  type Instant = int

  const MinInt: int := -0x8000_0000
  const MaxInt: int := 0x7FFF_FFFF

  predicate IsDigit(c: char) { '0' <= c <= '9' }

  predicate AllDigits(s: string) { forall i :: 0 <= i < |s| ==> IsDigit(s[i]) }

  function DigitValue(c: char): (d: nat)
    requires IsDigit(c)
    ensures d < 10
  {
    c as int - '0' as int
  }

  function DigitChar(d: nat): (c: char)
    requires d < 10
    ensures IsDigit(c) && DigitValue(c) == d
  {
    ('0' as int + d) as char
  }

  function Pow10(n: nat): (p: nat)
    ensures p > 0
  {
    if n == 0 then 1 else 10 * Pow10(n - 1)
  }

  lemma Pow10Valores()
    ensures Pow10(7) == 10000000
    ensures Pow10(9) == 1000000000
    ensures Pow10(18) == 1000000000000000000
  {
    assert Pow10(3) == 1000;
    assert Pow10(6) == 1000000;
    assert Pow10(9) == 1000000000;
    assert Pow10(12) == 1000000000000;
    assert Pow10(15) == 1000000000000000;
  }

  /** The value of a string of decimal digits, most significant first. */
  function ReadDecimal(s: string): (v: nat)
    requires AllDigits(s)
    ensures v < Pow10(|s|)
  {
    if s == [] then 0
    else ReadDecimal(s[..|s| - 1]) * 10 + DigitValue(s[|s| - 1])
  }

  /** `String.format("%0" + w + "d", n)` for `0 <= n < 10^w`: the last `w`
      decimal digits of `n`, padded on the left with zeros, written with the
      ASCII digits of a default locale whose zero digit is '0'. */
  function ZeroPadded(n: nat, w: nat): (s: string)
    ensures |s| == w && AllDigits(s)
  {
    if w == 0 then [] else ZeroPadded(n / 10, w - 1) + [DigitChar(n % 10)]
  }

  /** Reading a zero-padded number back gives the number. */
  lemma {:induction false} ReadZeroPadded(n: nat, w: nat)
    requires n < Pow10(w)
    ensures ReadDecimal(ZeroPadded(n, w)) == n
  {
    if w > 0 {
      var s := ZeroPadded(n, w);
      assert s[..|s| - 1] == ZeroPadded(n / 10, w - 1);
      ReadZeroPadded(n / 10, w - 1);
    }
  }

  /** Padding the value of a digit string to its own width gives the string back. */
  lemma {:induction false} ZeroPaddedRead(s: string)
    requires AllDigits(s)
    ensures ZeroPadded(ReadDecimal(s), |s|) == s
  {
    if s != [] {
      var init := s[..|s| - 1];
      var v := ReadDecimal(s);
      assert v / 10 == ReadDecimal(init) && v % 10 == DigitValue(s[|s| - 1]);
      ZeroPaddedRead(init);
      assert s == init + [s[|s| - 1]];
    }
  }

  /** Two numbers below `10^w` are padded to the same text only when they are equal. */
  lemma ZeroPaddedInjective(a: nat, b: nat, w: nat)
    requires a < Pow10(w) && b < Pow10(w)
    requires ZeroPadded(a, w) == ZeroPadded(b, w)
    ensures a == b
  {
    ReadZeroPadded(a, w);
    ReadZeroPadded(b, w);
  }

  /** `Integer.parseInt(s)`: an optional sign, then at least one digit, and the
      value must fit in 32 bits; anything else throws `NumberFormatException`
      (here `None`). Only ASCII digits are modelled. */
  function ParseInt(s: string): (r: Option<int>)
    ensures r.Some? ==> MinInt <= r.value <= MaxInt
    ensures r.Some? ==> exists i :: 0 <= i < |s| && IsDigit(s[i])
  {
    if s == [] then None
    else
      var signed := s[0] == '-' || s[0] == '+';
      var body := if signed then s[1..] else s;
      if body == [] || !AllDigits(body) then None
      else
        var v: int := if s[0] == '-' then -(ReadDecimal(body) as int) else ReadDecimal(body);
        if MinInt <= v <= MaxInt then
          assert IsDigit(body[0]) && body[0] == s[if signed then 1 else 0];
          Some(v)
        else None
  }

  /** A plain digit string of at most nine digits always parses, to its value. */
  lemma ParseIntDigits(s: string)
    requires 0 < |s| <= 9 && AllDigits(s)
    ensures ParseInt(s) == Some(ReadDecimal(s))
  {
    assert Pow10(9) == 1000000000;
    assert Pow10(|s|) <= Pow10(9) by { Pow10Monotonic(|s|, 9); }
  }

  lemma {:induction false} Pow10Monotonic(a: nat, b: nat)
    requires a <= b
    ensures Pow10(a) <= Pow10(b)
  {
    if a < b { Pow10Monotonic(a, b - 1); }
  }

  /** Java's `int` arithmetic: the value modulo 2^32, read as signed. */
  function Wrap32(x: int): (r: int)
    ensures MinInt <= r <= MaxInt
    ensures (r - x) % 0x1_0000_0000 == 0
  {
    (x - MinInt) % 0x1_0000_0000 + MinInt
  }

  /** `String.hashCode()`: `s[0]*31^(n-1) + ... + s[n-1]` in 32-bit arithmetic,
      taken over characters (Java takes it over UTF-16 code units). */
  function StringHash(s: string): (h: int)
    ensures MinInt <= h <= MaxInt
  {
    if s == [] then 0 else Wrap32(31 * StringHash(s[..|s| - 1]) + s[|s| - 1] as int)
  }

  /** The hash of a nullable string inside `Objects.hash`: `null` hashes to 0. */
  function NullableHash(o: Option<string>): (h: int)
    ensures MinInt <= h <= MaxInt
    ensures o.None? ==> h == 0
  {
    if o.None? then 0 else StringHash(o.value)
  }

  /** `String.valueOf(o)` as used by `+`: `null` is written as "null". */
  function Show(o: Option<string>): (s: string)
    ensures o.Some? ==> s == o.value
    ensures o.None? ==> s == "null"
  {
    if o.None? then "null" else o.value
  }

  /** `s.trim().length() > 0`: `trim` strips every character up to U+0020 from
      both ends, so a string is blank when no character is above U+0020. */
  predicate IsBlank(s: string) { forall i :: 0 <= i < |s| ==> s[i] <= ' ' }

  /** A nullable string that fits a `@Column(length = n)`: null, or at most n characters. */
  predicate CabeEn(o: Option<string>, n: nat) { o.None? || |o.value| <= n }
}
