/** The few Python string operations the bot relies on: `str.strip()` with
    no argument, `str.isdigit()` restricted to ASCII digits, `int(s)` on a
    digit string and the decimal rendering of an integer in an f-string. */
module PyStr {

  /** The characters Python's `str.isspace()` accepts, which are the ones
      `str.strip()` removes when called without an argument. */
  predicate IsSpace(c: char)
  {
    || c == '\t' || c == '\n' || c == '\U{0B}' || c == '\U{0C}' || c == '\r'
    || ('\U{1C}' <= c <= '\U{1F}')
    || c == ' ' || c == '\U{85}' || c == '\U{A0}' || c == '\U{1680}'
    || ('\U{2000}' <= c <= '\U{200A}')
    || c == '\U{2028}' || c == '\U{2029}' || c == '\U{202F}' || c == '\U{205F}'
    || c == '\U{3000}'
  }

  predicate AllSpace(s: string)
  {
    forall k | 0 <= k < |s| :: IsSpace(s[k])
  }

  /** Neither end of `s` is whitespace (vacuously true of the empty string). */
  predicate Trimmed(s: string)
  {
    s == [] || (!IsSpace(s[0]) && !IsSpace(s[|s| - 1]))
  }

  /** Python's `s.lstrip()`. */
  function StripLeft(s: string): string
  {
    if |s| > 0 && IsSpace(s[0]) then StripLeft(s[1..]) else s
  }

  /** Python's `s.rstrip()`. */
  function StripRight(s: string): string
  {
    if |s| > 0 && IsSpace(s[|s| - 1]) then StripRight(s[..|s| - 1]) else s
  }

  /** Leading whitespace removed: the result is the suffix of `s` after a run
      of whitespace, and does not itself start with whitespace. */
  lemma {:induction false} StripLeftIsSuffix(s: string)
    ensures var r := StripLeft(s);
      && |r| <= |s| && r == s[|s| - |r|..]
      && AllSpace(s[..|s| - |r|])
      && (r == [] || !IsSpace(r[0]))
  {
    if |s| > 0 && IsSpace(s[0]) {
      var r := StripLeft(s[1..]);
      StripLeftIsSuffix(s[1..]);
      assert s[1..][..|s| - 1 - |r|] == s[1..|s| - |r|];
    }
  }

  /** Trailing whitespace removed: the result is the prefix of `s` before a
      run of whitespace, and does not itself end with whitespace. */
  lemma {:induction false} StripRightIsPrefix(s: string)
    ensures var r := StripRight(s);
      && |r| <= |s| && r == s[..|r|]
      && AllSpace(s[|r|..])
      && (r == [] || !IsSpace(r[|r| - 1]))
  {
    if |s| > 0 && IsSpace(s[|s| - 1]) {
      var r := StripRight(s[..|s| - 1]);
      StripRightIsPrefix(s[..|s| - 1]);
      assert s[|r|..] == s[..|s| - 1][|r|..] + [s[|s| - 1]];
    }
  }

  /** Python's `s.strip()`. */
  function Strip(s: string): string
  {
    StripRight(StripLeft(s))
  }

  /** What `Strip` returns is a slice of its input whose two ends are not
      whitespace and outside of which there is only whitespace. */
  lemma StripIsTrimmedSlice(s: string)
    ensures exists i, j | 0 <= i <= j <= |s| ::
      && Strip(s) == s[i..j] && AllSpace(s[..i]) && AllSpace(s[j..])
    ensures Trimmed(Strip(s))
  {
    var l := StripLeft(s);
    var r := StripRight(l);
    StripLeftIsSuffix(s);
    StripRightIsPrefix(l);
    var i := |s| - |l|;
    var j := i + |r|;
    assert s[i..j] == r;
    assert s[j..] == l[|r|..];
    if r != [] && l != [] {
      assert r[0] == l[0];
    }
  }

  lemma {:induction false} StripLeftSkipsSpace(pre: string, x: string)
    requires AllSpace(pre)
    ensures StripLeft(pre + x) == StripLeft(x)
  {
    if pre != [] {
      assert (pre + x)[1..] == pre[1..] + x;
      StripLeftSkipsSpace(pre[1..], x);
    } else {
      assert pre + x == x;
    }
  }

  lemma {:induction false} StripRightSkipsSpace(x: string, post: string)
    requires AllSpace(post)
    ensures StripRight(x + post) == StripRight(x)
  {
    if post != [] {
      var p' := post[..|post| - 1];
      assert (x + post)[..|x + post| - 1] == x + p';
      StripRightSkipsSpace(x, p');
    } else {
      assert x + post == x;
    }
  }

  /** Whitespace around a trimmed string is exactly what `Strip` removes,
      so the slice above is unique. */
  lemma StripPadded(pre: string, t: string, post: string)
    requires AllSpace(pre) && AllSpace(post) && Trimmed(t)
    ensures Strip(pre + t + post) == t
  {
    assert pre + t + post == pre + (t + post);
    StripLeftSkipsSpace(pre, t + post);
    if t == [] {
      assert t + post == post;
      assert StripLeft(post) == [] by {
        assert post + [] == post;
        StripLeftSkipsSpace(post, []);
      }
    } else {
      assert StripLeft(t + post) == t + post;
      StripRightSkipsSpace(t, post);
    }
  }

  /** Stripping twice is stripping once. */
  lemma StripIdempotent(s: string)
    ensures Strip(Strip(s)) == Strip(s)
  {
    StripIsTrimmedSlice(s);
    var t := Strip(s);
    assert [] + t + [] == t;
    StripPadded([], t, []);
  }

  predicate IsDigit(c: char)
  {
    '0' <= c <= '9'
  }

  /** Python's `s.isdigit()` on ASCII text: non-empty and digits only. */
  predicate IsAsciiDigits(s: string)
  {
    |s| > 0 && forall k | 0 <= k < |s| :: IsDigit(s[k])
  }

  function DigitValue(c: char): (d: nat)
    requires IsDigit(c)
    ensures d < 10
  {
    c as int - '0' as int
  }

  function DigitChar(d: nat): (c: char)
    requires d < 10
    ensures IsDigit(c) && DigitValue(c) == d
  {
    ('0' as int + d) as char
  }

  /** Python's `int(s)` for a string of ASCII digits (leading zeros allowed). */
  function DecimalValue(s: string): nat
    requires forall k | 0 <= k < |s| :: IsDigit(s[k])
  {
    if s == [] then 0
    else DecimalValue(s[..|s| - 1]) * 10 + DigitValue(s[|s| - 1])
  }

  /** `f"{n}"` for a non-negative integer: no leading zero, no sign. */
  function Decimal(n: nat): (r: string)
    ensures IsAsciiDigits(r)
    ensures r[0] != '0' || n == 0
  {
    if n < 10 then [DigitChar(n)]
    else Decimal(n / 10) + [DigitChar(n % 10)]
  }

  /** Reading back what `Decimal` writes gives the number written. */
  lemma {:induction false} DecimalRoundTrip(n: nat)
    ensures DecimalValue(Decimal(n)) == n
  {
    var r := Decimal(n);
    if n >= 10 {
      assert r[..|r| - 1] == Decimal(n / 10);
      DecimalRoundTrip(n / 10);
    }
  }

  /** A digit string that does not start with '0' has a positive value. */
  lemma {:induction false} DecimalValuePositive(s: string)
    requires IsAsciiDigits(s) && s[0] != '0'
    ensures DecimalValue(s) >= 1
  {
    if |s| > 1 {
      DecimalValuePositive(s[..|s| - 1]);
    }
  }

  /** A digit string without a leading zero (or the single digit "0") is
      exactly what `f"{n}"` writes for its value, so `int()` loses nothing on
      such strings. */
  lemma {:induction false} DecimalOfValue(s: string)
    requires IsAsciiDigits(s) && (s[0] != '0' || |s| == 1)
    ensures Decimal(DecimalValue(s)) == s
  {
    var n := |s| - 1;
    var c := s[n];
    assert DigitChar(DigitValue(c)) == c;
    if n > 0 {
      var init := s[..n];
      DecimalValuePositive(init);
      DecimalOfValue(init);
      var v := DecimalValue(s);
      assert v / 10 == DecimalValue(init) && v % 10 == DigitValue(c);
      assert s == init + [c];
    }
  }

  /** A leading '0' does not change what `int()` reads. */
  lemma {:induction false} DecimalValueLeadingZero(s: string)
    requires forall k | 0 <= k < |s| :: IsDigit(s[k])
    ensures DecimalValue("0" + s) == DecimalValue(s)
  {
    if s != [] {
      assert ("0" + s)[..|"0" + s| - 1] == "0" + s[..|s| - 1];
      DecimalValueLeadingZero(s[..|s| - 1]);
    }
  }

  predicate AllZeros(s: string)
  {
    forall k | 0 <= k < |s| :: s[k] == '0'
  }

  /** A '0' before a run of '0's is a longer run. */
  lemma ZerosExtend(t: string, z: nat)
    requires z <= |t| && AllZeros(t[..z])
    ensures AllZeros(("0" + t)[..z + 1])
  {
    var s := "0" + t;
    forall k | 0 <= k < z + 1
      ensures s[k] == '0'
    {
      if k > 0 {
        assert s[k] == t[..z][k - 1];
      }
    }
  }

  /** Every digit string is a run of '0's followed by exactly what `f"{n}"`
      writes for its value `n`, so `int()` reads "007" as 7. */
  lemma {:induction false} DigitsAreZerosThenDecimal(s: string)
    requires IsAsciiDigits(s)
    ensures exists z | 0 <= z < |s| :: AllZeros(s[..z]) && s[z..] == Decimal(DecimalValue(s))
  {
    if s[0] != '0' || |s| == 1 {
      DecimalOfValue(s);
      assert AllZeros(s[..0]) && s[0..] == s;
    } else {
      var t := s[1..];
      assert s == "0" + t;
      DigitsAreZerosThenDecimal(t);
      var z :| 0 <= z < |t| && AllZeros(t[..z]) && t[z..] == Decimal(DecimalValue(t));
      DecimalValueLeadingZero(t);
      ZerosExtend(t, z);
      assert s[z + 1..] == t[z..];
    }
  }
}
