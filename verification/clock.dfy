/**
  The countdown display: seconds as minutes and seconds, each written in
  decimal and left-padded with '0' to two characters, joined by ':'.
  Division floors and the remainder keeps the sign of the seconds, as the
  browser's `Math.floor` and `%` do.
 */
module Clock {

  predicate IsDigit(c: char) {
    '0' <= c <= '9'
  }

  predicate AllDigits(s: string) {
    forall i :: 0 <= i < |s| ==> IsDigit(s[i])
  }

  function DigitChar(d: int): (c: char)
    requires 0 <= d < 10
    ensures IsDigit(c)
  {
    ('0' as int + d) as char
  }

  /** The value of a string of decimal digits; the empty string reads as 0. */
  function Value(s: string): nat
    requires AllDigits(s)
    decreases |s|
  {
    if |s| == 0 then 0
    else Value(s[..|s| - 1]) * 10 + (s[|s| - 1] as int - '0' as int)
  }

  /** A natural number in decimal, without leading zeros. */
  function Digits(n: nat): (r: string)
    ensures AllDigits(r) && |r| >= 1
    ensures |r| == 1 <==> n < 10
    ensures |r| == 2 <==> 10 <= n < 100
    decreases n
  {
    if n < 10 then [DigitChar(n)] else Digits(n / 10) + [DigitChar(n % 10)]
  }

  /** Reading the digits back gives the number. */
  lemma {:induction false} DigitsRoundTrip(n: nat)
    ensures Value(Digits(n)) == n
    decreases n
  {
    if n >= 10 {
      DigitsRoundTrip(n / 10);
      var r := Digits(n);
      assert r[..|r| - 1] == Digits(n / 10);
    }
  }

  /** An integer in decimal, with a '-' in front when negative. */
  function Decimal(n: int): (r: string)
    ensures (|r| > 0 && r[0] == '-') <==> n < 0
    ensures n < 0 ==> AllDigits(r[1..]) && Value(r[1..]) == -n
    ensures n >= 0 ==> AllDigits(r) && Value(r) == n
  {
    if n < 0 then
      DigitsRoundTrip(-n);
      assert ("-" + Digits(-n))[1..] == Digits(-n);
      "-" + Digits(-n)
    else
      DigitsRoundTrip(n);
      Digits(n)
  }

  /** Left-pads to two characters with '0'; longer strings are kept whole. */
  function PadStart2(s: string): (r: string)
    ensures |r| == if |s| >= 2 then |s| else 2
    ensures r[|r| - |s|..] == s
    ensures forall i :: 0 <= i < |r| - |s| ==> r[i] == '0'
  {
    if |s| >= 2 then s else seq(2 - |s|, i => '0') + s
  }

  /** Division rounding down, as `Math.floor(a / b)`. */
  function FloorDiv(a: int, b: int): (q: int)
    requires b > 0
    ensures b * q <= a < b * (q + 1)
  {
    a / b
  }

  /** The remainder of `a % b` for a positive `b`: its sign is the sign of `a`. */
  function SignedRem(a: int, b: int): (r: int)
    requires b > 0
    ensures a >= 0 ==> 0 <= r < b
    ensures a < 0 ==> -b < r <= 0
    ensures exists q: int :: a == b * q + r
  {
    if a >= 0 then
      assert a == b * (a / b) + a % b;
      a % b
    else
      var r := -((-a) % b);
      assert a == b * (-((-a) / b)) + r;
      r
  }

  /** A number below 100 padded to two digits reads back as itself. */
  lemma TwoDigits(n: nat)
    requires n < 100
    ensures |PadStart2(Decimal(n))| == 2 && AllDigits(PadStart2(Decimal(n)))
    ensures Value(PadStart2(Decimal(n))) == n
  {
    var d := Digits(n);
    var p := PadStart2(d);
    DigitsRoundTrip(n);
    if n < 10 {
      assert p == ['0'] + d;
      assert p[..1] == ['0'];
      assert Value(p[..1]) == Value([]) * 10 + 0;
    } else {
      assert p == d;
    }
  }

  /**
    The countdown display. Below 100 minutes it is "MM:SS": five characters,
    digits around a colon, seconds below 60, and the two fields add back up
    to the time.
   */
  function FormatTime(sec: int): (r: string)
    ensures 0 <= sec < 6000 ==>
      && |r| == 5 && r[2] == ':'
      && AllDigits(r[..2]) && AllDigits(r[3..])
      && Value(r[3..]) < 60
      && 60 * Value(r[..2]) + Value(r[3..]) == sec
  {
    var mm, ss := FloorDiv(sec, 60), SignedRem(sec, 60);
    var minutes, seconds := PadStart2(Decimal(mm)), PadStart2(Decimal(ss));
    if 0 <= sec < 6000 then
      MinutesAndSeconds(sec);
      TwoDigits(mm);
      TwoDigits(ss);
      Fields(minutes, seconds);
      minutes + ":" + seconds
    else
      minutes + ":" + seconds
  }

  lemma MinutesAndSeconds(sec: int)
    requires 0 <= sec < 6000
    ensures 0 <= FloorDiv(sec, 60) < 100 && 0 <= SignedRem(sec, 60) < 60
    ensures sec == 60 * FloorDiv(sec, 60) + SignedRem(sec, 60)
  {
  }

  lemma Fields(a: string, b: string)
    requires |a| == 2 && |b| == 2
    ensures var r := a + ":" + b;
      |r| == 5 && r[2] == ':' && r[..2] == a && r[3..] == b
  {
  }

  /** A negative countdown shows a minus sign in both fields. */
  lemma NegativeTimeShowsTwoSigns()
    ensures FormatTime(-5) == "-1:-5"
  {
    assert FloorDiv(-5, 60) == -1;
    assert SignedRem(-5, 60) == -5;
    assert Decimal(-1) == "-1";
    assert Decimal(-5) == "-5";
  }
}
