/**
 The helpers of analyzer/functions.go: the rate-limit threshold, the list
 of names of a contributor set, and the `hh:mm:ss` rendering of a
 duration.
 */
module Helpers {
  import opened Common
  import opened Order
  import opened Decimal

  /** Below this many remaining calls a page walk pauses before the next fetch. */
  const RateLimitFloor: int := 100

  /** The rate check pauses exactly when fewer than `RateLimitFloor` calls remain. */
  predicate ShouldPause(remaining: int)
  {
    remaining < RateLimitFloor
  }

  /**
   `getUsernames`: every name of the set exactly once. Go lists the keys of
   a map in an unspecified order; this model lists them in ascending order.
   */
  function Usernames(unique: set<string>): (list: seq<string>)
    ensures |list| == |unique|
    ensures forall u :: u in list <==> u in unique
    ensures forall i, j :: 0 <= i < j < |list| ==> list[i] != list[j]
  {
    SortedElements(unique)
  }

  /** Go's `/` on integers: the quotient rounded toward zero. */
  function Quot(a: int, b: int): int
    requires b > 0
  {
    if a >= 0 then a / b else -((-a) / b)
  }

  /** Go's `%` on integers: the remainder takes the sign of the dividend. */
  function Rem(a: int, b: int): (r: int)
    requires b > 0
    ensures a == b * Quot(a, b) + r
    ensures a >= 0 ==> 0 <= r < b
    ensures a <= 0 ==> -b < r <= 0
  {
    a - b * Quot(a, b)
  }

  /** Two Go remainders by `b` of numbers that differ by a multiple of `b` agree. */
  lemma RemUnique(q1: int, r1: int, q2: int, r2: int, b: int)
    requires b > 0
    requires b * q1 + r1 == b * q2 + r2
    requires (0 <= r1 < b && 0 <= r2 < b) || (-b < r1 <= 0 && -b < r2 <= 0)
    ensures r1 == r2
  {
    assert b * (q1 - q2) == r2 - r1;
    assert q1 - q2 >= 1 ==> b * (q1 - q2) >= b;
    assert q1 - q2 <= -1 ==> b * (q1 - q2) <= -b;
  }

  datatype Clock = Clock(hours: int, minutes: int, seconds: int)

  /** The hours, minutes and seconds `FormatSecondsToHMS` prints for `secs`. */
  function SplitSeconds(secs: int): (c: Clock)
    ensures c.hours * 3600 + c.minutes * 60 + c.seconds == secs
    ensures secs >= 0 ==> c.hours >= 0 && 0 <= c.minutes < 60 && 0 <= c.seconds < 60
    ensures secs <= 0 ==> c.hours <= 0 && -60 < c.minutes <= 0 && -60 < c.seconds <= 0
  {
    var h := Quot(secs, 3600);
    var withinHour := Rem(secs, 3600);
    var m := Quot(withinHour, 60);
    var s := Rem(secs, 60);
    RemUnique(60 * h + m, Rem(withinHour, 60), Quot(secs, 60), s, 60);
    Clock(h, m, s)
  }

  /** `fmt`'s `%02d`: at least two characters, zero-padded after any sign. */
  function Pad2(n: int): string
  {
    if n < 0 then "-" + NatToDecimal(-n)
    else if n < 10 then "0" + NatToDecimal(n)
    else NatToDecimal(n)
  }

  /** `FormatSecondsToHMS`: the three fields as `%02d`, joined by colons. */
  function FormatSecondsToHMS(secs: int): (r: string)
    ensures 0 <= secs < 360000 ==> |r| == 8 && r[2] == ':' && r[5] == ':'
  {
    var c := SplitSeconds(secs);
    Pad2(c.hours) + ":" + Pad2(c.minutes) + ":" + Pad2(c.seconds)
  }

  /** The seconds an `hh:mm:ss` rendering denotes. */
  function ClockValue(r: string): int
    requires |r| == 8 && AllDigits(r[0..2]) && AllDigits(r[3..5]) && AllDigits(r[6..8])
  {
    DigitsValue(r[0..2]) * 3600 + DigitsValue(r[3..5]) * 60 + DigitsValue(r[6..8])
  }

  lemma Pad2Digits(n: int)
    requires 0 <= n < 100
    ensures |Pad2(n)| == 2 && AllDigits(Pad2(n)) && DigitsValue(Pad2(n)) == n
  {
    NatToDecimalValue(n);
    var d := NatToDecimal(n);
    if n < 10 {
      assert Pad2(n)[..1] == "0";
    }
  }

  /** Under 100 hours, reading the rendering back gives the duration. */
  lemma FormatSecondsRoundTrip(secs: int)
    requires 0 <= secs < 360000
    ensures var r := FormatSecondsToHMS(secs);
      AllDigits(r[0..2]) && AllDigits(r[3..5]) && AllDigits(r[6..8]) && ClockValue(r) == secs
  {
    var c := SplitSeconds(secs);
    assert c.hours < 100;
    Pad2Digits(c.hours);
    Pad2Digits(c.minutes);
    Pad2Digits(c.seconds);
    var r := FormatSecondsToHMS(secs);
    assert r[0..2] == Pad2(c.hours);
    assert r[3..5] == Pad2(c.minutes);
    assert r[6..8] == Pad2(c.seconds);
  }
}
