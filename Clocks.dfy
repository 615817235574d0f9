/**
 * The hours / minutes / seconds split that both duration formatters compute
 * (GoogleDriveService and MediaMetadataService), and a reader for the
 * "H:MM:SS" / "M:SS" texts they print.
 */
module Clocks {
  import opened Wrappers
  import opened JavaText

  datatype Clock = Clock(hours: int, minutes: int, secs: int)

  lemma {:induction false} ModAdd60(r: nat, k: nat)
    ensures (60 * k + r) % 60 == r % 60
  {
    if k > 0 {
      ModAdd60(r, k - 1);
      assert 60 * k + r == (60 * (k - 1) + r) + 60;
    }
  }

  /** For a non-negative count: hours, minutes and seconds recombine to it, minutes and seconds below 60. */
  lemma ClockOfNat(x: nat)
    ensures 3600 * (x / 3600) + 60 * ((x % 3600) / 60) + x % 60 == x
    ensures 0 <= (x % 3600) / 60 < 60 && 0 <= x % 60 < 60
  {
    var q := x / 3600;
    var r := x % 3600;
    assert x == 60 * (60 * q) + r;
    ModAdd60(r, 60 * q);
    assert r == 60 * (r / 60) + r % 60;
  }

  /**
   * hours = s / 3600, minutes = (s % 3600) / 60, secs = s % 60, with Java's long
   * division: the three recombine to s, and for s >= 0 minutes and seconds lie in 0..59.
   */
  function ClockOf(seconds: int): (c: Clock)
    ensures 3600 * c.hours + 60 * c.minutes + c.secs == seconds
    ensures seconds >= 0 ==> c.hours >= 0 && 0 <= c.minutes < 60 && 0 <= c.secs < 60
    ensures seconds < 0 ==> c.hours <= 0 && -60 < c.minutes <= 0 && -60 < c.secs <= 0
    ensures c.hours > 0 <==> seconds >= 3600
  {
    ClockOfNat(if seconds >= 0 then seconds else -seconds);
    JavaDivRem(seconds, 3600);
    Clock(JavaDiv(seconds, 3600), JavaDiv(JavaRem(seconds, 3600), 60), JavaRem(seconds, 60))
  }

  /** A field of a clock text: one or more decimal digits. */
  predicate ClockField(f: string) { f != [] && AllDigits(f) }

  /** Reads "H:MM:SS" or "M:SS" back to a number of seconds; None for any other text. */
  function ReadClock(text: string): Option<int>
  {
    var f := Split(text, ':');
    if |f| == 3 && ClockField(f[0]) && ClockField(f[1]) && ClockField(f[2]) then
      Some(3600 * DigitsValue(f[0]) + 60 * DigitsValue(f[1]) + DigitsValue(f[2]))
    else if |f| == 2 && ClockField(f[0]) && ClockField(f[1]) then
      Some(60 * DigitsValue(f[0]) + DigitsValue(f[1]))
    else None
  }

  lemma DigitsNoColon(f: string)
    requires AllDigits(f)
    ensures ':' !in f
  {
    assert forall k :: 0 <= k < |f| ==> f[k] != ':';
  }

  /** Two digit fields joined by ':' read back to minutes * 60 + seconds. */
  lemma ReadClockTwo(a: string, b: string)
    requires ClockField(a) && ClockField(b)
    ensures Split(a + ":" + b, ':') == [a, b]
    ensures ReadClock(a + ":" + b) == Some(60 * DigitsValue(a) + DigitsValue(b))
  {
    DigitsNoColon(a);
    DigitsNoColon(b);
    SplitTwo(a, b, ':');
  }

  /** Three digit fields joined by ':' read back to hours * 3600 + minutes * 60 + seconds. */
  lemma ReadClockThree(a: string, b: string, c: string)
    requires ClockField(a) && ClockField(b) && ClockField(c)
    ensures Split(a + ":" + b + ":" + c, ':') == [a, b, c]
    ensures ReadClock(a + ":" + b + ":" + c) == Some(3600 * DigitsValue(a) + 60 * DigitsValue(b) + DigitsValue(c))
  {
    DigitsNoColon(a);
    DigitsNoColon(b);
    DigitsNoColon(c);
    SplitThree(a, b, c, ':');
  }

  /** Three digit fields standing for h, m and sec read back to 3600 * h + 60 * m + sec. */
  lemma ReadFieldsThree(a: string, b: string, c: string, h: nat, m: nat, sec: nat)
    requires ClockField(a) && ClockField(b) && ClockField(c)
    requires DigitsValue(a) == h && DigitsValue(b) == m && DigitsValue(c) == sec
    ensures ReadClock(a + ":" + b + ":" + c) == Some(3600 * h + 60 * m + sec)
  {
    ReadClockThree(a, b, c);
    var text := a + ":" + b + ":" + c;
    assert ReadClock(text) == Some(3600 * DigitsValue(a) + 60 * DigitsValue(b) + DigitsValue(c));
  }

  /** Two digit fields standing for m and sec read back to 60 * m + sec. */
  lemma ReadFieldsTwo(a: string, b: string, m: nat, sec: nat)
    requires ClockField(a) && ClockField(b)
    requires DigitsValue(a) == m && DigitsValue(b) == sec
    ensures ReadClock(a + ":" + b) == Some(60 * m + sec)
  {
    ReadClockTwo(a, b);
    var text := a + ":" + b;
    assert ReadClock(text) == Some(60 * DigitsValue(a) + DigitsValue(b));
  }

  /** An unpadded count and two padded fields read back to the seconds they stand for. */
  lemma ReadHoursText(h: nat, m: nat, sec: nat)
    requires m < 100 && sec < 100
    ensures ReadClock(NatToString(h) + ":" + Pad2(m) + ":" + Pad2(sec)) == Some(3600 * h + 60 * m + sec)
  {
    NatToStringValue(h);
    Pad2Value(m);
    Pad2Value(sec);
    ReadFieldsThree(NatToString(h), Pad2(m), Pad2(sec), h, m, sec);
  }

  lemma ReadMinutesText(m: nat, sec: nat)
    requires sec < 100
    ensures ReadClock(NatToString(m) + ":" + Pad2(sec)) == Some(60 * m + sec)
  {
    NatToStringValue(m);
    Pad2Value(sec);
    ReadFieldsTwo(NatToString(m), Pad2(sec), m, sec);
  }

  /** Two padded fields read back to the seconds they stand for. */
  lemma ReadPaddedMinutesText(m: nat, sec: nat)
    requires sec < 100
    ensures ReadClock(Pad2(m) + ":" + Pad2(sec)) == Some(60 * m + sec)
  {
    Pad2Value(m);
    Pad2Value(sec);
    ReadFieldsTwo(Pad2(m), Pad2(sec), m, sec);
  }

  lemma ReadPaddedHoursText(h: nat, m: nat, sec: nat)
    requires m < 100 && sec < 100
    ensures ReadClock(Pad2(h) + ":" + Pad2(m) + ":" + Pad2(sec)) == Some(3600 * h + 60 * m + sec)
  {
    Pad2Value(h);
    Pad2Value(m);
    Pad2Value(sec);
    ReadFieldsThree(Pad2(h), Pad2(m), Pad2(sec), h, m, sec);
  }

  /** Two colon-free fields joined by ':' hold exactly one colon. */
  lemma OneColon(a: string, b: string)
    requires ':' !in a && ':' !in b
    ensures multiset(a + ":" + b)[':'] == 1
  {
    assert multiset(a + ":" + b) == multiset(a) + multiset(":") + multiset(b);
  }

  /** Three colon-free fields joined by ':' hold exactly two colons. */
  lemma TwoColons(a: string, b: string, c: string)
    requires ':' !in a && ':' !in b && ':' !in c
    ensures multiset(a + ":" + b + ":" + c)[':'] == 2
  {
    assert multiset(a + ":" + b + ":" + c) == multiset(a) + multiset(":") + multiset(b) + multiset(":") + multiset(c);
  }
}
