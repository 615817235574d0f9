/**
 * MediaMetadataService.formatDuration: the "HH:MM:SS" / "MM:SS" text stored as a
 * lesson's duration, on a whole number of seconds.
 */
module MediaMetadata {
  import opened Wrappers
  import opened JavaText
  import opened Clocks
  import GoogleDrive

  /** "%02d:%02d:%02d" of the clock when it has whole hours, "%02d:%02d" of minutes and seconds otherwise. */
  function FormatDuration(seconds: int): string
  {
    var c := ClockOf(seconds);
    if c.hours > 0 then Format02d(c.hours) + ":" + Format02d(c.minutes) + ":" + Format02d(c.secs)
    else Format02d(c.minutes) + ":" + Format02d(c.secs)
  }

  /** The printed duration of a non-negative count reads back to that count. */
  lemma DurationReadsBack(seconds: int)
    requires seconds >= 0
    ensures ReadClock(FormatDuration(seconds)) == Some(seconds)
  {
    var c := ClockOf(seconds);
    var h, m, sec: nat := c.hours, c.minutes, c.secs;
    assert 3600 * h + 60 * m + sec == seconds;
    var text := FormatDuration(seconds);
    if h > 0 {
      assert text == Pad2(h) + ":" + Pad2(m) + ":" + Pad2(sec);
      ReadPaddedHoursText(h, m, sec);
    } else {
      assert text == Pad2(m) + ":" + Pad2(sec);
      ReadPaddedMinutesText(m, sec);
    }
    assert ReadClock(text) == Some(seconds);
  }

  /**
   * For a non-negative count: three fields from one hour on and two below it, every
   * field at least two digits wide, and the minutes and seconds exactly two.
   */
  lemma DurationShape(seconds: int)
    requires seconds >= 0
    ensures var f := Split(FormatDuration(seconds), ':');
            && |f| == (if seconds >= 3600 then 3 else 2)
            && (forall i :: 0 <= i < |f| ==> |f[i]| >= 2)
            && |f[|f| - 1]| == 2 && |f[|f| - 2]| == 2
  {
    var c := ClockOf(seconds);
    if c.hours > 0 {
      ReadClockThree(Pad2(c.hours), Pad2(c.minutes), Pad2(c.secs));
    } else {
      ReadClockTwo(Pad2(c.minutes), Pad2(c.secs));
    }
  }

  /** Under an hour the text is exactly five characters with the colon at index 2. */
  lemma UnderAnHourIsFive(seconds: int)
    requires 0 <= seconds < 3600
    ensures |FormatDuration(seconds)| == 5 && FormatDuration(seconds)[2] == ':'
  {
    var c := ClockOf(seconds);
    assert FormatDuration(seconds) == Pad2(c.minutes) + ":" + Pad2(c.secs);
  }

  /** The text has two colons exactly when the count reaches an hour, and one otherwise (negative counts too). */
  lemma DurationColons(seconds: int)
    ensures multiset(FormatDuration(seconds))[':'] == (if seconds >= 3600 then 2 else 1)
  {
    var c := ClockOf(seconds);
    PrintedNumberChars(c.hours, ':');
    PrintedNumberChars(c.minutes, ':');
    PrintedNumberChars(c.secs, ':');
    if c.hours > 0 {
      TwoColons(Format02d(c.hours), Format02d(c.minutes), Format02d(c.secs));
    } else {
      OneColon(Format02d(c.minutes), Format02d(c.secs));
    }
  }

  /**
   * The ffprobe text and the Drive text of the same length read back alike; they
   * are the very same string from ten minutes up to an hour and from ten hours on.
   */
  lemma AgreesWithDrive(seconds: nat)
    ensures ReadClock(FormatDuration(seconds)) == ReadClock(GoogleDrive.FormatDuration(1000 * seconds))
    ensures 600 <= seconds < 3600 || 36000 <= seconds ==>
              FormatDuration(seconds) == GoogleDrive.FormatDuration(1000 * seconds)
  {
    DurationReadsBack(seconds);
    GoogleDrive.DurationReadsBack(1000 * seconds);
    assert (1000 * seconds) / 1000 == seconds;
    assert JavaDiv(1000 * seconds, 1000) == seconds;
    var c := ClockOf(seconds);
    if 600 <= seconds < 3600 {
      assert c.minutes >= 10;
      assert Pad2(c.minutes) == NatToString(c.minutes);
    } else if 36000 <= seconds {
      assert c.hours >= 10;
      assert Pad2(c.hours) == NatToString(c.hours);
    }
  }
}
