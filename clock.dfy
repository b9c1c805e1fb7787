/**
 * The two clock texts of the game: MM:SS with both fields padded
 * (formatDuration of src/scenes/StatsScene.ts, also the text of the question
 * timer) and M:SS with unpadded minutes (formatTime of
 * src/components/SessionTimer.ts).
 */
module Clock {
  import opened NumberText

  /** The colours the clock texts are drawn in. */
  datatype TextColour = White | Amber | Orange | Red {
    /** The CSS colour string handed to setColor. */
    function Hex(): string {
      match this
      case White => "#ffffff"
      case Amber => "#ffaa00"
      case Orange => "#ff8800"
      case Red => "#ff0000"
    }
  }

  /**
   * formatDuration: whole seconds as minutes Math.floor(seconds / 60) and
   * seconds seconds % 60, each padded to two digits. The division by the
   * positive 60 rounds down, as Math.floor does.
   */
  function FormatDuration(seconds: int): string
  {
    var mins := seconds / 60;
    var secs := JsRem(seconds, 60);
    PadStart2(IntToString(mins)) + ":" + PadStart2(IntToString(secs))
  }

  /** The minutes field of an M:SS or MM:SS text: everything before the last three characters. */
  function MinutesField(text: string): string
    requires |text| >= 3
  {
    text[..|text| - 3]
  }

  /** The seconds field of an M:SS or MM:SS text: its last two characters. */
  function SecondsField(text: string): string
    requires |text| >= 3
  {
    text[|text| - 2..]
  }

  /** The text of minutes and seconds joined by a colon splits back into the two. */
  lemma FieldsOfJoin(m: string, s: string)
    requires |s| == 2
    ensures |m + ":" + s| >= 3
    ensures MinutesField(m + ":" + s) == m && SecondsField(m + ":" + s) == s
    ensures (m + ":" + s)[|m + ":" + s| - 3] == ':'
  {
  }

  /**
   * For a non-negative number of seconds, formatDuration reads back: both
   * fields are digits, the minutes at least two of them and never cut short,
   * the seconds exactly two with a value below 60, and minutes * 60 +
   * seconds is the input.
   */
  lemma FormatDurationRoundTrip(seconds: int)
    requires seconds >= 0
    ensures var text := FormatDuration(seconds);
      && |text| >= 5 && text[|text| - 3] == ':'
      && IsDigits(MinutesField(text)) && |MinutesField(text)| >= 2
      && IsDigits(SecondsField(text)) && DigitsValue(SecondsField(text)) < 60
      && DigitsValue(MinutesField(text)) * 60 + DigitsValue(SecondsField(text)) == seconds
  {
    var mins, secs := seconds / 60, JsRem(seconds, 60);
    PaddedValue(mins);
    PaddedValue(secs);
    FieldsOfJoin(PadStart2(IntToString(mins)), PadStart2(IntToString(secs)));
  }

  /** Minutes and seconds are both padded, and a hundred minutes or more keep all their digits. */
  lemma FormatDurationExamples()
    ensures FormatDuration(0) == "00:00"
    ensures FormatDuration(65) == "01:05"
    ensures FormatDuration(6000) == "100:00"
  {
    assert NatToString(0) == "0" && NatToString(1) == "1" && NatToString(5) == "5";
    assert NatToString(10) == NatToString(1) + ['0'];
    assert NatToString(100) == NatToString(10) + ['0'];
    assert 65 / 60 == 1 && JsRem(65, 60) == 5;
    assert 6000 / 60 == 100 && JsRem(6000, 60) == 0;
  }

  /**
   * formatTime: milliseconds rounded up to whole seconds, then the minutes
   * unpadded, a colon and the seconds padded to two digits.
   */
  function FormatTime(ms: int): string
  {
    var totalSeconds := CeilDiv(ms, 1000);
    var minutes := totalSeconds / 60;
    var seconds := JsRem(totalSeconds, 60);
    IntToString(minutes) + ":" + PadStart2(IntToString(seconds))
  }

  /**
   * For a non-negative time, formatTime reads back: the minutes field is
   * decimal digits without a leading zero (unless it is "0"), the seconds
   * field exactly two digits below 60, and minutes * 60 + seconds is the
   * time rounded up to whole seconds.
   */
  lemma FormatTimeRoundTrip(ms: int)
    requires ms >= 0
    ensures var text := FormatTime(ms);
      && |text| >= 4 && text[|text| - 3] == ':'
      && IsDigits(MinutesField(text)) && (MinutesField(text)[0] == '0' ==> MinutesField(text) == "0")
      && IsDigits(SecondsField(text)) && DigitsValue(SecondsField(text)) < 60
      && DigitsValue(MinutesField(text)) * 60 + DigitsValue(SecondsField(text)) == CeilDiv(ms, 1000)
  {
    var totalSeconds := CeilDiv(ms, 1000);
    var minutes, seconds := totalSeconds / 60, JsRem(totalSeconds, 60);
    assert totalSeconds >= 0;
    PaddedValue(seconds);
    IntToStringShape(minutes);
    FieldsOfJoin(IntToString(minutes), PadStart2(IntToString(seconds)));
  }

  /** The time rounds up: no time left shows 0:00, and any part of the first second shows 0:01. */
  lemma FormatTimeRoundsUp(ms: int)
    requires 0 <= ms <= 1000
    ensures ms == 0 ==> FormatTime(ms) == "0:00"
    ensures ms > 0 ==> FormatTime(ms) == "0:01"
  {
    var totalSeconds := CeilDiv(ms, 1000);
    if ms == 0 {
      assert totalSeconds == 0;
    } else {
      assert totalSeconds == 1;
    }
  }
}
