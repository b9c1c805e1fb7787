/**
 * The per-question countdown of src/components/QuestionTimer.ts: a
 * start/stop/reset state machine over the remaining milliseconds, driven by
 * the frame delta, and the text, colour and scale its display shows.
 */
module QuestionTimers {
  import opened NumberText
  import opened Clock

  /** Math.ceil(ms / 1000): the whole seconds shown for a remaining time. */
  function DisplaySeconds(ms: real): (seconds: int)
    ensures (seconds - 1) as real < ms / 1000.0 <= seconds as real
  {
    -((-ms / 1000.0).Floor)
  }

  /** A remaining time shows at most n seconds exactly when it is at most n * 1000 ms. */
  lemma DisplaySecondsAtMost(ms: real, n: int)
    ensures DisplaySeconds(ms) <= n <==> ms <= n as real * 1000.0
  {
    var s := DisplaySeconds(ms);
    if s <= n {
      assert s as real <= n as real;
    } else {
      assert (n as real) <= (s - 1) as real;
    }
  }

  /** The colour for the seconds shown: red up to 5, amber up to 10, white above. */
  function TimerColour(seconds: int): (colour: TextColour)
    ensures colour == Red <==> seconds <= 5
    ensures colour == Amber <==> 5 < seconds <= 10
    ensures colour == White <==> seconds > 10
  {
    if seconds <= 5 then Red else if seconds <= 10 then Amber else White
  }

  /** The colour bands measured in milliseconds left: red from 5000 ms down, amber up to 10000 ms. */
  lemma TimerColourInMilliseconds(ms: real)
    ensures TimerColour(DisplaySeconds(ms)) == Red <==> ms <= 5000.0
    ensures TimerColour(DisplaySeconds(ms)) == Amber <==> 5000.0 < ms <= 10000.0
    ensures TimerColour(DisplaySeconds(ms)) == White <==> ms > 10000.0
  {
    DisplaySecondsAtMost(ms, 5);
    DisplaySecondsAtMost(ms, 10);
  }

  /**
   * The text scale: in the red band the text is enlarged during every other
   * half second, when Math.floor(ms / 500) % 2 is 0; otherwise it is 1.
   */
  function TimerScale(ms: real): (scale: real)
    ensures scale == 1.0 || scale == 1.2
    ensures scale == 1.2 ==> ms <= 5000.0
  {
    DisplaySecondsAtMost(ms, 5);
    if DisplaySeconds(ms) <= 5 && JsRem((ms / 500.0).Floor, 2) == 0 then 1.2 else 1.0
  }

  /** With no time left the text is enlarged. */
  lemma TimerScaleAtZero()
    ensures TimerScale(0.0) == 1.2
  {
    DisplaySecondsAtMost(0.0, 5);
    assert (0.0 / 500.0).Floor == 0;
  }

  /**
   * In the red band the scale blinks: for a remaining time in the last five
   * seconds it is 1.2 exactly on the even half-seconds, and one half second
   * later it is the other value.
   */
  lemma TimerBlinks(ms: real)
    requires 0.0 <= ms && ms + 500.0 <= 5000.0
    ensures TimerScale(ms) == 1.2 <==> (ms / 500.0).Floor % 2 == 0
    ensures TimerScale(ms) != TimerScale(ms + 500.0)
  {
    DisplaySecondsAtMost(ms, 5);
    DisplaySecondsAtMost(ms + 500.0, 5);
    assert ((ms + 500.0) / 500.0).Floor == (ms / 500.0).Floor + 1;
  }

  class QuestionTimer {
    var timeRemaining: real
    /** GAME_CONFIG.QUESTION_DURATION, in milliseconds. */
    const totalTime: real
    var isActive: bool
    /** What the display shows: the text, its colour and its scale. */
    var text: string
    var colour: TextColour
    var scale: real

    /** The remaining time is never negative. */
    ghost predicate Valid()
      reads this
    {
      0.0 <= totalTime && 0.0 <= timeRemaining
    }

    /** The remaining time is at most the question's duration. */
    ghost predicate WithinDuration()
      reads this
    {
      timeRemaining <= totalTime
    }

    /** The display shows the remaining time, as updateDisplay draws it. */
    ghost predicate Shows()
      reads this
    {
      && text == FormatDuration(DisplaySeconds(timeRemaining))
      && colour == TimerColour(DisplaySeconds(timeRemaining))
      && scale == TimerScale(timeRemaining)
    }

    /** A new timer is stopped at 0 and shows 00:00 in white. */
    constructor (totalTime: real)
      requires totalTime >= 0.0
      ensures Valid() && WithinDuration()
      ensures this.totalTime == totalTime && timeRemaining == 0.0 && !isActive
      ensures text == "00:00" && colour == White && scale == 1.0
    {
      this.totalTime := totalTime;
      timeRemaining, isActive := 0.0, false;
      text, colour, scale := "00:00", White, 1.0;
    }

    /** updateDisplay: redraws the text, colour and scale for the remaining time. */
    method UpdateDisplay()
      modifies this`text, this`colour, this`scale
      ensures Shows()
    {
      var seconds := DisplaySeconds(timeRemaining);
      text, colour, scale := FormatDuration(seconds), TimerColour(seconds), TimerScale(timeRemaining);
    }

    /** start: the full duration, running. */
    method Start()
      requires Valid()
      modifies this
      ensures Valid() && WithinDuration() && Shows()
      ensures timeRemaining == totalTime && isActive
    {
      timeRemaining := totalTime;
      isActive := true;
      UpdateDisplay();
    }

    /** stop: stops the countdown and keeps the remaining time and the display. */
    method Stop()
      modifies this`isActive
      ensures !isActive
    {
      isActive := false;
    }

    /** reset: the full duration, stopped. */
    method Reset()
      requires Valid()
      modifies this
      ensures Valid() && WithinDuration() && Shows()
      ensures timeRemaining == totalTime && !isActive
    {
      timeRemaining := totalTime;
      isActive := false;
      UpdateDisplay();
    }

    /**
     * update: a stopped timer ignores the frame. A running one loses delta
     * milliseconds; when that leaves nothing, it stops at exactly 0.
     */
    method Update(delta: real)
      requires Valid()
      modifies this
      ensures Valid()
      ensures !old(isActive) ==>
        && timeRemaining == old(timeRemaining) && !isActive
        && text == old(text) && colour == old(colour) && scale == old(scale)
      ensures old(isActive) && old(timeRemaining) - delta > 0.0 ==>
        timeRemaining == old(timeRemaining) - delta && isActive && Shows()
      ensures old(isActive) && old(timeRemaining) - delta <= 0.0 ==>
        timeRemaining == 0.0 && !isActive && Shows()
      ensures old(WithinDuration()) && delta >= 0.0 ==> WithinDuration()
    {
      if !isActive {
        return;
      }
      timeRemaining := timeRemaining - delta;
      if timeRemaining <= 0.0 {
        timeRemaining := 0.0;
        isActive := false;
      }
      UpdateDisplay();
    }

    function GetTimeRemaining(): real
      reads this
    {
      timeRemaining
    }

    predicate IsRunning()
      reads this
    {
      isActive
    }
  }

  /**
   * Once started, a timer of positive duration fed non-negative frame deltas whose sum reaches
   * the duration has stopped at 0 and shows 00:00 in red.
   */
  method RunsOut(total: real, deltas: seq<real>) returns (t: QuestionTimer)
    requires total > 0.0
    requires forall k :: 0 <= k < |deltas| ==> deltas[k] >= 0.0
    requires Sum(deltas) >= total
    ensures t.timeRemaining == 0.0 && !t.IsRunning()
    ensures t.text == "00:00" && t.colour == Red
  {
    t := new QuestionTimer(total);
    t.Start();
    var i := 0;
    while i < |deltas|
      invariant 0 <= i <= |deltas|
      invariant t.Valid()
      invariant t.isActive ==> t.timeRemaining == total - Sum(deltas[..i]) && t.timeRemaining > 0.0
      invariant !t.isActive ==> t.timeRemaining == 0.0 && t.Shows()
    {
      SumPrefix(deltas, i);
      t.Update(deltas[i]);
      i := i + 1;
    }
    assert deltas[..i] == deltas;
    ZeroShows();
  }

  /** No time left shows 00:00 in red. */
  lemma ZeroShows()
    ensures FormatDuration(DisplaySeconds(0.0)) == "00:00"
    ensures TimerColour(DisplaySeconds(0.0)) == Red
  {
    assert DisplaySeconds(0.0) == 0;
    FormatDurationExamples();
  }

  /** The sum of a sequence of frame deltas. */
  function Sum(s: seq<real>): real {
    if s == [] then 0.0 else Sum(s[..|s| - 1]) + s[|s| - 1]
  }

  /** One more delta adds itself to the sum. */
  lemma SumPrefix(s: seq<real>, i: int)
    requires 0 <= i < |s|
    ensures Sum(s[..i + 1]) == Sum(s[..i]) + s[i]
  {
    assert s[..i + 1][..i] == s[..i];
  }
}
