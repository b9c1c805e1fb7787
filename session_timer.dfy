/**
 * The session countdown of src/components/SessionTimer.ts. It does not count
 * by itself: each update is handed the remaining milliseconds, stores them
 * and redraws the M:SS text in the colour of its band.
 */
module SessionTimers {
  import opened Clock

  /** The colour for the milliseconds left: red in the last minute, orange in the minute before. */
  function SessionColour(remaining: int): (colour: TextColour)
    ensures colour == Red <==> remaining <= 60000
    ensures colour == Orange <==> 60000 < remaining <= 120000
    ensures colour == White <==> remaining > 120000
  {
    if remaining <= 60000 then Red else if remaining <= 120000 then Orange else White
  }

  /** Less time left never gives a calmer colour. */
  lemma SessionColourMonotone(r1: int, r2: int)
    requires r1 <= r2
    ensures SessionColour(r2) == Red ==> SessionColour(r1) == Red
    ensures SessionColour(r2) == Orange ==> SessionColour(r1) != White
  {
  }

  class SessionTimer {
    var remainingTime: int
    var text: string
    var colour: TextColour

    /** The timer starts at the session's length, in white. */
    constructor (totalTime: int)
      ensures remainingTime == totalTime && text == FormatTime(totalTime) && colour == White
    {
      remainingTime := totalTime;
      text := FormatTime(totalTime);
      colour := White;
    }

    /** update: stores the time given and redraws the text and its colour. */
    method Update(remainingTime: int)
      modifies this
      ensures this.remainingTime == remainingTime
      ensures text == FormatTime(remainingTime) && colour == SessionColour(remainingTime)
    {
      this.remainingTime := remainingTime;
      text := FormatTime(this.remainingTime);
      colour := SessionColour(this.remainingTime);
    }
  }
}
