/**
 * The score keeper of src/systems/ScoreManager.ts. The single onScoreChange
 * callback is identified by a number; every call it receives is recorded in
 * the ghost log `notifications`.
 */
module Scoring {
  import opened Wrappers
  import opened Constants

  /** One call of the callback: which callback, the new score and the delta passed. */
  datatype Notification = Notification(observer: nat, score: int, delta: int)

  /** What notifyScoreChange delivers: one call to the registered callback, or nothing. */
  function Delivered(observer: Option<nat>, score: int, delta: int): seq<Notification>
  {
    match observer
    case None => []
    case Some(id) => [Notification(id, score, delta)]
  }

  /** The operations that change the score. */
  datatype ScoreEvent = CorrectHitEvent | WrongHitEvent | ResetEvent

  /** The score after one operation: +10, -5 clamped at 0, or back to 0. */
  function ApplyEvent(score: int, e: ScoreEvent): (r: int)
    ensures score >= 0 ==> r >= 0
    ensures e == CorrectHitEvent ==> r - score == CorrectHit
    ensures e == WrongHitEvent ==> r == if score + WrongHit < 0 then 0 else score + WrongHit
    ensures e == ResetEvent ==> r == 0
  {
    match e
    case CorrectHitEvent => score + CorrectHit
    case WrongHitEvent => if score + WrongHit < 0 then 0 else score + WrongHit
    case ResetEvent => 0
  }

  /** The score after a sequence of operations. */
  function Replay(score: int, events: seq<ScoreEvent>): int
    decreases events
  {
    if events == [] then score else Replay(ApplyEvent(score, events[0]), events[1..])
  }

  /** From a non-negative start, no sequence of operations makes the score negative. */
  lemma {:induction false} ReplayNeverNegative(score: int, events: seq<ScoreEvent>)
    requires score >= 0
    ensures Replay(score, events) >= 0
    decreases events
  {
    if events != [] {
      ReplayNeverNegative(ApplyEvent(score, events[0]), events[1..]);
    }
  }

  /** Five points or fewer are lost to a wrong hit, and never below zero. */
  lemma WrongHitLoss(score: int)
    requires score >= 0
    ensures 0 <= score - ApplyEvent(score, WrongHitEvent) <= -WrongHit
  {
  }

  class ScoreManager {
    var score: int
    var onScoreChange: Option<nat>
    ghost var notifications: seq<Notification>

    ghost predicate Valid()
      reads this
    {
      score >= 0
    }

    constructor ()
      ensures Valid() && score == 0 && onScoreChange == None && notifications == []
    {
      score := 0;
      onScoreChange := None;
      notifications := [];
    }

    method AddCorrectHit()
      requires Valid()
      modifies this
      ensures Valid() && score == ApplyEvent(old(score), CorrectHitEvent)
      ensures onScoreChange == old(onScoreChange)
      ensures notifications == old(notifications) + Delivered(onScoreChange, score, CorrectHit)
    {
      var delta := CorrectHit;
      score := score + delta;
      NotifyScoreChange(delta);
    }

    method AddWrongHit()
      requires Valid()
      modifies this
      ensures Valid() && score == ApplyEvent(old(score), WrongHitEvent)
      ensures onScoreChange == old(onScoreChange)
      ensures notifications == old(notifications) + Delivered(onScoreChange, score, WrongHit)
    {
      var delta := WrongHit;
      score := score + delta;
      if score < 0 {
        score := 0;
      }
      NotifyScoreChange(delta);
    }

    function GetScore(): int
      reads this
    {
      score
    }

    method Reset()
      modifies this
      ensures Valid() && score == 0
      ensures onScoreChange == old(onScoreChange)
      ensures notifications == old(notifications) + Delivered(onScoreChange, 0, 0)
    {
      score := 0;
      NotifyScoreChange(0);
    }

    /** setOnScoreChange: the new callback replaces any earlier one. */
    method SetOnScoreChange(callback: nat)
      modifies this
      ensures onScoreChange == Some(callback)
      ensures score == old(score) && notifications == old(notifications)
    {
      onScoreChange := Some(callback);
    }

    method NotifyScoreChange(delta: int)
      modifies this`notifications
      ensures notifications == old(notifications) + Delivered(onScoreChange, score, delta)
    {
      match onScoreChange
      case Some(id) => notifications := notifications + [Notification(id, score, delta)];
      case None =>
    }
  }
}
