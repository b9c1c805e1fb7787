/**
 * Difficulty progression of src/managers/ProgressionManager.ts: the level
 * follows the score, the level picks a multiplication table and a speed
 * multiplier, and the session lasts a fixed time. The clock (Date.now()) is
 * the argument `now`, in milliseconds.
 */
module Progression {
  import opened Constants

  lemma MulMonotone(a: int, b: int, c: int)
    requires a <= b && c >= 0
    ensures a * c <= b * c
  {
    assert b * c - a * c == (b - a) * c;
  }

  /** The quotient is the k whose band [k*d, (k+1)*d) holds a. */
  lemma DivUnique(a: int, d: int, k: int)
    requires d > 0 && k * d <= a < (k + 1) * d
    ensures a / d == k && a % d == a - k * d
  {
    var q := a / d;
    if q < k {
      MulMonotone(q + 1, k, d);
    } else if q > k {
      MulMonotone(k + 1, q, d);
    }
  }

  /** Adding the modulus does not change the remainder. */
  lemma ModPeriod(k: int, n: int)
    requires k >= 0 && n > 0
    ensures (k + n) % n == k % n
  {
    var q := k / n;
    DivUnique(k + n, n, q + 1);
  }

  /** The level for a score: 1 for a negative score, else floor(score / pointsPerLevel) + 1. */
  function LevelFor(score: int, pointsPerLevel: int): (level: int)
    requires pointsPerLevel > 0
    ensures level >= 1
    ensures score >= 0 ==> (level - 1) * pointsPerLevel <= score < level * pointsPerLevel
  {
    if score < 0 then 1 else score / pointsPerLevel + 1
  }

  /** A higher score never gives a lower level. */
  lemma LevelMonotone(s1: int, s2: int, pointsPerLevel: int)
    requires pointsPerLevel > 0 && s1 <= s2
    ensures LevelFor(s1, pointsPerLevel) <= LevelFor(s2, pointsPerLevel)
  {
    if s1 >= 0 {
      var l1, l2 := LevelFor(s1, pointsPerLevel), LevelFor(s2, pointsPerLevel);
      if l2 < l1 {
        MulMonotone(l2, l1 - 1, pointsPerLevel);
      }
    }
  }

  /** The level is the one whose band of pointsPerLevel scores holds the score. */
  lemma LevelBand(score: int, level: int, pointsPerLevel: int)
    requires pointsPerLevel > 0 && level >= 1
    requires (level - 1) * pointsPerLevel <= score < level * pointsPerLevel
    ensures LevelFor(score, pointsPerLevel) == level
  {
    MulMonotone(0, level - 1, pointsPerLevel);
    DivUnique(score, pointsPerLevel, level - 1);
  }

  /** The table for a level: the table order first, then the hard tables in rotation. */
  function TableFor(level: int, cfg: ProgressionConfig): (table: int)
    requires cfg.Valid() && level >= 1
    ensures table in cfg.tableOrder || table in cfg.hardTables
    ensures level <= |cfg.tableOrder| ==> table == cfg.tableOrder[level - 1]
  {
    var index := level - 1;
    if index < |cfg.tableOrder| then
      cfg.tableOrder[index]
    else
      cfg.hardTables[(level - |cfg.tableOrder| - 1) % |cfg.hardTables|]
  }

  /** Past the table order the table repeats with the period of the hard-table list. */
  lemma TablePeriodic(level: int, cfg: ProgressionConfig)
    requires cfg.Valid() && level > |cfg.tableOrder|
    ensures TableFor(level + |cfg.hardTables|, cfg) == TableFor(level, cfg)
  {
    ModPeriod(level - |cfg.tableOrder| - 1, |cfg.hardTables|);
  }

  /** Past the table order, every hard table is reached, in the list's order. */
  lemma TableRotation(cfg: ProgressionConfig, i: int)
    requires cfg.Valid() && 0 <= i < |cfg.hardTables|
    ensures TableFor(|cfg.tableOrder| + 1 + i, cfg) == cfg.hardTables[i]
  {
    DivUnique(i, |cfg.hardTables|, 0);
  }

  function MinInt(a: int, b: int): int { if a <= b then a else b }
  function MinReal(a: real, b: real): real { if a <= b then a else b }

  /** The speed multiplier: linear in the level up to the cap level, clamped at the maximum. */
  function SpeedFor(level: int, scale: SpeedScale): (m: real)
    ensures m <= scale.maxMultiplier
  {
    var effectiveLevel := MinInt(level, scale.maxLevelForIncrement);
    MinReal(scale.minMultiplier + scale.increment * (effectiveLevel - 1) as real, scale.maxMultiplier)
  }

  /** From the cap level on, the multiplier no longer changes. */
  lemma SpeedConstantPastCap(level: int, scale: SpeedScale)
    requires level >= scale.maxLevelForIncrement
    ensures SpeedFor(level, scale) == SpeedFor(scale.maxLevelForIncrement, scale)
  {
  }

  /** With a non-negative increment the multiplier never decreases with the level. */
  lemma SpeedMonotone(l1: int, l2: int, scale: SpeedScale)
    requires scale.increment >= 0.0 && l1 <= l2
    ensures SpeedFor(l1, scale) <= SpeedFor(l2, scale)
  {
    var e1, e2 := MinInt(l1, scale.maxLevelForIncrement), MinInt(l2, scale.maxLevelForIncrement);
    var gap := (e2 - e1) as real;
    assert gap >= 0.0;
    assert scale.increment * gap >= 0.0;
    assert scale.increment * (e2 - 1) as real == scale.increment * (e1 - 1) as real + scale.increment * gap;
  }

  /**
   * Below the cap level, and while the maximum is not reached, each level adds
   * exactly one increment to the multiplier.
   */
  lemma SpeedRisesByIncrement(l: int, scale: SpeedScale)
    requires 1 <= l < scale.maxLevelForIncrement
    requires scale.minMultiplier + scale.increment * l as real <= scale.maxMultiplier
    requires scale.increment >= 0.0
    ensures SpeedFor(l + 1, scale) == SpeedFor(l, scale) + scale.increment
  {
    assert scale.increment * l as real == scale.increment * (l - 1) as real + scale.increment;
  }

  /** The time left in a session of `duration` ms after `elapsed` ms, never negative. */
  function RemainingFor(duration: int, elapsed: int): (r: int)
    ensures r >= 0
    ensures r == 0 <==> elapsed >= duration
    ensures elapsed < duration ==> r + elapsed == duration
  {
    var remaining := duration - elapsed;
    if 0 >= remaining then 0 else remaining
  }

  /** The fields of getProgressInfo. */
  datatype ProgressInfo = ProgressInfo(
    level: int,
    table: int,
    elapsedTime: int,
    remainingTime: int,
    speedMultiplier: real,
    isComplete: bool)

  class ProgressionManager {
    const cfg: ProgressionConfig
    const game: GameConfig
    var currentLevel: int
    var currentScore: int
    var sessionStartTime: int

    ghost predicate Valid()
      reads this
    {
      cfg.Valid() && currentLevel >= 1
    }

    /** The constructor resets the state at the clock value `now`. */
    constructor (cfg: ProgressionConfig, game: GameConfig, now: int)
      requires cfg.Valid()
      ensures Valid() && this.cfg == cfg && this.game == game
      ensures currentLevel == 1 && currentScore == 0 && sessionStartTime == now
    {
      this.cfg := cfg;
      this.game := game;
      new;
      Reset(now);
    }

    method Reset(now: int)
      requires cfg.Valid()
      modifies this
      ensures Valid()
      ensures currentLevel == 1 && currentScore == 0 && sessionStartTime == now
    {
      currentLevel := 1;
      currentScore := 0;
      sessionStartTime := now;
    }

    /** updateProgress: the level is recomputed from the score given, so a lower score lowers it. */
    method UpdateProgress(score: int)
      requires Valid()
      modifies this
      ensures Valid()
      ensures currentScore == score && currentLevel == LevelFor(score, cfg.pointsPerLevel)
      ensures sessionStartTime == old(sessionStartTime)
    {
      currentScore := score;
      currentLevel := if score < 0 then 1 else score / cfg.pointsPerLevel + 1;
    }

    function GetCurrentLevel(): int
      reads this
    {
      currentLevel
    }

    function GetCurrentTable(): (table: int)
      reads this
      requires Valid()
      ensures table in cfg.tableOrder || table in cfg.hardTables
    {
      TableFor(currentLevel, cfg)
    }

    function GetSpeedMultiplier(): (m: real)
      reads this
      ensures m <= cfg.speedScale.maxMultiplier
    {
      SpeedFor(currentLevel, cfg.speedScale)
    }

    function GetElapsedTime(now: int): int
      reads this
    {
      now - sessionStartTime
    }

    function IsSessionComplete(now: int): (complete: bool)
      reads this
      ensures complete <==> now >= sessionStartTime + game.sessionDuration
    {
      GetElapsedTime(now) >= game.sessionDuration
    }

    function GetRemainingTime(now: int): (r: int)
      reads this
      ensures r >= 0
      ensures r == 0 <==> IsSessionComplete(now)
    {
      RemainingFor(game.sessionDuration, GetElapsedTime(now))
    }

    /**
     * getProgressInfo. The source reads `Date.now()` three times: once for the
     * elapsed time, once for the remaining time and once for the completion
     * flag, in that order. The three reads are the arguments; a clock never
     * runs backwards, so they come in non-decreasing order. Only the one-way
     * relations below survive reads that straddle the end of the session.
     */
    function GetProgressInfo(elapsedRead: int, remainingRead: int, completeRead: int): (info: ProgressInfo)
      reads this
      requires Valid()
      requires elapsedRead <= remainingRead <= completeRead
      ensures info.level >= 1
      ensures info.table in cfg.tableOrder || info.table in cfg.hardTables
      ensures info.remainingTime >= 0
      ensures info.speedMultiplier <= cfg.speedScale.maxMultiplier
      ensures info.remainingTime == 0 ==> info.isComplete
      ensures info.elapsedTime >= game.sessionDuration ==> info.isComplete
      ensures info.remainingTime > 0 ==> info.elapsedTime + info.remainingTime <= game.sessionDuration
    {
      ProgressInfo(
        GetCurrentLevel(),
        GetCurrentTable(),
        GetElapsedTime(elapsedRead),
        GetRemainingTime(remainingRead),
        GetSpeedMultiplier(),
        IsSessionComplete(completeRead))
    }

    /** When the three reads of the clock agree, the fields agree both ways. */
    lemma ProgressInfoOneRead(now: int)
      requires Valid()
      ensures var info := GetProgressInfo(now, now, now);
        && (info.isComplete <==> info.remainingTime == 0)
        && (info.isComplete <==> info.elapsedTime >= game.sessionDuration)
        && (!info.isComplete ==> info.elapsedTime + info.remainingTime == game.sessionDuration)
    {
    }

    /**
     * When the session ends between the second and the third read, the info
     * reports one millisecond left and a complete session at once.
     */
    lemma ProgressInfoTornRead()
      requires Valid() && game.sessionDuration >= 1
      ensures var last := sessionStartTime + game.sessionDuration;
        var info := GetProgressInfo(last - 1, last - 1, last);
        info.remainingTime == 1 && info.isComplete && info.elapsedTime < game.sessionDuration
    {
    }
  }

  /**
   * With 40 points per level, four correct hits from a fresh start reach
   * level 2, whose table is the second entry of the table order.
   */
  method FourCorrectHitsReachLevelTwo(cfg: ProgressionConfig, game: GameConfig, now: int)
    returns (level: int, table: int)
    requires cfg.Valid() && cfg.pointsPerLevel == 40 && |cfg.tableOrder| >= 2
    ensures level == 2 && table == cfg.tableOrder[1]
  {
    var p := new ProgressionManager(cfg, game, now);
    p.UpdateProgress(4 * CorrectHit);
    level := p.GetCurrentLevel();
    table := p.GetCurrentTable();
  }
}
