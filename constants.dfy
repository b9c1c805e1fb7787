/**
 * Game constants (src/utils/constants.ts), and the settings the game systems
 * read from configuration objects that constants.ts does not define. Those
 * are records supplied by the caller, each with the assumptions the code
 * relies on stated as a `Valid` predicate.
 */
module Constants {
  import opened GameTypes

  /** Inclusive range of factors for one difficulty tier. */
  datatype FactorRange = FactorRange(minFactor: int, maxFactor: int)

  /** DIFFICULTY_CONFIG: easy 1-5, medium 1-10, hard 1-12. */
  function DifficultyConfig(d: Difficulty): (r: FactorRange)
    ensures 1 == r.minFactor < r.maxFactor
  {
    match d
    case Easy => FactorRange(1, 5)
    case Medium => FactorRange(1, 10)
    case Hard => FactorRange(1, 12)
  }

  /** SCORE.CORRECT_HIT and SCORE.WRONG_HIT. */
  const CorrectHit: int := 10
  const WrongHit: int := -5

  /** CARD_CONFIG.TOTAL_CARDS and CARD_CONFIG.WRONG_ANSWERS_COUNT. */
  const TotalCards: int := 6
  const WrongAnswersCount: int := 5

  /** PROGRESSION_CONFIG.SPEED_SCALE. */
  datatype SpeedScale = SpeedScale(
    minMultiplier: real,
    increment: real,
    maxLevelForIncrement: int,
    maxMultiplier: real)

  /** PROGRESSION_CONFIG: levels, table order and speed scaling. */
  datatype ProgressionConfig = ProgressionConfig(
    pointsPerLevel: int,
    tableOrder: seq<int>,
    hardTables: seq<int>,
    speedScale: SpeedScale)
  {
    /** A positive level width and two non-empty table lists. */
    predicate Valid() {
      pointsPerLevel > 0 && |tableOrder| > 0 && |hardTables| > 0
    }
  }

  /** GAME_CONFIG: the session length and the per-question time, in milliseconds. */
  datatype GameConfig = GameConfig(sessionDuration: int, questionDuration: real)

  /** The card settings of CARD_CONFIG that constants.ts does not define. */
  datatype CardConfig = CardConfig(
    maxCardsOnScreen: int,
    spawnInterval: int,
    minSpeed: int,
    maxSpeed: int,
    cardWidth: real,
    cardHeight: real)
  {
    /** A capacity of at least zero, a speed range that is not empty and a card box of positive size. */
    predicate Valid() {
      maxCardsOnScreen >= 0 && minSpeed <= maxSpeed && cardWidth > 0.0 && cardHeight > 0.0
    }
  }
}
