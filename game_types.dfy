/**
 * The value types shared by the game systems: a multiplication question and
 * the difficulty tier (src/types/index.ts).
 */
module GameTypes {
  /** A question "factor1 x factor2 = ?" together with its answer. */
  datatype Question = Question(factor1: int, factor2: int, correctAnswer: int)

  /** Difficulty tiers; each selects a range of factors. */
  datatype Difficulty = Easy | Medium | Hard

  /** A value of Math.random(): a real number in [0, 1). */
  type Draw = r: real | 0.0 <= r < 1.0
}
