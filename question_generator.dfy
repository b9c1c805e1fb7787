/**
 * The question generator of src/systems/QuestionGenerator.ts: two factors
 * drawn from the current difficulty's range, and their product.
 */
module Questions {
  import opened GameTypes
  import opened Constants
  import opened MathHelpers

  lemma ProductBounds(a: int, b: int, hi: int)
    requires 1 <= a <= hi && 1 <= b <= hi
    ensures 1 <= a * b <= hi * hi
  {
    assert a * b <= hi * b;
    assert hi * b <= hi * hi;
  }

  class QuestionGenerator {
    var difficulty: Difficulty

    /** Without an argument the generator starts at the medium tier. */
    constructor (difficulty: Difficulty := Medium)
      ensures this.difficulty == difficulty
    {
      this.difficulty := difficulty;
    }

    /** generateQuestion, with the two draws of its two randomInt calls. */
    method GenerateQuestion(draw1: Draw, draw2: Draw) returns (q: Question)
      ensures q.correctAnswer == q.factor1 * q.factor2
      ensures DifficultyConfig(difficulty).minFactor <= q.factor1 <= DifficultyConfig(difficulty).maxFactor
      ensures DifficultyConfig(difficulty).minFactor <= q.factor2 <= DifficultyConfig(difficulty).maxFactor
      ensures 1 <= q.correctAnswer <= DifficultyConfig(difficulty).maxFactor * DifficultyConfig(difficulty).maxFactor
    {
      var config := DifficultyConfig(difficulty);
      var factor1 := RandomInt(config.minFactor, config.maxFactor, draw1);
      var factor2 := RandomInt(config.minFactor, config.maxFactor, draw2);
      var correctAnswer := factor1 * factor2;
      ProductBounds(factor1, factor2, config.maxFactor);
      q := Question(factor1, factor2, correctAnswer);
    }

    method SetDifficulty(difficulty: Difficulty)
      modifies this
      ensures this.difficulty == difficulty
    {
      this.difficulty := difficulty;
    }

    function GetDifficulty(): Difficulty
      reads this
    {
      difficulty
    }
  }

  /** A generator created without an argument, asked after a change of tier, reports the new tier. */
  method DifficultyRoundTrip(d: Difficulty, draw1: Draw, draw2: Draw) returns (before: Difficulty, after: Difficulty)
    ensures before == Medium && after == d
  {
    var g := new QuestionGenerator();
    before := g.GetDifficulty();
    g.SetDifficulty(d);
    var _ := g.GenerateQuestion(draw1, draw2);
    after := g.GetDifficulty();
  }
}
