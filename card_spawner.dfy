/**
 * The card spawner of src/systems/CardSpawner.ts: a bounded list of live
 * cards that enter from the edges of the world, move every frame, are culled
 * past the margin and are hit-tested in insertion order. The Phaser timer
 * that the spawner refers to is the flag `spawnTimerArmed`; the looping
 * timers it no longer refers to are counted in `orphanedTimers`. Each tick of
 * any live timer is a call of SpawnCard.
 */
module Spawning {
  import opened Wrappers
  import opened GameTypes
  import opened Constants
  import opened MathHelpers
  import opened Cards

  datatype SpawnEdge = Top | Bottom | Left | Right

  const Edges: seq<SpawnEdge> := [Top, Bottom, Left, Right]

  /** Cards appear this far outside an edge, and this far inside the corners along it. */
  const SpawnMargin: int := 50

  /** Bound of the sideways velocity, in pixels per second. */
  const LateralLimit: int := 50

  /** The draw picks edge k of the list exactly when it lies in the k-th quarter of [0, 1). */
  lemma QuarterIndex(draw: Draw, k: int)
    requires 0 <= k < 4
    ensures RandomInt(0, 3, draw) == k <==> k as real / 4.0 <= draw < (k + 1) as real / 4.0
  {
    var f := (draw * 4.0).Floor;
    assert RandomInt(0, 3, draw) == f;
    assert f as real <= draw * 4.0 < f as real + 1.0;
    if k as real / 4.0 <= draw < (k + 1) as real / 4.0 {
      assert k as real <= draw * 4.0 < k as real + 1.0;
    }
  }

  /** getRandomEdge: the four edges in list order, each over a quarter of the draws. */
  function GetRandomEdge(draw: Draw): (edge: SpawnEdge)
    ensures forall k | 0 <= k < |Edges| :: edge == Edges[k] <==> k as real / 4.0 <= draw < (k + 1) as real / 4.0
  {
    var i := RandomInt(0, |Edges| - 1, draw);
    assert forall k | 0 <= k < |Edges| :: Edges[i] == Edges[k] <==> k as real / 4.0 <= draw < (k + 1) as real / 4.0 by {
      forall k | 0 <= k < |Edges|
        ensures Edges[i] == Edges[k] <==> k as real / 4.0 <= draw < (k + 1) as real / 4.0
      {
        QuarterIndex(draw, k);
      }
    }
    Edges[i]
  }

  /** Where a card starts and how it moves. */
  datatype SpawnData = SpawnData(x: real, y: real, velocityX: real, velocityY: real)

  /** The draws of one spawnCard call, in the order the source makes them. */
  datatype SpawnRoll = SpawnRoll(value: Draw, edge: Draw, speed: Draw, along: Draw, lateral: Draw)

  /** The velocity component that points from the edge into the world. */
  function InwardSpeed(edge: SpawnEdge, s: SpawnData): real {
    match edge
    case Top => s.velocityY
    case Bottom => -s.velocityY
    case Left => s.velocityX
    case Right => -s.velocityX
  }

  /** The velocity component along the edge. */
  function LateralSpeed(edge: SpawnEdge, s: SpawnData): real {
    match edge
    case Top => s.velocityX
    case Bottom => s.velocityX
    case Left => s.velocityY
    case Right => s.velocityY
  }

  /** The start point lies SpawnMargin outside the edge, at least SpawnMargin from the corners. */
  predicate StartsOutside(edge: SpawnEdge, s: SpawnData, worldWidth: int, worldHeight: int) {
    var m := SpawnMargin as real;
    match edge
    case Top => s.y == -m && m <= s.x <= worldWidth as real - m
    case Bottom => s.y == worldHeight as real + m && m <= s.x <= worldWidth as real - m
    case Left => s.x == -m && m <= s.y <= worldHeight as real - m
    case Right => s.x == worldWidth as real + m && m <= s.y <= worldHeight as real - m
  }

  /** getSpawnPosition for an edge, given the draws of its three randomInt calls. */
  function GetSpawnPosition(edge: SpawnEdge, cfg: CardConfig, worldWidth: int, worldHeight: int,
                            speedDraw: Draw, alongDraw: Draw, lateralDraw: Draw): (s: SpawnData)
    ensures worldWidth >= 2 * SpawnMargin && worldHeight >= 2 * SpawnMargin ==>
      StartsOutside(edge, s, worldWidth, worldHeight)
    ensures cfg.minSpeed <= cfg.maxSpeed ==>
      cfg.minSpeed as real <= InwardSpeed(edge, s) <= cfg.maxSpeed as real
    ensures -LateralLimit as real <= LateralSpeed(edge, s) <= LateralLimit as real
  {
    var speed := RandomInt(cfg.minSpeed, cfg.maxSpeed, speedDraw) as real;
    var margin := SpawnMargin;
    var lateral := RandomInt(-LateralLimit, LateralLimit, lateralDraw) as real;
    match edge
    case Top =>
      SpawnData(RandomInt(margin, worldWidth - margin, alongDraw) as real, -margin as real, lateral, speed)
    case Bottom =>
      SpawnData(RandomInt(margin, worldWidth - margin, alongDraw) as real, (worldHeight + margin) as real, lateral, -speed)
    case Left =>
      SpawnData(-margin as real, RandomInt(margin, worldHeight - margin, alongDraw) as real, speed, lateral)
    case Right =>
      SpawnData((worldWidth + margin) as real, RandomInt(margin, worldHeight - margin, alongDraw) as real, -speed, lateral)
  }

  /** A card that starts SpawnMargin outside an edge is inside the cull margin. */
  lemma SpawnPointInBounds(edge: SpawnEdge, s: SpawnData, worldWidth: int, worldHeight: int)
    requires worldWidth >= 0 && worldHeight >= 0
    requires StartsOutside(edge, s, worldWidth, worldHeight)
    ensures !OutOfBoundsAt(s.x, s.y, worldWidth as real, worldHeight as real)
  {
  }

  /** No card appears twice in the list. */
  ghost predicate CardsDistinct(cs: seq<Card>) {
    forall i, j :: 0 <= i < j < |cs| ==> cs[i] != cs[j]
  }

  /** The cards of a list that are not out of bounds, in their order. */
  ghost function KeepInBounds(cs: seq<Card>, worldWidth: real, worldHeight: real): seq<Card>
    reads cs
  {
    if cs == [] then []
    else
      var rest := KeepInBounds(cs[1..], worldWidth, worldHeight);
      if cs[0].IsOutOfBounds(worldWidth, worldHeight) then rest else [cs[0]] + rest
  }

  /**
   * The kept cards are exactly the cards of the list that are in bounds: no
   * more of them, none twice when the list has none twice.
   */
  lemma {:induction false} KeepInBoundsExact(cs: seq<Card>, worldWidth: real, worldHeight: real)
    ensures |KeepInBounds(cs, worldWidth, worldHeight)| <= |cs|
    ensures forall c | c in KeepInBounds(cs, worldWidth, worldHeight) ::
      c in cs && !c.IsOutOfBounds(worldWidth, worldHeight)
    ensures forall c | c in cs && !c.IsOutOfBounds(worldWidth, worldHeight) ::
      c in KeepInBounds(cs, worldWidth, worldHeight)
    ensures CardsDistinct(cs) ==> CardsDistinct(KeepInBounds(cs, worldWidth, worldHeight))
  {
    if cs != [] {
      var tail := cs[1..];
      KeepInBoundsExact(tail, worldWidth, worldHeight);
      var rest := KeepInBounds(tail, worldWidth, worldHeight);
      assert forall c | c in cs :: c == cs[0] || c in tail;
      if CardsDistinct(cs) {
        assert cs[0] !in tail;
        assert CardsDistinct(tail);
      }
    }
  }

  /**
   * The cards KeepInBounds keeps once every card has moved for delta
   * milliseconds from the positions xs, ys; it reads no state, since the
   * velocities do not change.
   */
  ghost function KeepMoved(cs: seq<Card>, xs: seq<real>, ys: seq<real>, delta: real,
                           worldWidth: real, worldHeight: real): seq<Card>
    requires |xs| == |cs| && |ys| == |cs|
  {
    if cs == [] then []
    else
      var rest := KeepMoved(cs[1..], xs[1..], ys[1..], delta, worldWidth, worldHeight);
      var x := xs[0] + Displacement(cs[0].velocityX, delta);
      var y := ys[0] + Displacement(cs[0].velocityY, delta);
      if OutOfBoundsAt(x, y, worldWidth, worldHeight) then rest else [cs[0]] + rest
  }

  /**
   * A card that entered from the top and has since moved down by `travelled`,
   * drifting sideways no further than the margin, survives the cull exactly
   * until it has crossed the world height plus both margins.
   */
  lemma TopCardStaysUntilPastBottom(cs: seq<Card>, c: Card, s: SpawnData, worldWidth: int, worldHeight: int,
                                    travelled: real)
    requires worldWidth >= 0 && worldHeight >= 0
    requires c in cs && StartsOutside(Top, s, worldWidth, worldHeight)
    requires travelled >= 0.0 && c.y == s.y + travelled
    requires -CullMargin <= c.x <= worldWidth as real + CullMargin
    ensures c in KeepInBounds(cs, worldWidth as real, worldHeight as real)
        <==> travelled <= worldHeight as real + CullMargin + SpawnMargin as real
  {
    KeepInBoundsExact(cs, worldWidth as real, worldHeight as real);
  }

  /** When every card has moved from xs, ys, the two filters agree. */
  lemma {:induction false} KeepMovedIsKeepInBounds(cs: seq<Card>, xs: seq<real>, ys: seq<real>, delta: real,
                                                   worldWidth: real, worldHeight: real)
    requires |xs| == |cs| && |ys| == |cs|
    requires forall k | 0 <= k < |cs| ::
      cs[k].x == xs[k] + Displacement(cs[k].velocityX, delta)
      && cs[k].y == ys[k] + Displacement(cs[k].velocityY, delta)
    ensures KeepMoved(cs, xs, ys, delta, worldWidth, worldHeight) == KeepInBounds(cs, worldWidth, worldHeight)
  {
    if cs != [] {
      KeepMovedIsKeepInBounds(cs[1..], xs[1..], ys[1..], delta, worldWidth, worldHeight);
    }
  }

  /** The horizontal positions of a list of cards. */
  ghost function XsOf(cs: seq<Card>): (xs: seq<real>)
    reads cs
    ensures |xs| == |cs| && forall k | 0 <= k < |cs| :: xs[k] == cs[k].x
  {
    if cs == [] then [] else [cs[0].x] + XsOf(cs[1..])
  }

  /** The vertical positions of a list of cards. */
  ghost function YsOf(cs: seq<Card>): (ys: seq<real>)
    reads cs
    ensures |ys| == |cs| && forall k | 0 <= k < |cs| :: ys[k] == cs[k].y
  {
    if cs == [] then [] else [cs[0].y] + YsOf(cs[1..])
  }

  /** KeepInBounds unfolded once. */
  lemma KeepInBoundsCons(cs: seq<Card>, worldWidth: real, worldHeight: real)
    requires cs != []
    ensures KeepInBounds(cs, worldWidth, worldHeight)
         == (if cs[0].IsOutOfBounds(worldWidth, worldHeight) then [] else [cs[0]])
          + KeepInBounds(cs[1..], worldWidth, worldHeight)
  {
  }

  /** The list after visiting position i: the card there is dropped or kept. */
  lemma DropStep(cards: seq<Card>, before: seq<Card>, i: int, rest: seq<Card>, kept: seq<Card>, drop: bool)
    requires 0 <= i < |before| && cards == before[..i + 1] + rest
    requires kept == (if drop then [] else [before[i]]) + rest
    ensures drop ==> cards[..i] + cards[i + 1..] == before[..i] + kept
    ensures !drop ==> cards == before[..i] + kept
  {
    assert before[..i + 1] == before[..i] + [before[i]];
    if drop {
      assert cards[..i] == before[..i];
      assert cards[i + 1..] == rest;
    }
  }

  /** In a list without repetitions, the card at i is none of the others. */
  lemma DistinctSplit(cs: seq<Card>, i: int)
    requires CardsDistinct(cs) && 0 <= i < |cs|
    ensures cs[i] !in cs[i + 1..] && cs[i] !in cs[..i]
    ensures forall k | 0 <= k < |cs| && k != i :: cs[k] != cs[i]
  {
  }

  /** indexOf: the first position of x, or -1. */
  function IndexOf<T(==)>(s: seq<T>, x: T): (i: int)
    ensures -1 <= i < |s|
    ensures i == -1 <==> x !in s
    ensures 0 <= i ==> s[i] == x && forall j :: 0 <= j < i ==> s[j] != x
  {
    if s == [] then -1
    else if s[0] == x then 0
    else
      var k := IndexOf(s[1..], x);
      if k == -1 then -1 else k + 1
  }

  class CardSpawner {
    const worldWidth: int
    const worldHeight: int
    const cfg: CardConfig
    var cards: seq<Card>
    var currentQuestion: Option<Question>
    var availableAnswers: seq<int>
    var spawnTimerArmed: bool
    /** Looping timers that still call spawnCard but that no stop can reach. */
    var orphanedTimers: nat

    /**
     * The spawner's invariant: at most maxCardsOnScreen live cards, none
     * twice, none without a question, and every live card carries a value of
     * the pool and is flagged correct exactly when that value is the answer.
     */
    ghost predicate Valid()
      reads this
    {
      && cfg.Valid()
      && worldWidth >= 2 * SpawnMargin && worldHeight >= 2 * SpawnMargin
      && |cards| <= cfg.maxCardsOnScreen
      && CardsDistinct(cards)
      && (currentQuestion.None? ==> cards == [])
      && (currentQuestion.Some? ==> |availableAnswers| > 0)
      && forall c | c in cards ::
           && currentQuestion.Some?
           && c.value in availableAnswers
           && (c.isCorrectAnswer <==> c.value == currentQuestion.value.correctAnswer)
           && c.width == cfg.cardWidth && c.height == cfg.cardHeight
    }

    /** The world size is the camera's, at least 100 pixels each way. */
    constructor (worldWidth: int, worldHeight: int, cfg: CardConfig)
      requires cfg.Valid() && worldWidth >= 2 * SpawnMargin && worldHeight >= 2 * SpawnMargin
      ensures Valid()
      ensures this.worldWidth == worldWidth && this.worldHeight == worldHeight && this.cfg == cfg
      ensures cards == [] && currentQuestion == None && availableAnswers == [] && !spawnTimerArmed
      ensures orphanedTimers == 0
    {
      this.worldWidth, this.worldHeight, this.cfg := worldWidth, worldHeight, cfg;
      cards, currentQuestion, availableAnswers, spawnTimerArmed := [], None, [], false;
      orphanedTimers := 0;
    }

    /** The number of looping timers that call spawnCard. */
    function LiveTimers(): nat
      reads this
    {
      (if spawnTimerArmed then 1 else 0) + orphanedTimers
    }

    /**
     * startSpawning. `rolls` feed generateWrongAnswers and must offer five
     * distinct acceptable answers (the source loops until they appear),
     * `shuffleDraws` feed shuffleArray and `first` the immediate spawnCard.
     * A new looping timer replaces the reference without removing the timer
     * already referred to, which then runs on as an orphan.
     */
    method StartSpawning(question: Question, rolls: seq<Roll>, shuffleDraws: seq<Draw>, first: SpawnRoll)
      requires Valid()
      requires WrongAnswersCount <= |AcceptedSet(rolls, question.correctAnswer, question.factor1, question.factor2)|
      requires |shuffleDraws| >= WrongAnswersCount
      modifies this
      ensures Valid()
      ensures currentQuestion == Some(question) && spawnTimerArmed
      ensures orphanedTimers == old(orphanedTimers) + (if old(spawnTimerArmed) then 1 else 0)
      ensures LiveTimers() == old(LiveTimers()) + 1
      ensures |availableAnswers| == TotalCards && Distinct(availableAnswers)
      ensures multiset(availableAnswers)[question.correctAnswer] == 1
      ensures forall a | a in availableAnswers :: a == question.correctAnswer || Acceptable(a, question.correctAnswer)
      ensures forall a | a in availableAnswers && a != question.correctAnswer ::
        OfferedByRolls(a, question, rolls)
      ensures |cards| == if cfg.maxCardsOnScreen >= 1 then 1 else 0
      ensures forall c | c in cards :: fresh(c)
    {
      currentQuestion := Some(question);
      ClearAllCards();
      availableAnswers := BuildAnswerPool(question, rolls, shuffleDraws);
      if spawnTimerArmed {
        orphanedTimers := orphanedTimers + 1;
      }
      spawnTimerArmed := true;
      SpawnCard(first);
    }

    /**
     * stopSpawning: removes the timer referred to; doing it twice is the same
     * as once. Orphaned timers keep running.
     */
    method StopSpawning()
      modifies this`spawnTimerArmed
      ensures !spawnTimerArmed
      ensures LiveTimers() == old(LiveTimers()) - (if old(spawnTimerArmed) then 1 else 0)
    {
      if spawnTimerArmed {
        spawnTimerArmed := false;
      }
    }

    /**
     * spawnCard: nothing without a question or at capacity; otherwise one
     * new card, valued from the pool, entering from the drawn edge.
     */
    method SpawnCard(roll: SpawnRoll)
      requires Valid()
      modifies this`cards
      ensures Valid()
      ensures currentQuestion.None? || |old(cards)| >= cfg.maxCardsOnScreen ==> cards == old(cards)
      ensures currentQuestion.Some? && |old(cards)| < cfg.maxCardsOnScreen ==>
        && |cards| == |old(cards)| + 1 && cards[..|old(cards)|] == old(cards)
        && var c := cards[|old(cards)|];
           && fresh(c)
           && c.value == availableAnswers[RandomInt(0, |availableAnswers| - 1, roll.value)]
           && (c.isCorrectAnswer <==> c.value == currentQuestion.value.correctAnswer)
           && var edge := GetRandomEdge(roll.edge);
              && SpawnData(c.x, c.y, c.velocityX, c.velocityY)
                 == GetSpawnPosition(edge, cfg, worldWidth, worldHeight, roll.speed, roll.along, roll.lateral)
              && StartsOutside(edge, SpawnData(c.x, c.y, c.velocityX, c.velocityY), worldWidth, worldHeight)
              && !c.IsOutOfBounds(worldWidth as real, worldHeight as real)
    {
      if currentQuestion.None? {
        return;
      }
      if |cards| >= cfg.maxCardsOnScreen {
        return;
      }
      var value := availableAnswers[RandomInt(0, |availableAnswers| - 1, roll.value)];
      var isCorrect := value == currentQuestion.value.correctAnswer;
      var edge := GetRandomEdge(roll.edge);
      var spawnData := GetSpawnPosition(edge, cfg, worldWidth, worldHeight, roll.speed, roll.along, roll.lateral);
      SpawnPointInBounds(edge, spawnData, worldWidth, worldHeight);
      var card := new Card(spawnData.x, spawnData.y, value, isCorrect, spawnData.velocityX, spawnData.velocityY,
                           cfg.cardWidth, cfg.cardHeight);
      cards := cards + [card];
    }

    /**
     * update: moves every card by its velocity and removes those then out of
     * bounds; the survivors keep their order.
     */
    method Update(delta: real)
      requires Valid()
      modifies this`cards, cards
      ensures Valid()
      ensures forall k | 0 <= k < |old(cards)| ::
        && old(cards)[k].x == old(cards[k].x) + Displacement(old(cards)[k].velocityX, delta)
        && old(cards)[k].y == old(cards[k].y) + Displacement(old(cards)[k].velocityY, delta)
      ensures cards == KeepInBounds(old(cards), worldWidth as real, worldHeight as real)
      ensures forall c | c in cards :: !c.IsOutOfBounds(worldWidth as real, worldHeight as real)
    {
      ghost var before := cards;
      var w, h := worldWidth as real, worldHeight as real;
      var live := MoveAndCull(cards, delta, w, h);
      cards := live;
      KeepInBoundsExact(before, w, h);
    }

    /** checkHit: the first card, in list order, whose box holds the point. */
    method CheckHit(px: real, py: real) returns (hit: Option<Card>)
      ensures hit.None? <==> forall c | c in cards :: !c.Contains(px, py)
      ensures hit.Some? ==> exists i :: 0 <= i < |cards| && cards[i] == hit.value && cards[i].Contains(px, py)
                                      && (forall j :: 0 <= j < i ==> !cards[j].Contains(px, py))
    {
      var i := 0;
      while i < |cards|
        invariant 0 <= i <= |cards|
        invariant forall j :: 0 <= j < i ==> !cards[j].Contains(px, py)
      {
        if cards[i].Contains(px, py) {
          return Some(cards[i]);
        }
        i := i + 1;
      }
      return None;
    }

    /** removeCard: deletes the first occurrence of the card, if there is one. */
    method RemoveCard(card: Card)
      requires Valid()
      modifies this`cards
      ensures Valid()
      ensures card !in cards
      ensures card !in old(cards) ==> cards == old(cards)
      ensures card in old(cards) ==>
        var k := IndexOf(old(cards), card);
        cards == old(cards)[..k] + old(cards)[k + 1..]
    {
      var index := IndexOf(cards, card);
      if index > -1 {
        cards := cards[..index] + cards[index + 1..];
        forall c | c in cards ensures c in old(cards) && c != card {
          var j :| 0 <= j < |cards| && cards[j] == c;
          if j < index {
            assert old(cards)[j] == c;
          } else {
            assert old(cards)[j + 1] == c;
          }
        }
      }
    }

    /** clearAllCards. */
    method ClearAllCards()
      modifies this`cards
      ensures cards == []
    {
      cards := [];
    }

    function GetCards(): seq<Card>
      reads this
    {
      cards
    }

    /** destroy: stops the spawn timer and clears the cards. */
    method Destroy()
      requires Valid()
      modifies this
      ensures Valid()
      ensures !spawnTimerArmed && cards == []
      ensures currentQuestion == old(currentQuestion) && availableAnswers == old(availableAnswers)
      ensures LiveTimers() == old(orphanedTimers)
    {
      StopSpawning();
      ClearAllCards();
    }
  }

  /**
   * The loop of update, over the list it walks from the back: each card
   * moves, and is spliced out when it is then out of bounds.
   */
  method MoveAndCull(cs: seq<Card>, delta: real, worldWidth: real, worldHeight: real) returns (live: seq<Card>)
    requires CardsDistinct(cs)
    modifies cs
    ensures forall k | 0 <= k < |cs| ::
      && cs[k].x == old(cs[k].x) + Displacement(cs[k].velocityX, delta)
      && cs[k].y == old(cs[k].y) + Displacement(cs[k].velocityY, delta)
    ensures live == KeepInBounds(cs, worldWidth, worldHeight)
  {
    var w, h := worldWidth, worldHeight;
    live := cs;
    var i := |live| - 1;
    assert cs[..i + 1] == cs && cs[i + 1..] == [];
    ghost var xs, ys := XsOf(cs), YsOf(cs);
    while i >= 0
      invariant -1 <= i < |cs|
      invariant live == cs[..i + 1] + KeepMoved(cs[i + 1..], xs[i + 1..], ys[i + 1..], delta, w, h)
      invariant forall k | 0 <= k <= i :: cs[k].x == xs[k] && cs[k].y == ys[k]
      invariant forall k | i < k < |cs| ::
        cs[k].x == xs[k] + Displacement(cs[k].velocityX, delta)
        && cs[k].y == ys[k] + Displacement(cs[k].velocityY, delta)
    {
      var card := live[i];
      MoveAt(cs, i, xs, ys, delta);
      var out := card.IsOutOfBounds(w, h);
      ghost var rest := KeepMoved(cs[i + 1..], xs[i + 1..], ys[i + 1..], delta, w, h);
      assert cs[i..][1..] == cs[i + 1..] && xs[i..][1..] == xs[i + 1..] && ys[i..][1..] == ys[i + 1..];
      DropStep(live, cs, i, rest, KeepMoved(cs[i..], xs[i..], ys[i..], delta, w, h), out);
      if out {
        live := live[..i] + live[i + 1..];
      }
      i := i - 1;
    }
    assert cs[0..] == cs && xs[0..] == xs && ys[0..] == ys;
    KeepMovedIsKeepInBounds(cs, xs, ys, delta, w, h);
  }

  /**
   * One step of the loop of update: the card at i moves, and every other card
   * stays where it is.
   */
  method MoveAt(cs: seq<Card>, i: int, ghost xs: seq<real>, ghost ys: seq<real>, delta: real)
    requires CardsDistinct(cs) && 0 <= i < |cs| && |xs| == |cs| && |ys| == |cs|
    requires forall k | 0 <= k <= i :: cs[k].x == xs[k] && cs[k].y == ys[k]
    requires forall k | i < k < |cs| ::
      cs[k].x == xs[k] + Displacement(cs[k].velocityX, delta)
      && cs[k].y == ys[k] + Displacement(cs[k].velocityY, delta)
    modifies cs[i]
    ensures forall k | 0 <= k < i :: cs[k].x == xs[k] && cs[k].y == ys[k]
    ensures forall k | i <= k < |cs| ::
      cs[k].x == xs[k] + Displacement(cs[k].velocityX, delta)
      && cs[k].y == ys[k] + Displacement(cs[k].velocityY, delta)
  {
    DistinctSplit(cs, i);
    cs[i].UpdateMovement(delta);
  }

  /**
   * Starting again while the spawn timer runs, then stopping, leaves a timer
   * that keeps spawning: the stop removes only the newer timer.
   */
  method RestartThenStop(sp: CardSpawner, question: Question, rolls: seq<Roll>, shuffleDraws: seq<Draw>,
                         first: SpawnRoll)
    requires sp.Valid() && sp.spawnTimerArmed
    requires WrongAnswersCount <= |AcceptedSet(rolls, question.correctAnswer, question.factor1, question.factor2)|
    requires |shuffleDraws| >= WrongAnswersCount
    modifies sp
    ensures sp.Valid() && !sp.spawnTimerArmed
    ensures sp.orphanedTimers == old(sp.orphanedTimers) + 1
    ensures sp.LiveTimers() == old(sp.LiveTimers()) >= 1
  {
    sp.StartSpawning(question, rolls, shuffleDraws, first);
    sp.StopSpawning();
  }

  /**
   * The answer pool of startSpawning: the correct answer and five wrong
   * answers, shuffled. Each answer occurs once and the correct one is there.
   */
  method BuildAnswerPool(question: Question, rolls: seq<Roll>, shuffleDraws: seq<Draw>)
    returns (answers: seq<int>)
    requires WrongAnswersCount <= |AcceptedSet(rolls, question.correctAnswer, question.factor1, question.factor2)|
    requires |shuffleDraws| >= WrongAnswersCount
    ensures |answers| == TotalCards && Distinct(answers)
    ensures multiset(answers)[question.correctAnswer] == 1
    ensures forall a | a in answers :: a == question.correctAnswer || Acceptable(a, question.correctAnswer)
    ensures forall a | a in answers && a != question.correctAnswer :: OfferedByRolls(a, question, rolls)
  {
    var wrongAnswers := GenerateWrongAnswers(
      question.correctAnswer, WrongAnswersCount, question.factor1, question.factor2, rolls);
    var pool := [question.correctAnswer] + wrongAnswers.value;
    PoolIsDistinct(question.correctAnswer, wrongAnswers.value);
    answers := ShuffleArray(pool, shuffleDraws);
    DistinctByMultiset(answers, pool);
    forall a | a in answers
      ensures a == question.correctAnswer || Acceptable(a, question.correctAnswer)
    {
      assert a in multiset(pool);
    }
    forall a | a in answers && a != question.correctAnswer
      ensures OfferedByRolls(a, question, rolls)
    {
      assert a in multiset(pool);
      assert a in wrongAnswers.value;
      var k :| 0 <= k < |wrongAnswers.value| && wrongAnswers.value[k] == a;
    }
  }

  /** The value is the candidate of one of the rolls of generateWrongAnswers for the question. */
  ghost predicate OfferedByRolls(a: int, question: Question, rolls: seq<Roll>) {
    exists i :: 0 <= i < |rolls| && Candidate(rolls[i], question.correctAnswer, question.factor1, question.factor2) == a
  }

  /** The answer pool before shuffling holds the answer once and distinct wrong answers. */
  lemma PoolIsDistinct(correct: int, wrong: seq<int>)
    requires Distinct(wrong) && forall k :: 0 <= k < |wrong| ==> Acceptable(wrong[k], correct)
    ensures Distinct([correct] + wrong)
    ensures multiset([correct] + wrong)[correct] == 1
    ensures forall a | a in [correct] + wrong :: a == correct || Acceptable(a, correct)
  {
    assert correct !in wrong;
    assert multiset(wrong)[correct] == 0;
  }

  /** A sequence holds an element at least twice when it occurs at two positions. */
  lemma {:induction false} TwoPositionsCountTwice(s: seq<int>, i: int, j: int)
    requires 0 <= i < j < |s| && s[i] == s[j]
    ensures multiset(s)[s[i]] >= 2
  {
    assert s == s[..i] + [s[i]] + s[i + 1..j] + [s[j]] + s[j + 1..];
  }

  /** In a sequence without repetitions every value occurs at most once. */
  lemma {:induction false} DistinctCountsOnce(s: seq<int>, x: int)
    requires Distinct(s)
    ensures multiset(s)[x] <= 1
  {
    if s != [] {
      var tail := s[1..];
      assert s == [s[0]] + tail;
      assert Distinct(tail) by {
        forall i, j | 0 <= i < j < |tail| ensures tail[i] != tail[j] {
          assert tail[i] == s[i + 1] && tail[j] == s[j + 1];
        }
      }
      DistinctCountsOnce(tail, x);
      if x == s[0] {
        assert x !in tail by {
          forall k | 0 <= k < |tail| ensures tail[k] != x {
            assert tail[k] == s[k + 1];
          }
        }
      }
    }
  }

  /** A permutation of a sequence without repetitions has none either. */
  lemma DistinctByMultiset(s: seq<int>, t: seq<int>)
    requires multiset(s) == multiset(t) && Distinct(t)
    ensures Distinct(s)
  {
    forall i, j | 0 <= i < j < |s| ensures s[i] != s[j] {
      if s[i] == s[j] {
        TwoPositionsCountTwice(s, i, j);
        DistinctCountsOnce(t, s[i]);
      }
    }
  }
}
