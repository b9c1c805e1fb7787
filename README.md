# Multiplication shooter — gameplay core in Dafny

This project models the gameplay core of a browser game that drills
multiplication. The game shows a question such as "7 × 8". Numbered cards then
drift in from the edges of the screen, and the player shoots the card that
carries the product. The modelled parts are:

- **Answer helpers** (`math_helpers.dfy`):
  - `randomInt`;
  - the wrong-answer generator, which tries fourteen "plausible mistake"
    strategies until it has collected enough distinct positive wrong answers;
  - the Fisher–Yates shuffle.
- **Question generator** (`question_generator.dfy`): two factors drawn from
  the range of the difficulty tier, and their product.
- **Score keeper** (`score_manager.dfy`): +10 for a correct hit, −5 for a
  wrong hit with a floor at 0, and one observer callback. Each call of the
  callback is recorded in a ghost log.
- **Progression** (`progression_manager.dfy`):
  - the level follows the score;
  - the level selects a multiplication table and a speed multiplier;
  - the session lasts a fixed time.
- **Cards and the spawner** (`card.dfy`, `card_spawner.dfy`):
  - a bounded list of moving card objects;
  - cards enter just outside one edge and move by velocity × Δt;
  - cards are culled past a margin, hit-tested first-match and removed in
    place.
- **Timers and clock texts** (`question_timer.dfy`, `session_timer.dfy`,
  `clock.dfy`, `number_text.dfy`):
  - the per-question countdown state machine;
  - the session countdown display;
  - their colour bands;
  - the `MM:SS` and `M:SS` texts, built from JavaScript's `Math.ceil`,
    `Math.floor`, `%`, `toString` and `padStart`.
- **User names** (`user_names.dfy`, `user_display.dfy`, `user_menu.dfy`):
  - the displayed name and its fallback to the email prefix;
  - `getFirstName` and `getInitials`, defined once and shared by the canvas
    badge and the HTML menu;
  - the menu's open/closed flag.

Randomness is passed in as arguments:
- every `Math.random()` is a `Draw`, a real in [0, 1);
- one pass of the wrong-answer loop consumes a `Roll`.

Each read of the clock (`Date.now()`) is its own integer argument in milliseconds. Phaser
frame deltas are reals in milliseconds.

Some behaviour of the code worth knowing before reading the model:
- The question generator has no mode that pins a single table.
- Correct cards get no extra probability. `spawnCard` picks the card's value
  uniformly from the shuffled pool.
- Spawn speed is not scaled by the progression's speed multiplier.
- The game scene is a placeholder, so nothing ties the session together.
- The level is recomputed from the score on every `updateProgress`, so a
  lower score lowers it. It is not kept non-decreasing.

## Model

| member | source | states |
|---|---|---|
| Constants.DifficultyConfig | src/utils/constants.ts:6-10 | every tier starts at factor 1 and has a wider upper bound (easy 5, medium 10, hard 12) |
| MathHelpers.RandomInt | src/utils/mathHelpers.ts:4-6 | for min ≤ max the result lies in [min, max], whatever the draw |
| MathHelpers.RandomIntSingleton | src/utils/mathHelpers.ts:4-6 | a range of one value yields that value for every draw |
| MathHelpers.CandidateIsProposed | src/utils/mathHelpers.ts:21-48 | every candidate of a loop pass is what one of the fourteen strategies proposes |
| MathHelpers.AcceptedSetSound | src/utils/mathHelpers.ts:45-54 | every value the rolls offer passes the loop's test (different from the answer, positive) and is the candidate of some roll |
| MathHelpers.AcceptedSetStep | src/utils/mathHelpers.ts:45-54 | one more pass adds its candidate to the offered set exactly when the candidate is acceptable |
| MathHelpers.AcceptedSetGrows | src/utils/mathHelpers.ts:45-54 | a longer roll stream offers at least what its prefix offers |
| MathHelpers.OfferStep | src/utils/mathHelpers.ts:45-54 | one pass keeps the collected values distinct and, as a set, equal to what the rolls so far offer, adding the candidate only when it is acceptable and new |
| MathHelpers.OfferedValuesSound | src/utils/mathHelpers.ts:45-56 | any values taken from the offered set are acceptable and each is the candidate of some roll |
| MathHelpers.GenerateWrongAnswers | src/utils/mathHelpers.ts:12-57 | a result exists iff the rolls offer at least `count` distinct acceptable values; it then has exactly `count` pairwise-distinct values, each positive, different from the correct answer and produced by some roll |
| MathHelpers.ShuffleArray | src/utils/mathHelpers.ts:62-69 | the result is a permutation of the input: same length and same multiset (the input, a value, is untouched) |
| Questions.QuestionGenerator.constructor | src/systems/QuestionGenerator.ts:12-14 | a generator made without an argument is at the medium tier |
| Questions.QuestionGenerator.GenerateQuestion | src/systems/QuestionGenerator.ts:19-31 | both factors lie in the current tier's range, the answer is their product, and 1 ≤ answer ≤ maxFactor² |
| Questions.QuestionGenerator.SetDifficulty | src/systems/QuestionGenerator.ts:36-38 | the tier becomes the one given |
| Questions.QuestionGenerator.GetDifficulty | src/systems/QuestionGenerator.ts:43-45 | reads the tier; its meaning is given by DifficultyRoundTrip and GenerateQuestion |
| Questions.DifficultyRoundTrip | src/systems/QuestionGenerator.ts:12-45 | a default generator reports medium, and after a change and a question it reports the new tier |
| Scoring.ApplyEvent | src/systems/ScoreManager.ts:17-49 | from a non-negative score every operation leaves it non-negative; a correct hit adds 10, a wrong hit gives max(0, score − 5), reset gives 0 |
| Scoring.ReplayNeverNegative | src/systems/ScoreManager.ts:29-32 | no sequence of operations makes a non-negative score negative |
| Scoring.WrongHitLoss | src/systems/ScoreManager.ts:26-34 | a wrong hit costs between 0 and 5 points |
| Scoring.ScoreManager.constructor | src/systems/ScoreManager.ts:7-12 | a new manager has score 0, no callback and has notified nobody |
| Scoring.ScoreManager.AddCorrectHit | src/systems/ScoreManager.ts:17-21 | the score rises by 10 and the registered callback, if any, gets one call with the new score and delta 10 |
| Scoring.ScoreManager.AddWrongHit | src/systems/ScoreManager.ts:26-34 | the score becomes max(0, score − 5) and the callback gets one call with the new score and delta −5, even when the floor applied |
| Scoring.ScoreManager.Reset | src/systems/ScoreManager.ts:46-49 | the score is 0 and the callback gets one call (0, 0) |
| Scoring.ScoreManager.SetOnScoreChange | src/systems/ScoreManager.ts:54-56 | the new callback replaces any earlier one; score and log are unchanged |
| Scoring.ScoreManager.GetScore | src/systems/ScoreManager.ts:39-41 | reads the score; the mutators' contracts and ReplayNeverNegative give its values |
| Scoring.ScoreManager.NotifyScoreChange | src/systems/ScoreManager.ts:61-65 | exactly one call to the registered callback with the current score and the delta, none without a callback |
| Progression.LevelFor | src/managers/ProgressionManager.ts:27-35 | the level is at least 1, and for a non-negative score it is the band (level−1)·P ≤ score < level·P |
| Progression.LevelMonotone | src/managers/ProgressionManager.ts:30-35 | a higher score never gives a lower level |
| Progression.LevelBand | src/managers/ProgressionManager.ts:30-35 | every score in the band of a level maps to that level (0–39 is level 1, 40–79 level 2 with 40 points per level) |
| Progression.TableFor | src/managers/ProgressionManager.ts:51-62 | the table is an entry of the table order or of the hard tables, and the order's entry level−1 while the level is within it |
| Progression.TablePeriodic | src/managers/ProgressionManager.ts:59-61 | past the table order the table repeats with the period of the hard-table list |
| Progression.TableRotation | src/managers/ProgressionManager.ts:59-61 | the levels just past the table order visit the hard tables in their listed order |
| Progression.SpeedFor | src/managers/ProgressionManager.ts:67-75 | the multiplier never exceeds the maximum |
| Progression.SpeedConstantPastCap | src/managers/ProgressionManager.ts:70-75 | from the cap level on, the multiplier is that of the cap level |
| Progression.SpeedMonotone | src/managers/ProgressionManager.ts:67-75 | with a non-negative increment the multiplier never decreases as the level rises |
| Progression.SpeedRisesByIncrement | src/managers/ProgressionManager.ts:67-75 | below the cap level and the maximum, one more level adds exactly one increment to the multiplier |
| Progression.RemainingFor | src/managers/ProgressionManager.ts:95-98 | the time left is never negative, is 0 exactly when the elapsed time reaches the duration, and otherwise adds up with the elapsed time to the duration |
| Progression.ProgressionManager.constructor | src/managers/ProgressionManager.ts:11-13 | a new manager is reset at the given clock value |
| Progression.ProgressionManager.Reset | src/managers/ProgressionManager.ts:18-22 | level 1, score 0 and the session starts now |
| Progression.ProgressionManager.UpdateProgress | src/managers/ProgressionManager.ts:27-39 | the score is stored and the level recomputed from it; the session start is untouched |
| Progression.ProgressionManager.GetCurrentLevel | src/managers/ProgressionManager.ts:44-46 | reads the level; LevelFor, LevelMonotone and LevelBand give its value |
| Progression.ProgressionManager.GetElapsedTime | src/managers/ProgressionManager.ts:88-90 | now − start for one clock read; RemainingFor and ProgressInfoOneRead relate it to the time left |
| Progression.ProgressionManager.GetCurrentTable | src/managers/ProgressionManager.ts:51-62 | the table is always an entry of one of the two lists |
| Progression.ProgressionManager.GetSpeedMultiplier | src/managers/ProgressionManager.ts:67-75 | the multiplier never exceeds the maximum |
| Progression.ProgressionManager.IsSessionComplete | src/managers/ProgressionManager.ts:80-83 | complete exactly when now − start ≥ the session duration |
| Progression.ProgressionManager.GetRemainingTime | src/managers/ProgressionManager.ts:95-98 | never negative, and 0 exactly when the session is complete |
| Progression.ProgressionManager.GetProgressInfo | src/managers/ProgressionManager.ts:103-119 | over three non-decreasing clock reads: level ≥ 1, table from the lists, remaining ≥ 0, multiplier ≤ maximum; remaining = 0 ⇒ complete, elapsed ≥ duration ⇒ complete, and elapsed + remaining ≤ duration while time remains |
| Progression.ProgressionManager.ProgressInfoOneRead | src/managers/ProgressionManager.ts:80-119 | when the three reads agree: complete ⇔ remaining = 0 ⇔ elapsed ≥ duration, and elapsed + remaining = duration while incomplete |
| Progression.ProgressionManager.ProgressInfoTornRead | src/managers/ProgressionManager.ts:80-119 | when the session ends between the second and third read, the info reports 1 ms remaining and a complete session at once |
| Progression.FourCorrectHitsReachLevelTwo | src/managers/ProgressionManager.ts:27-57 | with 40 points per level, a fresh manager given the score of four correct hits is at level 2 with the second table of the order |
| Cards.InBoundsRegion | src/entities/Card.ts:100-108 | a position is kept exactly when it lies in the world grown by 100 on every side, the margin itself included |
| Cards.BoxContainsCentreAndCorners | src/entities/Card.ts:54 | the hit box centred on the card holds its centre and corners and not a point a full width away |
| Cards.DisplacementAdds | src/entities/Card.ts:89-95 | a zero delta does not move a card, and two moves add up to one move over the summed time |
| Cards.Card.constructor | src/entities/Card.ts:15-29 | position, value, correctness flag, velocity and box size are those given |
| Cards.Card.UpdateMovement | src/entities/Card.ts:89-95 | x and y each grow by velocity × delta / 1000; nothing else changes |
| Cards.Card.IsOutOfBounds | src/entities/Card.ts:100-108 | the strict margin test; InBoundsRegion states the region it keeps |
| Cards.Card.Contains | src/systems/CardSpawner.ts:197-199 | the point lies in the card's centred box; BoxContainsCentreAndCorners and CheckHit give its meaning |
| Cards.Card.GetValue | src/entities/Card.ts:113-115 | the value fixed by the constructor; no method writes it |
| Cards.Card.IsCorrect | src/entities/Card.ts:120-122 | the correctness flag fixed by the constructor; SpawnCard ties it to the answer |
| Spawning.QuarterIndex | src/utils/mathHelpers.ts:4-6 | randomInt(0, 3) gives k exactly when the draw lies in [k/4, (k+1)/4) |
| Spawning.GetRandomEdge | src/systems/CardSpawner.ts:118-126 | top, bottom, left and right in that order, each chosen exactly by one quarter of the draws: edge k ⇔ k/4 ≤ draw < (k+1)/4 |
| Spawning.GetSpawnPosition | src/systems/CardSpawner.ts:131-173 | the start lies 50 px outside the edge and at least 50 px from the corners; the inward speed lies in [minSpeed, maxSpeed] and the lateral one in [−50, 50] |
| Spawning.SpawnPointInBounds | src/systems/CardSpawner.ts:138-171 | a card starting 50 px outside an edge is not out of bounds |
| Spawning.TopCardStaysUntilPastBottom | src/systems/CardSpawner.ts:140-147 | a card that entered from the top and moved down by d, without drifting past the side margins, is kept by the cull filter exactly while d ≤ world height + both margins |
| Spawning.KeepInBoundsExact | src/systems/CardSpawner.ts:178-191 | the kept cards are exactly the cards that are in bounds, with none repeated |
| Spawning.IndexOf | src/systems/CardSpawner.ts:210-211 | the first position of the card, or −1 exactly when it is absent |
| Spawning.CardSpawner.constructor | src/systems/CardSpawner.ts:29-33 | an empty spawner with no question and no timer, referred to or orphaned, for the world size given |
| Spawning.CardSpawner.StartSpawning | src/systems/CardSpawner.ts:38-67 | the question is set and a new timer referred to; a timer already referred to becomes an orphan, so one more timer is live; the pool has six distinct values with the answer exactly once, and every other value is acceptable and is the candidate of one of the rolls given to generateWrongAnswers; one card is live when capacity allows |
| Spawning.CardSpawner.StopSpawning | src/systems/CardSpawner.ts:72-77 | the timer referred to is removed, whatever it was; orphaned timers keep running |
| Spawning.CardSpawner.SpawnCard | src/systems/CardSpawner.ts:82-113 | nothing changes without a question or at capacity; otherwise one new card is appended, valued from the pool, correct iff its value is the answer, placed and moving as getSpawnPosition says and in bounds; the spawner invariant (capacity, no repeats, pool values) holds |
| Spawning.CardSpawner.Update | src/systems/CardSpawner.ts:178-191 | every card moves by its velocity; the list becomes exactly the in-bounds cards in their order; none left is out of bounds |
| Spawning.MoveAndCull | src/systems/CardSpawner.ts:180-190 | the backward loop moves each card once and splices out those then out of bounds, leaving the in-bounds cards in order |
| Spawning.MoveAt | src/systems/CardSpawner.ts:182-184 | one step of the backward loop: the visited card moves by its velocity and every other card keeps its position |
| Spawning.CardSpawner.CheckHit | src/systems/CardSpawner.ts:196-204 | the first card in list order whose box holds the point; none exactly when no box holds it; the list is untouched |
| Spawning.CardSpawner.RemoveCard | src/systems/CardSpawner.ts:209-214 | only the first occurrence is deleted, the others keep their order, and an absent card changes nothing |
| Spawning.CardSpawner.ClearAllCards | src/systems/CardSpawner.ts:219-224 | no card is left |
| Spawning.CardSpawner.Destroy | src/systems/CardSpawner.ts:236-239 | the timer referred to is removed and the cards cleared; only orphaned timers stay live; the question and pool stay |
| Spawning.CardSpawner.GetCards | src/systems/CardSpawner.ts:229-231 | the live list; the spawner's methods state it as their new state |
| Spawning.RestartThenStop | src/systems/CardSpawner.ts:58-77 | starting again while spawning, then stopping, leaves as many live timers as before, at least one, so cards keep spawning |
| Spawning.BuildAnswerPool | src/systems/CardSpawner.ts:45-55 | six distinct values, the answer exactly once, and every other value acceptable and the candidate of one of the rolls given to generateWrongAnswers |
| Spawning.PoolIsDistinct | src/systems/CardSpawner.ts:52-55 | the answer followed by distinct acceptable wrong answers has no repeats and holds the answer once |
| NumberText.NatToStringRoundTrip | src/components/SessionTimer.ts:63 | the text of a non-negative number is decimal digits that read back to it, with no leading zero except for 0, one digit below 10 and at most two below 100 |
| NumberText.IntToStringShape | src/components/SessionTimer.ts:63 | digits reading back to n, after a minus sign when n is negative |
| NumberText.PadStart2Shape | src/components/SessionTimer.ts:63 | at least two characters, the input at the end and only zeros before it |
| NumberText.IntToString | src/components/SessionTimer.ts:63 | Number.prototype.toString for integers; see IntToStringShape and NatToStringRoundTrip |
| NumberText.PadStart2 | src/components/SessionTimer.ts:63 | padStart(2, '0'); see PadStart2Shape and PaddedValue |
| NumberText.PaddedValue | src/scenes/StatsScene.ts:516 | padding the text of a non-negative number keeps it digits with the same value, two of them below 100 |
| NumberText.JsRem | src/components/QuestionTimer.ts:87 | JavaScript's `%`: dividend = truncated quotient × divisor + remainder, with the remainder taking the dividend's sign |
| NumberText.CeilDiv | src/components/SessionTimer.ts:60 | Math.ceil(a / d): the least q with a ≤ q·d |
| Clock.FormatDurationRoundTrip | src/scenes/StatsScene.ts:513-517 | for s ≥ 0 the text is digits, a colon and two digits; the minutes have at least two digits and the seconds are below 60; minutes × 60 + seconds = s |
| Clock.FormatDurationExamples | src/scenes/StatsScene.ts:513-517 | 0 gives "00:00", 65 gives "01:05", and 6000 gives "100:00" with all of its minutes |
| Clock.FormatDuration | src/scenes/StatsScene.ts:513-517 | floor minutes and remainder seconds, both padded to two digits; see FormatDurationRoundTrip |
| Clock.FormatTimeRoundTrip | src/components/SessionTimer.ts:59-64 | for ms ≥ 0 the minutes field has no leading zero and the seconds field is two digits below 60; minutes × 60 + seconds = ⌈ms / 1000⌉ |
| Clock.FormatTimeRoundsUp | src/components/SessionTimer.ts:60 | 0 ms shows "0:00" and any time up to one second shows "0:01" |
| Clock.FormatTime | src/components/SessionTimer.ts:59-64 | ⌈ms/1000⌉ as unpadded minutes and two-digit seconds; see FormatTimeRoundTrip and FormatTimeRoundsUp |
| QuestionTimers.DisplaySeconds | src/components/QuestionTimer.ts:85 | Math.ceil(ms / 1000): seconds − 1 < ms / 1000 ≤ seconds |
| QuestionTimers.DisplaySecondsAtMost | src/components/QuestionTimer.ts:85 | at most n seconds are shown exactly when at most n × 1000 ms remain |
| QuestionTimers.TimerColour | src/components/QuestionTimer.ts:94-108 | red iff seconds ≤ 5, amber iff 5 < seconds ≤ 10, white iff seconds > 10 |
| QuestionTimers.TimerColourInMilliseconds | src/components/QuestionTimer.ts:85-108 | red iff ≤ 5000 ms remain, amber iff 5000 < ms ≤ 10000, white above |
| QuestionTimers.TimerScale | src/components/QuestionTimer.ts:94-108 | the scale is 1 or 1.2, and 1.2 only in the red band |
| QuestionTimers.TimerScaleAtZero | src/components/QuestionTimer.ts:96-98 | with no time left the text is enlarged |
| QuestionTimers.TimerBlinks | src/components/QuestionTimer.ts:96-101 | in the last five seconds the scale is 1.2 exactly on even half-seconds (⌊ms/500⌋ even) and flips every 500 ms |
| QuestionTimers.QuestionTimer.constructor | src/components/QuestionTimer.ts:10-28 | stopped at 0 with the question's duration, showing "00:00" in white at scale 1 |
| QuestionTimers.QuestionTimer.UpdateDisplay | src/components/QuestionTimer.ts:83-108 | the text, colour and scale are those of the remaining time |
| QuestionTimers.QuestionTimer.Start | src/components/QuestionTimer.ts:42-46 | the full duration, running, displayed |
| QuestionTimers.QuestionTimer.Stop | src/components/QuestionTimer.ts:51-53 | stopped; the remaining time and display are kept |
| QuestionTimers.QuestionTimer.Reset | src/components/QuestionTimer.ts:58-62 | the full duration, stopped, displayed |
| QuestionTimers.QuestionTimer.Update | src/components/QuestionTimer.ts:67-78 | a stopped timer changes nothing; a running one loses delta ms and, when that leaves nothing, stops at exactly 0; the time stays in [0, duration] for non-negative deltas |
| QuestionTimers.QuestionTimer.GetTimeRemaining | src/components/QuestionTimer.ts:147-149 | reads the remaining time; Start, Reset and Update state its values |
| QuestionTimers.QuestionTimer.IsRunning | src/components/QuestionTimer.ts:154-156 | reads the running flag; Start, Stop, Reset and Update state its values |
| QuestionTimers.RunsOut | src/components/QuestionTimer.ts:42-78 | a started timer fed non-negative deltas that add up to its duration ends stopped at 0, showing "00:00" in red |
| QuestionTimers.ZeroShows | src/components/QuestionTimer.ts:85-95 | no time left is drawn as "00:00" in red |
| SessionTimers.SessionColour | src/components/SessionTimer.ts:40-53 | red iff ≤ 60000 ms remain, orange iff 60000 < ms ≤ 120000, white above |
| SessionTimers.SessionColourMonotone | src/components/SessionTimer.ts:40-53 | less time left never gives a calmer colour |
| SessionTimers.SessionTimer.constructor | src/components/SessionTimer.ts:11-30 | the remaining time is the total, shown with formatTime, in white |
| SessionTimers.SessionTimer.Update | src/components/SessionTimer.ts:35-54 | exactly the remaining time given is stored, shown with formatTime in its band's colour |
| UserNames.TrimStart | src/components/UserDisplay.ts:138 | no longer than the input; every character dropped from the front is whitespace, and the result does not start with whitespace |
| UserNames.TrimStartSuffix | src/components/UserDisplay.ts:138 | what trimming the front leaves is the end of the input |
| UserNames.TrimEnd | src/components/UserDisplay.ts:138 | a prefix of the input, having dropped only whitespace, that does not end with whitespace |
| UserNames.TrimEnds | src/components/UserDisplay.ts:138 | trim's result neither starts nor ends with whitespace, and is empty exactly when the input is all whitespace |
| UserNames.Trim | src/components/UserDisplay.ts:138 | String.prototype.trim; see TrimStart, TrimEnd and TrimEnds |
| UserNames.Split | src/components/UserDisplay.ts:138 | at least one piece, and no piece holds the separator |
| UserNames.SplitJoin | src/components/UserDisplay.ts:138 | joining the pieces with the separator gives the string back |
| UserNames.SplitFirst | src/components/UserDisplay.ts:138 | the first piece is the text before the first separator |
| UserNames.SplitWithoutSeparator | src/components/UserDisplay.ts:138 | a string without the separator is its only piece |
| UserNames.NonEmptyParts | src/components/UserDisplay.ts:138 | only non-empty pieces of the input, no more of them than the input has |
| UserNames.NameParts | src/components/UserDisplay.ts:138 | every part is non-empty and holds no space |
| UserNames.NoNonEmptyPieces | src/components/UserDisplay.ts:138 | a split leaves only empty pieces exactly when the string is all separators |
| UserNames.NamePartsEmpty | src/components/UserDisplay.ts:138-142 | a name has no parts exactly when it is all whitespace, so runs of spaces never give empty parts |
| UserNames.FirstPartIsLeadingWord | src/components/UserDisplay.ts:138-144 | for trimmed text the first part is the text before the first space |
| UserNames.GetFirstName | src/components/UserDisplay.ts:137-145 | "Usuario" when the name has no parts, otherwise the trimmed name up to its first space; never empty, never containing a space, never starting with whitespace |
| UserNames.UpperChar | src/components/UserDisplay.ts:163 | toUpperCase of one character: one character except 'ß' → "SS", a–z shifted to A–Z, A–Z unchanged |
| UserNames.GetInitials | src/components/UserDisplay.ts:154-171 | "?" without parts, the upper-cased first character of a single part, else those of the first and last parts with middle parts ignored |
| UserNames.InitialsShape | src/components/UserDisplay.ts:154-171 | the first initial comes from the trimmed name's first character; one part gives one character and two or more give two, barring 'ß' |
| UserNames.TrimOfWord | src/components/UserDisplay.ts:138 | text with no whitespace at either end is its own trim |
| UserNames.SplitAtSeparator | src/components/UserDisplay.ts:138 | splitting at a first separator gives the text before it, then the pieces of the rest |
| UserNames.OneWordParts | src/components/UserDisplay.ts:138 | a single word is the name's only part |
| UserNames.TwoWordParts | src/components/UserDisplay.ts:138 | two words joined by a space are the two parts |
| UserNames.ThreeWordParts | src/components/UserDisplay.ts:138 | three words joined by spaces are the three parts |
| UserNames.TwoWordNames | src/components/UserDisplay.ts:137-171 | a name of two words is called by the first and has the initials of both |
| UserNames.ThreeWordNames | src/components/UserDisplay.ts:137-171 | a name of three words is called by the first and has the initials of the first and last only |
| UserNames.JuanPerezWords | src/components/UserDisplay.ts:150-151 | "Juan" and "Pérez" are words making "Juan Pérez", with initials "JP" |
| UserNames.MariaJoseLopezWords | src/components/UserDisplay.ts:150-152 | "María", "José" and "López" are words making "María José López", with first and last initials "ML" |
| UserNames.OneWordExample | src/components/UserDisplay.ts:130-153 | "Juan" gives "Juan" and "J" |
| UserNames.TwoWordExample | src/components/UserDisplay.ts:130-153 | "Juan Pérez" gives "Juan" and "JP" |
| UserNames.ThreeWordExample | src/components/UserDisplay.ts:130-153 | "María José López" gives "María" and "ML", skipping the middle name |
| UserNames.DisplayName | src/components/UserDisplay.ts:26 | the name when it is non-empty, else the email up to (not including) its first '@' |
| UserNames.InitialsOfSpacelessWord | src/components/UserDisplay.ts:154-163 | a space-free word starting with a non-whitespace character has its first character, upper-cased, as initials |
| UserNames.NamelessDisplayName | src/ui/UserMenu.ts:89 | a user with no name whose email starts with '@' has an empty display name |
| UserNames.UsuarioInitial | src/ui/UserMenu.ts:199-215 | "Usuario" has the initials "U" |
| UserNames.NamelessUser | src/ui/UserMenu.ts:89 | a user with no name whose email starts with '@' is called "Usuario", with initials "U" |
| UserNames.InitialsOfFirstName | src/ui/UserMenu.ts:89-97 | the initials of a first name are its first character upper-cased, one initial only |
| UserDisplays.UserDisplay.constructor | src/components/UserDisplay.ts:25-45 | the label shows the first name; without a picture the avatar shows the initials of the full display name |
| UserDisplays.UserDisplay.AvatarLoadFailed | src/components/UserDisplay.ts:104-109 | the avatar falls back to the initials of the label's text |
| UserDisplays.UserDisplay.UpdateName | src/components/UserDisplay.ts:176-178 | the label shows the new text |
| UserDisplays.FallbackAfterLoadError | src/components/UserDisplay.ts:104-109 | after a load error the avatar holds a single initial, that of the first name, even for a name with a surname |
| UserDisplays.TwoBadges | src/components/UserDisplay.ts:26-42 | "Juan Pérez" shows "Juan" with "JP" without a picture and "J" after a load error |
| Menus.UserMenu.constructor | src/ui/UserMenu.ts:19-57 | a new menu is closed, and its visibility is the page's, untouched |
| Menus.UserMenu.ToggleMenu | src/ui/UserMenu.ts:63-73 | the open flag flips |
| Menus.UserMenu.CloseMenu | src/ui/UserMenu.ts:78-82 | the menu is closed whatever it was |
| Menus.UserMenu.DocumentClick | src/ui/UserMenu.ts:53-57 | a click outside closes an open menu; a click inside changes nothing |
| Menus.BtoaAccepts | src/ui/UserMenu.ts:181-195 | btoa's input condition: every character at most U+00FF |
| Menus.UpperCharEncodable | src/ui/UserMenu.ts:181-195 | an upper-cased initial can be base64-encoded exactly when the character is Latin-1 and neither 'µ' nor 'ÿ' |
| Menus.UserMenu.Show | src/ui/UserMenu.ts:87-108 | with a picture, or when the placeholder's initials are all Latin-1, the menu is shown with the first name and the picture or the placeholder of the first name's initials; otherwise btoa throws and the menu is left exactly as it was |
| Menus.UserMenu.Hide | src/ui/UserMenu.ts:113-115 | the menu is hidden |
| Menus.ToggleTwice | src/ui/UserMenu.ts:63-73 | two toggles restore the open flag |
| Menus.PlaceholderInitial | src/ui/UserMenu.ts:87-99 | without a picture, a menu the page hides is shown exactly when the first name's first character is Latin-1 other than 'µ' and 'ÿ'; the placeholder then holds that character upper-cased, and otherwise the menu stays hidden and empty |
| Menus.NamelessMenu | src/ui/UserMenu.ts:89 | a user with no name and nothing before the '@' is shown as "Usuario" with the placeholder "U" |

## Left out

- Rendering is not modelled: graphics, tweens, depth, the hit effects of the card, the question timer's progress bar, and the session timer's sine pulse of the alpha, which reads the clock. The texts, colours and scale that the timers draw are modelled.
- The Phaser timer the spawner refers to is the boolean `spawnTimerArmed`, and the looping timers it has lost track of are the count `orphanedTimers`. Each tick of any of them is a call of `SpawnCard`. Their delay, and the order in which their ticks interleave, are not modelled.
- Card destruction (`card.destroy()`) is not modelled. A card that leaves the list is simply no longer referenced.
- Phaser's `getBounds().contains` is the closed box `BoxContains`, centred on the card. The card is a Phaser container (src/entities/Card.ts:7) whose bounds Phaser computes from its children, the background and the number text (src/entities/Card.ts:45). The model assumes that these bounds are the CARD_WIDTH × CARD_HEIGHT box given to `setSize` (src/entities/Card.ts:54). Neither Phaser's bounds computation nor its edge rule is part of this model.
- The DOM wiring of the user menu is modelled only by its effects on the menu's state: element lookups, CSS classes, stats-scene navigation and logout with its confirmation dialog and page reload. The SVG/base64 placeholder is represented by the initials it draws, and the exception that `btoa` throws on a character beyond Latin-1 by `Show` returning false.
- The image loader of the canvas badge is modelled only through its error path (`AvatarLoadFailed`).
- Network services, authentication, storage and the other scenes are not part of this model.
- Random draws are arguments. No uniformity is claimed.
- MathHelpers.GenerateWrongAnswers: the source loops until it has `count` values, with no bound. The model consumes a finite stream of rolls and returns None when the stream runs out first. `StartSpawning` therefore requires a stream that offers five distinct acceptable values.
- Several settings are records with their assumptions stated as `Valid` predicates, because constants.ts does not define them: PROGRESSION_CONFIG, GAME_CONFIG, and CARD_CONFIG's capacity, speeds and card size.
- The world size must be at least 100 × 100. Otherwise the spawn ranges are empty.
- Spawning.CardSpawner.Update: the backward splice loop is written as `MoveAndCull`, which edits a local copy of the list that is then assigned to the field. The source splices the field itself in place.
- UserNames.UpperChar covers ASCII and Latin-1. Other characters are returned unchanged, which differs from toUpperCase for letters beyond Latin-1.
- Strings are sequences of Unicode scalar values, not UTF-16 units, so a surrogate pair counts as one character in `nameParts[0][0]`.
- Clock.FormatDuration is stated only for integer seconds. The backend's `duration_seconds` is typed as a JavaScript number, so a fractional value is possible there; the model assumes an integer. Clock.FormatDurationRoundTrip and Clock.FormatTimeRoundTrip are stated only for non-negative inputs. For a negative input the texts are modelled exactly (with JavaScript's `%` and a minus sign), but no round trip is claimed.
- `Date.now()` is an argument, one per read, and `Math.random()` is a `Draw` argument.
- Progression.ProgressionManager.GetProgressInfo requires its three clock reads in non-decreasing order, as a clock that never runs backwards gives them; a clock set back between the reads is not modelled.
- Console logging is not modelled.
- Numbers that the source computes in IEEE double precision are exact reals in the model, so rounding is not captured. A result that sits exactly on a boundary may differ by one rounding step in the source. The members concerned are listed below.
- Cards.DisplacementAdds: moving for d1 and then for d2 is moving for d1 + d2 only in exact reals. The source's doubles agree only up to rounding.
- Cards.Card.UpdateMovement: the new position is exact, while the source rounds `velocity * deltaSeconds` and the sum.
- Spawning.MoveAt: the moved position is exact, as for Cards.Card.UpdateMovement.
- Spawning.CardSpawner.Update, Spawning.MoveAndCull and Spawning.TopCardStaysUntilPastBottom: a card exactly on the cull line in exact reals may be a rounding step on either side of it in the source.
- QuestionTimers.QuestionTimer.Update and QuestionTimers.RunsOut: deltas that add up to the duration in exact reals can leave a residue of one rounding step in the source, so the timer may expire one frame later.
- Progression.SpeedFor: `minMultiplier + increment * (level - 1)` is exact, while the source's doubles may land a rounding step off, and so may the comparison with the cap.
- Progression.SpeedRisesByIncrement: the step of exactly one increment per level holds in exact reals. In the source's doubles it holds only up to rounding.
- Menus.UserMenu.Show: `UpperChar` leaves characters beyond Latin-1 unchanged, but toUpperCase maps a few of them into ASCII: dotless 'ı', long 'ſ' and the ligatures U+FB00–U+FB06. For a first name starting with one of these, the source shows the menu while the model reports that btoa throws.
