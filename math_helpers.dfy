/**
 * Random helpers of src/utils/mathHelpers.ts. Every use of Math.random() is
 * an argument of type Draw, so each helper is a function of its draws.
 */
module MathHelpers {
  import opened Wrappers
  import opened GameTypes

  function Max(a: int, b: int): int { if a >= b then a else b }

  /** randomInt: floor(draw * (max - min + 1)) + min. */
  function RandomInt(min: int, max: int, draw: Draw): (r: int)
    ensures min <= max ==> min <= r <= max
  {
    (draw * (max - min + 1) as real).Floor + min
  }

  /** When the range is one value, every draw gives that value. */
  lemma RandomIntSingleton(v: int, draw: Draw)
    ensures RandomInt(v, v, draw) == v
  {
    assert draw * 1 as real == draw;
  }

  /** The fourteen "plausible mistake" strategies, in the order of the source's list. */
  datatype Strategy =
    | FactorOnePlusOne | FactorOneMinusOne | FactorTwoPlusOne | FactorTwoMinusOne
    | AddSmall | SubtractSmall | AddLarge | SubtractLarge
    | AddFactorOne | SubtractFactorOne | AddFactorTwo | SubtractFactorTwo
    | NearTableOfFactorOne | NearTableOfFactorTwo

  const Strategies: seq<Strategy> := [
    FactorOnePlusOne, FactorOneMinusOne, FactorTwoPlusOne, FactorTwoMinusOne,
    AddSmall, SubtractSmall, AddLarge, SubtractLarge,
    AddFactorOne, SubtractFactorOne, AddFactorTwo, SubtractFactorTwo,
    NearTableOfFactorOne, NearTableOfFactorTwo]

  /** The value a strategy proposes; `inner` is the draw of the strategies that call randomInt. */
  function Propose(s: Strategy, correct: int, f1: int, f2: int, inner: Draw): int {
    match s
    case FactorOnePlusOne => (f1 + 1) * f2
    case FactorOneMinusOne => (f1 - 1) * f2
    case FactorTwoPlusOne => f1 * (f2 + 1)
    case FactorTwoMinusOne => f1 * (f2 - 1)
    case AddSmall => correct + RandomInt(1, 10, inner)
    case SubtractSmall => correct - RandomInt(1, 10, inner)
    case AddLarge => correct + RandomInt(10, 20, inner)
    case SubtractLarge => correct - RandomInt(10, 20, inner)
    case AddFactorOne => correct + f1
    case SubtractFactorOne => correct - f1
    case AddFactorTwo => correct + f2
    case SubtractFactorTwo => correct - f2
    case NearTableOfFactorOne => f1 * RandomInt(Max(1, f2 - 2), f2 + 2, inner)
    case NearTableOfFactorTwo => RandomInt(Max(1, f1 - 2), f1 + 2, inner) * f2
  }

  /** The draws of one loop iteration: which strategy, and the draw that strategy may use. */
  datatype Roll = Roll(pick: Draw, inner: Draw)

  /** The candidate one iteration computes: the picked strategy applied to the inputs. */
  function Candidate(roll: Roll, correct: int, f1: int, f2: int): int
  {
    Propose(Strategies[RandomInt(0, |Strategies| - 1, roll.pick)], correct, f1, f2, roll.inner)
  }

  /** Each candidate is what one of the fourteen strategies proposes for the roll's inner draw. */
  lemma CandidateIsProposed(roll: Roll, correct: int, f1: int, f2: int)
    ensures exists s :: s in Strategies && Candidate(roll, correct, f1, f2) == Propose(s, correct, f1, f2, roll.inner)
  {
    var s := Strategies[RandomInt(0, |Strategies| - 1, roll.pick)];
    assert s in Strategies;
  }

  /** The acceptance test of the loop: different from the correct answer and positive. */
  predicate Acceptable(w: int, correct: int) {
    w != correct && w > 0
  }

  /** The set of distinct acceptable candidates a stream of rolls offers. */
  ghost function AcceptedSet(rolls: seq<Roll>, correct: int, f1: int, f2: int): set<int>
  {
    if rolls == [] then {}
    else
      var w := Candidate(rolls[|rolls| - 1], correct, f1, f2);
      AcceptedSet(rolls[..|rolls| - 1], correct, f1, f2) + (if Acceptable(w, correct) then {w} else {})
  }

  /** Every offered value is acceptable and is the candidate of one of the rolls. */
  lemma {:induction false} AcceptedSetSound(rolls: seq<Roll>, correct: int, f1: int, f2: int, w: int)
    requires w in AcceptedSet(rolls, correct, f1, f2)
    ensures Acceptable(w, correct)
    ensures exists i :: 0 <= i < |rolls| && Candidate(rolls[i], correct, f1, f2) == w
  {
    var last := |rolls| - 1;
    if w == Candidate(rolls[last], correct, f1, f2) && Acceptable(w, correct) {
      assert Candidate(rolls[last], correct, f1, f2) == w;
    } else {
      AcceptedSetSound(rolls[..last], correct, f1, f2, w);
      var i :| 0 <= i < last && Candidate(rolls[..last][i], correct, f1, f2) == w;
      assert rolls[..last][i] == rolls[i];
    }
  }

  /** One more roll adds its candidate when that candidate is acceptable. */
  lemma AcceptedSetStep(rolls: seq<Roll>, i: nat, correct: int, f1: int, f2: int)
    requires i < |rolls|
    ensures AcceptedSet(rolls[..i + 1], correct, f1, f2)
         == AcceptedSet(rolls[..i], correct, f1, f2)
          + (if Acceptable(Candidate(rolls[i], correct, f1, f2), correct)
             then {Candidate(rolls[i], correct, f1, f2)} else {})
  {
    assert rolls[..i + 1][..i] == rolls[..i];
  }

  /** A longer stream offers at least what its prefix offers. */
  lemma {:induction false} AcceptedSetGrows(rolls: seq<Roll>, n: nat, correct: int, f1: int, f2: int)
    requires n <= |rolls|
    ensures AcceptedSet(rolls[..n], correct, f1, f2) <= AcceptedSet(rolls, correct, f1, f2)
  {
    if n < |rolls| {
      var last := |rolls| - 1;
      assert rolls[..last][..n] == rolls[..n];
      AcceptedSetGrows(rolls[..last], n, correct, f1, f2);
    } else {
      assert rolls[..n] == rolls;
    }
  }

  /** The elements of a sequence are pairwise distinct (what a JavaScript Set keeps). */
  predicate Distinct(s: seq<int>) {
    forall i, j :: 0 <= i < j < |s| ==> s[i] != s[j]
  }

  /** The set of elements of a sequence grows by the appended element. */
  lemma ElementsOfAppend(s: seq<int>, w: int)
    ensures (set x | x in s + [w]) == (set x | x in s) + {w}
  {
    assert forall x :: x in s + [w] <==> x in s || x == w;
  }

  lemma SubsetCardinality(a: set<int>, b: set<int>)
    requires a <= b
    ensures |a| <= |b|
  {
    assert b == a + (b - a);
  }

  /** A sequence without repetitions has as many elements as the set of its elements. */
  lemma {:induction false} DistinctCardinality(s: seq<int>)
    requires Distinct(s)
    ensures |set x | x in s| == |s|
  {
    if s != [] {
      var init := s[..|s| - 1];
      DistinctCardinality(init);
      assert (set x | x in s) == (set x | x in init) + {s[|s| - 1]};
      assert s[|s| - 1] !in (set x | x in init) by {
        forall k | 0 <= k < |init| ensures init[k] != s[|s| - 1] {
          assert init[k] == s[k];
        }
      }
    }
  }

  /**
   * One pass of the loop keeps the collected values distinct and equal, as a
   * set, to what the rolls so far offer.
   */
  lemma OfferStep(found: seq<int>, rolls: seq<Roll>, i: nat, correct: int, f1: int, f2: int)
    requires i < |rolls|
    requires Distinct(found)
    requires (set x | x in found) == AcceptedSet(rolls[..i], correct, f1, f2)
    ensures var w := Candidate(rolls[i], correct, f1, f2);
      if Acceptable(w, correct) && w !in found then
        Distinct(found + [w]) && (set x | x in found + [w]) == AcceptedSet(rolls[..i + 1], correct, f1, f2)
      else
        (set x | x in found) == AcceptedSet(rolls[..i + 1], correct, f1, f2)
  {
    var w := Candidate(rolls[i], correct, f1, f2);
    AcceptedSetStep(rolls, i, correct, f1, f2);
    if Acceptable(w, correct) && w !in found {
      ElementsOfAppend(found, w);
    } else {
      assert Acceptable(w, correct) ==> w in (set x | x in found);
    }
  }

  /**
   * generateWrongAnswers. The loop of the source runs until `count` distinct
   * acceptable candidates are found; here it runs over a finite stream of
   * rolls and answers None when the stream ends first (the source would still
   * be looping). The answers keep the insertion order of Array.from(Set).
   */
  method GenerateWrongAnswers(correct: int, count: int, f1: int, f2: int, rolls: seq<Roll>)
    returns (r: Option<seq<int>>)
    ensures r.Some? <==> count <= |AcceptedSet(rolls, correct, f1, f2)|
    ensures r.Some? ==> |r.value| == Max(count, 0) && Distinct(r.value)
    ensures r.Some? ==> forall k :: 0 <= k < |r.value| ==> Acceptable(r.value[k], correct)
    ensures r.Some? ==> forall k :: 0 <= k < |r.value| ==>
      exists i :: 0 <= i < |rolls| && Candidate(rolls[i], correct, f1, f2) == r.value[k]
  {
    var found: seq<int> := [];
    var i := 0;
    while |found| < count && i < |rolls|
      invariant 0 <= i <= |rolls|
      invariant Distinct(found)
      invariant |found| <= Max(count, 0)
      invariant (set x | x in found) == AcceptedSet(rolls[..i], correct, f1, f2)
    {
      var w := Candidate(rolls[i], correct, f1, f2);
      OfferStep(found, rolls, i, correct, f1, f2);
      if Acceptable(w, correct) && w !in found {
        found := found + [w];
      }
      i := i + 1;
    }
    DistinctCardinality(found);
    ghost var offered := AcceptedSet(rolls, correct, f1, f2);
    ghost var kept := set x | x in found;
    AcceptedSetGrows(rolls, i, correct, f1, f2);
    assert kept <= offered;
    if |found| < count {
      assert rolls[..i] == rolls;
      assert |offered| < count;
      r := None;
    } else {
      SubsetCardinality(kept, offered);
      r := Some(found);
      OfferedValuesSound(found, rolls, correct, f1, f2);
    }
  }

  /** Values drawn from the offered set are acceptable, and each is the candidate of some roll. */
  lemma OfferedValuesSound(found: seq<int>, rolls: seq<Roll>, correct: int, f1: int, f2: int)
    requires (set x | x in found) <= AcceptedSet(rolls, correct, f1, f2)
    ensures forall k :: 0 <= k < |found| ==> Acceptable(found[k], correct)
    ensures forall k :: 0 <= k < |found| ==>
      exists j :: 0 <= j < |rolls| && Candidate(rolls[j], correct, f1, f2) == found[k]
  {
    forall k | 0 <= k < |found|
      ensures Acceptable(found[k], correct)
      ensures exists j :: 0 <= j < |rolls| && Candidate(rolls[j], correct, f1, f2) == found[k]
    {
      assert found[k] in (set x | x in found);
      AcceptedSetSound(rolls, correct, f1, f2, found[k]);
      var j :| 0 <= j < |rolls| && Candidate(rolls[j], correct, f1, f2) == found[k];
    }
  }

  /**
   * shuffleArray: Fisher-Yates on a copy of the input. The swap partner of
   * position i is randomInt(0, i), drawn from draws[n - 1 - i].
   */
  method ShuffleArray<T>(a: seq<T>, draws: seq<Draw>) returns (r: seq<T>)
    requires |a| <= |draws| + 1
    ensures |r| == |a|
    ensures multiset(r) == multiset(a)
  {
    var shuffled := new T[|a|](k requires 0 <= k < |a| => a[k]);
    assert shuffled[..] == a;
    var i := shuffled.Length - 1;
    while i > 0
      invariant -1 <= i < shuffled.Length
      invariant multiset(shuffled[..]) == multiset(a)
    {
      var j := RandomInt(0, i, draws[shuffled.Length - 1 - i]);
      shuffled[i], shuffled[j] := shuffled[j], shuffled[i];
      i := i - 1;
    }
    r := shuffled[..];
  }
}
