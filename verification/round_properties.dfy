/**
 * What holds of the guessing round over any sequence of screen events: the
 * guess count stays within its budget, the target only moves forward one
 * location at a time, a found target stays found until the target changes,
 * and the level ends only at its last location.
 */
module RoundProperties {
  import opened Level
  import opened Round

  /** Every event is a tap that misses `target`. */
  predicate AllMisses(events: seq<Event>, distanceKm: DistanceFn, target: Location) {
    forall i :: 0 <= i < |events| ==>
      events[i].MapPress? && !IsFound(distanceKm(events[i].coordinate, target.coordinates))
  }

  /** The game is over only when the target is the level's last location. */
  predicate OverOnlyAtLast(locations: seq<Location>, r: RoundState) {
    r.gameOver ==> r.target.Some? && IndexOf(locations, r.target.value) == |locations| - 1
  }

  /** One event keeps the target or moves it to the next location of the level. */
  lemma StepMovesAtMostOne(locations: seq<Location>, distanceKm: DistanceFn, r: RoundState, e: Event)
    requires Distinct(locations) && r.target.Some? && r.target.value in locations
    ensures
      var t := Step(locations, distanceKm, r, e);
      t.target.Some? && t.target.value in locations &&
      (t.target == r.target ||
       IndexOf(locations, t.target.value) == IndexOf(locations, r.target.value) + 1)
  {
    var t := Step(locations, distanceKm, r, e);
    if t.target != r.target {
      var i := IndexOf(locations, r.target.value);
      IndexOfDistinct(locations, i + 1);
    }
  }

  /** Over any run the target stays in the level and its position never decreases. */
  lemma {:induction false} RunNeverMovesBack(locations: seq<Location>, distanceKm: DistanceFn, r: RoundState, events: seq<Event>)
    requires Distinct(locations) && r.target.Some? && r.target.value in locations
    ensures
      var t := Run(locations, distanceKm, r, events);
      t.target.Some? && t.target.value in locations &&
      IndexOf(locations, t.target.value) >= IndexOf(locations, r.target.value)
    decreases |events|
  {
    if |events| > 0 {
      var s := Step(locations, distanceKm, r, events[0]);
      StepMovesAtMostOne(locations, distanceKm, r, events[0]);
      RunNeverMovesBack(locations, distanceKm, s, events[1..]);
    }
  }

  /** Once found, a target stays found for as long as it remains the target. */
  lemma {:induction false} FoundPersistsWhileTargetStays(locations: seq<Location>, distanceKm: DistanceFn, r: RoundState, events: seq<Event>)
    requires Distinct(locations) && r.target.Some? && r.target.value in locations
    requires r.locationFound
    ensures
      var t := Run(locations, distanceKm, r, events);
      t.target == r.target ==> t.locationFound
    decreases |events|
  {
    if |events| > 0 {
      var s := Step(locations, distanceKm, r, events[0]);
      StepMovesAtMostOne(locations, distanceKm, r, events[0]);
      if s.target == r.target {
        FoundPersistsWhileTargetStays(locations, distanceKm, s, events[1..]);
      } else {
        RunNeverMovesBack(locations, distanceKm, s, events[1..]);
      }
    }
  }

  /** Starting within 0..5 guesses, no run of events leaves that range. */
  lemma {:induction false} RunKeepsGuessesInRange(locations: seq<Location>, distanceKm: DistanceFn, r: RoundState, events: seq<Event>)
    requires 0 <= r.guessesRemaining <= GuessBudget
    ensures 0 <= Run(locations, distanceKm, r, events).guessesRemaining <= GuessBudget
    decreases |events|
  {
    if |events| > 0 {
      RunKeepsGuessesInRange(locations, distanceKm, Step(locations, distanceKm, r, events[0]), events[1..]);
    }
  }

  /** Starting from a non-negative count, no run of events drives it below zero. */
  lemma {:induction false} RunNeverNegative(locations: seq<Location>, distanceKm: DistanceFn, r: RoundState, events: seq<Event>)
    requires 0 <= r.guessesRemaining
    ensures 0 <= Run(locations, distanceKm, r, events).guessesRemaining
    decreases |events|
  {
    if |events| > 0 {
      RunNeverNegative(locations, distanceKm, Step(locations, distanceKm, r, events[0]), events[1..]);
    }
  }

  /** The game is declared over only at the last location of the level. */
  lemma {:induction false} RunOverOnlyAtLast(locations: seq<Location>, distanceKm: DistanceFn, r: RoundState, events: seq<Event>)
    requires OverOnlyAtLast(locations, r)
    ensures OverOnlyAtLast(locations, Run(locations, distanceKm, r, events))
    decreases |events|
  {
    if |events| > 0 {
      var s := Step(locations, distanceKm, r, events[0]);
      assert OverOnlyAtLast(locations, s);
      RunOverOnlyAtLast(locations, distanceKm, s, events[1..]);
    }
  }

  /**
   * Each missed tap on an unfound target costs one guess and counts one
   * guess, as long as guesses remain.
   */
  lemma {:induction false} MissesUseUpGuesses(locations: seq<Location>, distanceKm: DistanceFn, r: RoundState, target: Location, events: seq<Event>)
    requires r.target == Some(target) && !r.locationFound
    requires AllMisses(events, distanceKm, target)
    requires r.guessesRemaining >= |events|
    ensures
      var t := Run(locations, distanceKm, r, events);
      t.guessesRemaining == r.guessesRemaining - |events| &&
      t.counter == r.counter + |events| &&
      !t.locationFound && t.target == r.target && t.gameOver == r.gameOver
    decreases |events|
  {
    if |events| > 0 {
      var s := Step(locations, distanceKm, r, events[0]);
      assert events[0].MapPress? && !IsFound(distanceKm(events[0].coordinate, target.coordinates));
      assert AllMisses(events[1..], distanceKm, target) by {
        forall i | 0 <= i < |events[1..]|
          ensures events[1..][i].MapPress? && !IsFound(distanceKm(events[1..][i].coordinate, target.coordinates))
        {
          assert events[1..][i] == events[i + 1];
        }
      }
      MissesUseUpGuesses(locations, distanceKm, s, target, events[1..]);
    }
  }

  /**
   * Five misses against a fresh target exhaust the budget: the screen is lost,
   * the target was not found, and a further tap changes nothing.
   */
  lemma FiveMissesLose(locations: seq<Location>, distanceKm: DistanceFn, r: RoundState, target: Location, events: seq<Event>, c: LatLng)
    requires r.target == Some(target) && !r.locationFound && r.guessesRemaining == GuessBudget
    requires |events| == GuessBudget && AllMisses(events, distanceKm, target)
    ensures
      var t := Run(locations, distanceKm, r, events);
      Lost(t) && !t.locationFound && t.counter == r.counter + GuessBudget &&
      Step(locations, distanceKm, t, MapPress(c)) == t
  {
    MissesUseUpGuesses(locations, distanceKm, r, target, events);
  }

  /** A tap on the target's own coordinate finds it, given a distance that is zero there. */
  lemma ExactGuessFinds(locations: seq<Location>, distanceKm: DistanceFn, r: RoundState, target: Location)
    requires r.target == Some(target) && !Lost(r)
    requires distanceKm(target.coordinates, target.coordinates) == 0.0
    ensures Step(locations, distanceKm, r, MapPress(target.coordinates)).locationFound
  {
  }

  /**
   * A level that holds the same location object twice never ends: `indexOf`
   * always lands on the first copy, so from the second copy the game goes
   * back to the location after the first.
   */
  lemma RepeatedLocationLoops(a: Location, b: Location, r: RoundState)
    requires a != b && r.target == Some(a) && r.locationFound && !Lost(r) && !r.gameOver
    ensures
      var locations := [a, b, a];
      var s := Next(locations, r);
      s.target == Some(b) && !s.gameOver &&
      Next(locations, s.(locationFound := true)).target == Some(a) &&
      Next(locations, Next(locations, s.(locationFound := true)).(locationFound := true)).target == Some(b)
  {
    var locations := [a, b, a];
    assert IndexOf(locations, a) == 0;
    assert IndexOf(locations, b) == 1;
  }

  /**
   * A two-location level: a close tap finds the first target, "Next Location"
   * moves to the second with a fresh budget, and a far tap there costs one guess.
   */
  lemma TwoTargetScenario(a: Location, b: Location, distanceKm: DistanceFn, near: LatLng, far: LatLng)
    requires a != b
    requires IsFound(distanceKm(near, a.coordinates))
    requires !IsFound(distanceKm(far, b.coordinates))
    ensures
      var locations := [a, b];
      var start := Initial(locations, GuessBudget);
      var found := Run(locations, distanceKm, start, [MapPress(near)]);
      var t := Run(locations, distanceKm, start, [MapPress(near), NextLocationPress, MapPress(far)]);
      found.locationFound && found.guessesRemaining == GuessBudget - 1 && found.counter == 1 &&
      t.target == Some(b) && t.guessesRemaining == GuessBudget - 1 && t.counter == 1 &&
      !t.locationFound && !t.gameOver && t.guessedDistance == distanceKm(far, b.coordinates)
  {
    var locations := [a, b];
    var start := Initial(locations, GuessBudget);
    var s1 := Step(locations, distanceKm, start, MapPress(near));
    var s2 := Step(locations, distanceKm, s1, NextLocationPress);
    var s3 := Step(locations, distanceKm, s2, MapPress(far));
    assert IndexOf(locations, a) == 0;
    assert Run(locations, distanceKm, start, [MapPress(near)]) == s1;
    assert [MapPress(near), NextLocationPress, MapPress(far)][1..] == [NextLocationPress, MapPress(far)];
    assert [NextLocationPress, MapPress(far)][1..] == [MapPress(far)];
    assert Run(locations, distanceKm, s2, [MapPress(far)]) == s3;
    assert Run(locations, distanceKm, s1, [NextLocationPress, MapPress(far)]) == s3;
    assert Run(locations, distanceKm, start, [MapPress(near), NextLocationPress, MapPress(far)]) == s3;
  }

  /**
   * After the last location is found, "Next Location" ends the game and leaves
   * the target where it was.
   */
  lemma LastLocationEndsGame(locations: seq<Location>, distanceKm: DistanceFn, r: RoundState)
    requires |locations| > 0 && r.target == Some(locations[|locations| - 1])
    requires Distinct(locations) && r.locationFound && !Lost(r)
    ensures
      var t := Step(locations, distanceKm, r, NextLocationPress);
      t.gameOver && t.target == r.target && t == r.(gameOver := true)
  {
    IndexOfDistinct(locations, |locations| - 1);
  }

  /**
   * A distance below the threshold is always accompanied by the found flag, so
   * running the found effect after every transition, rather than only when the
   * distance changes, makes no difference on any state a run can reach.
   */
  lemma {:induction false} RunFoundFollowsDistance(locations: seq<Location>, distanceKm: DistanceFn, r: RoundState, events: seq<Event>)
    requires IsFound(r.guessedDistance) ==> r.locationFound
    ensures
      var t := Run(locations, distanceKm, r, events);
      IsFound(t.guessedDistance) ==> t.locationFound
    decreases |events|
  {
    if |events| > 0 {
      RunFoundFollowsDistance(locations, distanceKm, Step(locations, distanceKm, r, events[0]), events[1..]);
    }
  }

  /**
   * The target stays strictly before a slot `j` that repeats an earlier
   * location, and the game is not over.
   */
  predicate BeforeRepeat(locations: seq<Location>, j: int, r: RoundState) {
    0 < j < |locations| && IndexOf(locations, locations[j]) < j &&
    r.target.Some? && r.target.value in locations &&
    IndexOf(locations, r.target.value) < j && !r.gameOver
  }

  /** One event keeps the target before a repeated slot: `indexOf` never reaches past it. */
  lemma StepStaysBeforeRepeat(locations: seq<Location>, distanceKm: DistanceFn, j: int, r: RoundState, e: Event)
    requires BeforeRepeat(locations, j, r)
    ensures BeforeRepeat(locations, j, Step(locations, distanceKm, r, e))
  {
    var t := Step(locations, distanceKm, r, e);
    var f := IndexOf(locations, r.target.value);
    if t.target != r.target {
      assert t.target.value == locations[f + 1];
      assert IndexOf(locations, t.target.value) <= f + 1;
    }
  }

  /** Over any run the target stays before a repeated slot, so the game never ends. */
  lemma {:induction false} RunStaysBeforeRepeat(locations: seq<Location>, distanceKm: DistanceFn, j: int, r: RoundState, events: seq<Event>)
    requires BeforeRepeat(locations, j, r)
    ensures BeforeRepeat(locations, j, Run(locations, distanceKm, r, events))
    decreases |events|
  {
    if |events| > 0 {
      StepStaysBeforeRepeat(locations, distanceKm, j, r, events[0]);
      RunStaysBeforeRepeat(locations, distanceKm, j, Step(locations, distanceKm, r, events[0]), events[1..]);
    }
  }

  /**
   * A level that holds some location object twice can never be won: whatever
   * the player does, `gameOver` is never set.
   */
  lemma RepeatedLocationNeverEnds(locations: seq<Location>, distanceKm: DistanceFn, guessesRemaining: int, events: seq<Event>)
    requires !Distinct(locations)
    ensures !Run(locations, distanceKm, Initial(locations, guessesRemaining), events).gameOver
  {
    var i, j :| 0 <= i < j < |locations| && locations[i] == locations[j];
    var start := Initial(locations, guessesRemaining);
    assert IndexOf(locations, locations[j]) <= i;
    assert IndexOf(locations, start.target.value) == 0;
    RunStaysBeforeRepeat(locations, distanceKm, j, start, events);
  }

  /**
   * Finding the target with the last guess still spends that guess: the screen
   * switches to the loss view, so "Next Location" can no longer be pressed.
   */
  lemma FoundOnLastGuessLoses(locations: seq<Location>, distanceKm: DistanceFn, r: RoundState, target: Location, c: LatLng)
    requires r.target == Some(target) && !r.locationFound && r.guessesRemaining == 1
    requires IsFound(distanceKm(c, target.coordinates))
    ensures
      var s := Step(locations, distanceKm, r, MapPress(c));
      s.locationFound && Lost(s) && Step(locations, distanceKm, s, NextLocationPress) == s
  {
  }
}
