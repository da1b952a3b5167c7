/**
 * The guessing round of the game screen as a value: which target is being
 * looked for, how many guesses remain, the last guess and its distance, and
 * the found and game-over flags. Each handler of the screen is one atomic
 * transition on this value.
 */
module Round {
  import opened Level

  /** Guesses granted for every target after the first. */
  const GuessBudget: int := 5
  /** A guess closer than this many kilometres finds the target. */
  const FoundThresholdKm: real := 0.1
  /** The distance shown before any guess: the Earth's radius in kilometres. */
  const InitialDistanceKm: real := 6371.0

  /** The banner text: nothing, or the distance to the named target. */
  datatype Message = NoMessage | DistanceTo(targetName: string, km: real)

  datatype RoundState = RoundState(
    target: Option<Location>,
    guessesRemaining: int,
    counter: nat,
    selectedLocation: Option<LatLng>,
    guessedDistance: real,
    message: Message,
    locationFound: bool,
    gameOver: bool)

  /** A distance that counts as finding the target. */
  predicate IsFound(distanceKm: real) {
    distanceKm < FoundThresholdKm
  }

  /** The screen shows "YOU LOSE!" instead of the map. */
  predicate Lost(r: RoundState) {
    r.guessesRemaining == 0
  }

  /**
   * The effect on the guessed distance. React runs it only when the distance
   * changes; applying it after every transition agrees on every reachable
   * state, since none has a distance below the threshold while not found.
   */
  function FoundEffect(r: RoundState): RoundState {
    if IsFound(r.guessedDistance) then r.(locationFound := true) else r
  }

  /** The state the screen mounts with, given the level and the context's guess count. */
  function Initial(locations: seq<Location>, guessesRemaining: int): (r: RoundState)
    ensures |locations| > 0 ==> r.target == Some(locations[0])
    ensures |locations| == 0 ==> r.target.None?
    ensures r.guessesRemaining == guessesRemaining && r.counter == 0
    ensures r.selectedLocation.None? && r.message.NoMessage?
    ensures r.guessedDistance == InitialDistanceKm && !IsFound(r.guessedDistance)
    ensures !r.locationFound && !r.gameOver
  {
    RoundState(
      if |locations| > 0 then Some(locations[0]) else None,
      guessesRemaining, 0, None, InitialDistanceKm, NoMessage, false, false)
  }

  /**
   * `handleMapPress` followed by the found effect. The two `!locationFound`
   * guards both read the value from before the tap.
   */
  function Tap(r: RoundState, coordinate: LatLng, distanceKm: DistanceFn): (t: RoundState)
    ensures t.target == r.target && t.gameOver == r.gameOver
    ensures !r.locationFound ==>
      t.guessesRemaining == r.guessesRemaining - 1 &&
      t.counter == r.counter + 1 &&
      t.selectedLocation == Some(coordinate)
    ensures r.locationFound ==>
      t.guessesRemaining == r.guessesRemaining &&
      t.counter == r.counter &&
      t.selectedLocation == r.selectedLocation
    ensures r.target.Some? ==>
      t.guessedDistance == distanceKm(coordinate, r.target.value.coordinates) &&
      t.message == DistanceTo(r.target.value.name, t.guessedDistance)
    ensures r.target.None? ==> t.guessedDistance == r.guessedDistance && t.message == r.message
    ensures t.locationFound <==> r.locationFound || IsFound(t.guessedDistance)
  {
    var guessed :=
      if !r.locationFound then
        r.(guessesRemaining := r.guessesRemaining - 1, selectedLocation := Some(coordinate))
      else r;
    var measured :=
      match r.target
      case None => guessed
      case Some(loc) =>
        var d := distanceKm(coordinate, loc.coordinates);
        guessed.(guessedDistance := d, message := DistanceTo(loc.name, d));
    var counted := if !r.locationFound then measured.(counter := measured.counter + 1) else measured;
    FoundEffect(counted)
  }

  /** `nextLocation` followed by the found effect. */
  function Next(locations: seq<Location>, r: RoundState): (t: RoundState)
    ensures IsThereNextLocation(locations, r.target) ==>
      t.target == Some(locations[IndexOf(locations, r.target.value) + 1]) &&
      t.guessesRemaining == GuessBudget &&
      t.counter == 0 &&
      t.selectedLocation.None? &&
      t.guessedDistance == InitialDistanceKm &&
      t.message.NoMessage? &&
      !t.locationFound &&
      t.gameOver == r.gameOver
    ensures r.target.Some? && r.target.value in locations && !IsThereNextLocation(locations, r.target) ==>
      t == r.(gameOver := true)
    ensures r.target.None? || r.target.value !in locations ==> t == r
  {
    match r.target
    case None => r
    case Some(current) =>
      var currentIndex := IndexOf(locations, current);
      if currentIndex == -1 then r
      else if currentIndex + 1 >= |locations| then r.(gameOver := true)
      else
        FoundEffect(r.(
          target := Some(locations[currentIndex + 1]),
          selectedLocation := None,
          guessedDistance := InitialDistanceKm,
          counter := 0,
          message := NoMessage,
          locationFound := false,
          guessesRemaining := GuessBudget))
  }

  /** What the player can do on the screen. */
  datatype Event = MapPress(coordinate: LatLng) | NextLocationPress

  /**
   * One event as the screen delivers it: nothing reaches the handlers while
   * the loss view is shown, and the "Next Location" button exists only once
   * the target is found.
   */
  function Step(locations: seq<Location>, distanceKm: DistanceFn, r: RoundState, e: Event): (t: RoundState)
    ensures Lost(r) ==> t == r
    ensures !r.locationFound ==> t.target == r.target && t.gameOver == r.gameOver
    ensures Distinct(locations) && r.locationFound && t.target == r.target ==> t.locationFound
    ensures 0 <= r.guessesRemaining <= GuessBudget ==> 0 <= t.guessesRemaining <= GuessBudget
    ensures 0 <= r.guessesRemaining ==> 0 <= t.guessesRemaining
  {
    match e
    case MapPress(c) => if Lost(r) then r else Tap(r, c, distanceKm)
    case NextLocationPress => if !Lost(r) && r.locationFound then Next(locations, r) else r
  }

  /** A sequence of events, delivered one after the other. */
  function Run(locations: seq<Location>, distanceKm: DistanceFn, r: RoundState, events: seq<Event>): RoundState
    decreases |events|
  {
    if |events| == 0 then r
    else Run(locations, distanceKm, Step(locations, distanceKm, r, events[0]), events[1..])
  }
}
