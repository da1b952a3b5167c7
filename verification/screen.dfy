/**
 * The game screen as an object: the round fields it keeps in component state,
 * the guess count it keeps in the shared application context, and its
 * handlers, each proved to perform the transition `Round` defines for it.
 */
module Screen {
  import opened Level
  import opened Round

  /** The part of the application context the game screen uses. */
  class AppContext {
    const currentLevel: seq<Location>
    var guessesRemaining: int

    constructor (currentLevel: seq<Location>, guessesRemaining: int)
      ensures this.currentLevel == currentLevel && this.guessesRemaining == guessesRemaining
    {
      this.currentLevel := currentLevel;
      this.guessesRemaining := guessesRemaining;
    }
  }

  class GameScreen {
    const state: AppContext
    /** The Haversine distance the screen computes with. */
    const distanceKm: DistanceFn

    var targetObject: Option<Location>
    var selectedLocation: Option<LatLng>
    var guessedDistance: real
    var message: Message
    var counter: nat
    var locationFound: bool
    var gameOver: bool

    /** The round as a value. */
    function Snapshot(): RoundState
      reads this, state
    {
      RoundState(targetObject, state.guessesRemaining, counter, selectedLocation,
                 guessedDistance, message, locationFound, gameOver)
    }

    /** Mounting the screen: the first location of the level becomes the target. */
    constructor (state: AppContext, distanceKm: DistanceFn)
      ensures this.state == state && this.distanceKm == distanceKm
      ensures Snapshot() == Initial(state.currentLevel, state.guessesRemaining)
    {
      this.state := state;
      this.distanceKm := distanceKm;
      targetObject := if |state.currentLevel| > 0 then Some(state.currentLevel[0]) else None;
      selectedLocation := None;
      guessedDistance := InitialDistanceKm;
      message := NoMessage;
      counter := 0;
      locationFound := false;
      gameOver := false;
    }

    /** The effect on `guessedDistance`: a close enough guess marks the target found. */
    method CheckFound()
      modifies this
      ensures Snapshot() == FoundEffect(old(Snapshot()))
    {
      if IsFound(guessedDistance) {
        locationFound := true;
      }
    }

    /** `calculateDistance`: records and returns the distance from the guess to the target. */
    method CalculateDistance(guess: LatLng, target: LatLng) returns (distance: real)
      modifies this
      ensures distance == distanceKm(guess, target)
      ensures Snapshot() == old(Snapshot()).(guessedDistance := distance)
    {
      distance := distanceKm(guess, target);
      guessedDistance := distance;
    }

    /** `handleMapPress`: a tap on the map at `coordinate`. */
    method HandleMapPress(coordinate: LatLng)
      modifies this, state
      ensures Snapshot() == Tap(old(Snapshot()), coordinate, distanceKm)
    {
      var found := locationFound;
      if !found {
        state.guessesRemaining := state.guessesRemaining - 1;
        selectedLocation := Some(coordinate);
      }
      if targetObject.Some? {
        var target := targetObject.value;
        var distance := CalculateDistance(coordinate, target.coordinates);
        message := DistanceTo(target.name, distance);
      }
      if !found {
        counter := counter + 1;
      }
      CheckFound();
    }

    /** `nextLocation`: move to the location after the current one, or end the game. */
    method NextLocation()
      modifies this, state
      ensures Snapshot() == Next(state.currentLevel, old(Snapshot()))
    {
      if targetObject.Some? {
        var currentIndex := IndexOf(state.currentLevel, targetObject.value);
        if currentIndex != -1 {
          if currentIndex + 1 >= |state.currentLevel| {
            gameOver := true;
          } else {
            targetObject := Some(state.currentLevel[currentIndex + 1]);
            selectedLocation := None;
            guessedDistance := InitialDistanceKm;
            counter := 0;
            message := NoMessage;
            locationFound := false;
            state.guessesRemaining := GuessBudget;
            CheckFound();
          }
        }
      }
    }

    /**
     * One player action as the rendered screen lets it through: the loss view
     * has no map and no button, and "Next Location" is shown only once found.
     */
    method Dispatch(e: Event)
      modifies this, state
      ensures Snapshot() == Step(state.currentLevel, distanceKm, old(Snapshot()), e)
    {
      match e
      case MapPress(c) =>
        if state.guessesRemaining != 0 {
          HandleMapPress(c);
        }
      case NextLocationPress =>
        if state.guessesRemaining != 0 && locationFound {
          NextLocation();
        }
    }
  }
}
