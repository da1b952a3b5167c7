/**
 * The data a level supplies to the game screen: an ordered list of target
 * locations, each with a name and a coordinate, and the lookups the screen
 * performs on that list.
 */
module Level {

  datatype Option<T> = None | Some(value: T)

  /** A map coordinate in decimal degrees, as the map surface reports a tap. */
  datatype LatLng = LatLng(latitude: real, longitude: real)

  /**
   * One target of a level. The screen finds its current target in the level
   * with `indexOf`, which compares objects by identity, so a location is an
   * object with constant fields rather than a value.
   */
  class Location {
    const name: string
    const coordinates: LatLng
    const positionInList: int
    const imageUrl: string

    constructor (name: string, coordinates: LatLng, positionInList: int, imageUrl: string)
      ensures this.name == name && this.coordinates == coordinates
      ensures this.positionInList == positionInList && this.imageUrl == imageUrl
    {
      this.name := name;
      this.coordinates := coordinates;
      this.positionInList := positionInList;
      this.imageUrl := imageUrl;
    }
  }

  /**
   * Great-circle distance in kilometres from a guess to a target. The game
   * computes it with the Haversine formula over doubles; here it is whatever
   * function the caller supplies.
   */
  type DistanceFn = (LatLng, LatLng) -> real

  /** No object appears twice in the level. */
  predicate Distinct<T(==)>(s: seq<T>) {
    forall i, j :: 0 <= i < j < |s| ==> s[i] != s[j]
  }

  /** `indexOf`: the position of the first occurrence of `x` in `s`, or -1. */
  function IndexOf<T(==)>(s: seq<T>, x: T): (i: int)
    ensures -1 <= i < |s|
    ensures i == -1 <==> x !in s
    ensures 0 <= i ==> s[i] == x && forall j :: 0 <= j < i ==> s[j] != x
  {
    if |s| == 0 then -1
    else if s[0] == x then 0
    else
      var k := IndexOf(s[1..], x);
      if k == -1 then -1 else k + 1
  }

  /** In a level without repetitions, every location is found at its own position. */
  lemma IndexOfDistinct<T>(s: seq<T>, k: int)
    requires Distinct(s) && 0 <= k < |s|
    ensures IndexOf(s, s[k]) == k
  {
  }

  /**
   * `isThereNextLocation`: the target is in the level and the element after
   * its first occurrence exists. Equivalently, the target occurs somewhere
   * other than in the last slot only.
   */
  function IsThereNextLocation(locations: seq<Location>, target: Option<Location>): (b: bool)
    ensures b <==> target.Some? && |locations| > 0 && target.value in locations[..|locations| - 1]
  {
    match target
    case None => false
    case Some(t) =>
      var currentIndex := IndexOf(locations, t);
      if currentIndex != -1 then
        currentIndex + 1 < |locations|
      else
        false
  }
}
