/**
 Distances to food (main.go, distanceFromFood and minDistance), with the
 nearest-food distance as the reference they are proved against.
 */
module Food {
  import opened Geometry

  /**
   The Manhattan distance from `me` to the closest food item, and 0 when
   there is no food, which is what the source's minimum gives on an empty list.
   */
  function NearestFoodDistance(me: Coord, foods: seq<Coord>): (r: nat)
    ensures foods == [] ==> r == 0
    ensures foods != [] ==> exists f :: f in foods && r == CalculateDistance(me, f)
    ensures forall i :: 0 <= i < |foods| ==> r <= CalculateDistance(me, foods[i])
    decreases |foods|
  {
    if |foods| <= 1 then (if foods == [] then 0 else CalculateDistance(me, foods[0]))
    else
      var rest := NearestFoodDistance(me, foods[1..]);
      var here := CalculateDistance(me, foods[0]);
      if here <= rest then here else rest
  }

  /** distanceFromFood: one distance per food item, in the order of the food list. */
  method DistanceFromFood(me: Coord, foodSources: seq<Coord>) returns (distances: seq<int>)
    ensures |distances| == |foodSources|
    ensures forall i :: 0 <= i < |foodSources| ==> distances[i] == CalculateDistance(me, foodSources[i])
  {
    distances := [];
    for k := 0 to |foodSources|
      invariant |distances| == k
      invariant forall i :: 0 <= i < k ==> distances[i] == CalculateDistance(me, foodSources[i])
    {
      distances := distances + [CalculateDistance(me, foodSources[k])];
    }
  }

  /** minDistance: the smallest entry, or 0 for an empty list. */
  method MinDistance(distances: seq<int>) returns (min: int)
    ensures |distances| == 0 ==> min == 0
    ensures |distances| > 0 ==> min in distances
    ensures forall i :: 0 <= i < |distances| ==> min <= distances[i]
  {
    min := 0;
    for i := 0 to |distances|
      invariant i > 0 ==> min in distances[..i]
      invariant forall j :: 0 <= j < i ==> min <= distances[j]
      invariant i == 0 ==> min == 0
    {
      if i == 0 {
        min := distances[i];
      } else {
        if distances[i] < min {
          min := distances[i];
        }
      }
    }
    assert |distances| > 0 ==> distances[..|distances|] == distances;
  }

  /** Whatever meets minDistance's contract on distanceFromFood's output is the nearest-food distance. */
  lemma MinOfDistancesIsNearest(me: Coord, foods: seq<Coord>, distances: seq<int>, min: int)
    requires |distances| == |foods|
    requires forall i :: 0 <= i < |foods| ==> distances[i] == CalculateDistance(me, foods[i])
    requires |distances| == 0 ==> min == 0
    requires |distances| > 0 ==> min in distances
    requires forall i :: 0 <= i < |distances| ==> min <= distances[i]
    ensures min == NearestFoodDistance(me, foods)
  {
    var nearest := NearestFoodDistance(me, foods);
    if foods != [] {
      var f :| f in foods && nearest == CalculateDistance(me, f);
      var j :| 0 <= j < |foods| && foods[j] == f;
      var k :| 0 <= k < |distances| && distances[k] == min;
      assert min <= distances[j] == nearest;
      assert nearest <= CalculateDistance(me, foods[k]) == min;
    }
  }
}
