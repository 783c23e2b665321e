/**
 * The selection rule of Marker.setOwner: among the agents, the one with the
 * smallest distance to the marker, provided that distance is below the claim
 * threshold. Here it is stated on the list of distances, one per agent.
 */
module Claiming {
  import opened Wrappers

  /** A marker can only be claimed by an agent closer than this. */
  const CLAIM_DISTANCE: real := 4.0

  /**
   * The running minimum of setOwner after it has seen `ds`: the index of the
   * first strictly smallest distance below the threshold, if there is one.
   */
  function Nearest(ds: seq<real>): (r: Option<nat>)
    ensures r.Some? ==> r.value < |ds| && ds[r.value] < CLAIM_DISTANCE
    ensures r.Some? ==> forall j | 0 <= j < |ds| :: ds[r.value] <= ds[j]
    ensures r.Some? ==> forall j | 0 <= j < r.value :: ds[r.value] < ds[j]
    ensures r.None? <==> forall j | 0 <= j < |ds| :: CLAIM_DISTANCE <= ds[j]
    decreases |ds|
  {
    if ds == [] then None
    else
      var best := Nearest(ds[..|ds| - 1]);
      var minDist := if best.Some? then ds[best.value] else CLAIM_DISTANCE;
      var d := ds[|ds| - 1];
      if d < CLAIM_DISTANCE && d < minDist then Some(|ds| - 1) else best
  }

  /** `k` is the closest qualifying index, ties going to the lowest index. */
  predicate IsNearest(ds: seq<real>, k: nat) {
    k < |ds| && ds[k] < CLAIM_DISTANCE &&
    (forall j | 0 <= j < |ds| :: ds[k] <= ds[j]) &&
    (forall j | 0 <= j < k :: ds[k] < ds[j])
  }

  /** Nearest picks exactly the index IsNearest describes, and there is only one. */
  lemma NearestIsArgmin(ds: seq<real>, k: nat)
    ensures Nearest(ds) == Some(k) <==> IsNearest(ds, k)
  {
    if IsNearest(ds, k) {
      var r := Nearest(ds);
      assert r.Some? by {
        assert !(CLAIM_DISTANCE <= ds[k]);
      }
    }
  }

  /** A distance of exactly the threshold, or more, never wins. */
  lemma ThresholdExclusive(ds: seq<real>, k: nat)
    requires k < |ds| && ds[k] >= CLAIM_DISTANCE
    ensures Nearest(ds) != Some(k)
  {
  }
}
