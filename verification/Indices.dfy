/** Places in a sequence, as the tail's places and one more. */
module Indices {
  /** The same places, seen from one element earlier. */
  function Shifted(places: seq<nat>): (moved: seq<nat>)
    ensures |moved| == |places| && forall k :: 0 <= k < |places| ==> moved[k] == places[k] + 1
  {
    seq(|places|, k requires 0 <= k < |places| => places[k] + 1)
  }

  lemma ShiftedHas(places: seq<nat>, i: nat)
    ensures i in Shifted(places) <==> i > 0 && i - 1 in places
  {
    if i > 0 && i - 1 in places {
      var k :| 0 <= k < |places| && places[k] == i - 1;
      assert Shifted(places)[k] == i;
    }
  }

  /** The places of a sequence where something holds, from those of its tail. */
  lemma PlacesWithHead(head: bool, places: seq<nat>) returns (at: seq<nat>)
    requires forall j, k :: 0 <= j < k < |places| ==> places[j] < places[k]
    ensures at == (if head then [0] else []) + Shifted(places)
    ensures forall j, k :: 0 <= j < k < |at| ==> at[j] < at[k]
    ensures forall i: nat :: i in at <==> if i == 0 then head else i - 1 in places
  {
    at := (if head then [0] else []) + Shifted(places);
    forall i: nat
      ensures i in at <==> if i == 0 then head else i - 1 in places
    {
      ShiftedHas(places, i);
    }
  }
}
