/** Filling a console's free slots from a round's queue, in order, holding what it would refuse for now. */
module FillQueue {
  import opened Indices

  datatype Experiment = Experiment(id: string, seedReady: bool, local: bool, gpus: nat)

  datatype Capacity = Capacity(slots: nat, local: nat, gpus: nat)

  // What becomes of one pending experiment.
  datatype Decision = Take | HoldSeed | HoldLocal | HoldGpu | Wait

  function Decide(e: Experiment, left: Capacity): (d: Decision)
  {
    if left.slots == 0 then Wait
    else if !e.seedReady then HoldSeed
    else if e.local && left.local == 0 then HoldLocal
    else if e.gpus > left.gpus then HoldGpu
    else Take
  }

  function After(e: Experiment, left: Capacity): (next: Capacity)
    requires Decide(e, left).Take?
  {
    Capacity(left.slots - 1, if e.local then left.local - 1 else left.local, left.gpus - e.gpus)
  }

  function Decisions(pending: seq<Experiment>, left: Capacity): (ds: seq<Decision>)
    ensures |ds| == |pending|
  {
    if pending == [] then []
    else
      var d := Decide(pending[0], left);
      [d] + Decisions(pending[1..], if d.Take? then After(pending[0], left) else left)
  }

  /** The ids with one decision, in queue order. */
  function IdsWith(pending: seq<Experiment>, ds: seq<Decision>, d: Decision): (ids: seq<string>)
    requires |ds| == |pending|
  {
    if pending == [] then []
    else (if ds[0] == d then [pending[0].id] else []) + IdsWith(pending[1..], ds[1..], d)
  }

  // ---- any selection, not only this one ----

  // A selection marks which pending experiments to create.
  function Used(pending: seq<Experiment>, pick: seq<bool>): (used: Capacity)
    requires |pick| == |pending|
  {
    if pending == [] then Capacity(0, 0, 0)
    else
      var rest := Used(pending[1..], pick[1..]);
      if !pick[0] then rest
      else Capacity(rest.slots + 1, rest.local + (if pending[0].local then 1 else 0), rest.gpus + pending[0].gpus)
  }

  predicate Within(used: Capacity, left: Capacity)
  {
    used.slots <= left.slots && used.local <= left.local && used.gpus <= left.gpus
  }

  /** What the console would accept: ready seeds only, and no capacity exceeded. */
  predicate Feasible(pending: seq<Experiment>, pick: seq<bool>, left: Capacity)
    requires |pick| == |pending|
  {
    Within(Used(pending, pick), left) && forall i :: 0 <= i < |pick| && pick[i] ==> pending[i].seedReady
  }

  function Picks(pending: seq<Experiment>, left: Capacity): (pick: seq<bool>)
    ensures |pick| == |pending|
    ensures forall i :: 0 <= i < |pick| ==> pick[i] == Decisions(pending, left)[i].Take?
  {
    seq(|pending|, i requires 0 <= i < |pending| => Decisions(pending, left)[i].Take?)
  }

  lemma PicksFromTheHead(pending: seq<Experiment>, left: Capacity)
    requires pending != []
    ensures var d := Decide(pending[0], left);
            Picks(pending, left)[0] == d.Take?
            && Picks(pending, left)[1..] == Picks(pending[1..], if d.Take? then After(pending[0], left) else left)
  {}

  /** The fill never exceeds a capacity and never starts an experiment whose seed is not ready. */
  lemma {:induction false} FillIsFeasible(pending: seq<Experiment>, left: Capacity)
    ensures Feasible(pending, Picks(pending, left), left)
  {
    if pending == [] {
    } else {
      var d := Decide(pending[0], left);
      var next := if d.Take? then After(pending[0], left) else left;
      PicksFromTheHead(pending, left);
      FillIsFeasible(pending[1..], next);
      forall i | 0 <= i < |pending| && Picks(pending, left)[i]
        ensures pending[i].seedReady
      {
        if i > 0 {
          assert Picks(pending[1..], next)[i - 1] == Picks(pending, left)[i];
        }
      }
    }
  }

  lemma {:induction false} UsedIsMonotone(pending: seq<Experiment>, pick: seq<bool>, i: nat)
    requires |pick| == |pending| && i < |pick| && pick[i]
    ensures Used(pending, pick).slots >= 1 && Used(pending, pick).gpus >= pending[i].gpus
    ensures pending[i].local ==> Used(pending, pick).local >= 1
  {
    if i == 0 {
    } else {
      UsedIsMonotone(pending[1..], pick[1..], i - 1);
    }
  }

  /** Queue order is strict priority: compared with any feasible selection, at the first experiment
      the two differ on it is the fill that starts it. */
  lemma {:induction false} FillRespectsTheQueue(pending: seq<Experiment>, left: Capacity, other: seq<bool>, k: nat)
    requires |other| == |pending| && k < |pending| && Feasible(pending, other, left)
    requires Picks(pending, left)[..k] == other[..k] && Picks(pending, left)[k] != other[k]
    ensures Picks(pending, left)[k]
  {
    if other[k] {
      var d := Decide(pending[0], left);
      PicksFromTheHead(pending, left);
      if k == 0 {
        UsedIsMonotone(pending, other, 0);
      } else {
        var next := if d.Take? then After(pending[0], left) else left;
        assert Picks(pending, left)[..k][0] == other[..k][0];
        FeasibleTail(pending, other, left);
        var tail := Picks(pending[1..], next);
        assert tail[..k - 1] == Picks(pending, left)[..k][1..] && other[1..][..k - 1] == other[..k][1..];
        FillRespectsTheQueue(pending[1..], next, other[1..], k - 1);
      }
    }
  }

  lemma FeasibleTail(pending: seq<Experiment>, pick: seq<bool>, left: Capacity)
    requires pending != [] && |pick| == |pending| && Feasible(pending, pick, left)
    requires pick[0] == Decide(pending[0], left).Take?
    ensures Feasible(pending[1..], pick[1..], if pick[0] then After(pending[0], left) else left)
  {
    assert forall i :: 0 <= i < |pick| - 1 ==> pick[1..][i] == pick[i + 1] && pending[1..][i] == pending[i + 1];
  }

  function LeftAfter(pending: seq<Experiment>, left: Capacity): (end: Capacity)
  {
    if pending == [] then left
    else LeftAfter(pending[1..], if Decide(pending[0], left).Take? then After(pending[0], left) else left)
  }

  lemma {:induction false} CapacityOnlyShrinks(pending: seq<Experiment>, left: Capacity)
    ensures Within(LeftAfter(pending, left), left)
    ensures LeftAfter(pending, left).slots == left.slots - Used(pending, Picks(pending, left)).slots
  {
    if pending == [] {
    } else {
      PicksFromTheHead(pending, left);
      CapacityOnlyShrinks(pending[1..], if Decide(pending[0], left).Take? then After(pending[0], left) else left);
    }
  }

  /** Work conservation: while a slot is left at the end, every experiment not started is held for a
      reason of its own, and that reason still stands against the final choice. */
  lemma {:induction false} FillIsWorkConserving(pending: seq<Experiment>, left: Capacity, i: nat)
    requires i < |pending| && !Picks(pending, left)[i]
    ensures Decisions(pending, left)[i].Wait? ==> LeftAfter(pending, left).slots == 0
    ensures var end := LeftAfter(pending, left);
            end.slots > 0 ==> Decide(pending[i], end) != Take
    ensures Decisions(pending, left)[i].HoldSeed? ==> !pending[i].seedReady
    ensures Decisions(pending, left)[i].HoldLocal? ==> pending[i].local && LeftAfter(pending, left).local == 0
    ensures Decisions(pending, left)[i].HoldGpu? ==> pending[i].gpus > LeftAfter(pending, left).gpus
  {
    var d := Decide(pending[0], left);
    var next := if d.Take? then After(pending[0], left) else left;
    PicksFromTheHead(pending, left);
    CapacityOnlyShrinks(pending[1..], next);
    if i == 0 {
    } else {
      assert Picks(pending[1..], next)[i - 1] == Picks(pending, left)[i];
      FillIsWorkConserving(pending[1..], next, i - 1);
    }
  }

  // ---- the loop ----

  datatype Filled = Filled(chosen: seq<string>, heldLocal: seq<string>, heldGpu: seq<string>, heldSeed: seq<string>)

  function Selected(pending: seq<Experiment>, left: Capacity): (f: Filled)
  {
    var ds := Decisions(pending, left);
    Filled(IdsWith(pending, ds, Take), IdsWith(pending, ds, HoldLocal), IdsWith(pending, ds, HoldGpu),
           IdsWith(pending, ds, HoldSeed))
  }

  function Join(a: Filled, b: Filled): (f: Filled)
  {
    Filled(a.chosen + b.chosen, a.heldLocal + b.heldLocal, a.heldGpu + b.heldGpu, a.heldSeed + b.heldSeed)
  }

  lemma {:induction false} NothingMoreOnceFull(pending: seq<Experiment>, left: Capacity)
    requires left.slots == 0
    ensures Selected(pending, left) == Filled([], [], [], [])
  {
    if pending == [] {
    } else {
      NothingMoreOnceFull(pending[1..], left);
    }
  }

  /** Each list names, in queue order, exactly the experiments with its decision. */
  lemma {:induction false} ListsAreInQueueOrder(pending: seq<Experiment>, ds: seq<Decision>, d: Decision)
      returns (at: seq<nat>)
    requires |ds| == |pending|
    ensures |at| == |IdsWith(pending, ds, d)|
    ensures forall k :: 0 <= k < |at| ==> at[k] < |pending| && IdsWith(pending, ds, d)[k] == pending[at[k]].id
    ensures forall j, k :: 0 <= j < k < |at| ==> at[j] < at[k]
    ensures forall i: nat :: i in at <==> i < |pending| && ds[i] == d
  {
    if pending == [] {
      at := [];
    } else {
      var rest := ListsAreInQueueOrder(pending[1..], ds[1..], d);
      at := PlacesWithHead(ds[0] == d, rest);
      IdsFromTheHead(pending, ds, d);
      hide IdsWith;
    }
  }

  lemma IdsFromTheHead(pending: seq<Experiment>, ds: seq<Decision>, d: Decision)
    requires |ds| == |pending| && pending != []
    ensures IdsWith(pending, ds, d)
            == (if ds[0] == d then [pending[0].id] else []) + IdsWith(pending[1..], ds[1..], d)
  {}

  /** What the fill reports: the experiments it starts, and those it holds for a local slot, a GPU or a seed, each list
      in queue order. */
  lemma FillReportsItsDecisions(pending: seq<Experiment>, left: Capacity)
      returns (chosen: seq<nat>, local: seq<nat>, gpu: seq<nat>, seed: seq<nat>)
    ensures var f := Selected(pending, left);
            && Names(pending, chosen, f.chosen) && Names(pending, local, f.heldLocal)
            && Names(pending, gpu, f.heldGpu) && Names(pending, seed, f.heldSeed)
    ensures forall i: nat :: i in chosen <==> i < |pending| && Picks(pending, left)[i]
    ensures forall i: nat :: i in local ==>
              pending[i].seedReady && pending[i].local && LeftAfter(pending, left).local == 0
    ensures forall i: nat :: i in gpu ==> pending[i].seedReady && pending[i].gpus > LeftAfter(pending, left).gpus
    ensures forall i: nat :: i in seed ==> !pending[i].seedReady
    ensures LeftAfter(pending, left).slots > 0 ==>
              forall i: nat :: i < |pending| ==> i in chosen || i in local || i in gpu || i in seed
  {
    var ds := Decisions(pending, left);
    chosen := ListsAreInQueueOrder(pending, ds, Take);
    local := ListsAreInQueueOrder(pending, ds, HoldLocal);
    gpu := ListsAreInQueueOrder(pending, ds, HoldGpu);
    seed := ListsAreInQueueOrder(pending, ds, HoldSeed);
    forall i: nat | i < |pending|
      ensures !Picks(pending, left)[i] ==> !ds[i].Take?
      ensures ds[i].HoldLocal? ==> pending[i].seedReady && pending[i].local && LeftAfter(pending, left).local == 0
      ensures ds[i].HoldGpu? ==> pending[i].seedReady && pending[i].gpus > LeftAfter(pending, left).gpus
      ensures ds[i].HoldSeed? ==> !pending[i].seedReady
      ensures ds[i].Wait? ==> LeftAfter(pending, left).slots == 0
    {
      if !Picks(pending, left)[i] {
        FillIsWorkConserving(pending, left, i);
        HeldSeedsAreNotReady(pending, left, i);
      }
    }
  }

  lemma {:induction false} HeldSeedsAreNotReady(pending: seq<Experiment>, left: Capacity, i: nat)
    requires i < |pending|
    ensures Decisions(pending, left)[i].HoldLocal? || Decisions(pending, left)[i].HoldGpu? ==> pending[i].seedReady
  {
    if i > 0 {
      var d := Decide(pending[0], left);
      HeldSeedsAreNotReady(pending[1..], if d.Take? then After(pending[0], left) else left, i - 1);
    }
  }

  /** These ids, in this order, are those of the experiments at these places of the queue. */
  predicate Names(pending: seq<Experiment>, at: seq<nat>, ids: seq<string>)
  {
    && |at| == |ids|
    && (forall k :: 0 <= k < |at| ==> at[k] < |pending| && ids[k] == pending[at[k]].id)
    && forall j, k :: 0 <= j < k < |at| ==> at[j] < at[k]
  }

  /** One turn of the loop, given what was selected before it. */
  lemma SelectNext(soFar: Filled, pending: seq<Experiment>, left: Capacity)
    requires pending != []
    ensures var e, d := pending[0], Decide(pending[0], left);
            var next := Filled(if d.Take? then soFar.chosen + [e.id] else soFar.chosen,
                               if d.HoldLocal? then soFar.heldLocal + [e.id] else soFar.heldLocal,
                               if d.HoldGpu? then soFar.heldGpu + [e.id] else soFar.heldGpu,
                               if d.HoldSeed? then soFar.heldSeed + [e.id] else soFar.heldSeed);
            Join(soFar, Selected(pending, left))
            == Join(next, Selected(pending[1..], if d.Take? then After(e, left) else left))
  {
    hide Decide;
    var d := Decide(pending[0], left);
    assert Decisions(pending, left)[1..] == Decisions(pending[1..], if d.Take? then After(pending[0], left) else left);
  }

  method Fill(pending: seq<Experiment>, free: nat, localSlots: nat, cards: nat)
      returns (chosen: seq<string>, heldLocal: seq<string>, heldGpu: seq<string>, heldSeed: seq<string>)
    ensures Filled(chosen, heldLocal, heldGpu, heldSeed) == Selected(pending, Capacity(free, localSlots, cards))
    ensures |chosen| <= free
  {
    var localFree: nat, gpusFree: nat := localSlots, cards;
    chosen, heldLocal, heldGpu, heldSeed := [], [], [], [];
    ghost var all := Selected(pending, Capacity(free, localSlots, cards));
    assert pending[0..] == pending && Join(Filled([], [], [], []), all) == all;
    for i := 0 to |pending|
      invariant |chosen| <= free
      invariant Join(Filled(chosen, heldLocal, heldGpu, heldSeed),
                     Selected(pending[i..], Capacity(free - |chosen|, localFree, gpusFree))) == all
    {
      if |chosen| == free {
        NothingMoreOnceFull(pending[i..], Capacity(0, localFree, gpusFree));
        NothingJoined(Filled(chosen, heldLocal, heldGpu, heldSeed));
        return;
      }
      var e := pending[i];
      SelectNext(Filled(chosen, heldLocal, heldGpu, heldSeed), pending[i..],
                 Capacity(free - |chosen|, localFree, gpusFree));
      assert pending[i..][1..] == pending[i + 1..];
      if !e.seedReady {
        heldSeed := heldSeed + [e.id];
      } else if e.local && localFree == 0 {
        heldLocal := heldLocal + [e.id];
      } else if e.gpus > gpusFree {
        heldGpu := heldGpu + [e.id];
      } else {
        localFree := if e.local then localFree - 1 else localFree;
        gpusFree := gpusFree - e.gpus;
        chosen := chosen + [e.id];
      }
    }
    NothingJoined(Filled(chosen, heldLocal, heldGpu, heldSeed));
  }

  lemma NothingJoined(f: Filled)
    ensures Join(f, Filled([], [], [], [])) == f
  {}
}
