/** The session's pausable deadline. Several threads may hold pauses at once; the lock makes each entry
    and exit one event, and the clock never runs backwards. */
module TimeBudget {
  import opened Options

  datatype PauseEvent = Enter(at: real) | Exit(at: real)

  /** How many pauses are open after these events. */
  function OpenPauses(log: seq<PauseEvent>): (open: int)
  {
    if log == [] then 0
    else
      var n := |log| - 1;
      OpenPauses(log[..n]) + if log[n].Enter? then 1 else -1
  }

  function LastAt(start: real, log: seq<PauseEvent>): (at: real)
  {
    if log == [] then start else log[|log| - 1].at
  }

  /** Events in clock order, no pause closed that was not open. */
  predicate Feasible(start: real, log: seq<PauseEvent>)
  {
    log == [] ||
    var n := |log| - 1;
    && Feasible(start, log[..n])
    && LastAt(start, log[..n]) <= log[n].at
    && OpenPauses(log) >= 0
  }

  /** The length of the union of all pauses up to `now`: the time during which any was open. */
  function Paused(start: real, log: seq<PauseEvent>, now: real): (length: real)
  {
    if log == [] then 0.0
    else
      var n := |log| - 1;
      Paused(start, log[..n], log[n].at) + if OpenPauses(log) > 0 then now - log[n].at else 0.0
  }

  lemma {:induction false} PausedIsPartOfTheTime(start: real, log: seq<PauseEvent>, now: real)
    requires Feasible(start, log) && LastAt(start, log) <= now
    ensures 0.0 <= Paused(start, log, now) <= now - start
    decreases |log|
  {
    if log == [] {
    } else {
      PausedIsPartOfTheTime(start, log[..|log| - 1], log[|log| - 1].at);
    }
  }

  /** Between events the paused time grows with the clock exactly while a pause is open. */
  lemma PausedGrowsWhileOpen(start: real, log: seq<PauseEvent>, now: real, later: real)
    ensures Paused(start, log, later) == Paused(start, log, now) + if OpenPauses(log) > 0 then later - now else 0.0
  {}

  lemma OneMoreEvent(start: real, log: seq<PauseEvent>, e: PauseEvent, now: real)
    ensures var more := log + [e];
            && OpenPauses(more) == OpenPauses(log) + (if e.Enter? then 1 else -1)
            && LastAt(start, more) == e.at
            && (Feasible(start, more) <==> Feasible(start, log) && LastAt(start, log) <= e.at && OpenPauses(more) >= 0)
            && Paused(start, more, now) == Paused(start, log, e.at) + if OpenPauses(more) > 0 then now - e.at else 0.0
  {
    assert (log + [e])[..|log|] == log;
  }

  /** A pause inside another adds nothing: opening and closing it at any moments of the outer one
      leaves the union as it was. */
  lemma NestedPausesCountOnce(start: real, log: seq<PauseEvent>, from: real, until: real, now: real)
    requires Feasible(start, log) && OpenPauses(log) > 0 && LastAt(start, log) <= from <= until <= now
    ensures Feasible(start, log + [Enter(from), Exit(until)])
    ensures OpenPauses(log + [Enter(from), Exit(until)]) == OpenPauses(log)
    ensures Paused(start, log + [Enter(from), Exit(until)], now) == Paused(start, log, now)
  {
    var one, two := log + [Enter(from)], log + [Enter(from), Exit(until)];
    OneMoreEvent(start, log, Enter(from), until);
    assert two == one + [Exit(until)];
    OneMoreEvent(start, one, Exit(until), now);
    PausedGrowsWhileOpen(start, log, from, now);
  }

  // ---- the union, pause by pause ----

  // Which pause each event belongs to.
  type Names = seq<nat>

  /** The pauses entered and not yet left. */
  function Open(log: seq<PauseEvent>, names: Names): (open: set<nat>)
    requires |names| == |log|
  {
    if log == [] then {}
    else
      var n := |log| - 1;
      if log[n].Enter? then Open(log[..n], names[..n]) + {names[n]} else Open(log[..n], names[..n]) - {names[n]}
  }

  /** Every pause is entered once while it is not open, and left only while it is. */
  predicate Matched(log: seq<PauseEvent>, names: Names)
    requires |names| == |log|
  {
    log != [] ==>
      var n := |log| - 1;
      && Matched(log[..n], names[..n])
      && (log[n].Enter? <==> names[n] !in Open(log[..n], names[..n]))
  }

  /** Events `enter` and on belong to one pause that is still running after event `k`. */
  ghost predicate Runs(log: seq<PauseEvent>, names: Names, enter: nat, k: nat)
    requires |names| == |log|
  {
    && enter <= k < |log| && log[enter].Enter?
    && forall j :: enter < j <= k ==> names[j] != names[enter]
  }

  /** After event `k` some pause [enter, exit] is running. */
  ghost predicate Covered(log: seq<PauseEvent>, names: Names, k: nat)
    requires |names| == |log|
  {
    exists enter: nat :: Runs(log, names, enter, k)
  }

  /** The length of the union of the pauses' intervals up to `now`: between one event and the next the clock
      counts exactly if it runs inside some pause. */
  ghost function UnionLength(log: seq<PauseEvent>, names: Names, now: real): (length: real)
    requires |names| == |log|
  {
    if log == [] then 0.0
    else
      var n := |log| - 1;
      UnionLength(log[..n], names[..n], log[n].at) + if Covered(log, names, n) then now - log[n].at else 0.0
  }

  lemma {:induction false} OpenAreCounted(log: seq<PauseEvent>, names: Names)
    requires |names| == |log| && Matched(log, names)
    ensures |Open(log, names)| == OpenPauses(log)
  {
    if log == [] {
    } else {
      OpenAreCounted(log[..|log| - 1], names[..|log| - 1]);
    }
  }

  /** A pause is open exactly while it runs. */
  lemma {:induction false} OpenPausesRun(log: seq<PauseEvent>, names: Names, name: nat)
    requires |names| == |log| && Matched(log, names) && log != []
    ensures name in Open(log, names) <==>
              exists enter: nat :: Runs(log, names, enter, |log| - 1) && names[enter] == name
    decreases |log|
  {
    var n := |log| - 1;
    var before, known := log[..n], names[..n];
    if names[n] == name {
      if log[n].Enter? {
        assert Runs(log, names, n, n);
      }
    } else if n > 0 {
      OpenPausesRun(before, known, name);
      if enter: nat :| Runs(before, known, enter, n - 1) && known[enter] == name {
        assert Runs(log, names, enter, n) && names[enter] == name;
      }
      if enter: nat :| Runs(log, names, enter, n) && names[enter] == name {
        assert Runs(before, known, enter, n - 1) && known[enter] == name;
      }
    }
  }

  /** Counting open pauses measures the union of their intervals, however they overlap. */
  lemma {:induction false} PausedIsTheUnion(start: real, log: seq<PauseEvent>, names: Names, now: real)
    requires |names| == |log| && Matched(log, names)
    ensures Paused(start, log, now) == UnionLength(log, names, now)
    decreases |log|
  {
    if log == [] {
    } else {
      var n := |log| - 1;
      PausedIsTheUnion(start, log[..n], names[..n], log[n].at);
      OpenAreCounted(log, names);
      if Covered(log, names, n) {
        var enter: nat :| Runs(log, names, enter, n);
        OpenPausesRun(log, names, names[enter]);
        assert names[enter] in Open(log, names);
      }
      if OpenPauses(log) > 0 {
        var name :| name in Open(log, names);
        OpenPausesRun(log, names, name);
      }
    }
  }

  class InferenceTimeBudget {
    var deadline: real
    var pauseDepth: nat
    var pauseStarted: Option<real>

    ghost const start: real
    ghost const duration: real
    ghost var log: seq<PauseEvent>

    ghost predicate Valid()
      reads this
    {
      && Feasible(start, log)
      && pauseDepth == OpenPauses(log)
      && (pauseStarted.Some? <==> pauseDepth > 0)
      && (pauseStarted.Some? ==> pauseStarted.value <= LastAt(start, log))
      && deadline + (if pauseStarted.Some? then LastAt(start, log) - pauseStarted.value else 0.0)
         == start + duration + Paused(start, log, LastAt(start, log))
    }

    /** The clock has not run behind the last event. */
    ghost predicate InTime(now: real)
      reads this
    {
      LastAt(start, log) <= now
    }

    /** The budget left, seen from outside: what was granted, less the time passed, plus the pauses' union. */
    ghost function Left(now: real): (left: real)
      reads this
    {
      duration - (now - start) + Paused(start, log, now)
    }

    constructor (now: real, durationSeconds: real)
      requires durationSeconds > 0.0
      ensures Valid() && start == now && duration == durationSeconds && log == []
    {
      start, duration, log := now, durationSeconds, [];
      deadline, pauseDepth, pauseStarted := now + durationSeconds, 0, None;
    }

    /** The second way to open one: an absolute deadline, which may already have passed. */
    constructor Until(now: real, target: real)
      ensures Valid() && start == now && duration == target - now && log == []
    {
      start, duration, log := now, target - now, [];
      deadline, pauseDepth, pauseStarted := target, 0, None;
    }

    method Deadline(now: real) returns (at: real)
      requires Valid() && InTime(now)
      ensures at == now + Left(now)
    {
      PausedGrowsWhileOpen(start, log, LastAt(start, log), now);
      var extension := if pauseStarted.None? then 0.0
                       else if now - pauseStarted.value > 0.0 then now - pauseStarted.value else 0.0;
      at := deadline + extension;
    }

    method Remaining(now: real) returns (left: real)
      requires Valid() && InTime(now)
      ensures left == Left(now)
      ensures forall other :: InTime(other) && OpenPauses(log) > 0 ==> Left(other) == left
    {
      PausedGrowsWhileOpen(start, log, LastAt(start, log), now);
      forall other | InTime(other) && OpenPauses(log) > 0
        ensures Left(other) == Left(now)
      {
        PausedGrowsWhileOpen(start, log, LastAt(start, log), other);
      }
      left := deadline - (if pauseStarted.Some? then pauseStarted.value else now);
    }

    /** Opening a pause: refused once no budget is left, even inside another pause. */
    method EnterPause(checkedAt: real, at: real) returns (timedOut: bool)
      requires Valid() && InTime(checkedAt) && checkedAt <= at
      modifies this
      ensures timedOut <==> old(Left(checkedAt)) <= 0.0
      ensures log == if timedOut then old(log) else old(log) + [Enter(at)]
      ensures Valid()
    {
      var left := Remaining(checkedAt);
      if left <= 0.0 {
        return true;
      }
      PausedGrowsWhileOpen(start, log, LastAt(start, log), at);
      if pauseDepth == 0 {
        pauseStarted := Some(at);
      }
      pauseDepth := pauseDepth + 1;
      log := log + [Enter(at)];
      assert log[..|log| - 1] == old(log);
      return false;
    }

    method ExitPause(at: real)
      requires Valid() && InTime(at) && pauseDepth > 0
      modifies this
      ensures log == old(log) + [Exit(at)]
      ensures pauseDepth == old(pauseDepth) - 1
      ensures pauseDepth > 0 ==> deadline == old(deadline) && pauseStarted == old(pauseStarted)
      ensures pauseDepth == 0 ==> deadline == old(deadline) + (at - old(pauseStarted).value) && pauseStarted.None?
      ensures Valid()
    {
      PausedGrowsWhileOpen(start, log, LastAt(start, log), at);
      pauseDepth := pauseDepth - 1;
      if pauseDepth == 0 {
        deadline := deadline + (if at - pauseStarted.value > 0.0 then at - pauseStarted.value else 0.0);
        pauseStarted := None;
      }
      log := log + [Exit(at)];
      assert log[..|log| - 1] == old(log);
    }
  }
}
