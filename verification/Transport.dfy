/** Bars cross to the strategy worker as deltas: the host checks and ships only the rows after those it
    shipped before, the worker appends them to its own table. */
module Transport {
  import opened Options

  datatype Bar = Bar(availableAt: int, record: string)

  // One call: the first `count` rows of a table, as known at `inferenceAt`.
  datatype Call = Call(inferenceAt: int, table: seq<Bar>, count: nat)

  datatype Request = Request(sequence: int, reset: bool, baseCount: nat, totalCount: nat, inferenceAt: int,
                             bars: seq<Bar>)

  datatype Error =
    | Closed | InconsistentMetadata | InferenceNotLater | NotAppendOnly | BarsChanged | NotVisible | NotMonotonic
    | CallFailed

  // What comes back: a message with its type and sequence, or no usable message at all.
  datatype Kind = Expected | StrategyError | ProtocolError | Unexpected
  datatype Reply = Message(kind: Kind, sequence: Option<int>) | NoMessage

  // ---- the two ends ----

  datatype Host = Host(closed: bool, sequence: int, inferenceAt: Option<int>, count: nat, table: seq<Bar>,
                       lastAvailable: Option<int>)

  datatype Worker = Worker(sequence: int, inferenceAt: Option<int>, table: seq<Bar>)

  const FRESH_HOST := Host(false, -1, None, 0, [], None)
  const FRESH_WORKER := Worker(-1, None, [])

  predicate PrefixMatches(a: seq<Bar>, b: seq<Bar>, count: nat)
  {
    count <= |a| && count <= |b| && a[..count] == b[..count]
  }

  /** The new rows, checked one by one against the inference time and the row before. */
  function CheckRows(rows: seq<Bar>, inferenceAt: int, last: Option<int>): (checked: (Option<Error>, Option<int>))
  {
    if rows == [] then (None, last)
    else if rows[0].availableAt > inferenceAt then (Some(NotVisible), last)
    else if last.Some? && rows[0].availableAt < last.value then (Some(NotMonotonic), last)
    else CheckRows(rows[1..], inferenceAt, Some(rows[0].availableAt))
  }

  datatype Prepared = Ready(request: Request, lastAvailable: Option<int>) | Refused(error: Error)

  function Prepare(h: Host, call: Call): (prepared: Prepared)
  {
    var reset := h.sequence < 0;
    var base := if reset then 0 else h.count;
    if |call.table| < call.count then Refused(InconsistentMetadata)
    else if !reset && (h.inferenceAt.None? || call.inferenceAt <= h.inferenceAt.value) then Refused(InferenceNotLater)
    else if !reset && call.count < base then Refused(NotAppendOnly)
    else if !reset && !PrefixMatches(h.table, call.table, base) then Refused(BarsChanged)
    else
      var checked := CheckRows(call.table[base..call.count], call.inferenceAt, if reset then None else h.lastAvailable);
      if checked.0.Some? then Refused(checked.0.value)
      else Ready(Request(if reset then 0 else h.sequence + 1, reset, base, call.count, call.inferenceAt,
                         call.table[base..call.count]),
                 checked.1)
  }

  function Aborted(): (h: Host)
  {
    FRESH_HOST.(closed := true)
  }

  /** The reply that completes a call: the expected message carrying the request's own sequence. */
  predicate Completes(reply: Reply, request: Request)
  {
    reply == Message(Expected, Some(request.sequence))
  }

  function Roundtrip(h: Host, call: Call, reply: Reply): (outcome: (Host, Option<Error>))
  {
    if h.closed then (h, Some(Closed))
    else match Prepare(h, call)
      case Refused(error) => (Aborted(), Some(error))
      case Ready(request, last) =>
        if Completes(reply, request) then
          (Host(false, request.sequence, Some(call.inferenceAt), call.count, call.table, last), None)
        else (Aborted(), Some(CallFailed))
  }

  /** The worker's side: None where it rejects the message. */
  function Accept(w: Worker, request: Request): (accepted: Option<Worker>)
  {
    if request.reset && (request.sequence != 0 || request.baseCount != 0) then None
    else if !request.reset && (w.sequence < 0 || request.sequence != w.sequence
                               + 1 || request.baseCount != |w.table|) then None
    else
      var table := if request.reset then [] else w.table;
      if !request.reset && w.inferenceAt.Some? && request.inferenceAt <= w.inferenceAt.value then None
      else if request.totalCount != request.baseCount + |request.bars| then None
      else if !Extends(table, request.bars, request.inferenceAt) then None
      else Some(Worker(request.sequence, Some(request.inferenceAt), table + request.bars))
  }

  predicate Monotone(rows: seq<Bar>)
  {
    forall i, j :: 0 <= i < j < |rows| ==> rows[i].availableAt <= rows[j].availableAt
  }

  predicate Visible(rows: seq<Bar>, at: int)
  {
    forall i :: 0 <= i < |rows| ==> rows[i].availableAt <= at
  }

  /** The worker takes a delta that is visible and carries on a monotone table. */
  predicate Extends(table: seq<Bar>, delta: seq<Bar>, at: int)
  {
    Visible(delta, at) && Monotone(table + delta)
  }

  // ---- the delta check is the full check ----

  function LastOf(rows: seq<Bar>): (last: Option<int>)
  {
    if rows == [] then None else Some(rows[|rows| - 1].availableAt)
  }

  lemma {:induction false} CheckingRows(shipped: seq<Bar>, rows: seq<Bar>, at: int)
    requires Monotone(shipped)
    ensures CheckRows(rows, at, LastOf(shipped)).0.None? <==> Visible(rows, at) && Monotone(shipped + rows)
    ensures CheckRows(rows, at, LastOf(shipped)).0.None? ==>
            CheckRows(rows, at, LastOf(shipped)).1 == LastOf(shipped + rows)
    decreases |rows|
  {
    if rows == [] {
      assert shipped + rows == shipped;
    } else {
      var next := shipped + [rows[0]];
      assert shipped + rows == next + rows[1..];
      assert (shipped + rows)[|shipped|] == rows[0];
      if rows[0].availableAt <= at && (shipped == [] || shipped[|shipped| - 1].availableAt <= rows[0].availableAt) {
        CheckingRows(next, rows[1..], at);
        assert Visible(rows, at) <==> Visible(rows[1..], at) by {
          assert forall i :: 0 < i < |rows| ==> rows[i] == rows[1..][i - 1];
        }
      } else if rows[0].availableAt <= at {
        assert (shipped + rows)[|shipped| - 1] == shipped[|shipped| - 1];
      }
    }
  }

  /** Everything the two ends agree on between calls. */
  ghost predicate Synced(h: Host, w: Worker)
  {
    !h.closed && h.sequence >= 0 ==>
      && w.sequence == h.sequence
      && h.inferenceAt.Some? && w.inferenceAt == h.inferenceAt
      && h.count <= |h.table| && w.table == h.table[..h.count]
      && Monotone(w.table) && Visible(w.table, h.inferenceAt.value)
      && h.lastAvailable == LastOf(w.table)
  }

  /** Sending deltas refuses exactly what resending every row and checking all of them would refuse. */
  lemma DeltaCheckIsTheFullCheck(h: Host, w: Worker, call: Call)
    requires Synced(h, w) && !h.closed
    ensures Prepare(h, call).Ready? <==>
              && call.count <= |call.table|
              && (h.sequence >= 0 ==> call.inferenceAt > h.inferenceAt.value && w.table <= call.table[..call.count])
              && Monotone(call.table[..call.count]) && Visible(call.table[..call.count], call.inferenceAt)
  {
    hide Monotone;
    hide Visible;
    hide CheckRows;
    if call.count <= |call.table| {
      if h.sequence < 0 {
        FirstCheckIsTheFullCheck(call);
      } else if call.inferenceAt > h.inferenceAt.value && call.count >= h.count {
        PrefixIsThePrefix(h, w, call);
        if w.table <= call.table[..call.count] {
          NewRowsCheckIsTheFullCheck(h, w, call);
        }
      }
    }
  }

  lemma FirstCheckIsTheFullCheck(call: Call)
    requires call.count <= |call.table|
    ensures var all := call.table[..call.count];
            && call.table[0..call.count] == all
            && (CheckRows(all, call.inferenceAt, None).0.None? <==> Monotone(all) && Visible(all, call.inferenceAt))
  {
    hide Monotone;
    hide Visible;
    hide CheckRows;
    NothingIsMonotone();
    var all := call.table[..call.count];
    CheckingRows([], all, call.inferenceAt);
    assert [] + all == all && call.table[0..call.count] == all;
  }

  lemma NewRowsCheckIsTheFullCheck(h: Host, w: Worker, call: Call)
    requires Synced(h, w) && !h.closed && h.sequence >= 0 && call.inferenceAt > h.inferenceAt.value
    requires h.count <= call.count <= |call.table| && w.table <= call.table[..call.count]
    ensures var all := call.table[..call.count];
            CheckRows(call.table[h.count..call.count], call.inferenceAt, h.lastAvailable).0.None?
            <==> Monotone(all) && Visible(all, call.inferenceAt)
  {
    hide Monotone;
    hide Visible;
    hide CheckRows;
    var rows := call.table[h.count..call.count];
    assert w.table + rows == call.table[..call.count];
    CheckingRows(w.table, rows, call.inferenceAt);
    VisibleInParts(w.table, rows, h.inferenceAt.value, call.inferenceAt);
  }

  lemma NothingIsMonotone()
    ensures Monotone([])
  {}

  lemma PrefixIsThePrefix(h: Host, w: Worker, call: Call)
    requires h.count <= |h.table| && w.table == h.table[..h.count] && h.count <= call.count <= |call.table|
    ensures PrefixMatches(h.table, call.table, h.count) <==> w.table <= call.table[..call.count]
  {
    assert call.table[..call.count][..h.count] == call.table[..h.count];
  }

  lemma VisibleInParts(a: seq<Bar>, b: seq<Bar>, before: int, at: int)
    requires Visible(a, before) && before <= at
    ensures Visible(a + b, at) <==> Visible(b, at)
  {
    assert forall i :: 0 <= i < |b| ==> b[i] == (a + b)[|a| + i];
  }

  /** A call that completes leaves the worker holding exactly the first `count` rows of that call's
      table, none of them later than its inference time; the worker never rejects the request; and any
      failure closes the host with nothing advanced. */
  lemma DeltasRefineFullResend(h: Host, w: Worker, call: Call, reply: Reply)
    requires Synced(h, w) && !h.closed
    ensures Prepare(h, call).Ready? ==>
              Accept(w, Prepare(h, call).request) == Some(Worker(if h.sequence < 0 then 0 else h.sequence + 1,
                                                                  Some(call.inferenceAt), call.table[..call.count]))
    ensures var outcome := Roundtrip(h, call, reply);
            && (outcome.1.None? ==>
                  Prepare(h, call).Ready? && Synced(outcome.0, Accept(w, Prepare(h, call).request).value)
                  && outcome.0.count == call.count && outcome.0.sequence >= 0)
            && (outcome.1.Some? ==> outcome.0 == Aborted())
  {
    hide Monotone;
    hide Visible;
    hide CheckRows;
    DeltaCheckIsTheFullCheck(h, w, call);
    NothingIsMonotone();
    if Prepare(h, call).Ready? {
      var request := Prepare(h, call).request;
      var table := if request.reset then [] else w.table;
      assert table + request.bars == call.table[..call.count];
      CheckingRows(table, request.bars, call.inferenceAt);
    }
  }

  // ---- whole runs ----

  datatype Exchange = Exchange(call: Call, reply: Reply)

  /** A run from a fresh pair: the state of both ends, and how many calls completed. */
  function Run(exchanges: seq<Exchange>): (end: (Host, Worker, nat))
  {
    if exchanges == [] then (FRESH_HOST, FRESH_WORKER, 0)
    else
      var n := |exchanges| - 1;
      var (h, w, completed) := Run(exchanges[..n]);
      var call := exchanges[n].call;
      var outcome := Roundtrip(h, call, exchanges[n].reply);
      if h.closed || !Prepare(h, call).Ready? then (outcome.0, w, completed)
      else
        var accepted := Accept(w, Prepare(h, call).request);
        (outcome.0, if accepted.Some? then accepted.value else w, if outcome.1.None? then completed + 1 else completed)
  }

  /** Over every run: as long as the host is open every call so far has completed and the worker's
      table is exactly what the last one would have resent in full; once closed it stays closed. */
  lemma {:induction false} WorkerTableIsTheLastCalls(exchanges: seq<Exchange>)
    ensures var (h, w, completed) := Run(exchanges);
            && Synced(h, w)
            && (!h.closed ==> completed == |exchanges|)
            && (!h.closed && exchanges != [] ==>
                  var call := exchanges[|exchanges| - 1].call;
                  call.count <= |call.table| && w.table == call.table[..call.count]
                  && Monotone(w.table) && Visible(w.table, call.inferenceAt))
    decreases |exchanges|
  {
    if exchanges == [] {
    } else {
      var n := |exchanges| - 1;
      WorkerTableIsTheLastCalls(exchanges[..n]);
      var (h, w, completed) := Run(exchanges[..n]);
      if !h.closed {
        DeltasRefineFullResend(h, w, exchanges[n].call, exchanges[n].reply);
        DeltaCheckIsTheFullCheck(h, w, exchanges[n].call);
      }
    }
  }

  // ---- exactly when calls complete ----

  /** The whole table of a call, checked from scratch against what the worker holds. */
  ghost predicate FullCheck(h: Host, w: Worker, call: Call)
    requires Synced(h, w) && !h.closed
  {
    && call.count <= |call.table|
    && (h.sequence >= 0 ==> call.inferenceAt > h.inferenceAt.value && w.table <= call.table[..call.count])
    && Monotone(call.table[..call.count]) && Visible(call.table[..call.count], call.inferenceAt)
  }

  /** An open host's call completes exactly when its whole table passes and the reply is the expected message with the
      next sequence; the host then stands at this call. Anything else is an error that names its cause. */
  lemma CallsCompleteExactlyWhen(h: Host, w: Worker, call: Call, reply: Reply)
    requires Synced(h, w) && !h.closed
    ensures var (next, error) := Roundtrip(h, call, reply);
            var sequence := if h.sequence < 0 then 0 else h.sequence + 1;
            && (error.None? <==> FullCheck(h, w, call) && reply == Message(Expected, Some(sequence)))
            && (error == Some(CallFailed) <==>
                  FullCheck(h, w, call) && reply != Message(Expected, Some(sequence)))
            && (error.None? ==>
                  next == Host(false, sequence, Some(call.inferenceAt), call.count, call.table,
                               LastOf(call.table[..call.count])))
            && (error == Some(InconsistentMetadata) <==> |call.table| < call.count)
            && (error == Some(InferenceNotLater) <==>
                  call.count <= |call.table| && h.sequence >= 0 && call.inferenceAt <= h.inferenceAt.value)
  {
    hide Monotone;
    hide Visible;
    hide CheckRows;
    DeltaCheckIsTheFullCheck(h, w, call);
    NothingIsMonotone();
    RowErrors(call, if h.sequence < 0 then 0 else h.count, if h.sequence < 0 then None else h.lastAvailable);
    if Prepare(h, call).Ready? {
      var request := Prepare(h, call).request;
      var table := if request.reset then [] else w.table;
      assert table + request.bars == call.table[..call.count];
      CheckingRows(table, request.bars, call.inferenceAt);
    }
  }

  lemma RowErrors(call: Call, base: nat, last: Option<int>)
    ensures base <= call.count <= |call.table| ==>
              CheckRows(call.table[base..call.count], call.inferenceAt, last).0
              in {None, Some(NotVisible), Some(NotMonotonic)}
  {
    if base <= call.count <= |call.table| {
      CheckingNamesItsCause(call.table[base..call.count], call.inferenceAt, last);
    }
  }

  lemma {:induction false} CheckingNamesItsCause(rows: seq<Bar>, at: int, last: Option<int>)
    ensures CheckRows(rows, at, last).0 in {None, Some(NotVisible), Some(NotMonotonic)}
    decreases |rows|
  {
    if rows == [] {
    } else {
      CheckingNamesItsCause(rows[1..], at, Some(rows[0].availableAt));
    }
  }

  lemma AClosedHostAnswersNothing(h: Host, call: Call, reply: Reply)
    requires h.closed
    ensures Roundtrip(h, call, reply) == (h, Some(Closed))
  {}

  /** Call number `k` of a run is in order: its table passes on its own, it is later than the one before it and carries
      on that one's rows, and the reply is the expected message with sequence `k`. */
  predicate InStep(exchanges: seq<Exchange>, k: nat)
    requires k < |exchanges|
  {
    var call := exchanges[k].call;
    && exchanges[k].reply == Message(Expected, Some(k))
    && call.count <= |call.table| && Monotone(call.table[..call.count])
    && Visible(call.table[..call.count], call.inferenceAt)
    && (k > 0 ==>
          var before := exchanges[k - 1].call;
          && call.inferenceAt > before.inferenceAt
          && before.count <= |before.table| && before.table[..before.count] <= call.table[..call.count])
  }

  /** Over every run, from a fresh pair: the host is open, every call completed, exactly when every call was in step. */
  lemma {:induction false} RunsStayOpenExactlyWhen(exchanges: seq<Exchange>)
    ensures var (h, w, completed) := Run(exchanges);
            && (!h.closed <==> forall k :: 0 <= k < |exchanges| ==> InStep(exchanges, k))
            && (!h.closed ==> completed == |exchanges| && h.sequence == |exchanges| - 1)
            && (!h.closed && exchanges != [] ==>
                  h.inferenceAt == Some(exchanges[|exchanges| - 1].call.inferenceAt))
    decreases |exchanges|
  {
    if exchanges == [] {
    } else {
      var n := |exchanges| - 1;
      var before := exchanges[..n];
      RunsStayOpenExactlyWhen(before);
      forall k | 0 <= k < n
        ensures InStep(before, k) <==> InStep(exchanges, k)
      {}
      OneMoreExchange(exchanges);
      hide Run;
      hide InStep;
    }
  }

  lemma OneMoreExchange(exchanges: seq<Exchange>)
    requires exchanges != []
    requires var (h, _, completed) := Run(exchanges[..|exchanges| - 1]);
             !h.closed ==> completed == |exchanges| - 1 && h.sequence == |exchanges| - 2
    requires var (h, _, _) := Run(exchanges[..|exchanges| - 1]);
             !h.closed && |exchanges| > 1 ==> h.inferenceAt == Some(exchanges[|exchanges| - 2].call.inferenceAt)
    ensures var n := |exchanges| - 1;
            var (h, _, _) := Run(exchanges[..n]);
            var (next, _, completed) := Run(exchanges);
            && (h.closed ==> next.closed)
            && (!h.closed ==> (!next.closed <==> InStep(exchanges, n)))
            && (!next.closed ==> completed == n + 1 && next.sequence == n
                                 && next.inferenceAt == Some(exchanges[n].call.inferenceAt))
  {
    hide Monotone;
    hide Visible;
    hide Prepare;
    hide LastOf;
    var n := |exchanges| - 1;
    var before, call, reply := exchanges[..n], exchanges[n].call, exchanges[n].reply;
    WorkerTableIsTheLastCalls(before);
    var (h, w, completed) := Run(before);
    hide InStep;
    if h.closed {
      AClosedHostAnswersNothing(h, call, reply);
    } else {
      CallsCompleteExactlyWhen(h, w, call, reply);
      DeltasRefineFullResend(h, w, call, reply);
      InStepIsTheFullCheck(exchanges, h, w);
      hide FullCheck;
      hide Roundtrip;
      hide Synced;
      hide Accept;
    }
  }

  lemma InStepIsTheFullCheck(exchanges: seq<Exchange>, h: Host, w: Worker)
    requires exchanges != [] && Synced(h, w) && !h.closed && h.sequence == |exchanges| - 2
    requires |exchanges| > 1 ==>
               var before := exchanges[|exchanges| - 2].call;
               && h.inferenceAt == Some(before.inferenceAt)
               && before.count <= |before.table| && w.table == before.table[..before.count]
    ensures InStep(exchanges, |exchanges| - 1) <==>
              FullCheck(h, w, exchanges[|exchanges| - 1].call)
              && exchanges[|exchanges| - 1].reply == Message(Expected, Some(|exchanges| - 1))
  {
    hide Monotone;
    hide Visible;
  }

  // ---- the worker on its own ----

  /** What the worker's table always is, whatever it is sent. */
  ghost predicate SoundWorker(w: Worker)
  {
    && (w.sequence >= 0 ==> w.inferenceAt.Some? && Monotone(w.table) && Visible(w.table, w.inferenceAt.value))
    && (w.sequence < 0 ==> w == FRESH_WORKER)
  }

  /** Any request at all: the worker takes it exactly when it starts afresh, or carries on its own table at the next
      sequence and a later time, and its rows are announced, visible and in order; it then holds them. */
  lemma WorkersAcceptExactlyWhen(w: Worker, request: Request)
    requires SoundWorker(w)
    ensures var kept := if request.reset then [] else w.table;
            && (Accept(w, request).Some? <==>
                  && request.baseCount == |kept| && request.totalCount == |kept| + |request.bars|
                  && request.sequence == (if request.reset then 0 else w.sequence + 1)
                  && (!request.reset ==> w.sequence >= 0 && request.inferenceAt > w.inferenceAt.value)
                  && Visible(kept + request.bars, request.inferenceAt) && Monotone(kept + request.bars))
            && (Accept(w, request).Some? ==>
                  Accept(w, request).value
                  == Worker(request.sequence, Some(request.inferenceAt), kept + request.bars))
    ensures Accept(w, request).Some? ==> SoundWorker(Accept(w, request).value)
  {
    hide Monotone;
    NothingIsMonotone();
    var kept := if request.reset then [] else w.table;
    NothingIsLate(request.inferenceAt);
    if kept == [] {
      VisibleInParts([], request.bars, request.inferenceAt, request.inferenceAt);
    } else if w.inferenceAt.Some? && request.inferenceAt > w.inferenceAt.value {
      VisibleInParts(kept, request.bars, w.inferenceAt.value, request.inferenceAt);
    }
    hide Visible;
  }

  lemma NothingIsLate(at: int)
    ensures Visible([], at)
  {}

  // ---- the object ----

  class StrategyExecutor {
    var closed: bool
    var transportSequence: int
    var transportInferenceAt: Option<int>
    var transportCount: nat
    var transportTable: seq<Bar>
    var transportLastAvailableAt: Option<int>

    function View(): (h: Host)
      reads this
    {
      Host(closed, transportSequence, transportInferenceAt, transportCount, transportTable, transportLastAvailableAt)
    }

    constructor ()
      ensures View() == FRESH_HOST
    {
      closed := false;
      transportSequence, transportInferenceAt, transportCount, transportTable, transportLastAvailableAt := -1, None, 0,
          [], None;
    }

    method Abort()
      modifies this
      ensures View() == Aborted()
    {
      closed := true;
      ResetTransportState();
    }

    method ResetTransportState()
      modifies this
      ensures View() == FRESH_HOST.(closed := old(closed))
    {
      transportSequence := -1;
      transportInferenceAt := None;
      transportCount := 0;
      transportTable := [];
      transportLastAvailableAt := None;
    }

    method PrepareExecute(call: Call) returns (prepared: Prepared)
      ensures prepared == Prepare(View(), call)
    {
      var reset := transportSequence < 0;
      var sequence := if reset then 0 else transportSequence + 1;
      var base := if reset then 0 else transportCount;
      if |call.table| < call.count {
        return Refused(InconsistentMetadata);
      }
      if !reset {
        if transportInferenceAt.None? || call.inferenceAt <= transportInferenceAt.value {
          return Refused(InferenceNotLater);
        }
        if call.count < base {
          return Refused(NotAppendOnly);
        }
        if !PrefixMatches(transportTable, call.table, base) {
          return Refused(BarsChanged);
        }
      }
      var last := if reset then None else transportLastAvailableAt;
      ghost var first := last;
      for index := base to call.count
        invariant CheckRows(call.table[base..call.count], call.inferenceAt, first)
                  == CheckRows(call.table[index..call.count], call.inferenceAt, last)
      {
        var availableAt := call.table[index].availableAt;
        assert call.table[index..call.count][1..] == call.table[index + 1..call.count];
        if availableAt > call.inferenceAt {
          return Refused(NotVisible);
        }
        if last.Some? && availableAt < last.value {
          return Refused(NotMonotonic);
        }
        last := Some(availableAt);
      }
      return Ready(Request(sequence, reset, base, call.count, call.inferenceAt, call.table[base..call.count]), last);
    }

    method Execute(call: Call, reply: Reply) returns (error: Option<Error>)
      modifies this
      ensures (View(), error) == Roundtrip(old(View()), call, reply)
    {
      if closed {
        return Some(Closed);
      }
      var prepared := PrepareExecute(call);
      if prepared.Refused? {
        Abort();
        return Some(prepared.error);
      }
      var sequence := prepared.request.sequence;
      // Only the two error replies may come without a sequence; every other mismatch is itself a failure.
      if reply.NoMessage?
         || ((reply.kind.Expected? || reply.kind.Unexpected? || reply.sequence.Some?) &&
             reply.sequence != Some(sequence)) {
        Abort();
        return Some(CallFailed);
      }
      if !reply.kind.Expected? {
        Abort();
        return Some(CallFailed);
      }
      transportSequence := sequence;
      transportInferenceAt := Some(call.inferenceAt);
      transportCount := call.count;
      transportTable := call.table;
      transportLastAvailableAt := prepared.lastAvailable;
      return None;
    }
  }
}
