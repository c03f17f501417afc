/** The session's conversation loop and its tool dispatch, and what they guarantee over a whole session. */
module AgentSession {
  import opened Options
  import opened Conversation
  import opened ToolFitting
  import opened SessionSteps

  /** A whole session: iterations until one ends it or the call budget is spent. */
  function RunSession(config: Config, s: Session, world: nat -> Turn, i: nat): (end: Next)
    requires s.messages != []
    ensures end.Ended?
    decreases config.maxCalls - s.calls
  {
    if s.calls >= config.maxCalls then Ended(s, CallBudget)
    else match Iterate(config, s, world(i))
      case Ended(t, reason) => Ended(t, reason)
      case Continue(t) => RunSession(config, t, world, i + 1)
  }

  /** Whatever the model, the tools, the clock and the user do, every request the session sends begins
      with its system prompt and answers every tool call, in order, right after the turn that made it. */
  lemma {:induction false} EveryRequestIsValid(prompt: string, config: Config, s: Session, world: nat -> Turn, i: nat)
    requires Sendable(prompt, s) && config.Valid()
    ensures AllValid(prompt, RunSession(config, s, world, i).session.requests)
    decreases config.maxCalls - s.calls
  {
    hide Iterate;
    hide ProtocolValid;
    if s.calls < config.maxCalls {
      IterationsSendValidRequests(prompt, config, s, world(i));
      if Iterate(config, s, world(i)).Continue? {
        EveryRequestIsValid(prompt, config, Iterate(config, s, world(i)).session, world, i + 1);
      }
    }
  }

  /** A session started from a prompt, an answered preamble and an instruction can be sent. */
  lemma OpeningIsSendable(prompt: string, preamble: seq<Message>, instruction: string)
    requires Answered(preamble)
    ensures Sendable(prompt, Opening(prompt, preamble, instruction))
    ensures Opening(prompt, preamble, instruction).messages == [System(prompt)] + preamble + [User(instruction, false)]
  {
    var m := User(instruction, false);
    ScanConcat([], preamble, [m]);
    assert [m][1..] == [];
    assert Opening(prompt, preamble, instruction).messages[1..] == preamble + [m];
  }

  /** The loop makes at most the budgeted number of calls and sends at most one request a call. */
  lemma {:induction false} CallsStayInBudget(config: Config, s: Session, world: nat -> Turn, i: nat)
    requires s.messages != [] && s.calls <= config.maxCalls && |s.requests| <= s.calls
    ensures var end := RunSession(config, s, world, i).session;
            |end.requests| <= end.calls <= config.maxCalls
    decreases config.maxCalls - s.calls
  {
    hide Iterate;
    if s.calls < config.maxCalls && Iterate(config, s, world(i)).Continue? {
      CallsStayInBudget(config, Iterate(config, s, world(i)).session, world, i + 1);
    }
  }

  /** How many more failed calls the session can take: the circuit opens after three in a row, and the
      one overflow recovery closes it once. */
  function FailuresLeft(s: Session): (n: int)
  {
    (if s.overflowUsed then 0 else FAILURE_CIRCUIT) + FAILURE_CIRCUIT - s.streak
  }

  /** A provider that only fails ends the session within six calls. */
  lemma {:induction false} FailingProviderEndsTheSession(config: Config, s: Session, world: nat -> Turn, i: nat)
    requires s.messages != [] && s.streak < FAILURE_CIRCUIT && forall k :: world(k).reply.Failed?
    ensures RunSession(config, s, world, i).session.calls <= s.calls + FailuresLeft(s)
    decreases config.maxCalls - s.calls
  {
    hide Iterate;
    if s.calls < config.maxCalls {
      FailuresAreUsedUp(config, s, world(i));
      var next := Iterate(config, s, world(i));
      if next.Continue? {
        FailingProviderEndsTheSession(config, next.session, world, i + 1);
      }
    }
  }

  lemma FailuresAreUsedUp(config: Config, s: Session, turn: Turn)
    requires s.messages != [] && s.streak < FAILURE_CIRCUIT && turn.reply.Failed?
    ensures Iterate(config, s, turn).Continue? ==>
              var t := Iterate(config, s, turn).session; t.streak < FAILURE_CIRCUIT && FailuresLeft(t) < FailuresLeft(s)
  {
    hide Prepared;
    hide Prelude;
    hide Recovered;
    hide Users;
  }

  /** Unless it is compacted or edited, a history only ever grows, so a provider's cache of it holds. */
  lemma HistoryOnlyGrows(config: Config, s: Session, turn: Turn)
    requires s.messages != [] && !turn.expired && turn.compaction.None?
    requires config.fits(Prelude(config, s, turn).messages)
    requires turn.reply.Answer? && Iterate(config, s, turn).Continue?
    requires BatchRecords(config, turn.reply.calls, turn.batch).Some? ==>
               RequestedSummary(turn.reply.calls, BatchRecords(config, turn.reply.calls, turn.batch).value).None?
    ensures var t := Iterate(config, s, turn).session;
            && |t.requests| == |s.requests| + 1
            && s.messages <= t.requests[|s.requests|] <= t.messages
            && |t.messages| > |t.requests[|s.requests|]|
            && t.messages[|t.requests[|s.requests|]|] == Assistant(turn.reply.content, turn.reply.calls)
  {
    hide BatchRecords;
    hide RequestedSummary;
    PreludeOnlyAppends(config, s, turn);
  }

  lemma PreludeOnlyAppends(config: Config, s: Session, turn: Turn)
    requires s.messages != [] && turn.compaction.None?
    ensures s.messages <= Prelude(config, s, turn).messages
  {}

  /** Once a terminal tool has finished the session, no later call of its turn runs. */
  lemma {:induction false} NothingRunsAfterATerminalTool(calls: seq<Call>, batch: Batch, i: nat, seen: bool, done: nat,
                                                         k: nat)
    requires i <= done < k < |calls| && SerialRecords(calls, batch, i, seen).Some?
    requires calls[done].name == TERMINAL_TOOL && batch.finishedAfter(done)
    ensures SerialRecords(calls, batch, i, seen).value[k - i] in {TERMINAL_SEEN, SKIPPED}
    decreases |calls| - i
  {
    if !(i > 0 && batch.interruptBefore(i)) {
      var next := seen || (calls[i].name == TERMINAL_TOOL && batch.finishedAfter(i));
      if i < done {
        NothingRunsAfterATerminalTool(calls, batch, i + 1, next, done, k);
      } else {
        SeenStaysSeen(calls, batch, i + 1, k);
      }
    }
  }

  lemma {:induction false} SeenStaysSeen(calls: seq<Call>, batch: Batch, i: nat, k: nat)
    requires i <= k < |calls| && SerialRecords(calls, batch, i, true).Some?
    ensures SerialRecords(calls, batch, i, true).value[k - i] in {TERMINAL_SEEN, SKIPPED}
    decreases |calls| - i
  {
    if !(i > 0 && batch.interruptBefore(i)) && i < k {
      SeenStaysSeen(calls, batch, i + 1, k);
    }
  }

  class Runner {
    const config: Config
    var messages: seq<Message>
    var llmCalls: nat
    var overflowRecoveryUsed: bool
    var malformedReissueUsed: bool
    var failureStreak: nat
    var contextNoticeSent: bool
    var wrapUpSent: bool
    var compactedThroughCall: nat
    var requests: seq<seq<Message>>

    function View(): (s: Session)
      reads this
    {
      Session(messages, llmCalls, overflowRecoveryUsed, malformedReissueUsed, failureStreak,
              contextNoticeSent, wrapUpSent, compactedThroughCall, requests)
    }

    constructor (config: Config, prompt: string, preamble: seq<Message>, instruction: string)
      ensures this.config == config && View() == Opening(prompt, preamble, instruction)
    {
      this.config := config;
      messages := [System(prompt)] + preamble + [User(instruction, false)];
      llmCalls, failureStreak, compactedThroughCall := 0, 0, 0;
      overflowRecoveryUsed, malformedReissueUsed, contextNoticeSent, wrapUpSent := false, false, false, false;
      requests := [];
    }

    /** The conversation loop. */
    method Run(world: nat -> Turn) returns (reason: Reason)
      requires messages != [] && forall i :: BatchesComplete(world(i))
      modifies this
      ensures Ended(View(), reason) == RunSession(config, old(View()), world, 0)
    {
      var i: nat := 0;
      while llmCalls < config.maxCalls
        invariant messages != []
        invariant RunSession(config, old(View()), world, 0) == RunSession(config, View(), world, i)
        decreases config.maxCalls - llmCalls
      {
        var turn := world(i);
        ghost var start := View();
        i := i + 1;
        var ended := Iteration(turn);
        if ended.Some? {
          return ended.value;
        }
      }
      return CallBudget;
    }

    /** One pass of the loop body; a reason ends the session. */
    method Iteration(turn: Turn) returns (ended: Option<Reason>)
      requires messages != [] && BatchesComplete(turn)
      modifies this
      ensures match Iterate(config, old(View()), turn)
              case Continue(t) => ended.None? && View() == t
              case Ended(t, reason) => ended == Some(reason) && View() == t
    {
      hide AfterFailure;
      hide AfterAnswer;
      hide Prepared;
      hide Prelude;
      if turn.expired {
        return Some(Deadline);
      }
      BeforeRequest(turn);
      var ready := PrepareContextRequest(turn);
      if !ready {
        ended := Fail(turn.unprepared, "request does not fit", turn);
        return;
      }
      requests := requests + [messages];
      match turn.reply
      case Failed(failure, error) =>
        ended := Fail(failure, error, turn);
      case Answer(content, calls, truncated, waiting) =>
        ended := TakeAnswer(content, calls, truncated, waiting, turn);
    }

    method BeforeRequest(turn: Turn)
      requires messages != []
      modifies this
      ensures View() == Prelude(config, old(View()), turn)
    {
      hide Compacted;
      hide Users;
      if !wrapUpSent && turn.wrapUpDue {
        Say(["wrap up"]);
        wrapUpSent := true;
      }
      if !wrapUpSent {
        Say(Optional(turn.timeNotice));
      }
      assert View() == Notices(old(View()), turn);
      var _ := CompactIfNeeded(turn.compaction);
      if !contextNoticeSent && turn.contextNotice.Some? {
        contextNoticeSent := true;
        Say([turn.contextNotice.value]);
      }
      Say(turn.reports);
      Say(turn.inbox);
    }

    method Say(texts: seq<string>)
      modifies this`messages
      ensures View() == AppendUsers(old(View()), texts)
    {
      messages := messages + Users(texts);
    }

    method CompactIfNeeded(summary: Option<string>) returns (progressed: bool)
      requires messages != []
      modifies this
      ensures (View(), progressed) == Compacted(config, old(View()), summary)
    {
      progressed := false;
      if summary.Some? {
        var rebuilt := Rebuild(messages, summary.value, config.keepRecent);
        if rebuilt != messages {
          messages := rebuilt;
          RecordCompaction();
          progressed := true;
        }
      }
    }

    method RecordCompaction()
      modifies this`compactedThroughCall, this`contextNoticeSent
      ensures compactedThroughCall == llmCalls && !contextNoticeSent
    {
      compactedThroughCall := llmCalls;
      contextNoticeSent := false;
    }

    method PrepareContextRequest(turn: Turn) returns (ready: bool)
      requires messages != []
      modifies this
      ensures (View(), ready) == Prepared(config, old(View()), turn)
    {
      if config.fits(messages) {
        return true;
      }
      var before := messages;
      var _ := CompactIfNeeded(turn.forced);
      if config.fits(messages) {
        return true;
      }
      var edited, _, _ := FitToolResults(messages, config.fits, config.shrink, config.spill, false);
      if config.fits(edited) || turn.clampable {
        messages := edited;
        return true;
      }
      messages := before;
      return false;
    }

    method RecoverContextOverflow(summary: Option<string>) returns (progressed: bool)
      requires messages != []
      modifies this
      ensures (View(), progressed) == Recovered(config, old(View()), summary)
    {
      var compacted := CompactIfNeeded(summary);
      var edited, summarized, _ := FitToolResults(messages, config.fits, config.shrink, config.spill, !compacted);
      messages := edited;
      progressed := compacted || summarized > 0;
    }

    method Fail(failure: Failure, error: string, turn: Turn) returns (ended: Option<Reason>)
      requires messages != []
      modifies this
      ensures match AfterFailure(config, old(View()), failure, error, turn)
              case Continue(t) => ended.None? && View() == t
              case Ended(t, reason) => ended == Some(reason) && View() == t
    {
      hide Recovered;
      hide Compacted;
      hide Users;
      hide ProtocolValid;
      llmCalls := llmCalls + 1;
      failureStreak := failureStreak + 1;
      if failure.Overflow? {
        if !overflowRecoveryUsed {
          var progressed := RecoverContextOverflow(turn.recovery);
          if progressed {
            overflowRecoveryUsed := true;
            failureStreak := 0;
            return None;
          }
        }
        return Some(Fatal);
      }
      if failure.Ending? {
        return Some(Fatal);
      }
      if failureStreak >= FAILURE_CIRCUIT {
        return Some(Fatal);
      }
      if failure.Malformed? && !malformedReissueUsed {
        malformedReissueUsed := true;
        if failure.partial != "" {
          messages := messages + [Assistant(failure.partial, [])];
        }
        Say([error]);
        return None;
      }
      Say([error]);
      return None;
    }

    method TakeAnswer(content: string, calls: seq<Call>, truncated: bool, waiting: bool,
                      turn: Turn) returns (ended: Option<Reason>)
      requires messages != [] && CompletesAll(turn.batch.completion, |calls|)
      modifies this
      ensures match AfterAnswer(config, old(View()), content, calls, truncated, waiting, turn)
              case Continue(t) => ended.None? && View() == t
              case Ended(t, reason) => ended == Some(reason) && View() == t
    {
      hide Users;
      hide SerialRecords;
      hide ParallelBatch;
      hide AfterTools;
      llmCalls := llmCalls + 1;
      failureStreak := 0;
      malformedReissueUsed := false;
      messages := messages + [Assistant(content, calls)];
      if calls == [] {
        if truncated {
          Say(["output truncated"]);
          return None;
        }
        if waiting {
          return None;
        }
        Say(["no tool call"]);
        Say(turn.inboxAfterReply);
        return None;
      }
      var records: Option<seq<Record>>;
      if turn.batch.interruptFirst {
        records := Some(Skipped(|calls|));
      } else {
        records := DispatchToolCalls(calls, turn.batch);
      }
      if records.None? {
        return Some(ToolInterrupt);
      }
      ended := TakeTools(calls, records.value, turn);
    }

    method AnswerCalls(calls: seq<Call>, records: seq<Record>)
      requires |records| == |calls|
      modifies this`messages
      ensures messages == old(messages) + ToolResults(calls, Contents(records))
    {
      ghost var results := ToolResults(calls, Contents(records));
      for k := 0 to |calls|
        invariant messages == old(messages) + results[..k]
      {
        messages := messages + [Tool(records[k].content, calls[k].id)];
        assert results[..k + 1] == results[..k] + [Tool(records[k].content, calls[k].id)];
      }
      assert results[..|calls|] == results;
    }

    method TakeTools(calls: seq<Call>, records: seq<Record>, turn: Turn) returns (ended: Option<Reason>)
      requires messages != [] && |records| == |calls|
      modifies this
      ensures match AfterTools(config, old(View()), calls, records, turn)
              case Continue(t) => ended.None? && View() == t
              case Ended(t, reason) => ended == Some(reason) && View() == t
    {
      hide Rebuild;
      hide Users;
      hide RequestedSummary;
      hide ToolResults;
      hide Contents;
      AnswerCalls(calls, records);
      var summary := RequestedSummary(calls, records);
      if summary.Some? {
        if summary.value == "" {
          return Some(BlankSummary);
        }
        messages := Rebuild(messages, summary.value, config.keepRecent);
        RecordCompaction();
      }
      if turn.batch.finished {
        return Some(Finished);
      }
      Say(turn.inboxAfterTools);
      return None;
    }

    method DispatchToolCalls(calls: seq<Call>, batch: Batch) returns (records: Option<seq<Record>>)
      requires !batch.interruptFirst && CompletesAll(batch.completion, |calls|)
      ensures records == BatchRecords(config, calls, batch)
    {
      if ParallelBatch(config, calls) {
        records := DispatchParallel(calls, batch);
      } else {
        records := DispatchSerial(calls, batch);
      }
    }

    method DispatchSerial(calls: seq<Call>, batch: Batch) returns (records: Option<seq<Record>>)
      ensures records == SerialRecords(calls, batch, 0, false)
    {
      ghost var all := SerialRecords(calls, batch, 0, false);
      var results: seq<Record> := [];
      var terminalSeen := false;
      for i := 0 to |calls|
        invariant |results| == i && Continues(all, results, SerialRecords(calls, batch, i, terminalSeen))
      {
        if i > 0 && batch.interruptBefore(i) {
          results := results + Skipped(|calls| - i);
          return Some(results);
        }
        var record := TERMINAL_SEEN;
        if !terminalSeen {
          var ran := batch.run(i);
          if !ran.Returned? {
            return None;
          }
          record := ran.record;
        }
        ContinuesWith(all, results, record, SerialRecords(calls, batch, i, terminalSeen));
        results := results + [record];
        if !terminalSeen && calls[i].name == TERMINAL_TOOL && batch.finishedAfter(i) {
          terminalSeen := true;
        }
      }
      assert results + [] == results;
      return Some(results);
    }
  }

  /** The records so far and those still to come make up all of them. */
  predicate Continues(all: Option<seq<Record>>, soFar: seq<Record>, rest: Option<seq<Record>>)
  {
    if rest.None? then all.None? else all.Some? && all.value == soFar + rest.value
  }

  lemma ContinuesWith(all: Option<seq<Record>>, soFar: seq<Record>, record: Record, rest: Option<seq<Record>>)
    requires Continues(all, soFar, rest) && (rest.Some? ==> rest.value != [] && rest.value[0] == record)
    ensures Continues(all, soFar + [record], if rest.None? then None else Some(rest.value[1..]))
  {
    if rest.Some? {
      assert soFar + rest.value == soFar + [record] + rest.value[1..];
    }
  }

  /** The batch's futures complete in some order, each of them. */
  predicate CompletesAll(completion: seq<nat>, n: nat)
  {
    (forall k :: 0 <= k < |completion| ==> completion[k] < n) && forall i :: 0 <= i < n ==> i in completion
  }

  predicate BatchesComplete(turn: Turn)
  {
    turn.reply.Answer? ==> CompletesAll(turn.batch.completion, |turn.reply.calls|)
  }

  /** Side by side: each result goes to its own call's slot, in whatever order the calls complete. */
  method DispatchParallel(calls: seq<Call>, batch: Batch) returns (records: Option<seq<Record>>)
    requires CompletesAll(batch.completion, |calls|)
    ensures records == ParallelRecords(calls, batch)
  {
    var slots := new Option<Record>[|calls|](_ => None);
    var interrupted := false;
    for k := 0 to |batch.completion|
      invariant interrupted <==> exists j :: 0 <= j < k && batch.run(batch.completion[j]).Interrupted?
      invariant forall i :: 0 <= i < |calls| && i in batch.completion[..k] && !batch.run(i).Interrupted? ==>
                  slots[i] == Some(RecordOf(batch.run(i)))
    {
      var index := batch.completion[k];
      var ran := batch.run(index);
      if ran.Interrupted? {
        interrupted := true;
      } else {
        slots[index] := Some(RecordOf(ran));
      }
      assert batch.completion[..k + 1] == batch.completion[..k] + [index];
    }
    assert batch.completion[..|batch.completion|] == batch.completion;
    if interrupted {
      var j :| 0 <= j < |batch.completion| && batch.run(batch.completion[j]).Interrupted?;
      return None;
    }
    forall i | 0 <= i < |calls|
      ensures i in batch.completion && !batch.run(i).Interrupted?
    {
      assert i in batch.completion;
      var k :| 0 <= k < |batch.completion| && batch.completion[k] == i;
    }
    var results := [];
    for i := 0 to |calls|
      invariant |results| == i && forall j :: 0 <= j < i ==> results[j] == RecordOf(batch.run(j))
    {
      if slots[i].Some? {
        results := results + [slots[i].value];
      }
    }
    assert results == ParallelRecords(calls, batch).value;
    return Some(results);
  }
}
