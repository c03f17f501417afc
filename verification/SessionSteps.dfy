/** One agent session as a state machine. What the model, the tools, the clock and the user do is the
    world's choice, turn by turn; what the session does with it is computed here. */
module SessionSteps {
  import opened Options
  import opened Conversation
  import opened ToolFitting

  const FAILURE_CIRCUIT := 3
  const TERMINAL_TOOL := "test"
  const COMPACT_TOOL := "compact"

  datatype Config = Config(
    maxCalls: nat, keepRecent: nat, fits: FitTest, shrink: Shrinker, spill: Option<Shrinker>, sequential: string -> bool
  ) {
    ghost predicate Valid() { Sound(shrink, spill) }
  }

  datatype Session = Session(
    messages: seq<Message>,
    calls: nat,
    overflowUsed: bool,
    reissueUsed: bool,
    streak: nat,
    noticeSent: bool,
    wrapUpSent: bool,
    compactedThrough: nat,
    requests: seq<seq<Message>>
  )

  // ---- the world ----

  datatype Record = Record(content: string, ok: bool)

  // One tool call: it returned a record, it failed, or the user interrupted the session inside it.
  datatype Ran = Returned(record: Record) | Broke(error: string) | Interrupted

  datatype Batch = Batch(
    interruptFirst: bool, interruptBefore: nat -> bool, run: nat -> Ran, finishedAfter: nat -> bool,
    completion: seq<nat>, finished: bool
  )

  datatype Failure = Overflow | Ending | Malformed(partial: string) | Transient

  datatype Reply =
    | Answer(content: string, calls: seq<Call>, truncated: bool, waiting: bool)
    | Failed(failure: Failure, error: string)

  // A compaction summary is None when no compaction happens, or when it fails and is only recorded.
  datatype Turn = Turn(
    expired: bool, wrapUpDue: bool, timeNotice: Option<string>, compaction: Option<string>,
        contextNotice: Option<string>,
    reports: seq<string>, inbox: seq<string>,
    forced: Option<string>, clampable: bool, unprepared: Failure,
    reply: Reply, recovery: Option<string>, batch: Batch,
    inboxAfterReply: seq<string>, inboxAfterTools: seq<string>
  )

  datatype Reason = Deadline | Fatal | ToolInterrupt | BlankSummary | Finished | CallBudget

  datatype Next = Continue(session: Session) | Ended(session: Session, reason: Reason)

  // ---- before a request ----

  predicate SameCounters(t: Session, s: Session)
  {
    t.calls == s.calls && t.requests == s.requests && t.streak == s.streak
    && t.overflowUsed == s.overflowUsed && t.reissueUsed == s.reissueUsed
  }

  function AppendUsers(s: Session, texts: seq<string>): (t: Session)
  {
    s.(messages := s.messages + Users(texts))
  }

  function Users(texts: seq<string>): (users: seq<Message>)
    ensures |users| == |texts| && forall i :: 0 <= i < |texts| ==> users[i] == User(texts[i], false)
  {
    seq(|texts|, i requires 0 <= i < |texts| => User(texts[i], false))
  }

  function Optional(text: Option<string>): (texts: seq<string>)
  {
    if text.None? then [] else [text.value]
  }

  /** A runtime compaction, and whether it changed the history. */
  function Compacted(config: Config, s: Session, summary: Option<string>): (t: (Session, bool))
    requires s.messages != []
    ensures t.0.messages != [] && SameCounters(t.0, s)
  {
    if summary.None? then (s, false)
    else
      var rebuilt := Rebuild(s.messages, summary.value, config.keepRecent);
      if rebuilt == s.messages then (s, false)
      else (s.(messages := rebuilt, compactedThrough := s.calls, noticeSent := false), true)
  }

  function Notices(s: Session, turn: Turn): (t: Session)
    ensures s.messages != [] ==> t.messages != []
    ensures SameCounters(t, s)
  {
    var wrapped := if !s.wrapUpSent && turn.wrapUpDue then AppendUsers(s, ["wrap up"]).(wrapUpSent := true) else s;
    if wrapped.wrapUpSent then wrapped else AppendUsers(wrapped, Optional(turn.timeNotice))
  }

  function ContextNotice(s: Session, turn: Turn): (t: Session)
  {
    if s.noticeSent || turn.contextNotice.None? then s
    else AppendUsers(s, [turn.contextNotice.value]).(noticeSent := true)
  }

  function Prelude(config: Config, s: Session, turn: Turn): (t: Session)
    requires s.messages != []
    ensures t.messages != [] && SameCounters(t, s)
  {
    var compacted := Compacted(config, Notices(s, turn), turn.compaction).0;
    AppendUsers(AppendUsers(ContextNotice(compacted, turn), turn.reports), turn.inbox)
  }

  /** The request to send, if one can be made to fit; otherwise the history stays as it was. */
  function Prepared(config: Config, s: Session, turn: Turn): (t: (Session, bool))
    requires s.messages != []
    ensures t.0.messages != [] && SameCounters(t.0, s)
  {
    if config.fits(s.messages) then (s, true)
    else
      var compacted := Compacted(config, s, turn.forced).0;
      if config.fits(compacted.messages) then (compacted, true)
      else
        var edited := Fit(compacted.messages, config.fits, config.shrink, config.spill, false).messages;
        if config.fits(edited) || turn.clampable then (compacted.(messages := edited), true)
        else (compacted.(messages := s.messages), false)
  }

  // ---- after a failure ----

  function Recovered(config: Config, s: Session, summary: Option<string>): (t: (Session, bool))
    requires s.messages != []
    ensures t.0.messages != [] && SameCounters(t.0, s)
  {
    var compacted := Compacted(config, s, summary);
    var fitted := Fit(compacted.0.messages, config.fits, config.shrink, config.spill, !compacted.1);
    (compacted.0.(messages := fitted.messages), compacted.1 || fitted.summarized > 0)
  }

  function AfterFailure(config: Config, s: Session, failure: Failure, error: string, turn: Turn): (next: Next)
    requires s.messages != []
    ensures next.session.messages != [] && next.session.calls == s.calls + 1 && next.session.requests == s.requests
  {
    var t := s.(calls := s.calls + 1, streak := s.streak + 1);
    if failure.Overflow? then
      if t.overflowUsed then Ended(t, Fatal)
      else
        var recovered := Recovered(config, t, turn.recovery);
        if recovered.1 then Continue(recovered.0.(overflowUsed := true, streak := 0)) else Ended(recovered.0, Fatal)
    else if failure.Ending? || t.streak >= FAILURE_CIRCUIT then Ended(t, Fatal)
    else if failure.Malformed? && !t.reissueUsed then
      Continue(AppendUsers(WithPartial(t, failure.partial).(reissueUsed := true), [error]))
    else Continue(AppendUsers(t, [error]))
  }

  /** The text of a turn whose tool call was malformed is kept as its own message, without calls. */
  function WithPartial(s: Session, partial: string): (t: Session)
  {
    if partial == "" then s else s.(messages := s.messages + [Assistant(partial, [])])
  }

  // ---- after an answer ----

  predicate ParallelBatch(config: Config, calls: seq<Call>)
  {
    |calls| > 1 && forall i :: 0 <= i < |calls| ==> !config.sequential(calls[i].name)
  }

  const SKIPPED := Record("interrupted by user", false)
  const TERMINAL_SEEN := Record("terminal tool already called in this assistant turn", false)

  function Skipped(n: nat): (records: seq<Record>)
    ensures |records| == n && forall i :: 0 <= i < n ==> records[i] == SKIPPED
  {
    seq(n, _ => SKIPPED)
  }

  /** Calls run in order: an interrupt between two skips the rest, and nothing runs after a terminal tool. */
  function SerialRecords(calls: seq<Call>, batch: Batch, i: nat, terminalSeen: bool): (records: Option<seq<Record>>)
    requires i <= |calls|
    ensures records.Some? ==> |records.value| == |calls| - i
    decreases |calls| - i
  {
    if i == |calls| then Some([])
    else if i > 0 && batch.interruptBefore(i) then Some(Skipped(|calls| - i))
    else
      var ran := if terminalSeen then Returned(TERMINAL_SEEN) else batch.run(i);
      if !ran.Returned? then None
      else
        var seen := terminalSeen || (calls[i].name == TERMINAL_TOOL && batch.finishedAfter(i));
        match SerialRecords(calls, batch, i + 1, seen)
        case None => None
        case Some(rest) => Some([ran.record] + rest)
  }

  function RecordOf(ran: Ran): (record: Record)
  {
    match ran
    case Returned(record) => record
    case Broke(error) => Record(error, false)
    case Interrupted => SKIPPED
  }

  /** Calls run side by side: one that breaks becomes its own error, one that is interrupted ends all. */
  function ParallelRecords(calls: seq<Call>, batch: Batch): (records: Option<seq<Record>>)
    ensures records.Some? ==> |records.value| == |calls|
  {
    if exists i :: 0 <= i < |calls| && batch.run(i).Interrupted? then None
    else Some(seq(|calls|, i requires 0 <= i < |calls| => RecordOf(batch.run(i))))
  }

  function BatchRecords(config: Config, calls: seq<Call>, batch: Batch): (records: Option<seq<Record>>)
    ensures records.Some? ==> |records.value| == |calls|
  {
    if batch.interruptFirst then Some(Skipped(|calls|))
    else if ParallelBatch(config, calls) then ParallelRecords(calls, batch)
    else SerialRecords(calls, batch, 0, false)
  }

  function Contents(records: seq<Record>): (contents: seq<string>)
    ensures |contents| == |records| && forall i :: 0 <= i < |records| ==> contents[i] == records[i].content
  {
    seq(|records|, i requires 0 <= i < |records| => records[i].content)
  }

  /** The summary of the last accepted compact call of a turn. */
  function RequestedSummary(calls: seq<Call>, records: seq<Record>): (summary: Option<string>)
    requires |records| == |calls|
  {
    if calls == [] then None
    else
      var n := |calls| - 1;
      if calls[n].name == COMPACT_TOOL && records[n].ok then Some(calls[n].summary)
      else RequestedSummary(calls[..n], records[..n])
  }

  function AfterTools(config: Config, s: Session, calls: seq<Call>, records: seq<Record>, turn: Turn): (next: Next)
    requires s.messages != [] && |records| == |calls|
    ensures next.session.messages != [] && next.session.calls == s.calls && next.session.requests == s.requests
  {
    var answered := s.(messages := s.messages + ToolResults(calls, Contents(records)));
    var summary := RequestedSummary(calls, records);
    if summary == Some("") then Ended(answered, BlankSummary)
    else
      var t := if summary.None? then answered
               else answered.(messages := Rebuild(answered.messages, summary.value, config.keepRecent),
                              compactedThrough := answered.calls, noticeSent := false);
      if turn.batch.finished then Ended(t, Finished) else Continue(AppendUsers(t, turn.inboxAfterTools))
  }

  function AfterAnswer(config: Config, s: Session, content: string, calls: seq<Call>, truncated: bool, waiting: bool,
                       turn: Turn): (next: Next)
    requires s.messages != []
    ensures next.session.messages != [] && next.session.calls == s.calls + 1 && next.session.requests == s.requests
  {
    var t := s.(calls := s.calls + 1, streak := 0, reissueUsed := false,
                messages := s.messages + [Assistant(content, calls)]);
    if calls == [] then
      if truncated then Continue(AppendUsers(t, ["output truncated"]))
      else if waiting then Continue(t)
      else Continue(AppendUsers(AppendUsers(t, ["no tool call"]), turn.inboxAfterReply))
    else match BatchRecords(config, calls, turn.batch)
      case None => Ended(t, ToolInterrupt)
      case Some(records) => AfterTools(config, t, calls, records, turn)
  }

  // ---- one iteration, and a whole session ----

  function Iterate(config: Config, s: Session, turn: Turn): (next: Next)
    requires s.messages != []
    ensures next.session.messages != [] && s.calls <= next.session.calls <= s.calls + 1
    ensures next.Continue? ==> next.session.calls == s.calls + 1
    ensures |next.session.requests| - |s.requests| <= next.session.calls - s.calls
  {
    if turn.expired then Ended(s, Deadline)
    else
      var prepared := Prepared(config, Prelude(config, s, turn), turn);
      if !prepared.1 then AfterFailure(config, prepared.0, turn.unprepared, "request does not fit", turn)
      else
        var sent := prepared.0.(requests := prepared.0.requests + [prepared.0.messages]);
        match turn.reply
        case Failed(failure, error) => AfterFailure(config, sent, failure, error, turn)
        case Answer(content, calls, truncated, waiting) => AfterAnswer(config, sent, content, calls, truncated,
                waiting, turn)
  }

  function Opening(prompt: string, preamble: seq<Message>, instruction: string): (s: Session)
  {
    Session([System(prompt)] + preamble + [User(instruction, false)], 0, false, false, 0, false, false, 0, [])
  }

  // ---- what every step keeps ----

  ghost predicate AllValid(prompt: string, requests: seq<seq<Message>>)
  {
    forall i :: 0 <= i < |requests| ==> ProtocolValid(requests[i]) && requests[i][0] == System(prompt)
  }

  /** The session can send its history as it stands, and everything it has sent was valid. */
  ghost predicate Sendable(prompt: string, s: Session)
  {
    s.messages != [] && ProtocolValid(s.messages) && s.messages[0] == System(prompt) && AllValid(prompt, s.requests)
  }

  lemma {:induction false} AppendUsersKeepsSendable(prompt: string, s: Session, texts: seq<string>)
    requires Sendable(prompt, s)
    ensures Sendable(prompt, AppendUsers(s, texts))
    decreases |texts|
  {
    if texts == [] {
      assert s.messages + Users(texts) == s.messages;
    } else {
      var n := |texts| - 1;
      AppendUsersKeepsSendable(prompt, s, texts[..n]);
      AppendUser(s.messages + Users(texts[..n]), texts[n]);
      assert s.messages + Users(texts) == s.messages + Users(texts[..n]) + [User(texts[n], false)];
    }
  }

  lemma CompactedKeepsSendable(prompt: string, config: Config, s: Session, summary: Option<string>)
    requires Sendable(prompt, s)
    ensures Sendable(prompt, Compacted(config, s, summary).0)
  {
    if summary.Some? {
      RebuildKeepsTheProtocol(s.messages, summary.value, config.keepRecent);
    }
  }

  lemma PreludeKeepsSendable(prompt: string, config: Config, s: Session, turn: Turn)
    requires Sendable(prompt, s)
    ensures Sendable(prompt, Prelude(config, s, turn))
  {
    hide AppendUsers;
    hide Compacted;
    hide ProtocolValid;
    hide AllValid;
    AppendUsersKeepsSendable(prompt, s, ["wrap up"]);
    var wrapped := if !s.wrapUpSent && turn.wrapUpDue then AppendUsers(s, ["wrap up"]).(wrapUpSent := true) else s;
    AppendUsersKeepsSendable(prompt, wrapped, Optional(turn.timeNotice));
    CompactedKeepsSendable(prompt, config, Notices(s, turn), turn.compaction);
    var compacted := Compacted(config, Notices(s, turn), turn.compaction).0;
    if turn.contextNotice.Some? {
      AppendUsersKeepsSendable(prompt, compacted, [turn.contextNotice.value]);
    }
    AppendUsersKeepsSendable(prompt, ContextNotice(compacted, turn), turn.reports);
    AppendUsersKeepsSendable(prompt, AppendUsers(ContextNotice(compacted, turn), turn.reports), turn.inbox);
  }

  lemma EditedKeepsSendable(prompt: string, config: Config, s: Session, force: bool)
    requires Sendable(prompt, s) && config.Valid()
    ensures Sendable(prompt, s.(messages := Fit(s.messages, config.fits, config.shrink, config.spill, force).messages))
  {
    hide Fit;
    hide Tried;
    hide Scan;
    FittingIsSafe(s.messages, config.fits, config.shrink, config.spill, force);
    assert EditedAt(s.messages[0], Fit(s.messages, config.fits, config.shrink, config.spill, force).messages[0]);
  }

  lemma PreparedKeepsSendable(prompt: string, config: Config, s: Session, turn: Turn)
    requires Sendable(prompt, s) && config.Valid()
    ensures Sendable(prompt, Prepared(config, s, turn).0)
  {
    hide Fit;
    hide Compacted;
    hide ProtocolValid;
    CompactedKeepsSendable(prompt, config, s, turn.forced);
    EditedKeepsSendable(prompt, config, Compacted(config, s, turn.forced).0, false);
  }

  lemma FailureKeepsSendable(prompt: string, config: Config, s: Session, failure: Failure, error: string, turn: Turn)
    requires Sendable(prompt, s) && config.Valid()
    ensures Sendable(prompt, AfterFailure(config, s, failure, error, turn).session)
  {
    hide Fit;
    hide Compacted;
    hide ProtocolValid;
    hide AppendUsers;
    hide AllValid;
    var t := s.(calls := s.calls + 1, streak := s.streak + 1);
    CompactedKeepsSendable(prompt, config, t, turn.recovery);
    var compacted := Compacted(config, t, turn.recovery);
    EditedKeepsSendable(prompt, config, compacted.0, !compacted.1);
    AppendUsersKeepsSendable(prompt, t, [error]);
    if failure.Malformed? {
      PartialKeepsSendable(prompt, t, failure.partial);
      AppendUsersKeepsSendable(prompt, WithPartial(t, failure.partial).(reissueUsed := true), [error]);
    }
  }

  lemma PartialKeepsSendable(prompt: string, s: Session, partial: string)
    requires Sendable(prompt, s)
    ensures Sendable(prompt, WithPartial(s, partial))
  {
    AppendTurn(s.messages, partial, [], []);
    assert s.messages + [Assistant(partial, [])] + ToolResults([], []) == s.messages + [Assistant(partial, [])];
  }

  lemma AnswerKeepsSendable(prompt: string, config: Config, s: Session, content: string, calls: seq<Call>,
                            truncated: bool, waiting: bool, turn: Turn)
    requires Sendable(prompt, s)
    ensures AfterAnswer(config, s, content, calls, truncated, waiting, turn).Continue? ==>
              Sendable(prompt, AfterAnswer(config, s, content, calls, truncated, waiting, turn).session)
    ensures AllValid(prompt, AfterAnswer(config, s, content, calls, truncated, waiting, turn).session.requests)
  {
    hide ProtocolValid;
    hide AppendUsers;
    hide AllValid;
    hide BatchRecords;
    hide AfterTools;
    var t := s.(calls := s.calls + 1, streak := 0, reissueUsed := false,
                messages := s.messages + [Assistant(content, calls)]);
    if calls == [] {
      AppendTurn(s.messages, content, [], []);
      assert t.messages + ToolResults([], []) == t.messages;
      AppendUsersKeepsSendable(prompt, t, ["output truncated"]);
      AppendUsersKeepsSendable(prompt, t, ["no tool call"]);
      AppendUsersKeepsSendable(prompt, AppendUsers(t, ["no tool call"]), turn.inboxAfterReply);
    } else if BatchRecords(config, calls, turn.batch).Some? {
      var records := BatchRecords(config, calls, turn.batch).value;
      AppendTurn(s.messages, content, calls, Contents(records));
      ToolsKeepSendable(prompt, config, t, calls, records, turn);
    }
  }

  lemma ToolsKeepSendable(prompt: string, config: Config, s: Session, calls: seq<Call>, records: seq<Record>,
                          turn: Turn)
    requires |records| == |calls| && s.messages != [] && AllValid(prompt, s.requests)
    requires ProtocolValid(s.messages + ToolResults(calls, Contents(records))) && s.messages[0] == System(prompt)
    ensures AfterTools(config, s, calls, records, turn).Continue? ==>
              Sendable(prompt, AfterTools(config, s, calls, records, turn).session)
    ensures AllValid(prompt, AfterTools(config, s, calls, records, turn).session.requests)
  {
    hide ProtocolValid;
    hide AllValid;
    hide RequestedSummary;
    var answered := s.(messages := s.messages + ToolResults(calls, Contents(records)));
    var summary := RequestedSummary(calls, records);
    AppendUsersKeepsSendable(prompt, answered, turn.inboxAfterTools);
    if summary.Some? && summary.value != "" {
      RebuildKeepsTheProtocol(answered.messages, summary.value, config.keepRecent);
      AppendUsersKeepsSendable(prompt,
                               answered.(messages := Rebuild(answered.messages, summary.value, config.keepRecent),
                                                 compactedThrough := answered.calls, noticeSent := false),
                                                     turn.inboxAfterTools);
    }
  }

  /** Whatever the world does in one iteration, every request sent in it is valid and, if the session
      goes on, so is the history it goes on with. */
  lemma IterationsSendValidRequests(prompt: string, config: Config, s: Session, turn: Turn)
    requires Sendable(prompt, s) && config.Valid()
    ensures Iterate(config, s, turn).Continue? ==> Sendable(prompt, Iterate(config, s, turn).session)
    ensures AllValid(prompt, Iterate(config, s, turn).session.requests)
  {
    hide Prelude;
    hide Prepared;
    hide AfterFailure;
    hide AfterAnswer;
    hide ProtocolValid;
    if !turn.expired {
      PreludeKeepsSendable(prompt, config, s, turn);
      PreparedKeepsSendable(prompt, config, Prelude(config, s, turn), turn);
      var prepared := Prepared(config, Prelude(config, s, turn), turn);
      if !prepared.1 {
        FailureKeepsSendable(prompt, config, prepared.0, turn.unprepared, "request does not fit", turn);
      } else {
        var sent := prepared.0.(requests := prepared.0.requests + [prepared.0.messages]);
        assert AllValid(prompt, sent.requests);
        match turn.reply
        case Failed(failure, error) => FailureKeepsSendable(prompt, config, sent, failure, error, turn);
        case Answer(content, calls, truncated, waiting) =>
          AnswerKeepsSendable(prompt, config, sent, content, calls, truncated, waiting, turn);
      }
    }
  }
}
