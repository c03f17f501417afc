/** Why and when a session ends, what it says, and what it records, in the words of the world's turns. */
module SessionEnds {
  import opened Options
  import opened Conversation
  import opened ToolFitting
  import opened SessionSteps
  import opened AgentSession

  // ---- a batch of tool calls ----

  /** Run in order, call `i` is reached: no interrupt came between two calls before it, and every call before it
      returned without finishing the session. */
  predicate Reached(calls: seq<Call>, batch: Batch, i: nat)
    requires i < |calls|
  {
    && (forall j :: 0 < j <= i ==> !batch.interruptBefore(j))
    && (forall j :: 0 <= j < i ==> !FinishesAt(calls, batch, j))
    && (forall j :: 0 <= j < i ==> batch.run(j).Returned?)
  }

  predicate FinishesAt(calls: seq<Call>, batch: Batch, j: nat)
    requires j < |calls|
  {
    calls[j].name == TERMINAL_TOOL && batch.finishedAfter(j)
  }

  /** Calls run side by side: several of them, none of a tool that must run in sequence. */
  predicate SideBySide(config: Config, calls: seq<Call>)
  {
    |calls| >= 2 && forall call :: call in calls ==> !config.sequential(call.name)
  }

  /** The user's interrupt, or in a serial batch an exception, escapes the batch. */
  ghost predicate Escapes(config: Config, calls: seq<Call>, batch: Batch)
  {
    && !batch.interruptFirst
    && if SideBySide(config, calls) then exists i :: 0 <= i < |calls| && batch.run(i).Interrupted?
       else exists i :: 0 <= i < |calls| && Reached(calls, batch, i) && !batch.run(i).Returned?
  }

  /** What call `k` of a serial batch is recorded as, if nothing escapes: an interrupt skips it and all after it,
      a finished session refuses it, and otherwise it is what its tool returned. */
  ghost predicate SerialRecordAt(calls: seq<Call>, batch: Batch, k: nat, record: Record)
    requires k < |calls|
  {
    if exists j :: 0 < j <= k && batch.interruptBefore(j) then record == SKIPPED
    else if exists j :: 0 <= j < k && FinishesAt(calls, batch, j) then record == TERMINAL_SEEN
    else batch.run(k) == Returned(record)
  }

  lemma {:induction false} SerialFrom(calls: seq<Call>, batch: Batch, i: nat, seen: bool)
    requires i <= |calls|
    requires forall j :: 0 < j < i ==> !batch.interruptBefore(j)
    requires seen <==> exists j :: 0 <= j < i && FinishesAt(calls, batch, j)
    requires !seen ==> forall j :: 0 <= j < i ==> batch.run(j).Returned?
    ensures var records := SerialRecords(calls, batch, i, seen);
            && (records.None? <==> exists k :: i <= k < |calls| && Reached(calls, batch, k) && !batch.run(k).Returned?)
            && (records.Some? ==>
                  && |records.value| == |calls| - i
                  && forall m :: 0 <= m < |records.value| ==> SerialRecordAt(calls, batch, i + m, records.value[m]))
    decreases |calls| - i
  {
    if i == |calls| {
    } else if i > 0 && batch.interruptBefore(i) {
    } else {
      var next := seen || FinishesAt(calls, batch, i);
      var ran := if seen then Returned(TERMINAL_SEEN) else batch.run(i);
      if !ran.Returned? {
        assert Reached(calls, batch, i);
      } else {
        SerialFrom(calls, batch, i + 1, next);
        var rest := SerialRecords(calls, batch, i + 1, next);
        if rest.Some? {
          assert SerialRecordAt(calls, batch, i, ran.record) by {
            assert forall j :: 0 < j <= i ==> !batch.interruptBefore(j);
          }
          hide SerialRecordAt;
          hide FinishesAt;
          hide Reached;
          var records := [ran.record] + rest.value;
          forall m | 0 <= m < |records|
            ensures SerialRecordAt(calls, batch, i + m, records[m])
          {
            if m > 0 {
              assert records[m] == rest.value[m - 1] && i + 1 + (m - 1) == i + m;
            }
          }
        }
      }
    }
  }

  /** A batch comes back exactly unless something escapes it, and then each call's record is its own. */
  lemma BatchesRecordTheirCalls(config: Config, calls: seq<Call>, batch: Batch)
    ensures var records := BatchRecords(config, calls, batch);
            && (records.None? <==> Escapes(config, calls, batch))
            && (records.Some? ==>
                  forall k :: 0 <= k < |calls| ==>
                    var record := records.value[k];
                    if batch.interruptFirst then record == SKIPPED
                    else if SideBySide(config, calls) then
                      || batch.run(k) == Returned(record)
                      || (batch.run(k).Broke? && record == Record(batch.run(k).error, false))
                    else SerialRecordAt(calls, batch, k, record))
  {
    SerialFrom(calls, batch, 0, false);
    var records := BatchRecords(config, calls, batch);
    if records.Some? && !batch.interruptFirst && !ParallelBatch(config, calls) {
      forall k | 0 <= k < |calls|
        ensures SerialRecordAt(calls, batch, k, records.value[k])
      {
        assert 0 + k == k;
      }
    }
  }

  // ---- one iteration ----

  /** The last accepted compact call of the turn has this summary. */
  ghost predicate LastSummary(calls: seq<Call>, records: seq<Record>, summary: string)
    requires |records| == |calls|
  {
    exists i :: 0 <= i < |calls| && Summarizes(calls, records, i) && calls[i].summary == summary
                && forall j :: i < j < |calls| ==> !Summarizes(calls, records, j)
  }

  predicate Summarizes(calls: seq<Call>, records: seq<Record>, i: nat)
    requires i < |calls| == |records|
  {
    calls[i].name == COMPACT_TOOL && records[i].ok
  }

  lemma {:induction false} TheLastSummaryCounts(calls: seq<Call>, records: seq<Record>, text: string)
    requires |records| == |calls|
    ensures RequestedSummary(calls, records) == Some(text) <==> LastSummary(calls, records, text)
  {
    if calls == [] {
    } else {
      var n := |calls| - 1;
      TheLastSummaryCounts(calls[..n], records[..n], text);
      if Summarizes(calls, records, n) {
      } else {
        if LastSummary(calls[..n], records[..n], text) {
          var i :| 0 <= i < n && Summarizes(calls[..n], records[..n], i) && calls[..n][i].summary == text
                   && forall j :: i < j < n ==> !Summarizes(calls[..n], records[..n], j);
          forall j | i < j < |calls|
            ensures !Summarizes(calls, records, j)
          {
            assert j < n ==> !Summarizes(calls[..n], records[..n], j);
          }
          assert Summarizes(calls, records, i);
        }
        if LastSummary(calls, records, text) {
          var i :| 0 <= i < |calls| && Summarizes(calls, records, i) && calls[i].summary == text
                   && forall j :: i < j < |calls| ==> !Summarizes(calls, records, j);
          assert i < n && Summarizes(calls[..n], records[..n], i);
          forall j | i < j < n
            ensures !Summarizes(calls[..n], records[..n], j)
          {
            assert !Summarizes(calls, records, j);
          }
        }
      }
    }
  }

  /** The iteration sends its request. */
  ghost predicate Sends(config: Config, s: Session, turn: Turn)
    requires s.messages != []
  {
    |Iterate(config, s, turn).session.requests| > |s.requests|
  }

  /** Something can be taken off a history: by the compaction, or off a tool result. */
  ghost predicate CanShed(config: Config, ms: seq<Message>, summary: Option<string>)
    requires ms != []
  {
    || (summary.Some? && Rebuild(ms, summary.value, config.keepRecent) != ms)
    || exists i :: 0 <= i < |ms| && Eligible(ms[i]) && Shrinkable(ms[i], config.shrink)
  }

  /** A failed call ends the session: an overflow that was recovered from before or cannot be, a failure that always
      ends it, or any other that is the third in a row. */
  ghost predicate FailureEnds(config: Config, s: Session, ms: seq<Message>, failure: Failure, turn: Turn)
    requires ms != []
  {
    if failure.Overflow? then s.overflowUsed || !CanShed(config, ms, turn.recovery)
    else failure.Ending? || s.streak + 1 >= 3
  }

  /** An edit forced on a history shortens something exactly if some result can be shortened. */
  lemma ForcedEditsShedExactlyWhen(config: Config, ms: seq<Message>)
    requires config.Valid()
    ensures Fit(ms, config.fits, config.shrink, config.spill, true).summarized > 0 <==>
              exists i :: 0 <= i < |ms| && Eligible(ms[i]) && Shrinkable(ms[i], config.shrink)
  {
    var g, order := Fit(ms, config.fits, config.shrink, config.spill, true), Order(ms, |ms|);
    FittingIsSafe(ms, config.fits, config.shrink, config.spill, true);
    OrderIsLargestFirst(ms, |ms|);
    var k := FitWorksDownTheOrder(Fitted(ms, 0, 0), order, config.fits, config.shrink, config.spill, true);
    hide Fit;
    hide FitFrom;
    hide Order;
    if g.summarized == 0 {
      NothingShrinkable(ms, config.shrink, config.spill);
    } else {
      var i :| 0 <= i < |ms| && g.messages[i] != ms[i];
      var j :| 0 <= j < k && order[j] == i;
      assert Tried(ms, g.messages, order[j], config.shrink, config.spill);
    }
  }

  lemma RecoversExactlyWhen(config: Config, s: Session, summary: Option<string>)
    requires s.messages != [] && config.Valid()
    ensures Recovered(config, s, summary).1 <==> CanShed(config, s.messages, summary)
  {
    hide Fit;
    hide Rebuild;
    hide Eligible;
    hide Shrinkable;
    ForcedEditsShedExactlyWhen(config, s.messages);
  }

  lemma FailuresEndExactlyWhen(config: Config, s: Session, failure: Failure, error: string, turn: Turn)
    requires s.messages != [] && config.Valid()
    ensures var next := AfterFailure(config, s, failure, error, turn);
            && (next.Ended? <==> FailureEnds(config, s, s.messages, failure, turn))
            && (next.Ended? ==> next.reason == Fatal)
  {
    hide Recovered;
    hide CanShed;
    hide Users;
    var t := s.(calls := s.calls + 1, streak := s.streak + 1);
    RecoversExactlyWhen(config, t, turn.recovery);
  }

  /** An answer whose tool calls all came back, with their records. */
  ghost predicate ToolsAnswered(config: Config, s: Session, turn: Turn, records: seq<Record>)
    requires s.messages != []
  {
    && Sends(config, s, turn) && turn.reply.Answer? && turn.reply.calls != []
    && BatchRecords(config, turn.reply.calls, turn.batch) == Some(records)
  }

  /** Why an iteration ends its session, in the world's words. `sent` is the request it sent, or the history it could
      not send. */
  ghost predicate EndsFor(config: Config, s: Session, turn: Turn, sent: seq<Message>, reason: Reason)
    requires s.messages != [] && sent != []
  {
    var reply := turn.reply;
    match reason
    case Deadline => turn.expired
    case Fatal =>
      && !turn.expired
      && if !Sends(config, s, turn) then FailureEnds(config, s, sent, turn.unprepared, turn)
         else reply.Failed? && FailureEnds(config, s, sent, reply.failure, turn)
    case ToolInterrupt =>
      Sends(config, s, turn) && reply.Answer? && reply.calls != [] && Escapes(config, reply.calls, turn.batch)
    case BlankSummary =>
      exists records :: ToolsAnswered(config, s, turn, records) && LastSummary(reply.calls, records, "")
    case Finished =>
      && turn.batch.finished
      && exists records :: ToolsAnswered(config, s, turn, records) && !LastSummary(reply.calls, records, "")
    case CallBudget => false
  }

  /** What the iteration sends, or fails to. */
  function SentBy(config: Config, s: Session, turn: Turn): (sent: seq<Message>)
    requires s.messages != []
    ensures sent != []
  {
    Prepared(config, Prelude(config, s, turn), turn).0.messages
  }

  lemma SendingIsRecorded(config: Config, s: Session, turn: Turn)
    requires s.messages != []
    ensures var t := Iterate(config, s, turn).session;
            && (Sends(config, s, turn) <==> !turn.expired && Prepared(config, Prelude(config, s, turn), turn).1)
            && t.requests == s.requests + if Sends(config, s, turn) then [SentBy(config, s, turn)] else []
  {
    hide Prelude;
    hide Prepared;
    hide AfterFailure;
    hide AfterAnswer;
  }

  lemma IterationsEndExactlyWhen(config: Config, s: Session, turn: Turn, reason: Reason)
    requires s.messages != [] && config.Valid()
    ensures var next := Iterate(config, s, turn);
            next.Ended? && next.reason == reason <==> EndsFor(config, s, turn, SentBy(config, s, turn), reason)
  {
    hide Prelude;
    hide Prepared;
    hide CanShed;
    hide BatchRecords;
    hide LastSummary;
    hide Escapes;
    hide AfterFailure;
    hide AfterAnswer;
    SendingIsRecorded(config, s, turn);
    hide Sends;
    if !turn.expired {
      var prepared := Prepared(config, Prelude(config, s, turn), turn);
      var sent := prepared.0.(requests := prepared.0.requests + [prepared.0.messages]);
      FailuresEndExactlyWhen(config, prepared.0, turn.unprepared, "request does not fit", turn);
      match turn.reply
      case Failed(failure, error) => FailuresEndExactlyWhen(config, sent, failure, error, turn);
      case Answer(content, calls, truncated, waiting) =>
        AnswersEndExactlyWhen(config, sent, content, calls, truncated, waiting, turn);
    }
  }

  lemma AnswersEndExactlyWhen(config: Config, s: Session, content: string, calls: seq<Call>, truncated: bool,
                              waiting: bool, turn: Turn)
    requires s.messages != []
    ensures var next, records := AfterAnswer(config, s, content, calls, truncated, waiting, turn),
                                 BatchRecords(config, calls, turn.batch);
            && (calls == [] ==> next.Continue?)
            && (calls != [] && records.None? ==> next.Ended? && next.reason == ToolInterrupt)
            && (calls != [] && records.Some? ==>
                  var blank := LastSummary(calls, records.value, "");
                  && (next.Continue? <==> !blank && !turn.batch.finished)
                  && (next.Ended? ==> next.reason == if blank then BlankSummary else Finished))
            && (records.None? <==> Escapes(config, calls, turn.batch))
  {
    hide BatchRecords;
    hide Escapes;
    hide LastSummary;
    hide RequestedSummary;
    hide Rebuild;
    BatchesRecordTheirCalls(config, calls, turn.batch);
    var records := BatchRecords(config, calls, turn.batch);
    if records.Some? {
      TheLastSummaryCounts(calls, records.value, "");
    }
  }

  // ---- a whole session ----

  /** The session as it stands before its iteration number `k`; None if it ended before that. */
  ghost function StandsAt(config: Config, s: Session, world: nat -> Turn, i: nat, k: nat): (t: Option<Session>)
    requires s.messages != []
    ensures t.Some? ==> t.value.messages != []
    decreases k
  {
    if k == 0 then Some(s)
    else if s.calls >= config.maxCalls then None
    else match Iterate(config, s, world(i))
      case Ended(_, _) => None
      case Continue(t) => StandsAt(config, t, world, i + 1, k - 1)
  }

  /** It ends in iteration number `k`, and why: the budget is spent before it, or the world's turn ends it. */
  ghost predicate EndsAt(config: Config, s: Session, world: nat -> Turn, i: nat, k: nat, reason: Reason)
    requires s.messages != []
  {
    && StandsAt(config, s, world, i, k).Some?
    && var t := StandsAt(config, s, world, i, k).value;
       if t.calls >= config.maxCalls then reason == CallBudget
       else EndsFor(config, t, world(i + k), SentBy(config, t, world(i + k)), reason)
  }

  /** The requests sent once that iteration is over. */
  ghost function RequestsThrough(config: Config, s: Session, world: nat -> Turn, i: nat,
                                 k: nat): (requests: seq<seq<Message>>)
    requires s.messages != [] && StandsAt(config, s, world, i, k).Some?
  {
    var t := StandsAt(config, s, world, i, k).value;
    t.requests + if t.calls < config.maxCalls && Sends(config, t, world(i + k)) then [SentBy(config, t, world(i + k))]
                 else []
  }

  /** A session ends for a reason exactly when one of its iterations, as the world turned out, ends it for that
      reason, and no request follows that iteration. */
  lemma {:induction false} SessionsEndExactlyWhen(config: Config, s: Session, world: nat -> Turn, i: nat,
                                                  reason: Reason)
    requires s.messages != [] && config.Valid()
    ensures var end := RunSession(config, s, world, i);
            && (end.reason == reason <==> exists k: nat :: EndsAt(config, s, world, i, k, reason))
            && (forall k: nat :: EndsAt(config, s, world, i, k, reason) ==>
                  end.session.requests == RequestsThrough(config, s, world, i, k))
    decreases config.maxCalls - s.calls
  {
    hide Iterate;
    hide EndsFor;
    hide Sends;
    hide SentBy;
    assert StandsAt(config, s, world, i, 0) == Some(s) && i + 0 == i;
    if s.calls >= config.maxCalls {
      assert EndsAt(config, s, world, i, 0, reason) <==> reason == CallBudget;
    } else {
      IterationsEndExactlyWhen(config, s, world(i), reason);
      SendingIsRecorded(config, s, world(i));
      assert EndsAt(config, s, world, i, 0, reason) <==>
          EndsFor(config, s, world(i), SentBy(config, s, world(i)), reason);
      var next := Iterate(config, s, world(i));
      if next.Continue? {
        var t, n := next.session, i + 1;
        SessionsEndExactlyWhen(config, t, world, n, reason);
        forall k: nat | k > 0
          ensures StandsAt(config, s, world, i, k) == StandsAt(config, t, world, n, k - 1)
          ensures EndsAt(config, s, world, i, k, reason) <==> EndsAt(config, t, world, n, k - 1, reason)
        {
          assert i + k == n + (k - 1);
        }
        if j: nat :| EndsAt(config, t, world, n, j, reason) {
          assert EndsAt(config, s, world, i, j + 1, reason);
        }
      } else {
        assert forall k: nat :: k > 0 ==> StandsAt(config, s, world, i, k).None?;
      }
    }
  }

  // ---- what the session says ----

  /** Everything the world has to say before a request is said, in order and after any compaction: the wrap-up or the
      time notice, the notice about the context, the reports and the user's messages. */
  lemma NothingIsLeftUnsaid(config: Config, s: Session, turn: Turn)
    requires s.messages != []
    ensures var wrapUp := !s.wrapUpSent && turn.wrapUpDue;
            var opening := if wrapUp then ["wrap up"] else if s.wrapUpSent then [] else Optional(turn.timeNotice);
            var spoken := s.messages + Users(opening);
            var rebuilt := if turn.compaction.Some? then Rebuild(spoken, turn.compaction.value, config.keepRecent)
                           else spoken;
            var notice := if s.noticeSent && rebuilt == spoken then [] else Optional(turn.contextNotice);
            var t := Prelude(config, s, turn);
            && t.messages == rebuilt + Users(notice) + Users(turn.reports) + Users(turn.inbox)
            && (t.wrapUpSent <==> s.wrapUpSent || turn.wrapUpDue)
            && (t.noticeSent <==> (s.noticeSent && rebuilt == spoken) || turn.contextNotice.Some?)
            && t.compactedThrough == (if rebuilt == spoken then s.compactedThrough else s.calls)
  {
    hide Rebuild;
    hide Users;
    NobodySpeaks();
    NothingAppended(s.messages);
  }

  lemma NobodySpeaks()
    ensures Users([]) == []
  {}

  lemma NothingAppended(ms: seq<Message>)
    ensures ms + [] == ms
  {}

  /** What a request is made of: the history if it fits, else its compaction if that fits, else that with results
      shrunk, which goes out if it fits or can be clamped. */
  lemma RequestsGoOutExactlyWhen(config: Config, s: Session, turn: Turn)
    requires s.messages != []
    ensures var ms := Prelude(config, s, turn).messages;
            var rebuilt := if turn.forced.Some? then Rebuild(ms, turn.forced.value, config.keepRecent) else ms;
            var edited := Fit(rebuilt, config.fits, config.shrink, config.spill, false).messages;
            && (Sends(config, s, turn) <==>
                  && !turn.expired
                  && (config.fits(ms) || config.fits(rebuilt) || config.fits(edited) || turn.clampable))
            && SentBy(config, s, turn)
               == (if config.fits(ms) then ms else if config.fits(rebuilt) then rebuilt
                   else if config.fits(edited) || turn.clampable then edited else ms)
  {
    hide Prelude;
    hide Rebuild;
    hide Fit;
    hide AfterFailure;
    hide AfterAnswer;
    SendingIsRecorded(config, s, turn);
  }

  /** The history once a turn's tool calls have been answered. */
  ghost predicate KeptTools(config: Config, heard: seq<Message>, turn: Turn, records: seq<Record>, next: Next)
    requires turn.reply.Answer? && heard != [] && |records| == |turn.reply.calls|
  {
    var calls, t := turn.reply.calls, next.session;
    var answered := heard + ToolResults(calls, Contents(records));
    var after := if next.Continue? then Users(turn.inboxAfterTools) else [];
    && ((forall text :: text != "" ==> !LastSummary(calls, records, text)) ==> t.messages == answered + after)
    && (forall text :: text != "" && LastSummary(calls, records, text) ==>
          t.compactedThrough == t.calls && !t.noticeSent
          && t.messages == Rebuild(answered, text, config.keepRecent) + after)
  }

  /** The history once an answer has been taken, from the request on. */
  ghost predicate Kept(config: Config, heard: seq<Message>, turn: Turn, next: Next)
    requires turn.reply.Answer? && heard != []
  {
    var reply, t := turn.reply, next.session;
    var records := BatchRecords(config, reply.calls, turn.batch);
    && (reply.calls == [] ==>
          t.messages == heard + Users(if reply.truncated then ["output truncated"]
                                      else if reply.waiting then []
                                      else ["no tool call"] + turn.inboxAfterReply))
    && (reply.calls != [] && records.Some? ==> KeptTools(config, heard, turn, records.value, next))
  }

  /** After an answer the history is the request, the turn, one result per call and what came in meanwhile; an
      accepted compact call then rebuilds it. */
  lemma AnswersAreKept(config: Config, s: Session, turn: Turn)
    requires s.messages != [] && Sends(config, s, turn) && turn.reply.Answer?
    ensures var reply, next := turn.reply, Iterate(config, s, turn);
            && next.session.calls == s.calls + 1 && next.session.streak == 0 && !next.session.reissueUsed
            && Kept(config, SentBy(config, s, turn) + [Assistant(reply.content, reply.calls)], turn, next)
  {
    hide Prelude;
    hide Prepared;
    hide AfterFailure;
    hide AfterAnswer;
    hide Kept;
    SendingIsRecorded(config, s, turn);
    hide Sends;
    var prepared := Prepared(config, Prelude(config, s, turn), turn);
    TakingAnAnswer(config, prepared.0.(requests := prepared.0.requests + [prepared.0.messages]), turn);
  }

  lemma TakingAnAnswer(config: Config, s: Session, turn: Turn)
    requires s.messages != [] && turn.reply.Answer?
    ensures var reply := turn.reply;
            var next := AfterAnswer(config, s, reply.content, reply.calls, reply.truncated, reply.waiting, turn);
            && next.session.calls == s.calls + 1 && next.session.streak == 0 && !next.session.reissueUsed
            && Kept(config, s.messages + [Assistant(reply.content, reply.calls)], turn, next)
  {
    hide BatchRecords;
    hide AfterTools;
    hide KeptTools;
    var reply := turn.reply;
    if reply.calls == [] {
      TakingNoCalls(config, s, turn);
    } else if BatchRecords(config, reply.calls, turn.batch).Some? {
      var t := s.(calls := s.calls + 1, streak := 0, reissueUsed := false,
                  messages := s.messages + [Assistant(reply.content, reply.calls)]);
      AnsweringTools(config, t, turn, BatchRecords(config, reply.calls, turn.batch).value);
    }
    hide Users;
  }

  lemma TakingNoCalls(config: Config, s: Session, turn: Turn)
    requires s.messages != [] && turn.reply.Answer? && turn.reply.calls == []
    ensures var reply := turn.reply;
            var next := AfterAnswer(config, s, reply.content, reply.calls, reply.truncated, reply.waiting, turn);
            var said := if reply.truncated then ["output truncated"] else if reply.waiting then []
                        else ["no tool call"] + turn.inboxAfterReply;
            next == Continue(s.(calls := s.calls + 1, streak := 0, reissueUsed := false,
                                messages := s.messages + [Assistant(reply.content, [])] + Users(said)))
  {
    var heard := s.messages + [Assistant(turn.reply.content, [])];
    UsersInTurn("no tool call", turn.inboxAfterReply);
    hide Users;
    if !turn.reply.truncated && turn.reply.waiting {
      NothingAppended(heard);
    } else if !turn.reply.truncated {
      assert heard + Users(["no tool call"]) + Users(turn.inboxAfterReply)
          == heard + (Users(["no tool call"]) + Users(turn.inboxAfterReply));
    }
  }

  lemma AnsweringTools(config: Config, s: Session, turn: Turn, records: seq<Record>)
    requires s.messages != [] && turn.reply.Answer? && |records| == |turn.reply.calls|
    ensures var next := AfterTools(config, s, turn.reply.calls, records, turn);
            && next.session.calls == s.calls && next.session.streak == s.streak
            && next.session.reissueUsed == s.reissueUsed
            && KeptTools(config, s.messages, turn, records, next)
  {
    hide Rebuild;
    hide RequestedSummary;
    hide LastSummary;
    hide Users;
    SummariesAreRequested(turn.reply.calls, records);
    NothingAppended(s.messages + ToolResults(turn.reply.calls, Contents(records)));
    var summary := RequestedSummary(turn.reply.calls, records);
    if summary.Some? {
      NothingAppended(Rebuild(s.messages + ToolResults(turn.reply.calls, Contents(records)), summary.value,
                              config.keepRecent));
    }
  }

  lemma SummariesAreRequested(calls: seq<Call>, records: seq<Record>)
    requires |records| == |calls|
    ensures forall text :: RequestedSummary(calls, records) == Some(text) <==> LastSummary(calls, records, text)
  {
    forall text: string
      ensures RequestedSummary(calls, records) == Some(text) <==> LastSummary(calls, records, text)
    {
      TheLastSummaryCounts(calls, records, text);
    }
  }

  lemma UsersInTurn(text: string, texts: seq<string>)
    ensures Users([text]) + Users(texts) == Users([text] + texts) && Users([]) == []
  {}

  /** After a failure the session goes on with its error told to the model, and the text of a turn whose tool call was
      malformed kept once; a recovered overflow goes on with the history it could shed. Failures in a row are
      counted. */
  lemma FailuresAreToldBack(config: Config, s: Session, failure: Failure, error: string, turn: Turn)
    requires s.messages != [] && AfterFailure(config, s, failure, error, turn).Continue?
    ensures var t := AfterFailure(config, s, failure, error, turn).session;
            && t.calls == s.calls + 1 && t.requests == s.requests
            && (failure.Overflow? ==>
                  var rebuilt := if turn.recovery.Some? then Rebuild(s.messages, turn.recovery.value, config.keepRecent)
                                 else s.messages;
                  var force := rebuilt == s.messages;
                  && t.messages == Fit(rebuilt, config.fits, config.shrink, config.spill, force).messages
                  && t.overflowUsed && t.streak == 0)
            && (!failure.Overflow? ==>
                  var kept := if failure.Malformed? && !s.reissueUsed && failure.partial != ""
                              then [Assistant(failure.partial, [])] else [];
                  && t.messages == s.messages + kept + [User(error, false)]
                  && t.streak == s.streak + 1 && t.overflowUsed == s.overflowUsed
                  && (t.reissueUsed <==> s.reissueUsed || failure.Malformed?))
  {
    hide Fit;
    hide Rebuild;
    assert Users([error]) == [User(error, false)];
    assert s.messages + [] == s.messages;
  }
}
