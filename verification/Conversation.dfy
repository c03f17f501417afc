/** Conversations with tool calls, and the edits that must keep them valid: compaction, forking and
    shrinking tool results. */
module Conversation {
  import opened Options
  import opened Indices

  datatype Call = Call(id: string, name: string, summary: string)

  // A user message may be a compaction summary, which the next compaction supersedes.
  datatype Message =
    | System(content: string)
    | User(content: string, summary: bool)
    | Assistant(content: string, calls: seq<Call>)
    | Tool(content: string, callId: string)

  // ---- the tool-call protocol ----

  function Ids(calls: seq<Call>): (ids: seq<string>)
    ensures |ids| == |calls| && forall i :: 0 <= i < |calls| ==> ids[i] == calls[i].id
  {
    seq(|calls|, i requires 0 <= i < |calls| => calls[i].id)
  }

  /** One message after a turn whose `pending` calls are still to be answered, in order. */
  function Accept(pending: seq<string>, m: Message): (left: Option<seq<string>>)
  {
    match m
    case System(_) => None
    case User(_, _) => if pending == [] then Some([]) else None
    case Assistant(_, calls) => if pending == [] then Some(Ids(calls)) else None
    case Tool(_, id) => if pending != [] && pending[0] == id then Some(pending[1..]) else None
  }

  function Scan(pending: seq<string>, ms: seq<Message>): (left: Option<seq<string>>)
    decreases |ms|
  {
    if ms == [] then Some(pending)
    else match Accept(pending, ms[0])
      case None => None
      case Some(next) => Scan(next, ms[1..])
  }

  /** A body, after the system prompt, with every call answered. */
  predicate Answered(body: seq<Message>)
  {
    Scan([], body) == Some([])
  }

  /** What a provider accepts: the system prompt, then a body with every call answered. */
  predicate ProtocolValid(ms: seq<Message>)
  {
    ms != [] && ms[0].System? && Answered(ms[1..])
  }

  lemma {:induction false} ScanConcat(pending: seq<string>, a: seq<Message>, b: seq<Message>)
    ensures Scan(pending, a + b) == match Scan(pending, a) case None => None case Some(next) => Scan(next, b)
    decreases |a|
  {
    if a == [] {
      assert a + b == b;
    } else {
      assert (a + b)[1..] == a[1..] + b;
      if Accept(pending, a[0]).Some? {
        ScanConcat(Accept(pending, a[0]).value, a[1..], b);
      }
    }
  }

  lemma ScanSplit(pending: seq<string>, ms: seq<Message>, i: nat)
    requires i <= |ms| && Scan(pending, ms).Some?
    ensures Scan(pending, ms[..i]).Some?
    ensures Scan(Scan(pending, ms[..i]).value, ms[i..]) == Scan(pending, ms)
  {
    assert ms == ms[..i] + ms[i..];
    ScanConcat(pending, ms[..i], ms[i..]);
  }

  // The scan means what it should, read off the positions of the messages.

  /** Pending calls are answered by the very next messages, one each, in order. */
  lemma {:induction false} PendingCallsAreAnsweredNext(pending: seq<string>, ms: seq<Message>, k: nat)
    requires Scan(pending, ms) == Some([]) && k < |pending|
    ensures k < |ms| && ms[k].Tool? && ms[k].callId == pending[k]
  {
    assert ms != [] && ms[0].Tool?;
    if k == 0 {
    } else {
      PendingCallsAreAnsweredNext(pending[1..], ms[1..], k - 1);
    }
  }

  /** In a valid conversation call number k of a turn is answered by the k-th message after it. */
  lemma EveryCallIsAnsweredInOrder(ms: seq<Message>, i: nat, k: nat)
    requires ProtocolValid(ms) && i < |ms| && ms[i].Assistant? && k < |ms[i].calls|
    ensures i + 1 + k < |ms| && ms[i + 1 + k].Tool? && ms[i + 1 + k].callId == ms[i].calls[k].id
  {
    var body := ms[1..];
    ScanSplit([], body, i - 1);
    assert body[i - 1..][0] == ms[i] && body[i - 1..][1..] == ms[i + 1..];
    PendingCallsAreAnsweredNext(Ids(ms[i].calls), ms[i + 1..], k);
    assert ms[i + 1..][k] == ms[i + 1 + k];
  }

  /** In a valid conversation every tool result answers a call of the last turn before it. */
  lemma EveryResultHasItsCall(ms: seq<Message>, j: nat) returns (i: nat)
    requires ProtocolValid(ms) && j < |ms| && ms[j].Tool?
    ensures i < j && ms[i].Assistant? && j - i - 1 < |ms[i].calls| && ms[i].calls[j - i - 1].id == ms[j].callId
    ensures forall k :: i < k < j ==> ms[k].Tool?
  {
    var body := ms[1..];
    ScanSplit([], body, j - 1);
    assert body[j - 1..][0] == ms[j];
    var p := TurnOfPending(body[..j - 1]);
    i := p + 1;
    assert body[p] == ms[i];
    forall k | i < k < j
      ensures ms[k].Tool?
    {
      assert body[k - 1] == ms[k];
    }
  }

  /** Where calls are pending, the turn that made them is followed by tool results only. */
  lemma {:induction false} TurnOfPending(body: seq<Message>) returns (i: nat)
    requires Scan([], body).Some? && Scan([], body).value != []
    ensures i < |body| && body[i].Assistant? && |body| - i - 1 < |body[i].calls|
    ensures Scan([], body).value == Ids(body[i].calls)[|body| - i - 1..]
    ensures forall k :: i < k < |body| ==> body[k].Tool?
    decreases |body|
  {
    assert body != [];
    var n := |body| - 1;
    var last := body[n];
    ScanSplit([], body, n);
    assert body[n..] == [last] && [last][1..] == [];
    assert Scan(Scan([], body[..n]).value, [last]) == Accept(Scan([], body[..n]).value, last);
    if last.Assistant? {
      i := n;
    } else {
      assert last.Tool? && Scan([], body[..n]).value != [];
      i := TurnOfPending(body[..n]);
    }
  }

  // ---- compaction ----

  function NonSummary(ms: seq<Message>): (kept: seq<Message>)
  {
    if ms == [] then []
    else (if ms[0].User? && ms[0].summary then [] else [ms[0]]) + NonSummary(ms[1..])
  }

  function LastOf(ms: seq<Message>, n: nat): (last: seq<Message>)
  {
    if n < |ms| then ms[|ms| - n..] else ms
  }

  function DropLeadingTools(ms: seq<Message>): (rest: seq<Message>)
  {
    if ms != [] && ms[0].Tool? then DropLeadingTools(ms[1..]) else ms
  }

  /** System prompt, one summary, then the most recent messages without orphan results. */
  function Rebuild(ms: seq<Message>, text: string, keep: nat): (rebuilt: seq<Message>)
    requires ms != []
  {
    [ms[0], User(text, true)] + DropLeadingTools(LastOf(NonSummary(ms[1..]), keep))
  }

  lemma {:induction false} NonSummaryScansTheSame(pending: seq<string>, ms: seq<Message>)
    requires Scan(pending, ms).Some?
    ensures Scan(pending, NonSummary(ms)) == Scan(pending, ms)
    decreases |ms|
  {
    if ms == [] {
    } else {
      NonSummaryScansTheSame(Accept(pending, ms[0]).value, ms[1..]);
      if !(ms[0].User? && ms[0].summary) {
        assert NonSummary(ms) == [ms[0]] + NonSummary(ms[1..]);
        ScanConcat(pending, [ms[0]], NonSummary(ms[1..]));
        assert [ms[0]][1..] == [];
      } else {
        assert NonSummary(ms) == NonSummary(ms[1..]);
      }
    }
  }

  /** Cut anywhere, an answered body needs only its leading results dropped to be answered again. */
  lemma {:induction false} DroppingOrphansRepairs(pending: seq<string>, ms: seq<Message>)
    requires Scan(pending, ms) == Some([])
    ensures Answered(DropLeadingTools(ms))
  {
    if ms != [] && ms[0].Tool? {
      DroppingOrphansRepairs(pending[1..], ms[1..]);
    }
  }

  /** Compaction keeps the protocol and the very same system prompt, drops every earlier summary, and
      its tail is the end of the history. */
  lemma RebuildKeepsTheProtocol(ms: seq<Message>, text: string, keep: nat)
    requires ProtocolValid(ms)
    ensures var rebuilt := Rebuild(ms, text, keep);
            && ProtocolValid(rebuilt)
            && rebuilt[0] == ms[0] && rebuilt[1] == User(text, true)
            && |rebuilt| <= keep + 2
            && IsSuffix(rebuilt[2..], NonSummary(ms[1..]))
            && (forall i :: 2 <= i < |rebuilt| ==> !(rebuilt[i].User? && rebuilt[i].summary))
  {
    hide NonSummary;
    hide DropLeadingTools;
    hide LastOf;
    hide Scan;
    var body := NonSummary(ms[1..]);
    NonSummaryScansTheSame([], ms[1..]);
    TailIsAnswered(body, keep);
    NonSummaryHasNoSummaries(ms[1..]);
    SummaryAndTail(ms[0], text, DropLeadingTools(LastOf(body, keep)), body);
  }

  lemma SummaryAndTail(prompt: Message, text: string, recent: seq<Message>, body: seq<Message>)
    requires prompt.System? && Answered(recent) && IsSuffix(recent, body)
    requires forall i :: 0 <= i < |body| ==> !(body[i].User? && body[i].summary)
    ensures var rebuilt := [prompt, User(text, true)] + recent;
            && ProtocolValid(rebuilt)
            && rebuilt[2..] == recent
            && (forall i :: 2 <= i < |rebuilt| ==> !(rebuilt[i].User? && rebuilt[i].summary))
  {
    var rebuilt := [prompt, User(text, true)] + recent;
    assert rebuilt[1..] == [User(text, true)] + recent && rebuilt[1..][1..] == recent;
    assert forall i :: 2 <= i < |rebuilt| ==> rebuilt[i] == body[|body| - |recent| + i - 2];
  }

  lemma TailIsAnswered(body: seq<Message>, keep: nat)
    requires Answered(body)
    ensures var recent := DropLeadingTools(LastOf(body, keep));
            Answered(recent) && IsSuffix(recent, body) && |recent| <= keep
  {
    hide Scan;
    hide DropLeadingTools;
    var last := LastOf(body, keep);
    var cut := |body| - |last|;
    assert last == body[cut..];
    hide LastOf;
    ScanSplit([], body, cut);
    DroppingOrphansRepairs(Scan([], body[..cut]).value, last);
    DropLeadingIsASuffix(last);
    var recent := DropLeadingTools(last);
    assert body[|body| - |recent|..] == last[|last| - |recent|..];
  }

  /** What compaction starts from: every message that is no summary, in its place. */
  lemma {:induction false} NonSummaryIsTheRest(ms: seq<Message>) returns (at: seq<nat>)
    ensures |at| == |NonSummary(ms)| && forall k :: 0 <= k < |at| ==> at[k] < |ms| && NonSummary(ms)[k] == ms[at[k]]
    ensures forall j, k :: 0 <= j < k < |at| ==> at[j] < at[k]
    ensures forall i: nat :: i in at <==> i < |ms| && !(ms[i].User? && ms[i].summary)
  {
    if ms == [] {
      at := [];
    } else {
      var rest := NonSummaryIsTheRest(ms[1..]);
      at := PlacesWithHead(!(ms[0].User? && ms[0].summary), rest);
      hide NonSummary;
      FirstOrLater(ms);
    }
  }

  lemma FirstOrLater(ms: seq<Message>)
    requires ms != []
    ensures NonSummary(ms) == (if ms[0].User? && ms[0].summary then [] else [ms[0]]) + NonSummary(ms[1..])
  {}

  /** Compaction keeps the recent end: of the last `keep` messages that are no summaries, only tool results at their
      head, whose turn is cut off, are left out. */
  lemma RebuildKeepsTheRecentEnd(ms: seq<Message>, text: string, keep: nat) returns (c: nat)
    requires ms != []
    ensures var body := NonSummary(ms[1..]);
            var from := if keep < |body| then |body| - keep else 0;
            && from <= c <= |body| && Rebuild(ms, text, keep) == [ms[0], User(text, true)] + body[c..]
            && (forall k :: from <= k < c ==> body[k].Tool?)
            && (c == |body| || !body[c].Tool?)
            && (from < |body| && !body[from].Tool? ==> c == from)
  {
    hide NonSummary;
    hide DropLeadingTools;
    c := RecentEnd(NonSummary(ms[1..]), keep);
  }

  lemma RecentEnd(body: seq<Message>, keep: nat) returns (c: nat)
    ensures var from := if keep < |body| then |body| - keep else 0;
            && from <= c <= |body| && DropLeadingTools(LastOf(body, keep)) == body[c..]
            && (forall k :: from <= k < c ==> body[k].Tool?)
            && (c == |body| || !body[c].Tool?)
  {
    var from := if keep < |body| then |body| - keep else 0;
    var end := body[from..];
    assert LastOf(body, keep) == end;
    var dropped := DropLeadingCounts(end);
    hide DropLeadingTools;
    hide LastOf;
    c := from + dropped;
    assert end[dropped..] == body[c..];
    forall k | from <= k < c
      ensures body[k].Tool?
    {
      assert end[k - from] == body[k];
    }
  }

  lemma {:induction false} DropLeadingCounts(ms: seq<Message>) returns (n: nat)
    ensures n <= |ms| && DropLeadingTools(ms) == ms[n..]
    ensures (forall k :: 0 <= k < n ==> ms[k].Tool?) && (n == |ms| || !ms[n].Tool?)
  {
    if ms != [] && ms[0].Tool? {
      var rest := DropLeadingCounts(ms[1..]);
      n := rest + 1;
      assert forall k :: 0 < k < n ==> ms[k] == ms[1..][k - 1];
    } else {
      n := 0;
    }
  }

  predicate IsSuffix(tail: seq<Message>, ms: seq<Message>)
  {
    |tail| <= |ms| && tail == ms[|ms| - |tail|..]
  }

  lemma {:induction false} DropLeadingIsASuffix(ms: seq<Message>)
    ensures IsSuffix(DropLeadingTools(ms), ms)
  {
    if ms != [] && ms[0].Tool? {
      DropLeadingIsASuffix(ms[1..]);
    }
  }

  lemma {:induction false} NonSummaryHasNoSummaries(ms: seq<Message>)
    ensures forall i :: 0 <= i < |NonSummary(ms)| ==> !(NonSummary(ms)[i].User? && NonSummary(ms)[i].summary)
  {
    if ms == [] {
    } else {
      NonSummaryHasNoSummaries(ms[1..]);
    }
  }

  // ---- forking a running conversation ----

  function DropUnansweredTurns(ms: seq<Message>): (kept: seq<Message>)
  {
    if ms != [] && ms[|ms| - 1].Assistant? && ms[|ms| - 1].calls != [] then DropUnansweredTurns(ms[..|ms| - 1]) else ms
  }

  function WithoutSystem(ms: seq<Message>): (rest: seq<Message>)
  {
    if ms == [] then []
    else (if ms[0].System? then [] else [ms[0]]) + WithoutSystem(ms[1..])
  }

  /** A child's first request: its own prompt, the parent's history up to its last answered turn, its brief. */
  function Fork(prompt: string, parent: seq<Message>, brief: string): (child: seq<Message>)
  {
    [System(prompt)] + DropUnansweredTurns(WithoutSystem(parent)) + [User(brief, false)]
  }

  /** Dropping the trailing turn repairs a history exactly when no call of that turn has been answered
      yet: a history cut between the results of one turn stays broken. */
  lemma DroppingTheTurnRepairs(body: seq<Message>)
    requires Scan([], body).Some?
    ensures Answered(DropUnansweredTurns(body)) <==>
              Scan([], body).value == [] || body[|body| - 1].Assistant?
  {
    var n := |body| - 1;
    if body != [] {
      ScanSplit([], body, n);
      assert body[n..] == [body[n]] && [body[n]][1..] == [];
      assert Scan(Scan([], body[..n]).value, [body[n]]) == Accept(Scan([], body[..n]).value, body[n]);
      if body[n].Assistant? {
        AnsweredBodiesAreKept(body[..n]);
      }
    }
  }

  /** A finished child resumed: its own conversation, prompt included, then the new brief. */
  function Resume(transcript: seq<Message>, brief: string): (request: seq<Message>)
  {
    DropUnansweredTurns(transcript) + [User(brief, false)]
  }

  /** The resumed request is valid exactly when the transcript was not cut between the results of one turn. */
  lemma ResumingIsValidExactlyWhen(prompt: string, body: seq<Message>, brief: string)
    requires Scan([], body).Some?
    ensures ProtocolValid(Resume([System(prompt)] + body, brief)) <==>
              Scan([], body).value == [] || body[|body| - 1].Assistant?
  {
    DroppingTheTurnRepairs(body);
    DroppingAfterThePrompt(System(prompt), body);
    var kept, turn := DropUnansweredTurns(body), [User(brief, false)];
    assert Resume([System(prompt)] + body, brief)[1..] == kept + turn;
    ScanConcat([], kept, turn);
    assert turn[1..] == [];
  }

  /** What a resumed child is given: its transcript, less a last turn whose calls nothing has answered, and the
      brief. */
  lemma ResumingKeepsTheTranscript(prompt: string, body: seq<Message>, brief: string)
    requires Scan([], body).Some?
    ensures var cut := body != [] && body[|body| - 1].Assistant? && body[|body| - 1].calls != [];
            Resume([System(prompt)] + body, brief)
            == [System(prompt)] + (if cut then body[..|body| - 1] else body) + [User(brief, false)]
  {
    DroppingAfterThePrompt(System(prompt), body);
    if body != [] {
      var n := |body| - 1;
      ScanSplit([], body, n);
      assert body[n..] == [body[n]] && [body[n]][1..] == [];
      assert Scan(Scan([], body[..n]).value, [body[n]]) == Accept(Scan([], body[..n]).value, body[n]);
      if body[n].Assistant? {
        AnsweredBodiesAreKept(body[..n]);
      }
    }
  }

  lemma {:induction false} DroppingAfterThePrompt(prompt: Message, body: seq<Message>)
    requires prompt.System?
    ensures DropUnansweredTurns([prompt] + body) == [prompt] + DropUnansweredTurns(body)
    decreases |body|
  {
    if body == [] {
      assert [prompt] + body == [prompt];
    } else {
      assert ([prompt] + body)[..|body|] == [prompt] + body[..|body| - 1];
      DroppingAfterThePrompt(prompt, body[..|body| - 1]);
    }
  }

  /** A transcript that ends between two results of one turn, as one does when recording the first of
      them fails, cannot be resumed: its turn stays, with a call that nothing answers. */
  lemma ACutBetweenResultsStaysBroken(prompt: string, brief: string)
    ensures var turn := Assistant("", [Call("1", "read_file", ""), Call("2", "read_file", "")]);
            !ProtocolValid(Resume([System(prompt), User("task", false), turn, Tool("found", "1")], brief))
  {
    var turn := Assistant("", [Call("1", "read_file", ""), Call("2", "read_file", "")]);
    var body := [User("task", false), turn, Tool("found", "1")];
    assert [System(prompt), User("task", false), turn, Tool("found", "1")] == [System(prompt)] + body;
    assert body[1..] == [turn, Tool("found", "1")] && body[1..][1..] == [Tool("found", "1")] &&
        body[1..][1..][1..] == [];
    assert Scan(["1", "2"], body[1..][1..]) == Some(["2"]);
    assert Ids(turn.calls) == ["1", "2"];
    assert Scan([], body) == Some(["2"]);
    ResumingIsValidExactlyWhen(prompt, body, brief);
  }

  lemma AnsweredBodiesAreKept(body: seq<Message>)
    requires Answered(body)
    ensures DropUnansweredTurns(body) == body
  {
    if body != [] {
      var n := |body| - 1;
      ScanSplit([], body, n);
      assert body[n..] == [body[n]] && [body[n]][1..] == [];
      assert Scan(Scan([], body[..n]).value, [body[n]]) == Accept(Scan([], body[..n]).value, body[n]);
    }
  }

  lemma {:induction false} BodiesHaveNoSystem(pending: seq<string>, body: seq<Message>)
    requires Scan(pending, body).Some?
    ensures WithoutSystem(body) == body
    decreases |body|
  {
    if body == [] {
    } else {
      BodiesHaveNoSystem(Accept(pending, body[0]).value, body[1..]);
    }
  }

  /** A fork taken between turns, or while a batch is running and none of its results is in the
      history yet, is a valid conversation carrying the whole answered history. */
  lemma ForkIsValid(prompt: string, parent: seq<Message>, running: seq<Call>, content: string, brief: string)
    requires ProtocolValid(parent)
    ensures ProtocolValid(Fork(prompt, parent, brief))
    ensures running != [] ==> Fork(prompt, parent + [Assistant(content, running)], brief) == Fork(prompt, parent, brief)
    ensures Fork(prompt, parent, brief) == [System(prompt)] + parent[1..] + [User(brief, false)]
  {
    var body := parent[1..];
    BodiesHaveNoSystem([], body);
    AnsweredBodiesAreKept(body);
    assert WithoutSystem(parent) == body;
    var child := Fork(prompt, parent, brief);
    assert child[1..] == body + [User(brief, false)];
    ScanConcat([], body, [User(brief, false)]);
    assert [User(brief, false)][1..] == [];
    var turn := Assistant(content, running);
    WithoutSystemConcat(parent, [turn]);
    assert [turn][1..] == [];
    assert (body + [turn])[..|body|] == body;
  }

  lemma {:induction false} WithoutSystemConcat(a: seq<Message>, b: seq<Message>)
    ensures WithoutSystem(a + b) == WithoutSystem(a) + WithoutSystem(b)
  {
    if a == [] {
      assert a + b == b;
    } else {
      assert (a + b)[1..] == a[1..] + b;
      WithoutSystemConcat(a[1..], b);
    }
  }

  // ---- appending ----

  lemma AppendUser(ms: seq<Message>, content: string)
    requires ProtocolValid(ms)
    ensures ProtocolValid(ms + [User(content, false)])
  {
    var m := User(content, false);
    assert (ms + [m])[1..] == ms[1..] + [m];
    ScanConcat([], ms[1..], [m]);
    assert [m][1..] == [];
  }

  function ToolResults(calls: seq<Call>, contents: seq<string>): (results: seq<Message>)
    requires |contents| == |calls|
    ensures |results| == |calls| && forall i :: 0 <= i < |calls| ==> results[i] == Tool(contents[i], calls[i].id)
  {
    seq(|calls|, i requires 0 <= i < |calls| => Tool(contents[i], calls[i].id))
  }

  lemma {:induction false} ResultsAnswerTheirCalls(calls: seq<Call>, contents: seq<string>)
    requires |contents| == |calls|
    ensures Scan(Ids(calls), ToolResults(calls, contents)) == Some([])
  {
    if calls == [] {
    } else {
      ResultsAnswerTheirCalls(calls[1..], contents[1..]);
      assert Ids(calls)[1..] == Ids(calls[1..]);
      assert ToolResults(calls, contents)[1..] == ToolResults(calls[1..], contents[1..]);
    }
  }

  /** A turn followed by one result per call, in order, leaves the conversation valid. */
  lemma AppendTurn(ms: seq<Message>, content: string, calls: seq<Call>, contents: seq<string>)
    requires ProtocolValid(ms) && |contents| == |calls|
    ensures ProtocolValid(ms + [Assistant(content, calls)] + ToolResults(calls, contents))
  {
    var turn, results := Assistant(content, calls), ToolResults(calls, contents);
    assert (ms + [turn] + results)[1..] == ms[1..] + ([turn] + results);
    ScanConcat([], ms[1..], [turn] + results);
    assert ([turn] + results)[1..] == results;
    ResultsAnswerTheirCalls(calls, contents);
  }
}
