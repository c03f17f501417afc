/** Shrinking tool results in place until a request fits, largest first. */
module ToolFitting {
  import opened Options
  import opened Conversation

  const MIN_CHARS := 512

  // What the runtime estimates and writes is not modelled: any fit test, any replacement that keeps the call.
  type FitTest = seq<Message> -> bool
  type Shrinker = Message -> Message

  ghost predicate KeepsItsCall(shrink: Shrinker)
  {
    forall m: Message {:trigger shrink(m)} :: m.Tool? ==> shrink(m).Tool? && shrink(m).callId == m.callId
  }

  predicate Eligible(m: Message)
  {
    m.Tool? && |m.content| >= MIN_CHARS
  }

  /** The replacement one result gets: the spilled form where that still saves, else the plain one. */
  function Replacement(m: Message, shrink: Shrinker, spill: Option<Shrinker>): (r: Message)
  {
    if spill.Some? && |spill.value(m).content| < |m.content| then spill.value(m) else shrink(m)
  }

  predicate Shrinkable(m: Message, shrink: Shrinker)
  {
    |shrink(m).content| < |m.content|
  }

  // ---- the order results are tried in ----

  predicate Before(ms: seq<Message>, i: nat, j: nat)
    requires i < |ms| && j < |ms|
  {
    |ms[i].content| > |ms[j].content| || (|ms[i].content| == |ms[j].content| && i > j)
  }

  function Insert(ms: seq<Message>, i: nat, order: seq<nat>): (inserted: seq<nat>)
    requires i < |ms| && forall k :: 0 <= k < |order| ==> order[k] < |ms|
  {
    if order == [] || Before(ms, i, order[0]) then [i] + order else [order[0]] + Insert(ms, i, order[1..])
  }

  /** sorted(..., reverse=True) over (length, index) of the eligible results among the first n. */
  function Order(ms: seq<Message>, n: nat): (order: seq<nat>)
    requires n <= |ms|
    ensures forall i: nat :: i in order <==> i < n && Eligible(ms[i])
    ensures forall k :: 0 <= k < |order| ==> order[k] < n && Eligible(ms[order[k]])
  {
    if n == 0 then []
    else if Eligible(ms[n - 1]) then
      InsertHas(ms, n - 1, Order(ms, n - 1));
      Insert(ms, n - 1, Order(ms, n - 1))
    else Order(ms, n - 1)
  }

  lemma {:induction false} InsertHas(ms: seq<Message>, i: nat, order: seq<nat>)
    requires i < |ms| && forall k :: 0 <= k < |order| ==> order[k] < |ms|
    ensures |Insert(ms, i, order)| == |order| + 1
    ensures forall x: nat :: x in Insert(ms, i, order) <==> x == i || x in order
    ensures forall k :: 0 <= k < |Insert(ms, i, order)| ==>
            Insert(ms, i, order)[k] == i || Insert(ms, i, order)[k] in order
  {
    if order != [] && !Before(ms, i, order[0]) {
      InsertHas(ms, i, order[1..]);
      assert order == [order[0]] + order[1..];
    }
  }

  predicate LargestFirst(ms: seq<Message>, order: seq<nat>)
    requires forall k :: 0 <= k < |order| ==> order[k] < |ms|
  {
    forall j, k :: 0 <= j < k < |order| ==> Before(ms, order[j], order[k])
  }

  lemma {:induction false} InsertKeepsLargestFirst(ms: seq<Message>, i: nat, order: seq<nat>)
    requires i < |ms| && i !in order && forall k :: 0 <= k < |order| ==> order[k] < |ms|
    requires LargestFirst(ms, order)
    ensures (forall k :: 0 <= k < |Insert(ms, i, order)| ==> Insert(ms, i, order)[k] < |ms|)
    ensures LargestFirst(ms, Insert(ms, i, order))
  {
    InsertHas(ms, i, order);
    if order != [] && !Before(ms, i, order[0]) {
      InsertKeepsLargestFirst(ms, i, order[1..]);
      InsertHas(ms, i, order[1..]);
      var rest := Insert(ms, i, order[1..]);
      forall k | 0 <= k < |rest|
        ensures Before(ms, order[0], rest[k])
      {
        assert rest[k] in rest;
        if rest[k] != i {
          var m :| 0 <= m < |order[1..]| && order[1..][m] == rest[k];
          assert order[m + 1] == rest[k];
        }
      }
    }
  }

  lemma LargestFirstIsDistinct(ms: seq<Message>, order: seq<nat>)
    requires (forall k :: 0 <= k < |order| ==> order[k] < |ms|) && LargestFirst(ms, order)
    ensures forall j, k :: 0 <= j < k < |order| ==> order[j] != order[k]
  {}

  lemma NothingToOrder(ms: seq<Message>)
    ensures LargestFirst(ms, [])
  {}

  /** Every eligible result is in the order once, larger ones first and later ones first among equals. */
  lemma {:induction false} OrderIsLargestFirst(ms: seq<Message>, n: nat)
    requires n <= |ms|
    ensures LargestFirst(ms, Order(ms, n))
    ensures forall j, k :: 0 <= j < k < |Order(ms, n)| ==> Order(ms, n)[j] != Order(ms, n)[k]
  {
    hide Insert;
    hide Before;
    hide Eligible;
    hide LargestFirst;
    if n == 0 {
      NothingToOrder(ms);
    } else {
      OrderIsLargestFirst(ms, n - 1);
      if Eligible(ms[n - 1]) {
        InsertKeepsLargestFirst(ms, n - 1, Order(ms, n - 1));
      }
    }
    LargestFirstIsDistinct(ms, Order(ms, n));
  }

  // ---- what an edit may change ----

  predicate EditedAt(a: Message, b: Message)
  {
    a == b || (a.Tool? && b.Tool? && b.callId == a.callId && |b.content| < |a.content|)
  }

  predicate OnlyResultsShrank(a: seq<Message>, b: seq<Message>)
  {
    |a| == |b| && forall i :: 0 <= i < |a| ==> EditedAt(a[i], b[i])
  }

  function Chars(ms: seq<Message>): (n: nat)
  {
    if ms == [] then 0 else |ms[0].content| + Chars(ms[1..])
  }

  lemma {:induction false} CharsOfUpdate(ms: seq<Message>, i: nat, m: Message)
    requires i < |ms|
    ensures Chars(ms[i := m]) == Chars(ms) - |ms[i].content| + |m.content|
  {
    if i > 0 {
      CharsOfUpdate(ms[1..], i - 1, m);
      assert ms[i := m][1..] == ms[1..][i - 1 := m];
    } else {
      assert ms[0 := m][1..] == ms[1..];
    }
  }

  lemma {:induction false} ShrinkingKeepsTheScan(pending: seq<string>, a: seq<Message>, b: seq<Message>)
    requires OnlyResultsShrank(a, b)
    ensures Scan(pending, a) == Scan(pending, b)
    decreases |a|
  {
    if a == [] {
    } else {
      assert EditedAt(a[0], b[0]);
      assert Accept(pending, a[0]) == Accept(pending, b[0]);
      if Accept(pending, a[0]).Some? {
        ShrinkingKeepsTheScan(Accept(pending, a[0]).value, a[1..], b[1..]);
      }
    }
  }

  /** Shrinking results keeps a conversation valid, and an invalid one invalid. */
  lemma ShrinkingKeepsTheProtocol(a: seq<Message>, b: seq<Message>)
    requires OnlyResultsShrank(a, b)
    ensures ProtocolValid(a) <==> ProtocolValid(b)
  {
    if a != [] {
      assert EditedAt(a[0], b[0]);
      ShrinkingKeepsTheScan([], a[1..], b[1..]);
    }
  }

  // ---- the edit ----

  datatype Fitted = Fitted(messages: seq<Message>, summarized: nat, freed: int)

  /** One candidate, tried: replaced if that saves anything. */
  function TryOne(f: Fitted, i: nat, shrink: Shrinker, spill: Option<Shrinker>): (g: Fitted)
    requires i < |f.messages|
    ensures |g.messages| == |f.messages|
  {
    var m := f.messages[i];
    if !Shrinkable(m, shrink) then f
    else
      var r := Replacement(m, shrink, spill);
      Fitted(f.messages[i := r], f.summarized + 1, f.freed + |m.content| - |r.content|)
  }

  predicate Done(f: Fitted, fits: FitTest, force: bool)
  {
    fits(f.messages) && (!force || f.summarized > 0)
  }

  function FitFrom(f: Fitted, order: seq<nat>, fits: FitTest, shrink: Shrinker, spill: Option<Shrinker>,
                   force: bool): (g: Fitted)
    requires forall k :: 0 <= k < |order| ==> order[k] < |f.messages|
    ensures |g.messages| == |f.messages|
    decreases |order|
  {
    if order == [] || Done(f, fits, force) then f
    else FitFrom(TryOne(f, order[0], shrink, spill), order[1..], fits, shrink, spill, force)
  }

  function Fit(ms: seq<Message>, fits: FitTest, shrink: Shrinker, spill: Option<Shrinker>, force: bool): (g: Fitted)
    ensures |g.messages| == |ms|
  {
    FitFrom(Fitted(ms, 0, 0), Order(ms, |ms|), fits, shrink, spill, force)
  }

  ghost predicate Sound(shrink: Shrinker, spill: Option<Shrinker>)
  {
    KeepsItsCall(shrink) && (spill.Some? ==> KeepsItsCall(spill.value))
  }

  ghost predicate Tried(ms: seq<Message>, edited: seq<Message>, i: nat, shrink: Shrinker, spill: Option<Shrinker>)
    requires i < |ms| == |edited|
  {
    var m := ms[i];
    edited[i] == if |shrink(m).content| >= |m.content| then m
                 else if spill.Some? && |spill.value(m).content| < |m.content| then spill.value(m)
                 else shrink(m)
  }

  lemma ReplacementKeepsTheCall(m: Message, shrink: Shrinker, spill: Option<Shrinker>)
    requires m.Tool? && Sound(shrink, spill)
    ensures Replacement(m, shrink, spill).Tool? && Replacement(m, shrink, spill).callId == m.callId
    ensures Shrinkable(m, shrink) ==> |Replacement(m, shrink, spill).content| < |m.content|
  {
    assert shrink(m).Tool? && (spill.Some? ==> spill.value(m).Tool?);
  }

  lemma TryingOneTries(f: Fitted, i: nat, shrink: Shrinker, spill: Option<Shrinker>)
    requires i < |f.messages|
    ensures Tried(f.messages, TryOne(f, i, shrink, spill).messages, i, shrink, spill)
  {}

  lemma TryingOne(f: Fitted, i: nat, shrink: Shrinker, spill: Option<Shrinker>)
    requires i < |f.messages| && f.messages[i].Tool? && Sound(shrink, spill)
    ensures var g := TryOne(f, i, shrink, spill);
            && |g.messages| == |f.messages|
            && Tried(f.messages, g.messages, i, shrink, spill)
            && EditedAt(f.messages[i], g.messages[i])
            && (forall j :: 0 <= j < |f.messages| && j != i ==> g.messages[j] == f.messages[j])
            && g.freed - f.freed == Chars(f.messages) - Chars(g.messages)
            && (g == f || (g.summarized == f.summarized + 1 && g.freed > f.freed))
  {
    hide Replacement;
    hide Shrinkable;
    hide Sound;
    hide Chars;
    ReplacementKeepsTheCall(f.messages[i], shrink, spill);
    TryingOneTries(f, i, shrink, spill);
    hide Tried;
    CharsOfUpdate(f.messages, i, Replacement(f.messages[i], shrink, spill));
  }

  /** The edit works down the order: some first part of it is tried, the rest and every other message
      stay, and it stops early only once the request fits (and, when forced, something was edited). */
  lemma {:induction false} FitWorksDownTheOrder(f: Fitted, order: seq<nat>, fits: FitTest, shrink: Shrinker,
                                                spill: Option<Shrinker>, force: bool)
      returns (k: nat)
    requires forall j :: 0 <= j < |order| ==> order[j] < |f.messages| && f.messages[order[j]].Tool?
    requires forall j, m :: 0 <= j < m < |order| ==> order[j] != order[m]
    requires Sound(shrink, spill)
    ensures var g := FitFrom(f, order, fits, shrink, spill, force);
            && k <= |order| && |g.messages| == |f.messages|
            && (k < |order| ==> Done(g, fits, force))
            && (forall j :: 0 <= j < k ==> Tried(f.messages, g.messages, order[j], shrink, spill))
            && (forall i :: 0 <= i < |f.messages| && (forall j :: 0 <= j < k ==> order[j] != i) ==>
                g.messages[i] == f.messages[i])
            && OnlyResultsShrank(f.messages, g.messages)
    decreases |order|
  {
    hide Replacement;
    hide Shrinkable;
    hide Sound;
    hide TryOne;
    hide EditedAt;
    if order == [] || Done(f, fits, force) {
      k := 0;
      NothingEdited(f.messages);
    } else {
      var i := order[0];
      var h := TryOne(f, i, shrink, spill);
      TryingOne(f, i, shrink, spill);
      assert forall j :: 0 <= j < |order[1..]| ==> order[1..][j] == order[j + 1] && order[j + 1] != i;
      var rest := FitWorksDownTheOrder(h, order[1..], fits, shrink, spill, force);
      k := rest + 1;
      var g := FitFrom(f, order, fits, shrink, spill, force);
      assert g.messages[i] == h.messages[i];
      forall j | 0 <= j < k
        ensures Tried(f.messages, g.messages, order[j], shrink, spill)
      {
        if j > 0 {
          assert Tried(h.messages, g.messages, order[1..][j - 1], shrink, spill);
        }
      }
      forall j | 0 <= j < |f.messages| && (forall m :: 0 <= m < k ==> order[m] != j)
        ensures g.messages[j] == f.messages[j]
      {
        assert order[0] != j;
        assert forall m :: 0 <= m < rest ==> order[1..][m] != j;
      }
      assert forall j :: 0 <= j < |f.messages| && j != i ==> EditedAt(f.messages[j], g.messages[j]) by {
        assert forall j :: 0 <= j < |f.messages| ==> EditedAt(h.messages[j], g.messages[j]);
      }
    }
  }

  lemma NothingEdited(ms: seq<Message>)
    ensures OnlyResultsShrank(ms, ms)
  {}

  /** The edit after its first `k` candidates. */
  function Trying(f: Fitted, order: seq<nat>, k: nat, shrink: Shrinker, spill: Option<Shrinker>): (g: Fitted)
    requires k <= |order| && forall j :: 0 <= j < |order| ==> order[j] < |f.messages|
    ensures |g.messages| == |f.messages|
  {
    if k == 0 then f else TryOne(Trying(f, order, k - 1, shrink, spill), order[k - 1], shrink, spill)
  }

  lemma {:induction false} TryingFromTheFront(f: Fitted, order: seq<nat>, k: nat, shrink: Shrinker,
                                              spill: Option<Shrinker>)
    requires 0 < k <= |order| && forall j :: 0 <= j < |order| ==> order[j] < |f.messages|
    ensures Trying(f, order, k, shrink, spill)
            == Trying(TryOne(f, order[0], shrink, spill), order[1..], k - 1, shrink, spill)
  {
    hide TryOne;
    var h := TryOne(f, order[0], shrink, spill);
    assert Trying(f, order, 0, shrink, spill) == f && Trying(h, order[1..], 0, shrink, spill) == h;
    if k > 1 {
      TryingFromTheFront(f, order, k - 1, shrink, spill);
      assert order[1..][k - 2] == order[k - 1];
    }
  }

  /** No result is touched once it is not needed: the edit stops at the first candidate count that will do. */
  lemma {:induction false} EditsStopAtTheFirstFit(f: Fitted, order: seq<nat>, fits: FitTest, shrink: Shrinker,
                                                  spill: Option<Shrinker>, force: bool)
      returns (k: nat)
    requires forall j :: 0 <= j < |order| ==> order[j] < |f.messages|
    ensures k <= |order| && FitFrom(f, order, fits, shrink, spill, force) == Trying(f, order, k, shrink, spill)
    ensures k == |order| || Done(Trying(f, order, k, shrink, spill), fits, force)
    ensures forall j :: 0 <= j < k ==> !Done(Trying(f, order, j, shrink, spill), fits, force)
    decreases |order|
  {
    hide TryOne;
    assert Trying(f, order, 0, shrink, spill) == f;
    if order == [] || Done(f, fits, force) {
      k := 0;
    } else {
      var rest := EditsStopAtTheFirstFit(TryOne(f, order[0], shrink, spill), order[1..], fits, shrink, spill, force);
      k := rest + 1;
      forall j | 0 < j <= k
        ensures Trying(f, order, j, shrink, spill)
                == Trying(TryOne(f, order[0], shrink, spill), order[1..], j - 1, shrink, spill)
      {
        TryingFromTheFront(f, order, j, shrink, spill);
      }
    }
  }

  /** Largest first and no further than needed: results are tried in order until the request first fits, and a request
      that fits is left alone unless an edit is forced. */
  lemma FittingStopsAtTheFirstFit(ms: seq<Message>, fits: FitTest, shrink: Shrinker, spill: Option<Shrinker>,
                                  force: bool)
      returns (k: nat)
    ensures var order, start := Order(ms, |ms|), Fitted(ms, 0, 0);
            && k <= |order| && Fit(ms, fits, shrink, spill, force) == Trying(start, order, k, shrink, spill)
            && (k == |order| || Done(Trying(start, order, k, shrink, spill), fits, force))
            && (forall j :: 0 <= j < k ==> !Done(Trying(start, order, j, shrink, spill), fits, force))
            && (fits(ms) && !force ==> Fit(ms, fits, shrink, spill, force).messages == ms)
  {
    hide TryOne;
    hide Order;
    k := EditsStopAtTheFirstFit(Fitted(ms, 0, 0), Order(ms, |ms|), fits, shrink, spill, force);
    assert Trying(Fitted(ms, 0, 0), Order(ms, |ms|), 0, shrink, spill) == Fitted(ms, 0, 0);
  }

  /** The counters are exact: characters freed, and edits counted only where something was removed. */
  lemma {:induction false} FitCountsExactly(f: Fitted, order: seq<nat>, fits: FitTest, shrink: Shrinker,
                                            spill: Option<Shrinker>, force: bool)
    requires forall j :: 0 <= j < |order| ==> order[j] < |f.messages| && f.messages[order[j]].Tool?
    requires Sound(shrink, spill)
    ensures var g := FitFrom(f, order, fits, shrink, spill, force);
            && g.freed - f.freed == Chars(f.messages) - Chars(g.messages)
            && (g == f || (g.summarized > f.summarized && g.freed > f.freed))
    decreases |order|
  {
    hide TryOne;
    hide Sound;
    hide Chars;
    if order != [] && !Done(f, fits, force) {
      TryingOne(f, order[0], shrink, spill);
      FitCountsExactly(TryOne(f, order[0], shrink, spill), order[1..], fits, shrink, spill, force);
    }
  }

  /** What shrinking results promises: the same messages but for shorter tool results, the exact
      number of characters freed, and either a request that fits or every eligible result tried. */
  lemma FittingIsSafe(ms: seq<Message>, fits: FitTest, shrink: Shrinker, spill: Option<Shrinker>, force: bool)
    requires Sound(shrink, spill)
    ensures var g := Fit(ms, fits, shrink, spill, force);
            && OnlyResultsShrank(ms, g.messages)
            && (ProtocolValid(ms) <==> ProtocolValid(g.messages))
            && g.freed == Chars(ms) - Chars(g.messages)
            && (g.summarized == 0 <==> g.messages == ms)
            && (g.summarized > 0 <==> g.freed > 0)
            && (Done(g, fits, force)
                || forall i :: 0 <= i < |ms| && ms[i].Tool? && |ms[i].content| >= 512 ==>
                     Tried(ms, g.messages, i, shrink, spill))
  {
    hide FitFrom;
    hide ProtocolValid;
    hide Sound;
    hide Chars;
    hide Tried;
    var order := Order(ms, |ms|);
    OrderIsLargestFirst(ms, |ms|);
    var k := FitWorksDownTheOrder(Fitted(ms, 0, 0), order, fits, shrink, spill, force);
    FitCountsExactly(Fitted(ms, 0, 0), order, fits, shrink, spill, force);
    var g := Fit(ms, fits, shrink, spill, force);
    ShrinkingKeepsTheProtocol(ms, g.messages);
    if k == |order| {
      forall i | 0 <= i < |ms| && Eligible(ms[i])
        ensures Tried(ms, g.messages, i, shrink, spill)
      {
        var j :| 0 <= j < |order| && order[j] == i;
      }
    }
  }

  /** Short messages are left alone: only a tool result of 512 characters or more is ever replaced. */
  lemma ShortResultsAreLeftAlone(ms: seq<Message>, fits: FitTest, shrink: Shrinker, spill: Option<Shrinker>,
                                 force: bool, i: nat)
    requires Sound(shrink, spill) && i < |ms| && (!ms[i].Tool? || |ms[i].content| < 512)
    ensures Fit(ms, fits, shrink, spill, force).messages[i] == ms[i]
  {
    hide FitFrom;
    hide Sound;
    hide Tried;
    OrderIsLargestFirst(ms, |ms|);
    var k := FitWorksDownTheOrder(Fitted(ms, 0, 0), Order(ms, |ms|), fits, shrink, spill, force);
    assert !Eligible(ms[i]);
  }

  method FitToolResults(ms: seq<Message>, fits: FitTest, shrink: Shrinker, spill: Option<Shrinker>, force: bool)
      returns (edited: seq<Message>, summarized: nat, freed: int)
    ensures Fitted(edited, summarized, freed) == Fit(ms, fits, shrink, spill, force)
  {
    hide Order;
    hide Eligible;
    edited := ms;
    var fitsNow := fits(edited);
    var candidates := Order(ms, |ms|);
    summarized, freed := 0, 0;
    var k := 0;
    while k < |candidates|
      invariant k <= |candidates| && |edited| == |ms| && fitsNow == fits(edited)
      invariant FitFrom(Fitted(edited, summarized, freed), candidates[k..], fits, shrink, spill, force)
                == Fit(ms, fits, shrink, spill, force)
    {
      if fitsNow && (!force || summarized > 0) {
        break;
      }
      var i := candidates[k];
      assert candidates[k..][0] == i && candidates[k..][1..] == candidates[k + 1..];
      k := k + 1;
      var original := edited[i];
      var replacement := shrink(original);
      if |replacement.content| >= |original.content| {
        continue;
      }
      if spill.Some? {
        var spilled := spill.value(original);
        if |spilled.content| < |original.content| {
          replacement := spilled;
        }
      }
      edited := edited[i := replacement];
      summarized := summarized + 1;
      freed := freed + |original.content| - |replacement.content|;
      fitsNow := fits(edited);
    }
  }

  /** A history after so many forced edits. */
  function Rounds(ms: seq<Message>, n: nat, fits: FitTest, shrink: Shrinker,
                  spill: Option<Shrinker>): (after: seq<Message>)
  {
    if n == 0 then ms else Fit(Rounds(ms, n - 1, fits, shrink, spill), fits, shrink, spill, true).messages
  }

  /** Shrinking the history until the compactor's own request fits. The loop has no bound of its own:
      it ends because every round either stops it or removes characters. */
  method FitCompactRequest(ms: seq<Message>, requestFits: FitTest, fits: FitTest, shrink: Shrinker,
                           spill: Option<Shrinker>)
      returns (prepared: seq<Message>, summarized: nat, freed: int, ghost rounds: nat)
    requires Sound(shrink, spill)
    ensures prepared == Rounds(ms, rounds, fits, shrink, spill)
    ensures forall n :: 0 <= n < rounds ==> !requestFits(Rounds(ms, n, fits, shrink, spill))
    ensures OnlyResultsShrank(ms, prepared)
    ensures freed == Chars(ms) - Chars(prepared)
    ensures ProtocolValid(ms) <==> ProtocolValid(prepared)
    ensures summarized == 0 ==> prepared == ms
    ensures requestFits(prepared) || forall i :: 0 <= i < |prepared| && Eligible(prepared[i]) ==>
            !Shrinkable(prepared[i], shrink)
  {
    hide Fit;
    hide Chars;
    hide ProtocolValid;
    hide OnlyResultsShrank;
    hide Sound;
    prepared, summarized, freed, rounds := ms, 0, 0, 0;
    NothingEdited(ms);
    while true
      invariant prepared == Rounds(ms, rounds, fits, shrink, spill)
      invariant forall n :: 0 <= n < rounds ==> !requestFits(Rounds(ms, n, fits, shrink, spill))
      invariant OnlyResultsShrank(ms, prepared) && freed == Chars(ms) - Chars(prepared)
      invariant ProtocolValid(ms) <==> ProtocolValid(prepared)
      invariant summarized == 0 ==> prepared == ms
      decreases Chars(prepared)
    {
      if requestFits(prepared) {
        return;
      }
      FittingIsSafe(prepared, fits, shrink, spill, true);
      ghost var before := prepared;
      var edited, count, chars := FitToolResults(prepared, fits, shrink, spill, true);
      prepared, rounds := edited, rounds + 1;
      ShrinkingTwice(ms, before, prepared);
      if count == 0 {
        assert forall i :: 0 <= i < |before| && Eligible(before[i]) ==> Tried(before, prepared, i, shrink, spill);
        NothingShrinkable(before, shrink, spill);
        return;
      }
      summarized, freed := summarized + count, freed + chars;
    }
  }

  lemma ShrinkingTwice(a: seq<Message>, b: seq<Message>, c: seq<Message>)
    requires OnlyResultsShrank(a, b) && OnlyResultsShrank(b, c)
    ensures OnlyResultsShrank(a, c)
  {
    assert forall i :: 0 <= i < |a| ==> EditedAt(a[i], b[i]) && EditedAt(b[i], c[i]);
  }

  lemma NothingShrinkable(ms: seq<Message>, shrink: Shrinker, spill: Option<Shrinker>)
    requires forall i :: 0 <= i < |ms| && Eligible(ms[i]) ==> Tried(ms, ms, i, shrink, spill)
    ensures forall i :: 0 <= i < |ms| && Eligible(ms[i]) ==> !Shrinkable(ms[i], shrink)
  {}
}
