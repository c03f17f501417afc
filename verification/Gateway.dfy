/** The login gateway's session table and the store it survives restarts in. */
module Gateway {
  import opened Options

  datatype Entry = Entry(digest: string, username: string, createdAt: real)

  // The session dictionary in its insertion order; the store file keeps that order.
  type Table = seq<Entry>

  datatype Config = Config(lifetime: real, maxSessions: nat) {
    predicate Valid() { lifetime > 0.0 && maxSessions > 0 }
  }

  predicate Has(table: Table, digest: string)
  {
    exists e :: e in table && e.digest == digest
  }

  predicate Distinct(table: Table)
  {
    table != [] ==> Distinct(table[1..]) && forall e :: e in table[1..] ==> e.digest != table[0].digest
  }

  predicate IsLive(config: Config, e: Entry, now: real) { now - e.createdAt < config.lifetime }

  function Live(config: Config, table: Table, now: real): (live: Table)
    ensures |live| <= |table|
    ensures forall e :: e in live <==> e in table && IsLive(config, e, now)
  {
    if table == [] then []
    else (if IsLive(config, table[0], now) then [table[0]] else []) + Live(config, table[1..], now)
  }

  function Pop(table: Table, digest: string): (rest: Table)
    ensures |rest| <= |table|
    ensures forall e :: e in rest <==> e in table && e.digest != digest
  {
    if table == [] then []
    else (if table[0].digest == digest then [] else [table[0]]) + Pop(table[1..], digest)
  }

  /** A dictionary assignment: in place for a known key, at the end for a new one. */
  function Put(table: Table, e: Entry): (put: Table)
  {
    if table == [] then [e]
    else if table[0].digest == e.digest then [e] + table[1..]
    else [table[0]] + Put(table[1..], e)
  }

  /** min() by creation time: the first of the oldest. */
  function Oldest(table: Table): (i: nat)
    requires table != []
    ensures i < |table|
    ensures forall j :: 0 <= j < |table| ==> table[i].createdAt <= table[j].createdAt
    ensures forall j :: 0 <= j < i ==> table[i].createdAt < table[j].createdAt
  {
    if |table| == 1 then 0
    else
      var rest := Oldest(table[1..]);
      if table[0].createdAt <= table[1..][rest].createdAt then 0 else rest + 1
  }

  function Evicted(config: Config, table: Table): (rest: Table)
    requires config.Valid()
  {
    if |table| >= config.maxSessions then Pop(table, table[Oldest(table)].digest) else table
  }

  /** The table a login asks the store to hold. */
  function LoggedIn(config: Config, table: Table, e: Entry, previous: Option<string>): (next: Table)
    requires config.Valid()
  {
    var live := Live(config, table, e.createdAt);
    var kept := if previous.Some? then Pop(live, previous.value) else live;
    Put(Evicted(config, kept), e)
  }

  // ---- the gateway ----

  datatype State = State(sessions: Table, store: Table)

  // `writes` says whether the store can be written; a login's digest is of its new token.
  datatype Request =
    | Login(digest: string, username: string, previous: Option<string>, writes: bool)
    | Check(digest: string)
    | Logout(digest: string, writes: bool)

  datatype Response = Served(accepted: bool) | Raised

  /** Nothing is remembered that the store has not taken. */
  function Commit(g: State, table: Table, writes: bool): (served: (State, Response))
  {
    if writes then (State(table, table), Served(true)) else (g, Raised)
  }

  function Serve(config: Config, g: State, request: Request, now: real): (served: (State, Response))
    requires config.Valid()
  {
    match request
    case Login(digest, username, previous, writes) =>
      Commit(g, LoggedIn(config, g.sessions, Entry(digest, username, now), previous), writes)
    case Check(digest) =>
      (g, Served(exists e :: e in g.sessions && e.digest == digest && IsLive(config, e, now)))
    case Logout(digest, writes) =>
      if !Has(g.sessions, digest) then (g, Served(true))
      else Commit(g, Pop(Live(config, g.sessions, now), digest), writes)
  }

  /** A process start: the unexpired part of the store, written back; None if that write fails. */
  function Start(config: Config, store: Table, now: real, writes: bool): (started: Option<State>)
  {
    var live := Live(config, store, now);
    if writes then Some(State(live, live)) else None
  }

  // ---- tables ----

  lemma {:induction false} LaterLive(config: Config, table: Table, now: real, later: real)
    requires now <= later
    ensures Live(config, Live(config, table, now), later) == Live(config, table, later)
  {
    if table == [] {
    } else {
      LaterLive(config, table[1..], now, later);
      var head, rest := (if IsLive(config, table[0], now) then [table[0]] else []), Live(config, table[1..], now);
      LiveConcat(config, head, rest, later);
      assert [table[0]][1..] == [];
    }
  }

  lemma {:induction false} LiveConcat(config: Config, a: Table, b: Table, now: real)
    ensures Live(config, a + b, now) == Live(config, a, now) + Live(config, b, now)
  {
    if a == [] {
      assert a + b == b;
    } else {
      assert (a + b)[1..] == a[1..] + b;
      LiveConcat(config, a[1..], b, now);
    }
  }

  lemma {:induction false} PoppingTheDeadIsInvisible(config: Config, table: Table, digest: string, now: real)
    requires forall e :: e in table && e.digest == digest ==> !IsLive(config, e, now)
    ensures Live(config, Pop(table, digest), now) == Live(config, table, now)
  {
    if table == [] {
    } else {
      assert forall e :: e in table[1..] ==> e in table;
      PoppingTheDeadIsInvisible(config, table[1..], digest, now);
      LiveConcat(config, if table[0].digest == digest then [] else [table[0]], Pop(table[1..], digest), now);
      assert [table[0]][1..] == [];
    }
  }

  lemma DistinctWithHead(head: Entry, rest: Table)
    requires Distinct(rest) && forall e :: e in rest ==> e.digest != head.digest
    ensures Distinct([head] + rest)
  {
    assert ([head] + rest)[1..] == rest;
  }

  lemma {:induction false} PopKeepsDistinct(table: Table, digest: string)
    requires Distinct(table)
    ensures Distinct(Pop(table, digest)) && !Has(Pop(table, digest), digest)
    ensures Has(table, digest) ==> |Pop(table, digest)| == |table| - 1
    ensures !Has(table, digest) ==> Pop(table, digest) == table
  {
    if table == [] {
    } else {
      PopKeepsDistinct(table[1..], digest);
      assert table == [table[0]] + table[1..];
      DistinctWithHead(table[0], Pop(table[1..], digest));
      assert [] + Pop(table[1..], digest) == Pop(table[1..], digest);
    }
  }

  lemma {:induction false} LiveKeepsDistinct(config: Config, table: Table, now: real)
    requires Distinct(table)
    ensures Distinct(Live(config, table, now))
  {
    if table == [] {
    } else {
      LiveKeepsDistinct(config, table[1..], now);
      DistinctWithHead(table[0], Live(config, table[1..], now));
      assert [] + Live(config, table[1..], now) == Live(config, table[1..], now);
    }
  }

  lemma {:induction false} PutReplacesOrAdds(table: Table, e: Entry)
    requires Distinct(table)
    ensures forall x :: x in Put(table, e) <==> x == e || (x in table && x.digest != e.digest)
  {
    hide Distinct;
    if table == [] {
    } else {
      DistinctTail(table);
      assert table == [table[0]] + table[1..];
      if table[0].digest != e.digest {
        PutReplacesOrAdds(table[1..], e);
      }
    }
  }

  lemma {:induction false} PutIsAnAssignment(table: Table, e: Entry)
    requires Distinct(table)
    ensures Distinct(Put(table, e)) && |Put(table, e)| == |table| + if Has(table, e.digest) then 0 else 1
    ensures forall x :: x in Put(table, e) <==> x == e || (x in table && x.digest != e.digest)
    ensures !Has(table, e.digest) ==> Put(table, e) == table + [e]
  {
    PutReplacesOrAdds(table, e);
    if table == [] {
    } else {
      hide Distinct;
      DistinctTail(table);
      assert table == [table[0]] + table[1..];
      if table[0].digest == e.digest {
        DistinctWithHead(e, table[1..]);
      } else {
        PutIsAnAssignment(table[1..], e);
        DistinctWithHead(table[0], Put(table[1..], e));
      }
    }
  }

  lemma DistinctTail(table: Table)
    requires Distinct(table) && table != []
    ensures Distinct(table[1..]) && forall e :: e in table[1..] ==> e.digest != table[0].digest
  {}

  // ---- every run ----

  /** Memory and store agree, and a digest is listed once. */
  ghost predicate Agrees(g: State)
  {
    g.sessions == g.store && Distinct(g.sessions)
  }

  function Max(a: nat, b: nat): nat { if a < b then b else a }

  /** A login's table: the live sessions but the replaced one, at most one evicted for room and that
      one the first of the oldest, and the new session last. */
  lemma LoginEvictsOnlyTheOldest(config: Config, table: Table, e: Entry, previous: Option<string>)
    requires config.Valid() && Distinct(table) && !Has(table, e.digest)
    ensures var live := Live(config, table, e.createdAt);
            var kept := if previous.Some? then Pop(live, previous.value) else live;
            var next := LoggedIn(config, table, e, previous);
            && Distinct(next)
            && |next| == (if |kept| >= config.maxSessions then |kept| else |kept| + 1)
            && next[|next| - 1] == e
            && (forall x :: x in kept && x !in next ==>
                  |kept| >= config.maxSessions && x == kept[Oldest(kept)]
                  && forall i :: 0 <= i < |kept| ==> x.createdAt <= kept[i].createdAt)
  {
    hide Live;
    hide Pop;
    hide Put;
    hide Oldest;
    hide Distinct;
    hide IsLive;
    var live := Live(config, table, e.createdAt);
    LiveKeepsDistinct(config, table, e.createdAt);
    var kept := if previous.Some? then Pop(live, previous.value) else live;
    if previous.Some? {
      PopKeepsDistinct(live, previous.value);
    }
    MakingRoomTakesTheOldest(config, kept);
    PutIsAnAssignment(Evicted(config, kept), e);
  }

  lemma MakingRoomTakesTheOldest(config: Config, kept: Table)
    requires config.Valid() && Distinct(kept)
    ensures var room := Evicted(config, kept);
            && Distinct(room)
            && |room| == (if |kept| >= config.maxSessions then |kept| - 1 else |kept|)
            && (forall x :: x in room ==> x in kept)
            && (forall x :: x in kept && x !in room ==> |kept| >= config.maxSessions && x == kept[Oldest(kept)])
  {
    hide Pop;
    hide Oldest;
    if |kept| >= config.maxSessions {
      var oldest := kept[Oldest(kept)];
      PopKeepsDistinct(kept, oldest.digest);
      forall x | x in kept && x.digest == oldest.digest
        ensures x == oldest
      {
        SameDigestSameEntry(kept, x, oldest);
      }
    }
  }

  lemma {:induction false} SameDigestSameEntry(table: Table, x: Entry, y: Entry)
    requires Distinct(table) && x in table && y in table && x.digest == y.digest
    ensures x == y
  {
    if x != table[0] && y != table[0] {
      SameDigestSameEntry(table[1..], x, y);
    }
  }

  /** A login evicts one session at most: it never grows a table past the bound, nor shrinks an
      overfull one. */
  lemma LoginKeepsTheBound(config: Config, table: Table, e: Entry, previous: Option<string>)
    requires config.Valid() && Distinct(table)
    ensures Distinct(LoggedIn(config, table, e, previous))
    ensures |LoggedIn(config, table, e, previous)| <= Max(config.maxSessions, |table|)
  {
    var live := Live(config, table, e.createdAt);
    LiveKeepsDistinct(config, table, e.createdAt);
    var kept := if previous.Some? then Pop(live, previous.value) else live;
    if previous.Some? {
      PopKeepsDistinct(live, previous.value);
    }
    if |kept| >= config.maxSessions {
      PopKeepsDistinct(kept, kept[Oldest(kept)].digest);
    }
    PutIsAnAssignment(Evicted(config, kept), e);
  }

  /** Whatever is asked and whether or not the store can be written: memory and store stay equal, and
      the table grows past neither the configured number of sessions nor what it held. */
  lemma ServingKeepsTheBound(config: Config, g: State, request: Request, now: real)
    requires config.Valid() && Agrees(g)
    ensures Agrees(Serve(config, g, request, now).0)
    ensures |Serve(config, g, request, now).0.sessions| <= Max(config.maxSessions, |g.sessions|)
  {
    match request
    case Login(digest, username, previous, writes) =>
      LoginKeepsTheBound(config, g.sessions, Entry(digest, username, now), previous);
    case Check(_) =>
    case Logout(digest, writes) =>
      LiveKeepsDistinct(config, g.sessions, now);
      PopKeepsDistinct(Live(config, g.sessions, now), digest);
  }

  datatype Timed = Timed(request: Request, now: real)

  predicate ClockRuns(from: real, requests: seq<Timed>)
    decreases |requests|
  {
    requests != [] ==> from <= requests[0].now && ClockRuns(requests[0].now, requests[1..])
  }

  function Run(config: Config, g: State, requests: seq<Timed>): (end: (State, seq<Response>))
    requires config.Valid()
    decreases |requests|
  {
    if requests == [] then (g, [])
    else
      var served := Serve(config, g, requests[0].request, requests[0].now);
      var rest := Run(config, served.0, requests[1..]);
      (rest.0, [served.1] + rest.1)
  }

  lemma {:induction false} RunsKeepTheBound(config: Config, g: State, requests: seq<Timed>)
    requires config.Valid() && Agrees(g)
    ensures Agrees(Run(config, g, requests).0)
    ensures |Run(config, g, requests).0.sessions| <= Max(config.maxSessions, |g.sessions|)
    decreases |requests|
  {
    hide Serve;
    hide Agrees;
    if requests == [] {
    } else {
      ServingKeepsTheBound(config, g, requests[0].request, requests[0].now);
      RunsKeepTheBound(config, Serve(config, g, requests[0].request, requests[0].now).0, requests[1..]);
    }
  }

  /** From a start, the configured number of sessions is never exceeded exactly when the store holds no
      more live sessions than that: starting purges the expired ones but evicts none. */
  lemma TheBoundHoldsExactlyWhenTheStoreFits(config: Config, store: Table, now: real)
    requires config.Valid() && Distinct(store)
    ensures var g := Start(config, store, now, true).value;
            && Agrees(g)
            && ((forall requests :: |Run(config, g, requests).0.sessions| <= config.maxSessions)
                <==> |Live(config, store, now)| <= config.maxSessions)
  {
    var g := Start(config, store, now, true).value;
    LiveKeepsDistinct(config, store, now);
    if |g.sessions| <= config.maxSessions {
      forall requests: seq<Timed>
        ensures |Run(config, g, requests).0.sessions| <= config.maxSessions
      {
        RunsKeepTheBound(config, g, requests);
      }
    } else {
      assert Run(config, g, []).0 == g;
    }
  }

  /** An overfull store is real: a bound of one, two live sessions at the start, and two after a login. */
  lemma AnOverfullStoreStaysOverfull()
    ensures var config, store := Config(100.0, 1), [Entry("a", "u", 0.0), Entry("b", "v", 0.0)];
            var g := Start(config, store, 1.0, true).value;
            && Distinct(store) && |g.sessions| == 2
            && |Serve(config, g, Login("c", "w", None, true), 2.0).0.sessions| == 2
  {
    var config, a, b, c := Config(100.0, 1), Entry("a", "u", 0.0), Entry("b", "v", 0.0), Entry("c", "w", 2.0);
    assert [a, b][1..] == [b] && [b][1..] == [];
    assert Live(config, [b], 1.0) == [b] && Live(config, [a, b], 1.0) == [a, b];
    assert Live(config, [b], 2.0) == [b] && Live(config, [a, b], 2.0) == [a, b];
    assert Oldest([a, b]) == 0;
    assert Pop([b], "a") == [b] && Pop([a, b], "a") == [b];
    assert Put([], c) == [c];
    assert Put([b], c) == [b, c];
    assert LoggedIn(config, [a, b], c, None) == [b, c];
  }

  // ---- restarts ----

  /** Two gateways that hold the same live sessions, in the same order, from `now` on. */
  ghost predicate Twins(config: Config, a: State, b: State, now: real)
  {
    Live(config, a.sessions, now) == Live(config, b.sessions, now)
  }

  lemma TwinsStayTwins(config: Config, a: State, b: State, now: real, later: real)
    requires Twins(config, a, b, now) && now <= later
    ensures Twins(config, a, b, later)
  {
    LaterLive(config, a.sessions, now, later);
    LaterLive(config, b.sessions, now, later);
  }

  lemma LiveDigests(config: Config, table: Table, digest: string, now: real)
    ensures (exists e :: e in table && e.digest == digest && IsLive(config, e, now)) <==>
            Has(Live(config, table, now), digest)
  {}

  /** A logout, where the table changes, leaves the live sessions but that one; where it does not, the
      session was not live. Either way the live sessions after it depend on the live ones before only. */
  lemma LogoutSeesOnlyTheLive(config: Config, g: State, digest: string, now: real)
    requires config.Valid()
    ensures Live(config, Serve(config, g, Logout(digest, true), now).0.sessions, now)
            == Pop(Live(config, g.sessions, now), digest)
  {
    var live := Live(config, g.sessions, now);
    if Has(g.sessions, digest) {
      AllLiveStay(config, Pop(live, digest), now);
    } else {
      PopOfAbsent(live, digest);
    }
  }

  lemma {:induction false} AllLiveStay(config: Config, table: Table, now: real)
    requires forall e :: e in table ==> IsLive(config, e, now)
    ensures Live(config, table, now) == table
  {
    if table == [] {
    } else {
      assert table[0] in table && forall e :: e in table[1..] ==> e in table;
      AllLiveStay(config, table[1..], now);
    }
  }

  lemma {:induction false} PopOfAbsent(table: Table, digest: string)
    requires forall e :: e in table ==> e.digest != digest
    ensures Pop(table, digest) == table
  {
    if table == [] {
    } else {
      assert table[0] in table && forall e :: e in table[1..] ==> e in table;
      PopOfAbsent(table[1..], digest);
    }
  }

  /** A logout whose write fails, of a session only one of the two still lists. */
  predicate OneSidedLogout(a: State, b: State, request: Request)
  {
    request.Logout? && !request.writes && Has(a.sessions, request.digest) != Has(b.sessions, request.digest)
  }

  /** One request to two twins: the same answer, the same table after a login, evictions and ties
      included, and twins again. Only a logout that cannot be written can answer differently, and only
      where one of them still lists the expired session. */
  lemma TwinsAnswerAlike(config: Config, a: State, b: State, request: Request, now: real)
    requires config.Valid() && Twins(config, a, b, now)
    ensures var x, y := Serve(config, a, request, now), Serve(config, b, request, now);
            && Twins(config, x.0, y.0, now)
            && (request.Login? && request.writes ==> x.0 == y.0)
            && (x.1 == y.1 <==> !OneSidedLogout(a, b, request))
            && (x.1 != y.1 ==> !Has(Live(config, a.sessions, now), request.digest)
                               && !Has(Live(config, b.sessions, now), request.digest))
  {
    match request
    case Login(_, _, _, _) =>
    case Check(digest) =>
      LiveDigests(config, a.sessions, digest, now);
      LiveDigests(config, b.sessions, digest, now);
    case Logout(digest, writes) =>
      LiveDigests(config, a.sessions, digest, now);
      LiveDigests(config, b.sessions, digest, now);
      LogoutSeesOnlyTheLive(config, a, digest, now);
      LogoutSeesOnlyTheLive(config, b, digest, now);
  }

  function StateAt(config: Config, g: State, requests: seq<Timed>, i: nat): (state: State)
    requires config.Valid() && i <= |requests|
  {
    Run(config, g, requests[..i]).0
  }

  /** Answer by answer, the two differ exactly where a logout is one-sided, and then the session it names
      has expired. */
  ghost predicate AlikeButOneSided(config: Config, a: State, b: State, requests: seq<Timed>)
    requires config.Valid()
  {
    var x, y := Run(config, a, requests).1, Run(config, b, requests).1;
    && |x| == |y| == |requests|
    && forall i :: 0 <= i < |requests| ==>
         var s, t := StateAt(config, a, requests, i), StateAt(config, b, requests, i);
         && (x[i] == y[i] <==> !OneSidedLogout(s, t, requests[i].request))
         && (OneSidedLogout(s, t, requests[i].request) ==>
               && !Has(Live(config, s.sessions, requests[i].now), requests[i].request.digest)
               && !Has(Live(config, t.sessions, requests[i].now), requests[i].request.digest))
  }

  lemma StateAfterTheFirst(config: Config, g: State, requests: seq<Timed>, i: nat)
    requires config.Valid() && 0 < i <= |requests|
    ensures StateAt(config, g, requests, i)
            == StateAt(config, Serve(config, g, requests[0].request, requests[0].now).0, requests[1..], i - 1)
  {
    hide Serve;
    assert requests[..i][1..] == requests[1..][..i - 1];
  }

  lemma {:induction false} TwinsRunAlike(config: Config, a: State, b: State, now: real, requests: seq<Timed>)
    requires config.Valid() && Twins(config, a, b, now) && ClockRuns(now, requests)
    ensures AlikeButOneSided(config, a, b, requests)
    ensures Twins(config, Run(config, a, requests).0, Run(config, b, requests).0,
                  if requests == [] then now else requests[|requests| - 1].now)
    decreases |requests|
  {
    hide Serve;
    hide Twins;
    hide Live;
    hide Has;
    hide StateAt;
    if requests == [] {
    } else {
      var at := requests[0].now;
      TwinsStayTwins(config, a, b, now, at);
      TwinsAnswerAlike(config, a, b, requests[0].request, at);
      var x, y := Serve(config, a, requests[0].request, at), Serve(config, b, requests[0].request, at);
      TwinsRunAlike(config, x.0, y.0, at, requests[1..]);
      forall i | 0 <= i < |requests|
        ensures var s, t := StateAt(config, a, requests, i), StateAt(config, b, requests, i);
                && (Run(config, a, requests).1[i] == Run(config, b, requests).1[i] <==>
                    !OneSidedLogout(s, t, requests[i].request))
                && (OneSidedLogout(s, t, requests[i].request) ==>
                      && !Has(Live(config, s.sessions, requests[i].now), requests[i].request.digest)
                      && !Has(Live(config, t.sessions, requests[i].now), requests[i].request.digest))
      {
        if i == 0 {
          StateAtTheStart(config, a, requests);
          StateAtTheStart(config, b, requests);
        } else {
          StateAfterTheFirst(config, a, requests, i);
          StateAfterTheFirst(config, b, requests, i);
          assert requests[1..][i - 1] == requests[i];
          assert Run(config, a, requests).1[i] == Run(config, x.0, requests[1..]).1[i - 1];
          assert Run(config, b, requests).1[i] == Run(config, y.0, requests[1..]).1[i - 1];
        }
      }
    }
  }

  lemma StateAtTheStart(config: Config, g: State, requests: seq<Timed>)
    requires config.Valid()
    ensures StateAt(config, g, requests, 0) == g
  {}

  /** A restart at any moment is invisible: whatever is asked afterwards, the restarted gateway answers
      as the running one would have, but for a failing logout of an expired session that only one of
      them still lists. */
  lemma RestartsAreTransparent(config: Config, g: State, now: real, requests: seq<Timed>)
    requires config.Valid() && Agrees(g) && ClockRuns(now, requests)
    ensures AlikeButOneSided(config, g, Start(config, g.store, now, true).value, requests)
  {
    LaterLive(config, g.sessions, now, now);
    TwinsRunAlike(config, g, Start(config, g.store, now, true).value, now, requests);
  }

  /** The exception is real: logging out an expired session while the store cannot be written fails on
      the running gateway, and succeeds after a restart has purged it. */
  lemma ExpiredLogoutCanDiffer()
    ensures var config, e := Config(10.0, 4), Entry("d", "user", 0.0);
            var g := State([e], [e]);
            var restarted := Start(config, g.store, 20.0, true).value;
            && Agrees(g)
            && Serve(config, g, Logout("d", false), 20.0).1 == Raised
            && Serve(config, restarted, Logout("d", false), 20.0).1 == Served(true)
  {
    var e := Entry("d", "user", 0.0);
    assert [e][0].digest == "d" && [e][1..] == [];
    assert Live(Config(10.0, 4), [e], 20.0) == [];
  }

  // ---- how long a session lasts ----

  /** A request that is answered with an exception is one whose write failed, and it changes nothing. */
  lemma FailedWritesChangeNothing(config: Config, g: State, request: Request, now: real)
    requires config.Valid()
    ensures var (next, response) := Serve(config, g, request, now);
            && (response.Raised? <==>
                  (request.Login? && !request.writes)
                  || (request.Logout? && !request.writes && Has(g.sessions, request.digest)))
            && (response.Raised? || request.Check? ==> next == g)
  {
    hide LoggedIn;
    hide Live;
    hide Pop;
  }

  /** The live sessions a login keeps before making room. */
  function KeptBy(config: Config, table: Table, request: Request, now: real): (kept: Table)
    requires request.Login?
  {
    if request.previous.Some? then Pop(Live(config, table, now), request.previous.value) else Live(config, table, now)
  }

  /** A written request that ends this session: its own logout, a login that replaces it, or one for which it is the
      first of the oldest in a full table. */
  predicate Ends(config: Config, g: State, request: Request, now: real, e: Entry)
    requires config.Valid()
  {
    match request
    case Check(_) => false
    case Logout(digest, writes) => writes && digest == e.digest
    case Login(_, _, previous, writes) =>
      writes && (previous == Some(e.digest)
                 || var kept := KeptBy(config, g.sessions, request, now);
                    |kept| >= config.maxSessions && kept[Oldest(kept)] == e)
  }

  lemma EvictingTakesOne(config: Config, kept: Table, e: Entry)
    requires config.Valid() && Distinct(kept) && e in kept
    ensures e !in Evicted(config, kept) <==> |kept| >= config.maxSessions && kept[Oldest(kept)] == e
  {
    hide Oldest;
    hide Distinct;
    if |kept| >= config.maxSessions && kept[Oldest(kept)].digest == e.digest {
      SameDigestSameEntry(kept, e, kept[Oldest(kept)]);
    }
  }

  /** A login leaves a session listed unless it has had its time, or the login replaces it or makes room with it. */
  lemma LoginEndsExactlyWhen(config: Config, table: Table, request: Request, now: real, e: Entry)
    requires config.Valid() && Distinct(table) && e in table && request.Login? && request.digest != e.digest
    ensures var kept := KeptBy(config, table, request, now);
            var next := LoggedIn(config, table, Entry(request.digest, request.username, now), request.previous);
            && (forall x :: x in next ==> x == Entry(request.digest, request.username, now) || x in table)
            && (e in next <==>
                  && now - e.createdAt < config.lifetime && request.previous != Some(e.digest)
                  && !(|kept| >= config.maxSessions && kept[Oldest(kept)] == e))
  {
    hide Put;
    hide Oldest;
    hide Distinct;
    hide Live;
    hide Pop;
    LiveKeepsDistinct(config, table, now);
    var kept := KeptBy(config, table, request, now);
    if request.previous.Some? {
      PopKeepsDistinct(Live(config, table, now), request.previous.value);
    }
    if e in kept {
      EvictingTakesOne(config, kept, e);
    }
    MakingRoomTakesTheOldest(config, kept);
    hide Evicted;
    PutIsAnAssignment(Evicted(config, kept), Entry(request.digest, request.username, now));
  }

  /** One request: a listed session stays listed unless the request ends it, or it has had its time and the table is
      written; no other entry takes its digest. */
  lemma ServingEndsExactlyWhen(config: Config, g: State, request: Request, now: real, e: Entry)
    requires config.Valid() && Distinct(g.sessions) && e in g.sessions
    requires request.Login? ==> request.digest != e.digest
    ensures var after := Serve(config, g, request, now).0.sessions;
            && (e in after ==> !Ends(config, g, request, now, e))
            && (e !in after ==> Ends(config, g, request, now, e) || now - e.createdAt >= config.lifetime)
  {
    hide LoggedIn;
    hide KeptBy;
    hide Oldest;
    hide Distinct;
    hide Live;
    hide Pop;
    if request.Login? {
      LoginEndsExactlyWhen(config, g.sessions, request, now, e);
    } else if request.Logout? {
      assert request.digest == e.digest ==> Has(g.sessions, request.digest);
    }
  }

  lemma ServingKeepsDistinct(config: Config, g: State, request: Request, now: real)
    requires config.Valid() && Distinct(g.sessions)
    ensures Distinct(Serve(config, g, request, now).0.sessions)
    ensures forall x :: x in Serve(config, g, request, now).0.sessions ==>
              x in g.sessions || (request.Login? && x.digest == request.digest)
  {
    hide Distinct;
    hide Oldest;
    match request
    case Check(_) =>
    case Logout(digest, writes) =>
      LiveKeepsDistinct(config, g.sessions, now);
      PopKeepsDistinct(Live(config, g.sessions, now), digest);
    case Login(digest, username, previous, writes) =>
      var e := Entry(digest, username, now);
      LoginKeepsTheBound(config, g.sessions, e, previous);
      var kept := KeptBy(config, g.sessions, request, now);
      LiveKeepsDistinct(config, g.sessions, now);
      if previous.Some? {
        PopKeepsDistinct(Live(config, g.sessions, now), previous.value);
      }
      MakingRoomTakesTheOldest(config, kept);
      PutIsAnAssignment(Evicted(config, kept), e);
  }

  /** A digest nobody has logged in with is never accepted. */
  lemma {:induction false} StrangersAreRefused(config: Config, g: State, requests: seq<Timed>, now: real,
                                               digest: string)
    requires config.Valid() && Distinct(g.sessions) && !Has(g.sessions, digest)
    requires forall i :: 0 <= i < |requests| && requests[i].request.Login? ==> requests[i].request.digest != digest
    ensures Serve(config, Run(config, g, requests).0, Check(digest), now).1 == Served(false)
    decreases |requests|
  {
    if requests == [] {
    } else {
      hide Serve;
      hide Distinct;
      ServingKeepsDistinct(config, g, requests[0].request, requests[0].now);
      var next := Serve(config, g, requests[0].request, requests[0].now).0;
      assert forall i :: 0 <= i < |requests[1..]| ==> requests[1..][i] == requests[i + 1];
      StrangersAreRefused(config, next, requests[1..], now, digest);
    }
  }

  lemma {:induction false} ClockReaches(from: real, requests: seq<Timed>)
    requires ClockRuns(from, requests) && requests != []
    ensures requests[0].now <= requests[|requests| - 1].now
    decreases |requests|
  {
    if |requests| > 1 {
      ClockReaches(requests[0].now, requests[1..]);
    }
  }

  ghost predicate NothingEnds(config: Config, g: State, requests: seq<Timed>, e: Entry)
    requires config.Valid()
  {
    forall i :: 0 <= i < |requests| ==>
      !Ends(config, StateAt(config, g, requests, i), requests[i].request, requests[i].now, e)
  }

  lemma NothingEndsSplits(config: Config, g: State, requests: seq<Timed>, e: Entry)
    requires config.Valid() && requests != []
    ensures NothingEnds(config, g, requests, e) <==>
              && !Ends(config, g, requests[0].request, requests[0].now, e)
              && NothingEnds(config, Serve(config, g, requests[0].request, requests[0].now).0, requests[1..], e)
  {
    hide Ends;
    hide Serve;
    hide StateAt;
    StateAtTheStart(config, g, requests);
    var next := Serve(config, g, requests[0].request, requests[0].now).0;
    forall i | 0 < i < |requests|
      ensures StateAt(config, g, requests, i) == StateAt(config, next, requests[1..], i - 1)
      ensures requests[i] == requests[1..][i - 1]
    {
      StateAfterTheFirst(config, g, requests, i);
    }
    if NothingEnds(config, g, requests, e) {
      assert !Ends(config, StateAt(config, g, requests, 0), requests[0].request, requests[0].now, e);
      forall i | 0 <= i < |requests[1..]|
        ensures var state, timed := StateAt(config, next, requests[1..], i), requests[1..][i];
                !Ends(config, state, timed.request, timed.now, e)
      {
        assert requests[1..][i] == requests[i + 1];
        assert StateAt(config, g, requests, i + 1) == StateAt(config, next, requests[1..], i + 1 - 1);
      }
    }
  }

  /** Over every run: a session is accepted exactly while it has had less than its lifetime since it was created and no
      request has ended it. */
  lemma {:induction false} SessionsLastTheirLifetime(config: Config, g: State, from: real, requests: seq<Timed>,
                                                     now: real, e: Entry)
    requires config.Valid() && Distinct(g.sessions) && ClockRuns(from, requests) && e in g.sessions
    requires requests != [] ==> requests[|requests| - 1].now <= now
    requires forall i :: 0 <= i < |requests| && requests[i].request.Login? ==> requests[i].request.digest != e.digest
    ensures Serve(config, Run(config, g, requests).0, Check(e.digest), now).1
            == Served(now - e.createdAt < config.lifetime && NothingEnds(config, g, requests, e))
    decreases |requests|
  {
    if requests == [] {
      forall x | x in g.sessions && x.digest == e.digest
        ensures x == e
      {
        SameDigestSameEntry(g.sessions, x, e);
      }
    } else {
      var request, at, rest := requests[0].request, requests[0].now, requests[1..];
      ClockReaches(from, requests);
      ServingKeepsDistinct(config, g, request, at);
      ServingEndsExactlyWhen(config, g, request, at, e);
      NothingEndsSplits(config, g, requests, e);
      hide Ends;
      hide NothingEnds;
      hide Distinct;
      assert forall i :: 0 <= i < |rest| ==> rest[i] == requests[i + 1];
      var next := Serve(config, g, request, at).0;
      if e in next.sessions {
        hide Serve;
        SessionsLastTheirLifetime(config, next, at, rest, now, e);
      } else {
        forall x | x in next.sessions
          ensures x.digest != e.digest
        {
          if x in g.sessions && x.digest == e.digest {
            SameDigestSameEntry(g.sessions, x, e);
          }
        }
        hide Serve;
        StrangersAreRefused(config, next, rest, now, e.digest);
      }
    }
  }

  /** From the login on: the token of a login that was written is accepted exactly for the configured lifetime, or until
      a request ends its session. */
  lemma LoginsLastTheirLifetime(config: Config, g: State, login: Timed, requests: seq<Timed>, now: real)
    requires config.Valid() && Distinct(g.sessions) && login.request.Login? && login.request.writes
    requires !Has(g.sessions, login.request.digest) && ClockRuns(login.now, requests)
    requires login.now <= now && (requests != [] ==> requests[|requests| - 1].now <= now)
    requires forall i :: 0 <= i < |requests| && requests[i].request.Login? ==>
               requests[i].request.digest != login.request.digest
    ensures var digest, e := login.request.digest, Entry(login.request.digest, login.request.username, login.now);
            var loggedIn := Serve(config, g, login.request, login.now).0;
            Serve(config, Run(config, loggedIn, requests).0, Check(digest), now).1
            == Served(now - login.now < config.lifetime && NothingEnds(config, loggedIn, requests, e))
  {
    hide LoggedIn;
    hide Distinct;
    hide Run;
    var e := Entry(login.request.digest, login.request.username, login.now);
    var loggedIn := Serve(config, g, login.request, login.now).0;
    LoginEvictsOnlyTheOldest(config, g.sessions, e, login.request.previous);
    ServingKeepsDistinct(config, g, login.request, login.now);
    SessionsLastTheirLifetime(config, loggedIn, login.now, requests, now, e);
  }

  // ---- the object ----

  class GatewayState {
    const config: Config
    var sessions: Table
    var store: Table

    function View(): (g: State)
      reads this
    {
      State(sessions, store)
    }

    constructor (config: Config, store: Table, now: real)
      ensures this.config == config && Some(View()) == Start(config, store, now, true)
    {
      this.config := config;
      sessions := Live(config, store, now);
      this.store := Live(config, store, now);
    }

    /** The store first; memory follows only if it took the change. */
    method CommitLocked(table: Table, writes: bool) returns (response: Response)
      modifies this
      ensures (View(), response) == Commit(old(View()), table, writes)
    {
      if !writes {
        return Raised;
      }
      store := table;
      sessions := table;
      return Served(true);
    }

    method CreateSession(digest: string, username: string, previous: Option<string>, now: real,
                         writes: bool) returns (response: Response)
      requires config.Valid()
      modifies this
      ensures (View(), response) == Serve(config, old(View()), Login(digest, username, previous, writes), now)
    {
      var table := Live(config, sessions, now);
      if previous.Some? {
        table := Pop(table, previous.value);
      }
      if |table| >= config.maxSessions {
        var oldest := FindOldest(table);
        table := Pop(table, table[oldest].digest);
      }
      table := Put(table, Entry(digest, username, now));
      response := CommitLocked(table, writes);
    }

    method FindOldest(table: Table) returns (oldest: nat)
      requires table != []
      ensures oldest == Oldest(table)
    {
      oldest := 0;
      for i := 1 to |table|
        invariant oldest < i
        invariant forall j :: 0 <= j < i ==> table[oldest].createdAt <= table[j].createdAt
        invariant forall j :: 0 <= j < oldest ==> table[oldest].createdAt < table[j].createdAt
      {
        if table[i].createdAt < table[oldest].createdAt {
          oldest := i;
        }
      }
    }

    /** A token is accepted exactly while its session is among the live ones. */
    method CheckSession(digest: string, now: real) returns (accepted: bool)
      requires config.Valid() && Distinct(sessions)
      ensures accepted <==> Has(Live(config, sessions, now), digest)
      ensures Served(accepted) == Serve(config, View(), Check(digest), now).1
    {
      LiveDigests(config, sessions, digest, now);
      var i := 0;
      while i < |sessions| && sessions[i].digest != digest
        invariant 0 <= i <= |sessions|
        invariant forall j :: 0 <= j < i ==> sessions[j].digest != digest
      {
        i := i + 1;
      }
      if i == |sessions| {
        return false;
      }
      accepted := now - sessions[i].createdAt < config.lifetime;
      forall e | e in sessions && e.digest == digest
        ensures e == sessions[i]
      {
        SameDigestSameEntry(sessions, e, sessions[i]);
      }
    }

    method RemoveSession(digest: string, now: real, writes: bool) returns (response: Response)
      requires config.Valid()
      modifies this
      ensures (View(), response) == Serve(config, old(View()), Logout(digest, writes), now)
    {
      if !Has(sessions, digest) {
        return Served(true);
      }
      response := CommitLocked(Pop(Live(config, sessions, now), digest), writes);
    }
  }
}
