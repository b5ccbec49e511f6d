// A request comes to its end: syncing again is bounded by the to-device events to come, and nothing gets stuck.
module Termination {
  import opened Wrappers
  import opened Events
  import opened SyncResponses
  import opened SyncStore
  import opened ServerLog
  import opened Crypto
  import opened EventDecryption
  import opened SyncService
  import opened BackgroundSync
  import opened ChainSafety

  // ---- Rank ----

  /** To-device events that a sync from this token can still bring. */
  function Pending(log: seq<Entry>, from: Token): nat
    decreases |log| - from
  {
    if from >= |log| then 0 else (if log[from].ToDevice? then 1 else 0) + Pending(log, from + 1)
  }

  lemma {:induction false} PendingShrinks(log: seq<Entry>, from: Token, to: Token)
    requires from <= to <= |log|
    ensures Pending(log, to) <= Pending(log, from)
    ensures (exists p :: from <= p < to && log[p].ToDevice?) ==> Pending(log, to) < Pending(log, from)
    decreases |log| - from
  {
    if from < to {
      PendingShrinks(log, from + 1, to);
      if p :| from <= p < to && log[p].ToDevice? {
        assert p == from || from + 1 <= p < to;
      }
    }
  }

  datatype Rank = Rank(pending: nat, stage: nat, toDevice: nat)

  predicate Less(a: Rank, b: Rank) {
    || a.pending < b.pending
    || (a.pending == b.pending && a.stage < b.stage)
    || (a.pending == b.pending && a.stage == b.stage && a.toDevice < b.toDevice)
  }

  /** How far the current request is from its completion. */
  function RankOf(log: seq<Entry>, l: Local): Rank {
    match l.service.stage
    case Syncing(_, from) => Rank(Pending(log, from), 3, 0)
    case Harvesting(_, toDevice, carried) =>
      if carried then Rank(Pending(log, LaunchToken(l).Or(|log|)), 4, |toDevice|) else Rank(0, 2, |toDevice|)
    case Fetching(_) => Rank(0, 1, 0)
    case _ => Rank(0, 0, 0)
  }

  // The steps of the request in progress, up to its result.
  predicate OfRequest(a: Action) {
    a.SyncReply? || a.SyncFails? || a.HarvestNext? || a.ContinueRequest? || a.EventReply?
  }

  lemma AskEnds(o: Oracle, log: seq<Entry>, l: Local, r: Request)
    requires l.service.Valid()
    ensures RankOf(log, Ask(o, l, r, false)).pending == 0 && RankOf(log, Ask(o, l, r, false)).stage <= 1
  {
    AskProgress(o, l, r, false);
    hide Ask, Keeps, LaunchToken;
  }

  lemma FetchedEnds(o: Oracle, log: seq<Entry>, l: Local, reply: Option<MXEvent>)
    requires l.service.Valid() && l.service.stage.Fetching?
             && l.service.stage.request.eventId !in l.service.cachedEvents
    ensures Less(RankOf(log, Fetched(o, l, reply)), RankOf(log, l))
  {
    FetchedProgress(o, l, reply);
    hide Fetched, Keeps, LaunchToken;
    assert !Fetched(o, l, reply).service.stage.Fetching? by {
      FetchedStage(o, l, reply);
    }
  }

  lemma FetchedStage(o: Oracle, l: Local, reply: Option<MXEvent>)
    requires l.service.Valid() && l.service.stage.Fetching?
    ensures Fetched(o, l, reply).service.stage.Completing?
  {
    hide Launch, CanDecrypt, Decrypt;
  }

  lemma ContinueEnds(o: Oracle, log: seq<Entry>, l: Local)
    requires l.service.Valid() && l.service.stage.Harvesting?
    ensures Less(RankOf(log, Continue(o, l)), RankOf(log, l))
  {
    hide Ask, LaunchToken, Lookup;
    AskEnds(o, log, l, l.service.stage.request);
  }

  lemma ReplyEnds(s: System, r: SyncResponse, small: bool, newId: nat)
    requires Inv(s) && Enabled(s, SyncReply(r, small, newId))
    ensures Less(RankOf(s.log, Receive(LocalOf(s), r, small, newId)), RankOf(s.log, LocalOf(s)))
  {
    var from := s.service.value.stage.from;
    UpdateExtendsChain(s.store, r, from, small, newId);
    hide Chained, Update, NextSyncToken, SentBefore;
    PendingShrinks(s.log, from, r.nextBatch);
    if r.toDevice != [] {
      assert SentBetween(s.log, from, r.nextBatch, r.toDevice[0]);
    }
  }

  lemma HarvestEnds(o: Oracle, log: seq<Entry>, l: Local)
    requires l.service.stage.Harvesting? && l.service.stage.toDevice != [] && l.service.stage.toDevice[0].clear.None?
    ensures var (service, stores) := Harvest(o, l);
            service.Some? ==> Less(RankOf(log, Local(service.value, l.store, stores)), RankOf(log, l))
  {
    hide HandleToDevice;
  }

  /** Every step of the request in progress brings it closer to its result, or crashes the service. */
  lemma RequestStepsDecrease(o: Oracle, s: System, a: Action)
    requires Inv(s) && Enabled(s, a) && OfRequest(a)
    ensures var s' := Next(o, s, a);
            s'.log == s.log && (s'.service.Some? ==> Less(RankOf(s.log, LocalOf(s')), RankOf(s.log, LocalOf(s))))
  {
    assert ServiceSound(s);
    match a {
      case SyncReply(r, small, newId) => ReplyEnds(s, r, small, newId);
      case EventReply(e) => FetchedEnds(o, s.log, LocalOf(s), e);
      case ContinueRequest => ContinueEnds(o, s.log, LocalOf(s));
      case HarvestNext => HarvestEnds(o, s.log, LocalOf(s));
      case SyncFails =>
    }
    hide Inv, RankOf, Receive, Fetched, Continue, Harvest, Reply;
    if a.SyncFails? {
      FailureEnds(s.log, LocalOf(s));
    }
  }

  lemma FailureEnds(log: seq<Entry>, l: Local)
    requires l.service.stage.Syncing?
    ensures Less(RankOf(log, SyncService.At(l, Completing(l.service.stage.request, Failure(Network)))), RankOf(log, l))
  {
  }

  /** Steps of everybody else that leave the request in progress as it is: the service's question reaching the
      homeserver, further calls, events in rooms, and all that the session does but its deletion. */
  predicate BesideRequest(a: Action) {
    a.ServiceAsks? || a.Call? || a.SessionAsks? || a.SessionSyncs? || a.HandleCache? || a.StartDeletion?
      || a.SessionStops?
    || (a.Append? && a.entry.InRoom?)
  }

  lemma {:induction false} RoomEntryBringsNothing(log: seq<Entry>, entry: Entry, from: Token)
    requires entry.InRoom?
    ensures Pending(log + [entry], from) == Pending(log, from)
    decreases |log| - from
  {
    if from < |log| {
      RoomEntryBringsNothing(log, entry, from + 1);
    } else if from == |log| {
      assert Pending(log + [entry], from + 1) == 0;
    }
  }

  lemma RoomEntryKeepsRank(log: seq<Entry>, entry: Entry, l: Local)
    requires entry.InRoom?
    ensures RankOf(log + [entry], l) == RankOf(log, l)
  {
    match l.service.stage {
      case Syncing(_, from) => RoomEntryBringsNothing(log, entry, from);
      case Harvesting(_, _, _) =>
        if LaunchToken(l).Some? {
          RoomEntryBringsNothing(log, entry, LaunchToken(l).value);
        }
      case _ =>
    }
    hide LaunchToken;
  }

  lemma BesideKeepsRank(o: Oracle, s: System, a: Action)
    requires Enabled(s, a) && BesideRequest(a)
    ensures var s' := Next(o, s, a);
            && s'.store == s.store && (s'.service.Some? <==> s.service.Some?)
            && (s.service.Some? ==>
                  var v, v' := s.service.value, s'.service.value;
                  (v'.stage, v'.syncs, v'.snapshot) == (v.stage, v.syncs, v.snapshot)
                  && RankOf(s'.log, LocalOf(s')) == RankOf(s.log, LocalOf(s)))
  {
    hide Begin, Receive, Harvest, Fetched, Continue, HandleCached, Reply, ReplayRooms, Pending, NextSyncToken;
    if a.Append? && s.service.Some? {
      RoomEntryKeepsRank(s.log, a.entry, LocalOf(s));
    }
  }

  // ---- Endless histories ----

  // What can put a request back: new to-device events, and a session that deletes the end of the chain.
  predicate Disturbs(a: Action) {
    (a.Append? && a.entry.ToDevice?) || a.DeleteNext? || a.FinishDeletion?
  }

  predicate StopsService(a: Action) {
    a.ServiceStops? || a.WriteCutOff?
  }

  // The n-th step of an endless history is any, but those that lead on to another request.
  ghost predicate GoesOn(o: Oracle, history: nat -> System, actions: nat -> Action, n: nat) {
    var s, a := history(n), actions(n);
    Enabled(s, a) && history(n + 1) == Next(o, s, a) && !a.Deliver? && !a.BeginRequest? && !a.Init?
  }

  ghost predicate UndisturbedFrom(actions: nat -> Action, n: nat) {
    forall m: nat | m >= n :: !Disturbs(actions(m))
  }

  ghost predicate RequestRests(actions: nat -> Action, n: nat) {
    forall m: nat | m >= n :: !OfRequest(actions(m))
  }

  lemma {:induction false} InvUntil(o: Oracle, history: nat -> System, actions: nat -> Action, n: nat)
    requires Inv(history(0)) && forall i: nat :: GoesOn(o, history, actions, i)
    ensures Inv(history(n))
  {
    if n > 0 {
      InvUntil(o, history, actions, n - 1);
      assert GoesOn(o, history, actions, n - 1);
      StepKeeps(o, history(n - 1), actions(n - 1));
      hide Inv, Next, Enabled;
    }
  }

  lemma OtherSteps(a: Action)
    requires !a.Deliver? && !a.BeginRequest? && !a.Init?
    ensures OfRequest(a) || BesideRequest(a) || Disturbs(a) || StopsService(a)
  {
  }

  lemma StoppedIsGone(o: Oracle, s: System, a: Action)
    requires Enabled(s, a) && (StopsService(a) || s.service.None?) && !a.Init?
    ensures Next(o, s, a).service.None? && (s.service.None? ==> !OfRequest(a))
  {
    hide Reply, HandleCached, ReplayRooms;
  }

  lemma {:induction false} SameUntil(o: Oracle, history: nat -> System, actions: nat -> Action, n: nat, m: nat)
    requires n <= m && Inv(history(n)) && UndisturbedFrom(actions, n)
    requires forall i: nat :: GoesOn(o, history, actions, i)
    requires forall i: nat | n <= i < m :: !OfRequest(actions(i))
    ensures Inv(history(m))
    ensures history(m).service.Some? ==>
              history(n).service.Some? && RankOf(history(m).log, LocalOf(history(m)))
                == RankOf(history(n).log, LocalOf(history(n)))
    decreases m - n
  {
    if n < m {
      assert GoesOn(o, history, actions, n);
      OtherSteps(actions(n));
      StepKeeps(o, history(n), actions(n));
      hide Inv, Next, Enabled, RankOf, GoesOn;
      SameUntil(o, history, actions, n + 1, m);
      if BesideRequest(actions(n)) {
        BesideKeepsRank(o, history(n), actions(n));
      } else {
        StoppedIsGone(o, history(n), actions(n));
      }
    }
  }

  lemma FirstOfRequest(actions: nat -> Action, n: nat) returns (m: nat)
    requires !RequestRests(actions, n)
    ensures n <= m && OfRequest(actions(m)) && forall i: nat | n <= i < m :: !OfRequest(actions(i))
  {
    var k: nat :| k >= n && OfRequest(actions(k));
    m := n;
    while !OfRequest(actions(m))
      invariant n <= m <= k && forall i: nat | n <= i < m :: !OfRequest(actions(i))
      decreases k - m
    {
      m := m + 1;
    }
  }

  lemma RankDrops(o: Oracle, history: nat -> System, actions: nat -> Action, m: nat)
    requires Inv(history(m)) && history(m).service.Some? && GoesOn(o, history, actions, m) && OfRequest(actions(m))
    ensures Inv(history(m + 1))
    ensures history(m + 1).service.Some? ==>
              Less(RankOf(history(m + 1).log, LocalOf(history(m + 1))), RankOf(history(m).log, LocalOf(history(m))))
  {
    RequestStepsDecrease(o, history(m), actions(m));
    StepKeeps(o, history(m), actions(m));
    hide Inv, Next, Enabled, RankOf;
  }

  lemma {:induction false} RestsAfter(o: Oracle, history: nat -> System, actions: nat -> Action, n: nat, rank: Rank)
    requires Inv(history(n)) && UndisturbedFrom(actions, n) && forall i: nat :: GoesOn(o, history, actions, i)
    requires history(n).service.Some? && rank == RankOf(history(n).log, LocalOf(history(n)))
    ensures exists m: nat :: RequestRests(actions, m)
    decreases rank.pending, rank.stage, rank.toDevice
  {
    hide Inv, RankOf, GoesOn, RequestRests;
    if !RequestRests(actions, n) {
      var m := FirstOfRequest(actions, n);
      SameUntil(o, history, actions, n, m);
      if history(m).service.None? {
        NoServiceRests(o, history, actions, m);
      } else {
        RankDrops(o, history, actions, m);
        if history(m + 1).service.Some? {
          RestsAfter(o, history, actions, m + 1, RankOf(history(m + 1).log, LocalOf(history(m + 1))));
        } else {
          NoServiceRests(o, history, actions, m + 1);
        }
      }
    }
  }

  lemma {:induction false} NoServiceUntil(o: Oracle, history: nat -> System, actions: nat -> Action, n: nat, m: nat)
    requires n <= m && history(n).service.None? && forall i: nat :: GoesOn(o, history, actions, i)
    ensures history(m).service.None? && !OfRequest(actions(m))
    decreases m - n
  {
    assert GoesOn(o, history, actions, n);
    StoppedIsGone(o, history(n), actions(n));
    if n < m {
      hide Next, Enabled, GoesOn;
      NoServiceUntil(o, history, actions, n + 1, m);
    }
  }

  lemma NoServiceRests(o: Oracle, history: nat -> System, actions: nat -> Action, n: nat)
    requires history(n).service.None? && forall i: nat :: GoesOn(o, history, actions, i)
    ensures RequestRests(actions, n)
  {
    hide GoesOn;
    forall m: nat | m >= n ensures !OfRequest(actions(m)) {
      NoServiceUntil(o, history, actions, n, m);
    }
  }

  /** However often the service syncs again, whatever the homeserver replies, however many events arrive in rooms and
      whatever the session does meanwhile: when to-device events and deletions come only finitely often, the request in
      progress takes only finitely many steps. */
  lemma EveryRequestEnds(o: Oracle, history: nat -> System, actions: nat -> Action, last: nat)
    requires Inv(history(0)) && UndisturbedFrom(actions, last) && forall n: nat :: GoesOn(o, history, actions, n)
    ensures exists n: nat :: RequestRests(actions, n)
  {
    hide Inv, GoesOn;
    InvUntil(o, history, actions, last);
    if history(last).service.Some? {
      RestsAfter(o, history, actions, last, RankOf(history(last).log, LocalOf(history(last))));
    } else {
      NoServiceRests(o, history, actions, last);
    }
  }

  // The request waits for the network, or has to-device events to handle.
  predicate InProgress(s: System) {
    s.service.Some? && !s.service.value.stage.Idle? && !s.service.value.stage.Completing?
  }

  predicate Answered(s: System) {
    s.service.None? || s.service.value.stage.Completing?
  }

  // While the request waits, some later step is its own: each of its network calls is answered or fails at last.
  ghost predicate Served(history: nat -> System, actions: nat -> Action, n: nat) {
    InProgress(history(n)) ==> exists m: nat :: m >= n && OfRequest(actions(m))
  }

  lemma RequestStepsStayBusy(o: Oracle, s: System, a: Action)
    requires Inv(s) && Enabled(s, a) && OfRequest(a)
    ensures InProgress(Next(o, s, a)) || Answered(Next(o, s, a))
  {
    assert ServiceSound(s);
    hide Inv, Ask, Fetched, Lookup, Update, Reply, HandleToDevice, Begin, NextOfSession, NextSyncToken, Progress;
    match a {
      case ContinueRequest =>
        if !KeyMayCome(LocalOf(s)) {
          AskLeads(o, LocalOf(s), s.service.value.stage.request);
        }
      case EventReply(e) => FetchedStage(o, LocalOf(s), e);
      case _ =>
    }
  }

  lemma AskLeads(o: Oracle, l: Local, r: Request)
    requires l.service.Valid()
    ensures Ask(o, l, r, false).service.stage.Fetching? || Ask(o, l, r, false).service.stage.Completing?
  {
    AskProgress(o, l, r, false);
    hide Ask, Keeps, LaunchToken;
  }

  lemma OtherStepsStayBusy(o: Oracle, s: System, a: Action)
    requires Enabled(s, a) && !OfRequest(a) && !a.Deliver? && !a.BeginRequest? && !a.Init? && InProgress(s)
    ensures InProgress(Next(o, s, a)) || Answered(Next(o, s, a))
  {
    hide Reply, HandleCached, ReplayRooms, DeleteStep;
  }

  lemma {:induction false} BusyUntil(o: Oracle, history: nat -> System, actions: nat -> Action, n: nat)
    requires Inv(history(0)) && InProgress(history(0)) && forall i: nat :: GoesOn(o, history, actions, i)
    ensures InProgress(history(n)) || exists m: nat :: m <= n && Answered(history(m))
  {
    hide Inv;
    if n > 0 {
      BusyUntil(o, history, actions, n - 1);
      if InProgress(history(n - 1)) {
        assert GoesOn(o, history, actions, n - 1);
        InvUntil(o, history, actions, n - 1);
        if OfRequest(actions(n - 1)) {
          RequestStepsStayBusy(o, history(n - 1), actions(n - 1));
        } else {
          OtherStepsStayBusy(o, history(n - 1), actions(n - 1));
        }
      }
      hide InProgress, Answered, Next, Enabled;
    }
  }

  /** When moreover each network call of the request is answered or fails at last, the request gets its result, or the
      service is gone. */
  lemma EveryRequestIsAnswered(o: Oracle, history: nat -> System, actions: nat -> Action, last: nat)
    requires Inv(history(0)) && UndisturbedFrom(actions, last) && forall n: nat :: GoesOn(o, history, actions, n)
    requires InProgress(history(0)) && forall n: nat :: Served(history, actions, n)
    ensures exists n: nat :: Answered(history(n))
  {
    hide Inv, GoesOn, InProgress, Answered;
    EveryRequestEnds(o, history, actions, last);
    var n: nat :| RequestRests(actions, n);
    BusyUntil(o, history, actions, n);
    assert Served(history, actions, n);
  }

  // ---- How many syncs ----

  /** The syncs so far, and those that to-device events of the whole log can still cause. */
  function Syncs(log: seq<Entry>, l: Local): nat {
    match l.service.stage
    case Syncing(_, from) => l.service.syncs + Pending(log, from)
    case Harvesting(_, _, carried) => l.service.syncs + if carried then 1 + Pending(log, LaunchToken(l).Or(|log|))
      else 0
    case _ => l.service.syncs
  }

  lemma ReplySyncs(s: System, r: SyncResponse, small: bool, newId: nat, log: seq<Entry>)
    requires Inv(s) && Enabled(s, SyncReply(r, small, newId)) && s.log <= log
    ensures Syncs(log, Receive(LocalOf(s), r, small, newId)) <= Syncs(log, LocalOf(s))
  {
    var from := s.service.value.stage.from;
    UpdateExtendsChain(s.store, r, from, small, newId);
    hide Chained, Update, NextSyncToken, SentBefore;
    PendingShrinks(log, from, r.nextBatch);
    if r.toDevice != [] {
      assert SentBetween(s.log, from, r.nextBatch, r.toDevice[0]);
      var p :| from <= p < r.nextBatch && p < |s.log| && s.log[p] == ToDevice(r.toDevice[0]);
      assert log[p] == s.log[p];
    }
  }

  lemma ContinueSyncs(o: Oracle, log: seq<Entry>, l: Local)
    requires l.service.Valid() && l.service.stage.Harvesting?
    ensures Syncs(log, Continue(o, l)) <= Syncs(log, l)
  {
    hide Ask, LaunchToken, Lookup, Pending;
    if !KeyMayCome(l) {
      AskProgress(o, l, l.service.stage.request, false);
    }
  }

  lemma FetchedSyncs(o: Oracle, log: seq<Entry>, l: Local, reply: Option<MXEvent>)
    requires l.service.Valid() && l.service.stage.Fetching?
             && l.service.stage.request.eventId !in l.service.cachedEvents
    ensures Syncs(log, Fetched(o, l, reply)) <= Syncs(log, l)
  {
    FetchedProgress(o, l, reply);
    hide Fetched, Keeps, LaunchToken, Pending;
  }

  lemma HarvestSyncs(o: Oracle, log: seq<Entry>, l: Local)
    requires l.service.stage.Harvesting? && l.service.stage.toDevice != [] && l.service.stage.toDevice[0].clear.None?
    ensures var (service, stores) := Harvest(o, l);
            service.Some? ==> Syncs(log, Local(service.value, l.store, stores)) == Syncs(log, l)
  {
    hide HandleToDevice, Pending, NextSyncToken;
  }

  predicate OfOneRequest(a: Action) {
    OfRequest(a) || BesideRequest(a) || a.Append?
  }

  lemma BesideSyncs(o: Oracle, s: System, a: Action, log: seq<Entry>)
    requires Enabled(s, a) && (BesideRequest(a) || a.Append?) && s.service.Some?
    ensures Next(o, s, a).service.Some? && Syncs(log, LocalOf(Next(o, s, a))) == Syncs(log, LocalOf(s))
  {
    if !a.Append? {
      BesideKeepsRank(o, s, a);
    }
    hide Begin, Receive, Harvest, Fetched, Continue, HandleCached, Reply, ReplayRooms, Pending, NextSyncToken;
  }

  lemma StepSyncs(o: Oracle, s: System, a: Action, log: seq<Entry>)
    requires Inv(s) && s.service.Some? && Enabled(s, a) && OfOneRequest(a) && Next(o, s, a).log <= log
    ensures var s' := Next(o, s, a); s'.service.Some? ==> Syncs(log, LocalOf(s')) <= Syncs(log, LocalOf(s))
  {
    assert ServiceSound(s);
    assert s.log <= Next(o, s, a).log by {
      hide Begin, Receive, Harvest, Fetched, Continue, HandleCached, Reply, ReplayRooms;
    }
    match a {
      case SyncReply(r, small, newId) => ReplySyncs(s, r, small, newId, log);
      case EventReply(e) => FetchedSyncs(o, log, LocalOf(s), e);
      case ContinueRequest => ContinueSyncs(o, log, LocalOf(s));
      case HarvestNext => HarvestSyncs(o, log, LocalOf(s));
      case SyncFails =>
      case _ => BesideSyncs(o, s, a, log);
    }
    hide Inv, Receive, Fetched, Continue, Harvest, Reply, NextSyncToken;
  }

  ghost predicate RunOfOneRequest(o: Oracle, s: System, run: seq<Action>, end: System)
    decreases |run|
  {
    if run == [] then s == end
    else Enabled(s, run[0]) && OfOneRequest(run[0]) && RunOfOneRequest(o, Next(o, s, run[0]), run[1..], end)
  }

  lemma {:induction false} RunSyncs(o: Oracle, s: System, run: seq<Action>, end: System, log: seq<Entry>)
    requires Inv(s) && s.service.Some? && RunOfOneRequest(o, s, run, end) && end.service.Some? && end.log <= log
    ensures Syncs(log, LocalOf(end)) <= Syncs(log, LocalOf(s))
    decreases |run|
  {
    if run != [] {
      var s' := Next(o, s, run[0]);
      RunOnlyAppends(o, s', run[1..], end);
      StepSyncs(o, s, run[0], log);
      StepKeeps(o, s, run[0]);
      hide Inv, Next, Enabled, Syncs;
      if s'.service.Some? {
        RunSyncs(o, s', run[1..], end, log);
      } else {
        NoServiceToTheEnd(o, s', run[1..], end);
      }
    }
  }

  lemma {:induction false} RunOnlyAppends(o: Oracle, s: System, run: seq<Action>, end: System)
    requires RunOfOneRequest(o, s, run, end)
    ensures s.log <= end.log
    decreases |run|
  {
    if run != [] {
      assert s.log <= Next(o, s, run[0]).log by {
        hide Begin, Receive, Harvest, Fetched, Continue, HandleCached, Reply, ReplayRooms;
      }
      hide Next, Enabled;
      RunOnlyAppends(o, Next(o, s, run[0]), run[1..], end);
    }
  }

  lemma {:induction false} NoServiceToTheEnd(o: Oracle, s: System, run: seq<Action>, end: System)
    requires RunOfOneRequest(o, s, run, end) && s.service.None?
    ensures end.service.None?
    decreases |run|
  {
    if run != [] {
      assert Next(o, s, run[0]).service.None? by {
        hide Begin, Receive, Harvest, Fetched, Continue, HandleCached, Reply, ReplayRooms;
      }
      hide Next, Enabled;
      NoServiceToTheEnd(o, Next(o, s, run[0]), run[1..], end);
    }
  }

  /** A request syncs at most once more than there are to-device events behind its first sync, those included that
      arrive before its last step. */
  lemma SyncsWithinToDevice(o: Oracle, s: System, run: seq<Action>, end: System)
    requires Inv(s) && s.service.Some? && s.service.value.stage.Syncing? && s.service.value.syncs == 1
    requires RunOfOneRequest(o, s, run, end) && end.service.Some?
    ensures end.service.value.syncs <= 1 + Pending(end.log, s.service.value.stage.from)
  {
    RunSyncs(o, s, run, end, end.log);
    hide Inv, RunOfOneRequest, Pending;
  }

  // ---- Progress ----

  function ToDeviceFrom(log: seq<Entry>, from: Token): (events: seq<MXEvent>)
    ensures forall p | from <= p < |log| && log[p].ToDevice? :: log[p].event in events
    ensures forall e | e in events :: SentBetween(log, from, |log|, e)
    decreases |log| - from
  {
    if from >= |log| then []
    else
      var rest := ToDeviceFrom(log, from + 1);
      assert forall e | e in rest :: SentBetween(log, from + 1, |log|, e) && SentBetween(log, from, |log|, e);
      if log[from].ToDevice? then [log[from].event] + rest else rest
  }

  function RoomsFrom(log: seq<Entry>, from: Token): set<string> {
    set p | 0 <= from <= p < |log| && log[p].InRoom? :: log[p].roomId
  }

  /** A reply that reports all of the log behind a token. */
  function WholeReply(log: seq<Entry>, from: Token): SyncResponse
    requires from <= |log|
  {
    SyncResponse(|log|, ToDeviceFrom(log, from),
                 map room | room in RoomsFrom(log, from) ::
                   RoomSync([], Timeline(RoomEvents(log[from..], room), false, None), []),
                 map[], map[])
  }

  lemma {:induction false} NoRoomNoEvents(log: seq<Entry>, room: string)
    requires forall p | 0 <= p < |log| && log[p].InRoom? :: log[p].roomId != room
    ensures RoomEvents(log, room) == []
  {
    if log != [] {
      NoRoomNoEvents(log[..|log| - 1], room);
    }
  }

  lemma WholeReplyIsAccurate(log: seq<Entry>, room: string, from: Token)
    requires from <= |log|
    ensures Accurate(log, room, from, WholeReply(log, from))
  {
    assert log[from..|log|] == log[from..];
    hide RoomEvents, ToDeviceFrom;
    if room !in RoomsFrom(log, from) {
      forall p | 0 <= p < |log[from..]| && log[from..][p].InRoom? ensures log[from..][p].roomId != room {
        assert log[from..][p] == log[from + p];
      }
      NoRoomNoEvents(log[from..], room);
    }
  }

  // The reply reports every room without a gap.
  ghost predicate ReportsAll(log: seq<Entry>, from: Token, r: SyncResponse) {
    forall room :: Accurate(log, room, from, r)
  }

  function Above(ids: seq<nat>): (bound: nat)
    ensures forall id | id in ids :: id < bound
  {
    if ids == [] then 0
    else
      var bound := Above(ids[1..]);
      assert ids == [ids[0]] + ids[1..];
      if ids[0] < bound then bound else ids[0] + 1
  }

  lemma {:induction false} SomeAbove(ids: set<nat>) returns (bound: nat)
    ensures forall id | id in ids :: id < bound
  {
    bound := 0;
    if id :| id in ids {
      var rest := SomeAbove(ids - {id});
      bound := rest + id + 1;
      assert forall i | i in ids :: i == id || i in ids - {id};
    }
  }

  lemma FreshIdExists(s: Store) returns (id: nat)
    ensures Fresh(s, id)
  {
    var files := SomeAbove(s.files.Keys);
    var listed := Above(All(s));
    id := files + listed;
    assert forall i | i in s.ids || i in s.outdated :: i in All(s);
  }

  /** A request in progress is never stuck: it has a result to deliver, it can go on by itself, or it waits for a
      network call that can succeed; a sync once its question has reached the homeserver, and then without a gap. */
  lemma NeverStuck(s: System)
    requires Inv(s) && s.service.Some?
    ensures match s.service.value.stage
            case Idle => true
            case Syncing(_, from) => Enabled(s, ServiceAsks)
              && (from <= s.acked ==> exists r, small, newId ::
                  Enabled(s, SyncReply(r, small, newId)) && ReportsAll(s.log, from, r))
            case Harvesting(_, toDevice, _) => Enabled(s, if toDevice == [] then ContinueRequest else HarvestNext)
            case Fetching(_) => forall e: MXEvent | e.clear.None? :: Enabled(s, EventReply(Some(e)))
            case Completing(_, _) => Enabled(s, Deliver)
  {
    assert ServiceSound(s) && Tokens(s) && InFlight(s);
    hide Inv, Chain, AllSound;
    match s.service.value.stage {
      case Syncing(_, from) =>
        if from <= s.acked {
          var r := WholeReply(s.log, from);
          var newId := FreshIdExists(s.store);
          assert ReportsAll(s.log, from, r) by {
            hide WholeReply, Accurate;
            forall room ensures Accurate(s.log, room, from, r) {
              WholeReplyIsAccurate(s.log, room, from);
            }
          }
          assert Reply(s, from, r) by {
            hide RoomsFrom, ReportsAll, SentBetween, RoomEvents;
          }
          hide ReportsAll, Reply, WholeReply, Fresh;
          assert Enabled(s, SyncReply(r, true, newId));
        }
      case Harvesting(_, toDevice, _) =>
        if toDevice != [] {
          assert SentBefore(s.log, s.reach, toDevice[0]);
        }
      case _ =>
    }
  }

  lemma WholeReplyIsReply(s: System, from: Token)
    requires from <= |s.log| && from <= s.acked && forall p | 0 <= p < |s.log| :: s.log[p].event.clear.None?
    ensures Reply(s, from, WholeReply(s.log, from)) && ReportsAll(s.log, from, WholeReply(s.log, from))
  {
    assert Reply(s, from, WholeReply(s.log, from)) by {
      hide RoomsFrom, ReportsAll, SentBetween, RoomEvents;
    }
    hide WholeReply, Accurate;
    forall room ensures Accurate(s.log, room, from, WholeReply(s.log, from)) {
      WholeReplyIsAccurate(s.log, room, from);
    }
  }

  /** The session is not stuck either: once its question has reached the homeserver it can be answered, without a
      gap. */
  lemma SessionCanBeAnswered(o: Oracle, s: System)
    requires Inv(s) && Enabled(s, SessionAsks)
    ensures var s' := Next(o, s, SessionAsks);
            s'.session == s.session
            && exists r :: Enabled(s', SessionSyncs(r)) && ReportsAll(s'.log, SessionToken(s'), r)
  {
    var s' := Next(o, s, SessionAsks);
    assert s'.session == s.session && s'.log == s.log && SessionToken(s') <= s'.acked;
    hide Next, WholeReply;
    WholeReplyIsReply(s', SessionToken(s'));
    hide Reply, ReportsAll, Inv;
    assert Enabled(s', SessionSyncs(WholeReply(s'.log, SessionToken(s'))));
  }

  /** Once asked, the homeserver can reply. */
  lemma AskedCanBeAnswered(o: Oracle, s: System)
    requires Inv(s) && Enabled(s, ServiceAsks)
    ensures var s' := Next(o, s, ServiceAsks);
            s'.service == s.service && exists r, small, newId :: Enabled(s', SyncReply(r, small, newId))
  {
    StepKeeps(o, s, ServiceAsks);
    var s' := Next(o, s, ServiceAsks);
    assert s'.service == s.service && s'.service.value.stage.from <= s'.acked;
    hide Next, Inv;
    NeverStuck(s');
    hide Enabled;
    var r, small, newId :| Enabled(s', SyncReply(r, small, newId))
      && ReportsAll(s'.log, s'.service.value.stage.from, r);
  }
}
