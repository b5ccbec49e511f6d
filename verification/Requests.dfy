// The requests of one service: answered once, in order, one at a time, readably and for good.
module Requests {
  import opened Wrappers
  import opened Events
  import opened SyncResponses
  import opened SyncStore
  import opened Crypto
  import opened EventDecryption
  import opened SyncService
  import opened BackgroundSync
  import opened ChainSafety

  // ---- Order ----

  function Busy(v: Service): nat {
    if v.stage.Idle? then 0 else 1
  }

  /** The calls so far, in their order: those completed, then the one in progress, then those waiting. */
  ghost predicate InOrder(v: Service) {
    && |v.calls| == |v.done| + Busy(v) + |v.queue|
    && (forall i | 0 <= i < |v.calls| :: v.calls[i].no == i)
    && (forall i | 0 <= i < |v.done| :: v.done[i].request == v.calls[i])
    && (!v.stage.Idle? ==> v.stage.request == v.calls[|v.done|])
    && v.queue == v.calls[|v.done| + Busy(v)..]
  }

  /** One sync for the request, and one more for each reply that brought to-device events. */
  ghost predicate SyncsBounded(v: Service) {
    v.syncs <= v.keyed + if v.stage.Harvesting? && v.stage.carried then 0 else 1
  }

  ghost predicate Paced(s: System) {
    s.service.Some? ==> InOrder(s.service.value) && SyncsBounded(s.service.value)
  }

  lemma ProgressPaces(l: Local, l': Local, r: Request, allowSync: bool)
    requires Progress(l, l', r, allowSync)
    requires !l.service.stage.Idle? && l.service.stage.request == r && InOrder(l.service)
    requires l.service.syncs <= l.service.keyed + if allowSync then 0 else 1
    ensures InOrder(l'.service) && SyncsBounded(l'.service)
  {
    hide Keeps;
  }

  lemma BeginPaces(o: Oracle, l: Local, token: Option<Token>)
    requires l.service.Valid() && l.service.stage.Idle? && l.service.queue != [] && InOrder(l.service)
    ensures InOrder(Begin(o, l, token).service) && SyncsBounded(Begin(o, l, token).service)
  {
    var r, rest := l.service.queue[0], l.service.queue[1..];
    var l' := CheckStores(l, token);
    var l1 := l'.(service := l'.service.(queue := rest, syncs := 0, keyed := 0));
    hide Ask, MarkOutdated, Keeps;
    AskProgress(o, l1, r, true);
    assert rest == l.service.calls[|l.service.done| + 1..];
  }

  lemma ContinuePaces(o: Oracle, l: Local)
    requires l.service.Valid() && l.service.stage.Harvesting? && InOrder(l.service) && SyncsBounded(l.service)
    ensures InOrder(Continue(o, l).service) && SyncsBounded(Continue(o, l).service)
  {
    var r := l.service.stage.request;
    hide Ask, Keeps, Lookup;
    if KeyMayCome(l) {
      LaunchProgress(l, r);
      hide Launch, Progress;
      ProgressPaces(l, Launch(l, r), r, true);
    } else {
      AskProgress(o, l, r, false);
      hide Progress;
      ProgressPaces(l, Ask(o, l, r, false), r, false);
    }
  }

  lemma FetchedPaces(o: Oracle, l: Local, reply: Option<MXEvent>)
    requires l.service.Valid() && l.service.stage.Fetching?
             && l.service.stage.request.eventId !in l.service.cachedEvents
    requires InOrder(l.service) && SyncsBounded(l.service)
    ensures InOrder(Fetched(o, l, reply).service) && SyncsBounded(Fetched(o, l, reply).service)
  {
    FetchedProgress(o, l, reply);
    hide Fetched, Progress;
    ProgressPaces(l, Fetched(o, l, reply), l.service.stage.request, false);
  }

  lemma StepPaces(o: Oracle, s: System, a: Action)
    requires Inv(s) && Paced(s) && Enabled(s, a)
    ensures Paced(Next(o, s, a))
  {
    assert s.service.Some? ==> ServiceSound(s);
    hide Inv, Begin, Fetched, Continue, Reset, HandleCached, Update, HandleToDevice, Reply, DeleteStep;
    match a {
      case BeginRequest => BeginPaces(o, LocalOf(s), s.session.token);
      case ContinueRequest => ContinuePaces(o, LocalOf(s));
      case EventReply(e) => FetchedPaces(o, LocalOf(s), e);
      case _ => OtherStepsPace(o, s, a);
    }
  }

  // The fields that order and pace depend on, in the steps that do not look for an event.
  ghost predicate Moves(v: Service, v': Service) {
    && (v'.calls, v'.queue, v'.done, v'.syncs) == (v.calls, v.queue, v.done, v.syncs)
    && (v'.stage.Idle? <==> v.stage.Idle?) && (!v.stage.Idle? ==> v'.stage.request == v.stage.request)
    && v'.keyed == v.keyed + (if v.stage.Syncing? && v'.stage.Harvesting? && v'.stage.carried then 1 else 0)
    && (v'.stage.Harvesting? && v.stage.Harvesting? ==> v'.stage.carried == v.stage.carried)
    && (v'.stage.Harvesting? ==> v.stage.Harvesting? || v.stage.Syncing?)
  }

  lemma OtherStepsMove(o: Oracle, s: System, a: Action)
    requires Enabled(s, a) && !a.BeginRequest? && !a.ContinueRequest? && !a.EventReply? && !a.Call? && !a.Deliver?
    requires s.service.Some? && Next(o, s, a).service.Some?
    ensures Moves(s.service.value, Next(o, s, a).service.value)
  {
    hide Begin, Fetched, Continue, Reset, HandleCached, Update, HandleToDevice, Reply, DeleteStep;
  }

  lemma MovesPace(v: Service, v': Service)
    requires Moves(v, v') && InOrder(v) && SyncsBounded(v)
    ensures InOrder(v') && SyncsBounded(v')
  {
  }

  lemma CallPaces(v: Service, r: Request)
    requires InOrder(v) && r.no == |v.calls|
    ensures InOrder(v.(queue := v.queue + [r], calls := v.calls + [r]))
  {
  }

  lemma DeliveryPaces(v: Service, c: Completion)
    requires InOrder(v) && !v.stage.Idle? && c.request == v.stage.request
    ensures InOrder(v.(done := v.done + [c], stage := Idle))
  {
  }

  lemma OtherStepsPace(o: Oracle, s: System, a: Action)
    requires Paced(s) && Enabled(s, a) && !a.BeginRequest? && !a.ContinueRequest? && !a.EventReply?
    ensures Paced(Next(o, s, a))
  {
    var s' := Next(o, s, a);
    if s'.service.Some? {
      if s.service.None? {
        OtherStepsDeliver(o, s, a);
      } else {
        var v := s.service.value;
        if a.Call? {
          CallPaces(v, Request(|v.calls|, a.eventId, a.roomId));
        } else if a.Deliver? {
          DeliveryPaces(v, Completion(v.stage.request, v.stage.outcome));
        } else {
          OtherStepsMove(o, s, a);
          hide Next, Enabled, InOrder;
          MovesPace(v, s'.service.value);
        }
        hide InOrder;
      }
    }
  }

  lemma {:induction false} RunPaces(o: Oracle, s: System, run: seq<Action>, end: System)
    requires Inv(s) && Paced(s) && Reaches(o, s, run, end)
    ensures Paced(end)
    decreases |run|
  {
    if run != [] {
      StepKeeps(o, s, run[0]);
      StepPaces(o, s, run[0]);
      hide Inv, Paced, Next, Enabled;
      RunPaces(o, Next(o, s, run[0]), run[1..], end);
    }
  }

  /** In every run: the n-th completion answers the n-th call, its event and its room, no call is answered twice, no
      call is dropped, at most one is in progress, and it has synced at most once more than replies brought to-device
      events. */
  lemma CompletionsFollowCalls(o: Oracle, run: seq<Action>, end: System)
    requires Reaches(o, Start(), run, end) && end.service.Some?
    ensures var v := end.service.value;
            && |v.calls| == |v.done| + Busy(v) + |v.queue|
            && (forall i | 0 <= i < |v.done| :: v.done[i].request == v.calls[i])
            && (!v.stage.Idle? ==> v.stage.request == v.calls[|v.done|])
            && v.queue == v.calls[|v.done| + Busy(v)..]
            && v.syncs <= v.keyed + 1
  {
    StartIsSafe();
    RunPaces(o, Start(), run, end);
  }

  // ---- Success ----

  // A reported success is the object cached under its id.
  ghost predicate Reported(v: Service, eventId: string, outcome: Outcome) {
    outcome.Success? ==>
      eventId in v.cachedEvents && v.cachedEvents[eventId] == outcome.obj && outcome.obj < |v.objects|
  }

  ghost predicate AllReported(s: System) {
    s.service.Some? ==>
      var v := s.service.value;
      && v.Valid()
      && (forall i | 0 <= i < |v.done| :: Reported(v, v.done[i].request.eventId, v.done[i].outcome))
      && (v.stage.Completing? ==> Reported(v, v.stage.request.eventId, v.stage.outcome))
  }

  ghost predicate ExplainedIn(o: Oracle, v: Service, outcome: Outcome) {
    outcome.Success? && outcome.obj < |v.objects| ==> Explained(o, v.objects[outcome.obj])
  }

  ghost predicate AllExplained(o: Oracle, s: System) {
    s.service.Some? ==>
      var v := s.service.value;
      && (forall i | 0 <= i < |v.done| :: ExplainedIn(o, v, v.done[i].outcome))
      && (v.stage.Completing? ==> ExplainedIn(o, v, v.stage.outcome))
  }

  lemma KeptExplained(o: Oracle, before: Service, after: Service, outcome: Outcome)
    requires Keeps(before, after) && ExplainedIn(o, before, outcome)
             && (outcome.Success? ==> outcome.obj < |before.objects|)
    ensures ExplainedIn(o, after, outcome)
  {
    if outcome.Success? {
      assert SameWire(before.objects[outcome.obj], after.objects[outcome.obj]);
    }
  }

  lemma ProgressReports(s: System, l: Local, l': Local, r: Request, allowSync: bool)
    requires AllReported(s) && s.service.Some? && Progress(l, l', r, allowSync)
    requires (l.service.objects, l.service.cachedEvents, l.service.done)
          == (s.service.value.objects, s.service.value.cachedEvents, s.service.value.done)
    ensures AllReported(WithLocal(s, l'))
  {
    hide LaunchToken;
    var v, v' := s.service.value, l'.service;
    forall i | 0 <= i < |v.done| ensures Reported(v', v.done[i].request.eventId, v.done[i].outcome) {
      assert Reported(v, v.done[i].request.eventId, v.done[i].outcome);
    }
  }

  lemma ProgressExplains(o: Oracle, s: System, l: Local, l': Local, r: Request, allowSync: bool)
    requires AllReported(s) && AllExplained(o, s) && s.service.Some?
    requires Progress(l, l', r, allowSync) && SuccessExplained(o, l'.service)
    requires (l.service.objects, l.service.cachedEvents, l.service.done)
          == (s.service.value.objects, s.service.value.cachedEvents, s.service.value.done)
    ensures AllReported(WithLocal(s, l')) && AllExplained(o, WithLocal(s, l'))
  {
    ProgressReports(s, l, l', r, allowSync);
    var v, v' := s.service.value, l'.service;
    assert Keeps(v, v') && v'.done == v.done by {
      hide SameWire;
    }
    forall i | 0 <= i < |v.done| ensures ExplainedIn(o, v', v.done[i].outcome) {
      assert Reported(v, v.done[i].request.eventId, v.done[i].outcome) && ExplainedIn(o, v, v.done[i].outcome);
      KeptExplained(o, v, v', v.done[i].outcome);
    }
    hide Keeps, Explained, Progress, AllReported;
  }

  lemma BeginReports(o: Oracle, s: System)
    requires AllReported(s) && AllExplained(o, s) && Enabled(s, BeginRequest)
    ensures var s' := WithLocal(s, Begin(o, LocalOf(s), s.session.token)); AllReported(s') && AllExplained(o, s')
  {
    var l := CheckStores(LocalOf(s), s.session.token);
    var l1 := l.(service := l.service.(queue := s.service.value.queue[1..], syncs := 0, keyed := 0));
    var r := s.service.value.queue[0];
    hide Ask, MarkOutdated, AllReported, AllExplained, Progress, SuccessExplained;
    AskProgress(o, l1, r, true);
    AskExplained(o, l1, r, true);
    ProgressExplains(o, s, l1, Ask(o, l1, r, true), r, true);
  }

  lemma ContinueReports(o: Oracle, s: System)
    requires AllReported(s) && AllExplained(o, s) && Enabled(s, ContinueRequest)
    ensures var s' := WithLocal(s, Continue(o, LocalOf(s))); AllReported(s') && AllExplained(o, s')
  {
    var l := LocalOf(s);
    var r := l.service.stage.request;
    hide Ask, AllReported, AllExplained, Progress, Lookup;
    if KeyMayCome(l) {
      LaunchProgress(l, r);
      ProgressExplains(o, s, l, Launch(l, r), r, true);
    } else {
      AskProgress(o, l, r, false);
      AskExplained(o, l, r, false);
      ProgressExplains(o, s, l, Ask(o, l, r, false), r, false);
    }
  }

  lemma FetchedReports(o: Oracle, s: System, e: Option<MXEvent>)
    requires AllReported(s) && AllExplained(o, s) && Enabled(s, EventReply(e))
    requires s.service.value.stage.request.eventId !in s.service.value.cachedEvents
    ensures var s' := WithLocal(s, Fetched(o, LocalOf(s), e)); AllReported(s') && AllExplained(o, s')
  {
    var l := LocalOf(s);
    var r := l.service.stage.request;
    hide Fetched, AllReported, AllExplained, Progress, SuccessExplained;
    FetchedProgress(o, l, e);
    FetchedExplained(o, l, e);
    ProgressExplains(o, s, l, Fetched(o, l, e), r, false);
  }

  // The fields that successes depend on, in the steps that report none of their own.
  ghost predicate Delivers(v: Service, v': Service) {
    && v'.objects == v.objects && v'.cachedEvents == v.cachedEvents
    && (v'.done == v.done || (v.stage.Completing?
                              && v'.done == v.done + [Completion(v.stage.request, v.stage.outcome)]))
    && (v'.stage.Completing? ==> v'.stage == v.stage || v'.stage.outcome.Failure?)
  }

  lemma OtherStepsDeliver(o: Oracle, s: System, a: Action)
    requires Enabled(s, a) && !a.BeginRequest? && !a.ContinueRequest? && !a.EventReply?
    ensures var s' := Next(o, s, a);
            s'.service.Some? ==> (if s.service.Some? then Delivers(s.service.value, s'.service.value)
                                  else s'.service == Some(NewService(s.session.token)))
  {
    hide Begin, Fetched, Continue, Reset, HandleCached, Update, HandleToDevice, Reply, DeleteStep;
  }

  lemma DeliversReports(o: Oracle, s: System, s': System)
    requires AllReported(s) && AllExplained(o, s) && s.service.Some? && s'.service.Some?
    requires Delivers(s.service.value, s'.service.value)
    ensures AllReported(s') && AllExplained(o, s')
  {
    var v, v' := s.service.value, s'.service.value;
    assert forall id, outcome :: Reported(v, id, outcome) ==> Reported(v', id, outcome);
    assert forall outcome :: ExplainedIn(o, v, outcome) ==> ExplainedIn(o, v', outcome) by {
      hide Explained;
    }
    if v'.done != v.done {
      hide Reported, ExplainedIn;
      assert forall i | 0 <= i < |v.done| :: v'.done[i] == v.done[i];
    }
    hide Explained;
  }

  lemma OtherStepsReport(o: Oracle, s: System, a: Action)
    requires AllReported(s) && AllExplained(o, s) && Enabled(s, a)
    requires !a.BeginRequest? && !a.ContinueRequest? && !a.EventReply?
    ensures AllReported(Next(o, s, a)) && AllExplained(o, Next(o, s, a))
  {
    OtherStepsDeliver(o, s, a);
    hide Next, Enabled, Reported, ExplainedIn;
    var s' := Next(o, s, a);
    if s.service.Some? && s'.service.Some? {
      hide AllReported, AllExplained;
      DeliversReports(o, s, s');
    }
  }

  lemma StepReports(o: Oracle, s: System, a: Action)
    requires Inv(s) && AllReported(s) && AllExplained(o, s) && Enabled(s, a)
    ensures AllReported(Next(o, s, a)) && AllExplained(o, Next(o, s, a))
  {
    assert s.service.Some? ==> ServiceSound(s);
    hide Inv, Begin, Fetched, Continue, AllReported, AllExplained, HandleCached, Reply, NextOfSession, Receive, Harvest;
    match a {
      case BeginRequest => BeginReports(o, s);
      case ContinueRequest => ContinueReports(o, s);
      case EventReply(e) => FetchedReports(o, s, e);
      case _ => OtherStepsReport(o, s, a);
    }
  }

  lemma {:induction false} RunReports(o: Oracle, s: System, run: seq<Action>, end: System)
    requires Inv(s) && AllReported(s) && AllExplained(o, s) && Reaches(o, s, run, end)
    ensures Inv(end) && AllReported(end) && AllExplained(o, end)
    decreases |run|
  {
    if run != [] {
      StepKeeps(o, s, run[0]);
      StepReports(o, s, run[0]);
      hide Inv, AllReported, AllExplained, Next, Enabled;
      RunReports(o, Next(o, s, run[0]), run[1..], end);
    }
  }

  lemma SuccessesOfRuns(o: Oracle, run: seq<Action>, s: System)
    requires Reaches(o, Start(), run, s)
    ensures AllReported(s) && AllExplained(o, s)
  {
    StartIsSafe();
    RunReports(o, Start(), run, s);
  }

  /** In every run, whatever the primitives do: a reported success is cached, and it is readable or its event is a
      Megolm message whose text some session decrypts into no JSON object. From the moment it is readable each later
      request for its event completes at once with the same object, without a network call. */
  lemma SuccessIsReadableAndStable(o: Oracle, run: seq<Action>, s: System, i: nat)
    requires Reaches(o, Start(), run, s)
    requires s.service.Some? && i < |s.service.value.done| && s.service.value.done[i].outcome.Success?
    ensures var v := s.service.value;
            var c := v.done[i];
            && c.outcome.obj < |v.objects| && (v.objects[c.outcome.obj].Readable()
                                               || NotJson(o, v.objects[c.outcome.obj]))
            && (v.objects[c.outcome.obj].Readable() && Enabled(s, BeginRequest)
                && v.queue[0].eventId == c.request.eventId ==>
                  var v' := Next(o, s, BeginRequest).service.value;
                  v'.stage == Completing(v.queue[0], c.outcome) && v'.objects == v.objects && v'.syncs == 0)
  {
    SuccessesOfRuns(o, run, s);
    var v := s.service.value;
    assert Reported(v, v.done[i].request.eventId, v.done[i].outcome) && ExplainedIn(o, v, v.done[i].outcome);
    if v.objects[v.done[i].outcome.obj].Readable() && Enabled(s, BeginRequest)
      && v.queue[0].eventId == v.done[i].request.eventId {
      hide NotJson, Reaches, AllReported, AllExplained;
      CachedSuccessIsStable(o, LocalOf(s), s.session.token);
      hide Begin;
    }
  }

  /** And while it is not readable, the next request for its event completes at once exactly when, after the check of
      the stores, the key is there and decrypts the event without an error; else it syncs, or has no token to sync
      from. */
  lemma UnreadableSuccessAgainExactly(o: Oracle, run: seq<Action>, s: System, i: nat)
    requires Reaches(o, Start(), run, s)
    requires s.service.Some? && i < |s.service.value.done| && s.service.value.done[i].outcome.Success?
    requires Enabled(s, BeginRequest) && s.service.value.queue[0].eventId == s.service.value.done[i].request.eventId
    ensures var v, l := s.service.value, CheckStores(LocalOf(s), s.session.token);
            var obj, stage := v.done[i].outcome.obj, Next(o, s, BeginRequest).service.value.stage;
            && obj < |v.objects|
            && var e := v.objects[obj];
               !e.Readable() ==>
                 && (stage == Completing(v.queue[0], v.done[i].outcome) <==>
                       CanDecrypt(l.stores, e) && Decrypt(o, l.stores, e).error.None?)
                 && (stage == Completing(v.queue[0], v.done[i].outcome)
                     || stage == match LaunchToken(l)
                                 case None => Completing(v.queue[0], Failure(Unstarted))
                                 case Some(from) => Syncing(v.queue[0], from))
  {
    SuccessesOfRuns(o, run, s);
    var v := s.service.value;
    assert Reported(v, v.done[i].request.eventId, v.done[i].outcome);
    if !v.objects[v.done[i].outcome.obj].Readable() {
      hide Reaches, AllReported, AllExplained;
      CachedUnreadableExactly(o, LocalOf(s), s.session.token);
      hide Begin, CheckStores, CanDecrypt, Decrypt, TextIsNotJson, LaunchToken;
    }
  }

  /** A sync that fails reaches the caller of this request as a failure of the network, and changes nothing else. */
  lemma SyncFailureReachesCaller(o: Oracle, s: System)
    requires Enabled(s, SyncFails)
    ensures var v, s1 := s.service.value, Next(o, s, SyncFails);
            Enabled(s1, Deliver)
            && Next(o, s1, Deliver)
               == s.(service := Some(v.(stage := Idle, done := v.done
                                        + [Completion(v.stage.request, Failure(Network))])))
  {
    hide Begin, Continue, Harvest, Fetched, Receive, NextOfSession;
  }
}
