// Pieces of concrete runs: a session that has synced once, and a service that serves calls for an event nobody has.
module RunPieces {
  import opened Wrappers
  import opened Events
  import opened SyncResponses
  import opened SyncStore
  import opened ServerLog
  import opened Crypto
  import opened EventDecryption
  import opened SyncService
  import opened BackgroundSync

  function JustToDevice(nextBatch: Token, events: seq<MXEvent>): SyncResponse {
    SyncResponse(nextBatch, events, map[], map[], map[])
  }

  // A session at token 0 without rooms, and a service that has cached no event.
  function Scene(log: seq<Entry>, acked: Token, reach: Token, phase: Phase, store: Store, v: Service): System {
    System(log, acked, Session(Some(0), map[], {}, phase), store, NO_KEYS, Some(v), reach, {})
  }

  function Actor(queue: seq<Request>, stage: Stage, calls: seq<Request>, done: seq<Completion>, syncs: nat,
                 keyed: nat): Service {
    Service(Some(0), [], map[], queue, stage, calls, done, syncs, keyed)
  }

  predicate Roomless(s: Store) {
    forall id | id in s.files :: s.files[id].response.join == map[] && s.files[id].response.invite == map[]
      && s.files[id].response.leave == map[]
  }

  lemma {:induction false} NotFound(s: Store, ids: seq<nat>, eventId: string, roomId: string)
    requires Roomless(s)
    ensures FindEvent(s, ids, eventId, roomId).None?
  {
    if ids != [] {
      NotFound(s, ids[..|ids| - 1], eventId, roomId);
    }
  }

  // ---- Pieces of the run ----

  ghost predicate Goes(o: Oracle, s: System, a: Action, s': System) {
    Enabled(s, a) && Next(o, s, a) == s'
  }

  lemma OneStep(o: Oracle, s: System, a: Action, end: System)
    requires Goes(o, s, a, end)
    ensures Reaches(o, s, [a], end)
  {
    hide Next, Enabled;
    assert [a][1..] == [];
    assert Reaches(o, end, [], end);
  }

  lemma {:induction false} RunsJoined(o: Oracle, s: System, run: seq<Action>, mid: System, rest: seq<Action>,
                                      end: System)
    requires Reaches(o, s, run, mid) && Reaches(o, mid, rest, end)
    ensures Reaches(o, s, run + rest, end)
    decreases |run|
  {
    if run == [] {
      assert run + rest == rest;
    } else {
      hide Next, Enabled;
      RunsJoined(o, Next(o, s, run[0]), run[1..], mid, rest, end);
      assert (run + rest)[1..] == run[1..] + rest;
    }
  }

  lemma TwoSteps(o: Oracle, s: System, a: Action, s1: System, b: Action, end: System)
    requires Goes(o, s, a, s1) && Goes(o, s1, b, end)
    ensures Reaches(o, s, [a, b], end)
  {
    hide Goes, Reaches;
    OneStep(o, s, a, s1);
    OneStep(o, s1, b, end);
    RunsJoined(o, s, [a], s1, [b], end);
    assert [a] + [b] == [a, b];
  }

  // The calls of a run all ask for the same event.
  function Req(n: nat): Request {
    Request(n, "$x", "!r")
  }

  // The session has synced once and got nothing; the service starts on these keys of the app.
  lemma Opening(o: Oracle, appKeys: map<KeyId, GroupSession>)
    ensures Reaches(o, Start(), [SessionSyncs(JustToDevice(0, [])), Init(appKeys, map[])],
                    Scene([], 0, 0, Live, EMPTY_STORE, Actor([], Idle, [], [], 0, 0)).(
                      stores := NO_KEYS.(appKeys := appKeys), lent := appKeys.Items))
  {
    var r0, init := JustToDevice(0, []), Init(appKeys, map[]);
    var mid := System([], 0, Session(Some(0), map[], {}, Live), Store(map[], [], []), NO_KEYS, None, 0, {});
    var end := Scene([], 0, 0, Live, EMPTY_STORE, Actor([], Idle, [], [], 0, 0)).(
      stores := NO_KEYS.(appKeys := appKeys), lent := appKeys.Items);
    assert ReplayRooms(map[], r0) == map[];
    assert {} + appKeys.Items == appKeys.Items;
    hide Harvest, Continue, Fetched, Begin, Receive, HandleCached;
    assert Goes(o, Start(), SessionSyncs(r0), mid);
    assert Goes(o, mid, init, end);
    hide Goes, Scene;
    TwoSteps(o, Start(), SessionSyncs(r0), mid, init, end);
  }

  lemma Called(o: Oracle, s: System, v: Service)
    requires s.service == Some(v) && v.queue == []
    ensures var r := Req(|v.calls|);
            Goes(o, s, Call("$x", "!r"), s.(service := Some(v.(queue := [r], calls := v.calls + [r]))))
  {
    assert [] + [Req(|v.calls|)] == [Req(|v.calls|)];
    hide Begin, Continue, Harvest, Fetched, Receive, NextOfSession;
  }

  lemma Delivered(o: Oracle, s: System, v: Service)
    requires s.service == Some(v) && v.stage.Completing?
    ensures var done := v.done + [Completion(v.stage.request, v.stage.outcome)];
            Goes(o, s, Deliver, s.(service := Some(v.(stage := Idle, done := done))))
  {
    hide Begin, Continue, Harvest, Fetched, Receive, NextOfSession;
  }

  // A call comes and is taken up; without the event in the cache the service syncs.
  lemma CallAndBegin(o: Oracle, s: System, v: Service, token: Token)
    requires s.service == Some(v) && v.stage == Idle && v.queue == [] && v.cachedEvents == map[]
             && v.snapshot == Some(0)
    requires s.session.token == Some(0) && Reset(s.stores) == s.stores
    requires Roomless(s.store) && (s.store.ids == [] || SyncToken(s.store) == Some(0))
             && NextSyncToken(s.store).Or(0) == token
    ensures var r := Req(|v.calls|);
            Reaches(o, s, [Call("$x", "!r"), BeginRequest],
                    s.(service := Some(v.(stage := Syncing(r, token), calls := v.calls + [r], syncs := 1, keyed := 0))))
  {
    NotFound(s.store, s.store.ids, "$x", "!r");
    var r := Req(|v.calls|);
    var mid := s.(service := Some(v.(queue := [r], calls := v.calls + [r])));
    var end := s.(service := Some(v.(stage := Syncing(r, token), calls := v.calls + [r], syncs := 1, keyed := 0)));
    assert [] + [r] == [r] && [r][1..] == [];
    hide FindEvent, MergeIds, Harvest, Continue, Fetched, Receive, HandleEncryption, NextOfSession;
    assert Goes(o, s, Call("$x", "!r"), mid);
    assert Goes(o, mid, BeginRequest, end);
    hide Goes;
    TwoSteps(o, s, Call("$x", "!r"), mid, BeginRequest, end);
  }

  lemma ReplyStored(o: Oracle, s: System, v: Service, r: SyncResponse, small: bool, newId: nat)
    requires s.service == Some(v) && v.stage.Syncing? && Reply(s, v.stage.from, r) && Fresh(s.store, newId)
    ensures var carried := r.toDevice != [];
            var v' := v.(keyed := v.keyed + if carried then 1 else 0,
                         stage := Harvesting(v.stage.request, r.toDevice, carried));
            Reaches(o, s, [SyncReply(r, small, newId)],
                    s.(reach := Max(s.reach, r.nextBatch), store := Update(s.store, r, v.stage.from, small, newId),
                       service := Some(v')))
  {
    var carried := r.toDevice != [];
    var v' := v.(keyed := v.keyed + if carried then 1 else 0,
                 stage := Harvesting(v.stage.request, r.toDevice, carried));
    var end := s.(reach := Max(s.reach, r.nextBatch), store := Update(s.store, r, v.stage.from, small, newId),
                  service := Some(v'));
    hide Update, Harvest, Continue, Fetched, Begin, NextOfSession, Reply, Fresh, Reaches;
    assert Goes(o, s, SyncReply(r, small, newId), end);
    OneStep(o, s, SyncReply(r, small, newId), end);
  }

  lemma HarvestOne(o: Oracle, s: System, v: Service, e: MXEvent, stores: Stores)
    requires s.service == Some(v) && v.stage.Harvesting? && v.stage.toDevice == [e] && e.clear.None?
    requires HandleToDevice(o, s.stores, e) == Handled(stores)
    ensures Reaches(o, s, [HarvestNext], s.(service := Some(v.(stage := v.stage.(toDevice := []))), stores := stores))
  {
    var s' := s.(service := Some(v.(stage := v.stage.(toDevice := []))), stores := stores);
    assert [e][1..] == [];
    hide HandleToDevice, Continue, Fetched, Begin, NextOfSession, Reaches;
    assert Goes(o, s, HarvestNext, s');
    OneStep(o, s, HarvestNext, s');
  }

  lemma HarvestPlain(o: Oracle, s: System, v: Service, e: MXEvent)
    requires s.service == Some(v) && v.stage.Harvesting? && v.stage.toDevice == [e] && e.clear.None? && !e.IsEncrypted()
    ensures Reaches(o, s, [HarvestNext], s.(service := Some(v.(stage := v.stage.(toDevice := [])))))
  {
    OtherEventsBringNothing(o, s.stores, e);
    NotEncryptedNotDecrypted(o, s.stores, e);
    hide HandleToDevice, Reaches;
    HarvestOne(o, s, v, e, s.stores);
  }

  // The event is not in the cache, and the reply brought no key that could be waited for: it is asked for.
  lemma AsksForEvent(o: Oracle, s: System, v: Service)
    requires s.service == Some(v) && v.stage.Harvesting? && v.stage.toDevice == [] && v.cachedEvents == map[]
             && v.objects == []
    requires Roomless(s.store)
    ensures Reaches(o, s, [ContinueRequest], s.(service := Some(v.(stage := Fetching(v.stage.request)))))
  {
    NotFound(s.store, s.store.ids, v.stage.request.eventId, v.stage.request.roomId);
    hide FindEvent, HandleEncryption, Harvest, Begin, NextOfSession, Reaches;
    var s1 := s.(service := Some(v.(stage := Fetching(v.stage.request))));
    assert Goes(o, s, ContinueRequest, s1);
    OneStep(o, s, ContinueRequest, s1);
  }

  // It is not found there either; the failure is delivered.
  lemma FailAndDeliver(o: Oracle, s: System, v: Service)
    requires s.service == Some(v) && v.stage.Fetching? && v.cachedEvents == map[] && v.objects == []
    ensures Reaches(o, s, [EventReply(None), Deliver],
                    s.(service := Some(v.(stage := Idle,
                                          done := v.done + [Completion(v.stage.request, Failure(Network))]))))
  {
    hide HandleEncryption, Harvest, Begin, NextOfSession, Reaches;
    var r := v.stage.request;
    var s2 := s.(service := Some(v.(stage := Completing(r, Failure(Network)))));
    var end := s.(service := Some(v.(stage := Idle, done := v.done + [Completion(r, Failure(Network))])));
    assert Goes(o, s, EventReply(None), s2);
    assert Goes(o, s2, Deliver, end);
    hide Goes;
    TwoSteps(o, s, EventReply(None), s2, Deliver, end);
  }

  lemma ReplyIs(s: System, e: MXEvent)
    requires s.log == [ToDevice(e)] && s.acked == 0
    ensures Reply(s, 0, JustToDevice(1, [e]))
  {
    assert s.log[0] == ToDevice(e);
  }

  lemma MergedJustToDevice(e: MXEvent)
    ensures Merged(JustToDevice(1, [e]), JustToDevice(0, [])) == JustToDevice(1, [e])
  {
    var m := Merged(JustToDevice(1, [e]), JustToDevice(0, []));
    assert m.join == map[] && m.invite == map[] && m.leave == map[];
    assert [] + [e] == [e];
  }

  const EMPTY_STORE := Store(map[], [], [])
  const FIRST_STORE := Store(map[7 := Cached(0, JustToDevice(0, []))], [7], [])

  function Failed(n: nat): Completion {
    Completion(Req(n), Failure(Network))
  }

  // The one sync reply of a call, up to the failure that is delivered.
  lemma Served(o: Oracle, s: System, v: Service, r: SyncResponse, newId: nat) returns (run: seq<Action>)
    requires s.service == Some(v) && v.stage.Syncing? && v.cachedEvents == map[] && v.objects == []
    requires Reply(s, v.stage.from, r) && Fresh(s.store, newId)
             && Roomless(Update(s.store, r, v.stage.from, true, newId))
    requires r.toDevice == [] || (|r.toDevice| == 1 && r.toDevice[0].clear.None? && !r.toDevice[0].IsEncrypted())
    ensures Reaches(o, s, run,
                    s.(reach := Max(s.reach, r.nextBatch), store := Update(s.store, r, v.stage.from, true, newId),
                       service := Some(v.(keyed := v.keyed + if r.toDevice != [] then 1 else 0, stage := Idle,
                                          done := v.done + [Completion(v.stage.request, Failure(Network))]))))
  {
    hide Reaches, Update, Reply, Fresh, Roomless;
    ReplyStored(o, s, v, r, true, newId);
    var carried := r.toDevice != [];
    var v1 := v.(keyed := v.keyed + if carried then 1 else 0,
                 stage := Harvesting(v.stage.request, r.toDevice, carried));
    var s1 := s.(reach := Max(s.reach, r.nextBatch), store := Update(s.store, r, v.stage.from, true, newId),
                 service := Some(v1));
    var v2 := v1.(stage := Harvesting(v.stage.request, [], carried));
    var s2 := s1.(service := Some(v2));
    run := [SyncReply(r, true, newId)];
    if carried {
      assert r.toDevice == [r.toDevice[0]];
      HarvestPlain(o, s1, v1, r.toDevice[0]);
      RunsJoined(o, s, run, s1, [HarvestNext], s2);
      run := run + [HarvestNext];
    }
    var v3 := v2.(stage := Fetching(v.stage.request));
    var s3 := s2.(service := Some(v3));
    AsksForEvent(o, s2, v2);
    RunsJoined(o, s, run, s2, [ContinueRequest], s3);
    run := run + [ContinueRequest];
    FailAndDeliver(o, s3, v3);
    var done := v3.done + [Completion(v.stage.request, Failure(Network))];
    RunsJoined(o, s, run, s3, [EventReply(None), Deliver], s3.(service := Some(v3.(stage := Idle, done := done))));
    run := run + [EventReply(None), Deliver];
  }

  // The service has cached one empty reply and delivered a failure.
  function Once(stage: Stage, calls: seq<Request>, done: seq<Completion>, store: Store): System {
    Scene([], 0, 0, Live, store, Actor([], stage, calls, done, 1, 0))
  }

  lemma UntilFirstSync(o: Oracle) returns (run: seq<Action>)
    ensures Reaches(o, Start(), run, Once(Syncing(Req(0), 0), [Req(0)], [], EMPTY_STORE))
  {
    var v := Actor([], Idle, [], [], 0, 0);
    var s := Scene([], 0, 0, Live, EMPTY_STORE, v);
    assert [] + [Req(0)] == [Req(0)];
    assert s.(stores := NO_KEYS.(appKeys := map[]), lent := map[].Items) == s;
    hide Reaches;
    Opening(o, map[]);
    CallAndBegin(o, s, v, 0);
    run := [SessionSyncs(JustToDevice(0, [])), Init(map[], map[])];
    RunsJoined(o, Start(), run, s, [Call("$x", "!r"), BeginRequest],
               Once(Syncing(Req(0), 0), [Req(0)], [], EMPTY_STORE));
    run := run + [Call("$x", "!r"), BeginRequest];
  }

  lemma UntilFirstFailure(o: Oracle) returns (run: seq<Action>)
    ensures Reaches(o, Start(), run, Once(Idle, [Req(0)], [Failed(0)], FIRST_STORE))
  {
    var s, r0 := Once(Syncing(Req(0), 0), [Req(0)], [], EMPTY_STORE), JustToDevice(0, []);
    assert Update(EMPTY_STORE, r0, 0, true, 7) == FIRST_STORE;
    assert Reply(s, 0, r0);
    assert [] + [Failed(0)] == [Failed(0)];
    hide Reaches, Update, Reply;
    run := UntilFirstSync(o);
    var served := Served(o, s, s.service.value, r0, 7);
    RunsJoined(o, Start(), run, s, served, Once(Idle, [Req(0)], [Failed(0)], FIRST_STORE));
    run := run + served;
  }

  // And then syncs again.
  lemma UntilSecondSync(o: Oracle) returns (run: seq<Action>)
    ensures Reaches(o, Start(), run, Once(Syncing(Req(1), 0), [Req(0), Req(1)], [Failed(0)], FIRST_STORE))
  {
    var s := Once(Idle, [Req(0)], [Failed(0)], FIRST_STORE);
    var end := Once(Syncing(Req(1), 0), [Req(0), Req(1)], [Failed(0)], FIRST_STORE);
    assert [Req(0)] + [Req(1)] == [Req(0), Req(1)];
    hide Reaches;
    run := UntilFirstFailure(o);
    CallAndBegin(o, s, s.service.value, 0);
    RunsJoined(o, Start(), run, s, [Call("$x", "!r"), BeginRequest], end);
    run := run + [Call("$x", "!r"), BeginRequest];
  }
}
