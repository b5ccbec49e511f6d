// Successes are readable in every run exactly when every Megolm message is JSON, and one that is not readable may sync
// again later.
module UnreadableSuccess {
  import opened Wrappers
  import opened Events
  import opened SyncStore
  import opened ServerLog
  import opened Crypto
  import opened EventDecryption
  import opened SyncService
  import opened BackgroundSync
  import opened Requests
  import opened RunPieces

  const KEY := KeyId("s", "bob")

  function EventFor(session: GroupSession, text: string): MXEvent {
    MXEvent("$x", Some(session.roomId), None, RoomEncrypted,
            Content(Some(MEGOLM), Text(text), None, Some("s"), None, Some("bob"), None, None), None)
  }

  // The service waits for the event from the homeserver, and the app has the key.
  function Waiting(session: GroupSession): System {
    Scene([], 0, 0, Live, FIRST_STORE, Actor([], Fetching(Req(0)), [Req(0)], [], 1, 0)).(
      stores := NO_KEYS.(appKeys := map[KEY := session]), lent := map[KEY := session].Items)
  }

  // The app has the key, a call has come, and the service syncs.
  function Asking(session: GroupSession): System {
    Scene([], 0, 0, Live, EMPTY_STORE, Actor([], Syncing(Req(0), 0), [Req(0)], [], 1, 0)).(
      stores := NO_KEYS.(appKeys := map[KEY := session]), lent := map[KEY := session].Items)
  }

  lemma UntilSync(o: Oracle, session: GroupSession) returns (run: seq<Action>)
    ensures Reaches(o, Start(), run, Asking(session))
  {
    var appKeys, v := map[KEY := session], Actor([], Idle, [], [], 0, 0);
    var s := Scene([], 0, 0, Live, EMPTY_STORE, v).(stores := NO_KEYS.(appKeys := appKeys), lent := appKeys.Items);
    assert [] + [Req(0)] == [Req(0)];
    hide Reaches;
    Opening(o, appKeys);
    CallAndBegin(o, s, v, 0);
    run := [SessionSyncs(JustToDevice(0, [])), Init(appKeys, map[])];
    RunsJoined(o, Start(), run, s, [Call("$x", "!r"), BeginRequest], Asking(session));
    run := run + [Call("$x", "!r"), BeginRequest];
  }

  lemma UntilFetch(o: Oracle, session: GroupSession) returns (run: seq<Action>)
    ensures Reaches(o, Start(), run, Waiting(session))
  {
    var r0, v, s := JustToDevice(0, []), Asking(session).service.value, Asking(session);
    var v' := v.(stage := Harvesting(Req(0), [], false));
    var s' := s.(store := FIRST_STORE, service := Some(v'));
    assert Update(EMPTY_STORE, r0, 0, true, 7) == FIRST_STORE;
    assert Reply(s, 0, r0);
    hide Reaches, Update, Reply;
    run := UntilSync(o, session);
    ReplyStored(o, s, v, r0, true, 7);
    AsksForEvent(o, s', v');
    RunsJoined(o, Start(), run, s, [SyncReply(r0, true, 7)], s');
    run := run + [SyncReply(r0, true, 7)];
    RunsJoined(o, Start(), run, s', [ContinueRequest], Waiting(session));
    run := run + [ContinueRequest];
  }

  // ---- When successes are readable ----

  ghost predicate AllReadable(s: System) {
    s.service.Some? ==>
      var v := s.service.value;
      && (forall c | c in v.done && c.outcome.Success? && c.outcome.obj < |v.objects| ::
          v.objects[c.outcome.obj].Readable())
      && SuccessReadable(v)
  }

  lemma FetchedUnreadable(o: Oracle, session: GroupSession, text: string)
    requires o.megolmDecrypt(session, text) == Plain(None)
    ensures Enabled(Waiting(session), EventReply(Some(EventFor(session, text))))
    ensures !AllReadable(Next(o, Waiting(session), EventReply(Some(EventFor(session, text)))))
  {
    var s, e := Waiting(session), EventFor(session, text);
    var remembered := Remember(LocalOf(s), "$x", e);
    assert remembered.service.objects == [e];
    assert CanDecrypt(remembered.stores, e) && TextIsNotJson(o, remembered.stores, e);
    SuccessIsReadableExactly(o, remembered, Req(0), 0, false);
    hide HandleEncryption, CanDecrypt, TextIsNotJson, Begin, Continue, Harvest, SuccessReadable;
  }

  /** A key whose text is not JSON is enough: an app that has it, and one call for the event. */
  lemma UnreadableSuccessHappens(o: Oracle, session: GroupSession, text: string) returns (run: seq<Action>, end: System)
    requires o.megolmDecrypt(session, text) == Plain(None)
    ensures Reaches(o, Start(), run, end) && !AllReadable(end)
  {
    var a := EventReply(Some(EventFor(session, text)));
    FetchedUnreadable(o, session, text);
    run := UntilFetch(o, session);
    end := Next(o, Waiting(session), a);
    hide Next, Enabled, AllReadable, Waiting, Reaches;
    OneStep(o, Waiting(session), a, end);
    RunsJoined(o, Start(), run, Waiting(session), [a], end);
    run := run + [a];
  }

  ghost predicate ReadableInEveryRun(o: Oracle) {
    forall run, end | Reaches(o, Start(), run, end) :: AllReadable(end)
  }

  /** Every Megolm message decrypts to a JSON object, if it decrypts at all. */
  ghost predicate AllJson(o: Oracle) {
    forall session, text :: o.megolmDecrypt(session, text) != Plain(None)
  }

  lemma ExplainedIsReadable(o: Oracle, s: System)
    requires AllJson(o) && AllExplained(o, s)
    ensures AllReadable(s)
  {
    if s.service.Some? {
      var v := s.service.value;
      forall c | c in v.done && c.outcome.Success? && c.outcome.obj < |v.objects|
        ensures v.objects[c.outcome.obj].Readable()
      {
        var i :| 0 <= i < |v.done| && v.done[i] == c;
        assert ExplainedIn(o, v, v.done[i].outcome);
      }
    }
  }

  /** Every success of every run is readable, exactly when no Megolm message decrypts to something that is not JSON. */
  lemma SuccessReadableInEveryRunExactly(o: Oracle)
    ensures ReadableInEveryRun(o) <==> AllJson(o)
  {
    hide AllReadable, Reaches, AllExplained, AllReported;
    if AllJson(o) {
      forall run, end | Reaches(o, Start(), run, end) ensures AllReadable(end) {
        SuccessesOfRuns(o, run, end);
        ExplainedIsReadable(o, end);
      }
    } else {
      var session, text :| o.megolmDecrypt(session, text) == Plain(None);
      var run, end := UnreadableSuccessHappens(o, session, text);
    }
  }

  // ---- The next request for one that is not ----

  // No Megolm text is JSON; the rest is as in the literal primitives.
  function NoJson(): Oracle {
    Literal().(megolmDecrypt := (session, text) => Plain(None))
  }

  const ROOM_KEY := RoomKeyEvent("!r")
  const UNREADABLE := EventFor(GroupSession("key", "s", 5, "!r", Some("bobEd"), []), "text")

  function WithRoomKey(): Stores {
    HandleToDevice(NoJson(), NO_KEYS, ROOM_KEY).stores
  }

  lemma KeyArrives()
    ensures HandleToDevice(NoJson(), NO_KEYS, ROOM_KEY).Handled?
    ensures var c := WithRoomKey();
            c.appKeys == map[] && KEY in c.bgKeys
              && c.bgKeys[KEY] == GroupSession("key", "s", 5, "!r", Some("bobEd"), [])
  {
    var o := NoJson();
    assert Known(NO_KEYS, "bob") == [];
    assert DecryptOlm(o, NO_KEYS, "bob", OlmMessage(Some("!r"), 0)).1 == Some("!r");
    DecryptKeys(o, NO_KEYS, ROOM_KEY);
    OlmIsNotMegolm();
    hide DecryptOlm;
  }

  lemma FetchedOnce(o: Oracle, s: System, v: Service, e: MXEvent)
    requires s.service == Some(v) && v.stage == Fetching(Req(0)) && v.objects == [] && v.cachedEvents == map[]
    requires e.clear.None? && !e.Readable() && CanDecrypt(s.stores, e)
    requires Decrypt(o, s.stores, e) == Decryption(s.stores, e, None)
    ensures var stage := Completing(Req(0), Success(0));
            Goes(o, s, EventReply(Some(e)),
                 s.(service := Some(v.(objects := [e], cachedEvents := map["$x" := 0], stage := stage))))
  {
    assert [e][0 := e] == [e] && [] + [e] == [e];
    hide Decrypt, CanDecrypt, Harvest, Begin, Continue, NextOfSession;
  }

  // The event is fetched, decrypts into nothing, and is delivered as a success.
  lemma FetchedAndDelivered(o: Oracle, s: System, v: Service, e: MXEvent)
    requires s.service == Some(v) && v.stage == Fetching(Req(0)) && v.objects == [] && v.cachedEvents == map[]
    requires e.clear.None? && !e.Readable() && CanDecrypt(s.stores, e)
    requires Decrypt(o, s.stores, e) == Decryption(s.stores, e, None)
    ensures Reaches(o, s, [EventReply(Some(e)), Deliver],
                    s.(service := Some(v.(objects := [e], cachedEvents := map["$x" := 0], stage := Idle,
                                          done := v.done + [Completion(Req(0), Success(0))]))))
  {
    FetchedOnce(o, s, v, e);
    var v' := v.(objects := [e], cachedEvents := map["$x" := 0], stage := Completing(Req(0), Success(0)));
    var s' := s.(service := Some(v'));
    Delivered(o, s', v');
    hide Decrypt, CanDecrypt, Goes, Reaches;
    var end := s.(service := Some(v'.(stage := Idle, done := v.done + [Completion(Req(0), Success(0))])));
    TwoSteps(o, s, EventReply(Some(e)), s', Deliver, end);
  }

  // The session has moved on meanwhile: the check of the next request drops the keys.
  lemma BeginsWithSync(o: Oracle, s: System, r: Request, rest: seq<Request>, e: MXEvent)
    requires s.service.Some? && s.service.value.stage == Idle && s.service.value.queue == [r] + rest
    requires s.service.value.objects == [e] && s.service.value.cachedEvents == map[r.eventId := 0]
    requires s.session.token == Some(1) && SyncToken(s.store) == Some(0)
    requires !e.Readable() && HasContent(e) && !CanDecrypt(Reset(s.stores), e)
    ensures Enabled(s, BeginRequest)
    ensures var service := Next(o, s, BeginRequest).service;
            service.Some? && service.value.stage == Syncing(r, 1) && service.value.done == s.service.value.done
  {
    var l := CheckStores(LocalOf(s), s.session.token);
    CachedUnreadableExactly(o, LocalOf(s), s.session.token);
    AskProgress(o, l.(service := l.service.(queue := s.service.value.queue[1..], syncs := 0, keyed := 0)), r, true);
    hide Decrypt, CanDecrypt, Harvest, Continue, Fetched, NextOfSession, Ask;
  }

  lemma SyncsInstead(o: Oracle, s: System, v: Service, e: MXEvent) returns (end: System)
    requires s.service == Some(v) && v.stage == Idle && v.queue == [] && v.objects == [e]
             && v.cachedEvents == map["$x" := 0]
    requires s.session.token == Some(1) && SyncToken(s.store) == Some(0)
    requires !e.Readable() && HasContent(e) && !CanDecrypt(Reset(s.stores), e)
    ensures Reaches(o, s, [Call("$x", "!r"), BeginRequest], end)
    ensures end.service.Some? && end.service.value.stage == Syncing(Req(|v.calls|), 1)
            && end.service.value.done == v.done
  {
    var r := Req(|v.calls|);
    var mid := s.(service := Some(v.(queue := [r], calls := v.calls + [r])));
    assert [r] == [r] + [];
    Called(o, s, v);
    BeginsWithSync(o, mid, r, [], e);
    hide CanDecrypt, Next, Enabled, Reaches;
    end := Next(o, mid, BeginRequest);
    TwoSteps(o, s, Call("$x", "!r"), mid, BeginRequest, end);
  }

  // ---- The run ----

  const LOG := [ToDevice(ROOM_KEY)]
  const REPLY := JustToDevice(1, [ROOM_KEY])
  const STORED := Store(map[7 := Cached(0, REPLY)], [7], [])

  function AskingFor(log: seq<Entry>): System {
    Scene(log, 0, 0, Live, EMPTY_STORE, Actor([], Syncing(Req(0), 0), [Req(0)], [], 1, 0))
  }

  // The reply with the room key is stored, and the key taken.
  function KeyTaken(stage: Stage): System {
    Scene(LOG, 0, 1, Live, STORED, Actor([], stage, [Req(0)], [], 1, 1)).(stores := WithRoomKey())
  }

  lemma KeyIsSent(o: Oracle)
    ensures Reaches(o, AskingFor([]), [Append(ToDevice(ROOM_KEY))], AskingFor(LOG))
  {
    hide Reaches;
    assert [] + LOG == LOG;
    assert Goes(o, AskingFor([]), Append(ToDevice(ROOM_KEY)), AskingFor(LOG));
    OneStep(o, AskingFor([]), Append(ToDevice(ROOM_KEY)), AskingFor(LOG));
  }

  lemma UntilAsked(o: Oracle) returns (run: seq<Action>)
    ensures Reaches(o, Start(), run, AskingFor(LOG))
  {
    hide Reaches;
    run := UntilFirstSync(o);
    KeyIsSent(o);
    RunsJoined(o, Start(), run, AskingFor([]), [Append(ToDevice(ROOM_KEY))], AskingFor(LOG));
    run := run + [Append(ToDevice(ROOM_KEY))];
  }

  lemma UntilFetchWithKey(o: Oracle) returns (run: seq<Action>)
    requires o == NoJson()
    ensures Reaches(o, Start(), run, KeyTaken(Fetching(Req(0))))
  {
    var v := Actor([], Syncing(Req(0), 0), [Req(0)], [], 1, 0);
    var s, s1 := AskingFor(LOG), KeyTaken(Harvesting(Req(0), [ROOM_KEY], true)).(stores := NO_KEYS);
    var s2 := KeyTaken(Harvesting(Req(0), [], true));
    assert Update(EMPTY_STORE, REPLY, 0, true, 7) == STORED;
    ReplyIs(s, ROOM_KEY);
    KeyArrives();
    hide Reaches, Update, Reply, HandleToDevice;
    ReplyStored(o, s, v, REPLY, true, 7);
    HarvestOne(o, s1, s1.service.value, ROOM_KEY, WithRoomKey());
    AsksForEvent(o, s2, s2.service.value);
    run := UntilAsked(o);
    RunsJoined(o, Start(), run, s, [SyncReply(REPLY, true, 7)], s1);
    run := run + [SyncReply(REPLY, true, 7)];
    RunsJoined(o, Start(), run, s1, [HarvestNext], s2);
    run := run + [HarvestNext];
    RunsJoined(o, Start(), run, s2, [ContinueRequest], KeyTaken(Fetching(Req(0))));
    run := run + [ContinueRequest];
  }

  // The success has been delivered, with the key still there.
  function Told(): System {
    KeyTaken(Idle).(service := Some(Actor([], Idle, [Req(0)], [Completion(Req(0), Success(0))], 1, 1).(
                                      objects := [UNREADABLE], cachedEvents := map["$x" := 0])))
  }

  // The session syncs past the cache.
  function MovedOn(): System {
    Told().(session := Session(Some(1), map[], {ROOM_KEY}, Live))
  }

  lemma SessionMovesOn(o: Oracle)
    ensures Reaches(o, Told(), [SessionSyncs(REPLY)], MovedOn())
  {
    hide WithRoomKey, Reaches;
    ReplyIs(Told(), ROOM_KEY);
    assert ReplayRooms(map[], REPLY) == map[] && {} + AsSet([ROOM_KEY]) == {ROOM_KEY};
    hide Reply, ReplayRooms, AsSet;
    assert Goes(o, Told(), SessionSyncs(REPLY), MovedOn());
    OneStep(o, Told(), SessionSyncs(REPLY), MovedOn());
  }

  lemma DecryptsIntoNothing()
    ensures var c := WithRoomKey();
            && CanDecrypt(c, UNREADABLE) && Decrypt(NoJson(), c, UNREADABLE) == Decryption(c, UNREADABLE, None)
            && !CanDecrypt(Reset(c), UNREADABLE)
  {
    KeyArrives();
    hide WithRoomKey;
  }

  /** A complete run from the start: the event is reported as a success without clear data; the session moves past the
      cache, so the check of the next request drops its key; and that request, for the same event, syncs. */
  lemma UnreadableSuccessSyncsAgain() returns (run: seq<Action>, end: System)
    ensures Reaches(NoJson(), Start(), run, end) && end.service.Some?
    ensures end.service.value.done == [Completion(Req(0), Success(0))] && end.service.value.stage == Syncing(Req(1), 1)
  {
    var o, s := NoJson(), KeyTaken(Fetching(Req(0)));
    run := UntilFetchWithKey(o);
    DecryptsIntoNothing();
    assert [] + [Completion(Req(0), Success(0))] == [Completion(Req(0), Success(0))];
    hide Reaches, WithRoomKey, Decrypt, CanDecrypt;
    FetchedAndDelivered(o, s, s.service.value, UNREADABLE);
    RunsJoined(o, Start(), run, s, [EventReply(Some(UNREADABLE)), Deliver], Told());
    run := run + [EventReply(Some(UNREADABLE)), Deliver];
    SessionMovesOn(o);
    RunsJoined(o, Start(), run, Told(), [SessionSyncs(REPLY)], MovedOn());
    run := run + [SessionSyncs(REPLY)];
    end := SyncsInstead(o, MovedOn(), MovedOn().service.value, UNREADABLE);
    RunsJoined(o, Start(), run, MovedOn(), [Call("$x", "!r"), BeginRequest], end);
    run := run + [Call("$x", "!r"), BeginRequest];
  }
}
