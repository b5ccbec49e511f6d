// A complete run in which the event comes before its key: the service syncs again, and the request succeeds.
module KeyOnTheWay {
  import opened Wrappers
  import opened Events
  import opened SyncResponses
  import opened SyncStore
  import opened ServerLog
  import opened Crypto
  import opened EventDecryption
  import opened SyncService
  import opened BackgroundSync
  import opened RunPieces

  const NOTICE := MXEvent("", None, Some("@bob"), OtherType("m.dummy"),
                          Content(None, NoCiphertext, None, None, None, None, None, None), None)
  const ROOM_KEY := RoomKeyEvent("!r")

  // As a sync sends it: without its room.
  const SECRET := MXEvent("$x", None, Some("@bob"), RoomEncrypted,
                          Content(Some(MEGOLM), Text("text"), None, Some("s"), None, Some("bob"), None, None), None)

  const LOG := [ToDevice(NOTICE), InRoom("!r", SECRET)]
  const FIRST := SyncResponse(2, [NOTICE], map["!r" := RoomSync([], Timeline([SECRET], false, None), [])], map[], map[])
  const SECOND := JustToDevice(3, [ROOM_KEY])
  const WITH_FIRST := Store(map[7 := Cached(0, FIRST)], [7], [])
  const WITH_BOTH := Store(map[7 := Cached(0, FIRST), 8 := Cached(2, SECOND)], [7, 8], [])

  function WithKey(): Stores {
    HandleToDevice(Literal(), NO_KEYS, ROOM_KEY).stores
  }

  // The session is at token 0, and the one request is at this stage.
  function At(log: seq<Entry>, acked: Token, reach: Token, store: Store, stage: Stage, syncs: nat, keyed: nat): System {
    Scene(log, acked, reach, Live, store, Actor([], stage, [Req(0)], [], syncs, keyed))
  }

  lemma Sent(o: Oracle) returns (run: seq<Action>)
    ensures Reaches(o, Start(), run, At(LOG, 0, 0, EMPTY_STORE, Syncing(Req(0), 0), 1, 0))
  {
    var s0, s1 := At([], 0, 0, EMPTY_STORE, Syncing(Req(0), 0), 1, 0),
      At(LOG, 0, 0, EMPTY_STORE, Syncing(Req(0), 0), 1, 0);
    var mid := At([ToDevice(NOTICE)], 0, 0, EMPTY_STORE, Syncing(Req(0), 0), 1, 0);
    run := UntilFirstSync(o);
    assert [] + [ToDevice(NOTICE)] == [ToDevice(NOTICE)] && [ToDevice(NOTICE)] + [InRoom("!r", SECRET)] == LOG;
    assert Goes(o, s0, Append(ToDevice(NOTICE)), mid) && Goes(o, mid, Append(InRoom("!r", SECRET)), s1);
    hide Goes, Reaches;
    TwoSteps(o, s0, Append(ToDevice(NOTICE)), mid, Append(InRoom("!r", SECRET)), s1);
    RunsJoined(o, Start(), run, s0, [Append(ToDevice(NOTICE)), Append(InRoom("!r", SECRET))], s1);
    run := run + [Append(ToDevice(NOTICE)), Append(InRoom("!r", SECRET))];
  }

  lemma FirstIsReply(s: System)
    requires s.log == LOG && s.acked == 0
    ensures Reply(s, 0, FIRST)
  {
    assert LOG[0] == ToDevice(NOTICE);
  }

  lemma FirstStored(o: Oracle) returns (run: seq<Action>)
    ensures Reaches(o, Start(), run, At(LOG, 0, 2, WITH_FIRST, Harvesting(Req(0), [], true), 1, 1))
  {
    var s := At(LOG, 0, 0, EMPTY_STORE, Syncing(Req(0), 0), 1, 0);
    var s1 := At(LOG, 0, 2, WITH_FIRST, Harvesting(Req(0), [NOTICE], true), 1, 1);
    FirstIsReply(s);
    assert Update(EMPTY_STORE, FIRST, 0, true, 7) == WITH_FIRST;
    hide Reaches, Update, Reply;
    run := Sent(o);
    ReplyStored(o, s, s.service.value, FIRST, true, 7);
    HarvestPlain(o, s1, s1.service.value, NOTICE);
    RunsJoined(o, Start(), run, s, [SyncReply(FIRST, true, 7)], s1);
    run := run + [SyncReply(FIRST, true, 7)];
    RunsJoined(o, Start(), run, s1, [HarvestNext], At(LOG, 0, 2, WITH_FIRST, Harvesting(Req(0), [], true), 1, 1));
    run := run + [HarvestNext];
  }

  lemma SecretIsFound()
    ensures Lookup(WITH_FIRST, "$x", "!r") == Some(SECRET.(roomId := Some("!r")))
    ensures Lookup(WITH_BOTH, "$x", "!r") == Some(SECRET.(roomId := Some("!r")))
  {
    assert EventsOfRoom(FIRST, "!r") == [SECRET];
    assert EventsOfRoom(SECOND, "!r") == [];
    assert FindIn(FIRST, "$x", "!r") == Some(SECRET.(roomId := Some("!r")));
    assert FindIn(SECOND, "$x", "!r") == None;
    hide FindIn;
    assert [7][..0] == [] && [7, 8][..1] == [7];
    assert FindEvent(WITH_FIRST, [7], "$x", "!r") == FindEvent(WITH_BOTH, [7], "$x", "!r");
  }

  // The event has come without its key, so the service syncs again.
  lemma SyncsOn(o: Oracle)
    ensures Reaches(o, At(LOG, 0, 2, WITH_FIRST, Harvesting(Req(0), [], true), 1, 1), [ContinueRequest],
                    At(LOG, 0, 2, WITH_FIRST, Syncing(Req(0), 2), 2, 1))
  {
    var s, s' := At(LOG, 0, 2, WITH_FIRST, Harvesting(Req(0), [], true), 1, 1),
      At(LOG, 0, 2, WITH_FIRST, Syncing(Req(0), 2), 2, 1);
    SecretIsFound();
    hide Lookup, Ask, Reaches, Harvest, Begin, Fetched, NextOfSession, Receive;
    assert KeyMayCome(LocalOf(s));
    assert Goes(o, s, ContinueRequest, s');
    OneStep(o, s, ContinueRequest, s');
  }

  // The key is sent, and the question reaches the homeserver.
  lemma KeySent(o: Oracle)
    ensures Reaches(o, At(LOG, 0, 2, WITH_FIRST, Syncing(Req(0), 2), 2, 1), [Append(ToDevice(ROOM_KEY)), ServiceAsks],
                    At(LOG + [ToDevice(ROOM_KEY)], 2, 2, WITH_FIRST, Syncing(Req(0), 2), 2, 1))
  {
    var s, s' := At(LOG, 0, 2, WITH_FIRST, Syncing(Req(0), 2), 2, 1),
                 At(LOG + [ToDevice(ROOM_KEY)], 2, 2, WITH_FIRST, Syncing(Req(0), 2), 2, 1);
    var mid := At(LOG + [ToDevice(ROOM_KEY)], 0, 2, WITH_FIRST, Syncing(Req(0), 2), 2, 1);
    hide Reaches, Harvest, Begin, Continue, Fetched, Receive, NextOfSession;
    assert Goes(o, s, Append(ToDevice(ROOM_KEY)), mid) && Goes(o, mid, ServiceAsks, s');
    hide Goes;
    TwoSteps(o, s, Append(ToDevice(ROOM_KEY)), mid, ServiceAsks, s');
  }

  lemma KeyArrives()
    ensures HandleToDevice(Literal(), NO_KEYS, ROOM_KEY) == Handled(WithKey())
    ensures var k := KeyId("s", "bob");
            k in WithKey().bgKeys && WithKey().bgKeys[k] == GroupSession("key", "s", 5, "!r", Some("bobEd"), [])
  {
    var o := Literal();
    assert Known(NO_KEYS, "bob") == [];
    assert DecryptOlm(o, NO_KEYS, "bob", OlmMessage(Some("!r"), 0)).1 == Some("!r");
    DecryptKeys(o, NO_KEYS, ROOM_KEY);
    OlmIsNotMegolm();
    hide DecryptOlm;
  }

  lemma SecondIsReply(s: System)
    requires s.log == LOG + [ToDevice(ROOM_KEY)] && s.acked == 2
    ensures Reply(s, 2, SECOND)
  {
    assert s.log[2] == ToDevice(ROOM_KEY);
  }

  lemma KeyTaken(o: Oracle)
    requires o == Literal()
    ensures Reaches(o, At(LOG + [ToDevice(ROOM_KEY)], 2, 2, WITH_FIRST, Syncing(Req(0), 2), 2, 1),
                    [SyncReply(SECOND, false, 8), HarvestNext],
                    At(LOG + [ToDevice(ROOM_KEY)], 2, 3, WITH_BOTH, Harvesting(Req(0), [], true), 2,
                       2).(stores := WithKey()))
  {
    var log := LOG + [ToDevice(ROOM_KEY)];
    var s := At(log, 2, 2, WITH_FIRST, Syncing(Req(0), 2), 2, 1);
    var s1 := At(log, 2, 3, WITH_BOTH, Harvesting(Req(0), [ROOM_KEY], true), 2, 2);
    SecondIsReply(s);
    KeyArrives();
    assert Update(WITH_FIRST, SECOND, 2, false, 8) == WITH_BOTH by {
      assert [7] + [8] == [7, 8];
    }
    hide Reaches, Update, Reply, HandleToDevice;
    ReplyStored(o, s, s.service.value, SECOND, false, 8);
    HarvestOne(o, s1, s1.service.value, ROOM_KEY, WithKey());
    RunsJoined(o, s, [SyncReply(SECOND, false, 8)], s1, [HarvestNext],
               At(log, 2, 3, WITH_BOTH, Harvesting(Req(0), [], true), 2, 2).(stores := WithKey()));
    assert [SyncReply(SECOND, false, 8)] + [HarvestNext] == [SyncReply(SECOND, false, 8), HarvestNext];
  }

  // The event as it is once decrypted.
  const OPENED := SECRET.(roomId := Some("!r"),
                          clear := Some(ClearData(OtherType("m.room.message"), None, Some("bob"), Some("bobEd"), [])))

  lemma SecretOpens()
    ensures CanDecrypt(WithKey(), SECRET.(roomId := Some("!r")))
    ensures Decrypt(Literal(), WithKey(), SECRET.(roomId := Some("!r"))) == Decryption(WithKey(), OPENED, None)
  {
    KeyArrives();
    hide WithKey, DecryptWithOlm;
  }

  // The event is in the cache and its key is there: the request succeeds without a further sync.
  lemma SucceedsNow(o: Oracle, s: System, v: Service, e: MXEvent, clear: MXEvent)
    requires s.service == Some(v) && v.stage == Harvesting(Req(0), [], true) && v.objects == []
             && v.cachedEvents == map[]
    requires Lookup(s.store, "$x", "!r") == Some(e) && !e.Readable() && HasContent(e) && CanDecrypt(s.stores, e)
    requires Decrypt(o, s.stores, e) == Decryption(s.stores, clear, None)
    ensures var v' := v.(objects := [clear], cachedEvents := map["$x" := 0], stage := Completing(Req(0), Success(0)));
            Goes(o, s, ContinueRequest, s.(service := Some(v')))
  {
    assert [] + [e] == [e] && [e][0 := clear] == [clear];
    hide Lookup, Decrypt, CanDecrypt, Harvest, Begin, Fetched, NextOfSession, Receive;
  }

  /** The event comes with the first reply and its key with the second: the request syncs twice and succeeds
      readably. */
  lemma KeyComesLater() returns (run: seq<Action>, end: System)
    ensures Reaches(Literal(), Start(), run, end) && end.service.Some?
    ensures var v := end.service.value;
            v.done == [Completion(Req(0), Success(0))] && v.objects == [OPENED] && OPENED.Readable() && v.syncs == 2
  {
    var o, log := Literal(), LOG + [ToDevice(ROOM_KEY)];
    var s1, s2 := At(LOG, 0, 2, WITH_FIRST, Harvesting(Req(0), [], true), 1, 1),
      At(LOG, 0, 2, WITH_FIRST, Syncing(Req(0), 2), 2, 1);
    var s3 := At(log, 2, 2, WITH_FIRST, Syncing(Req(0), 2), 2, 1);
    var s4 := At(log, 2, 3, WITH_BOTH, Harvesting(Req(0), [], true), 2, 2).(stores := WithKey());
    var v := s4.service.value.(objects := [OPENED], cachedEvents := map["$x" := 0]);
    var s5 := s4.(service := Some(v.(stage := Completing(Req(0), Success(0)))));
    end := s4.(service := Some(v.(stage := Idle, done := [Completion(Req(0), Success(0))])));
    assert [] + [Completion(Req(0), Success(0))] == [Completion(Req(0), Success(0))];
    hide Reaches, Goes, WithKey, Lookup, Decrypt, CanDecrypt;
    run := FirstStored(o);
    SyncsOn(o);
    KeySent(o);
    KeyTaken(o);
    SecretIsFound();
    SecretOpens();
    SucceedsNow(o, s4, s4.service.value, SECRET.(roomId := Some("!r")), OPENED);
    Delivered(o, s5, s5.service.value);
    TwoSteps(o, s4, ContinueRequest, s5, Deliver, end);
    RunsJoined(o, Start(), run, s1, [ContinueRequest], s2);
    run := run + [ContinueRequest];
    RunsJoined(o, Start(), run, s2, [Append(ToDevice(ROOM_KEY)), ServiceAsks], s3);
    run := run + [Append(ToDevice(ROOM_KEY)), ServiceAsks];
    RunsJoined(o, Start(), run, s3, [SyncReply(SECOND, false, 8), HarvestNext], s4);
    run := run + [SyncReply(SECOND, false, 8), HarvestNext];
    RunsJoined(o, Start(), run, s4, [ContinueRequest, Deliver], end);
    run := run + [ContinueRequest, Deliver];
  }
}
