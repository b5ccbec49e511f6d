// The run that tidiness excludes: a session stopped in the middle of a deletion, and a service that trusts the rest.
module StaleCache {
  import opened Wrappers
  import opened Events
  import opened SyncResponses
  import opened SyncStore
  import opened ServerLog
  import opened Crypto
  import opened SyncService
  import opened BackgroundSync
  import opened Staleness
  import opened RunPieces

  // After the first empty reply, a second one with an event, in a chunk of its own.
  function TwoChunks(e: MXEvent): Store {
    Store(map[7 := Cached(0, JustToDevice(0, [])), 8 := Cached(0, JustToDevice(1, [e]))], [7, 8], [])
  }

  // The session at the end of that cache.
  function Moved(e: MXEvent, phase: Phase, store: Store, service: Option<Service>): System {
    System([ToDevice(e)], 0, Session(Some(1), map[], {e}, phase), store, NO_KEYS, service, 1, {})
  }

  lemma SecondChunk(o: Oracle, e: MXEvent) returns (run: seq<Action>, v: Service)
    requires e.clear.None? && !e.IsEncrypted()
    ensures Reaches(o, Start(), run, Scene([ToDevice(e)], 0, 1, Live, TwoChunks(e), v))
  {
    var v0, r1 := Actor([], Syncing(Req(1), 0), [Req(0), Req(1)], [Failed(0)], 1, 0), JustToDevice(1, [e]);
    var s0, s1 := Scene([], 0, 0, Live, FIRST_STORE, v0), Scene([ToDevice(e)], 0, 0, Live, FIRST_STORE, v0);
    v := v0.(keyed := 1, stage := Harvesting(Req(1), [e], true));
    assert Goes(o, s0, Append(ToDevice(e)), s1) by {
      hide Harvest, Continue, Fetched, Begin, NextOfSession;
    }
    ReplyIs(s1, e);
    assert Update(FIRST_STORE, r1, 0, false, 8) == TwoChunks(e);
    hide Goes, Reaches, Update, Reply;
    ReplyStored(o, s1, v0, r1, false, 8);
    OneStep(o, s0, Append(ToDevice(e)), s1);
    run := UntilSecondSync(o);
    RunsJoined(o, Start(), run, s0, [Append(ToDevice(e))], s1);
    run := run + [Append(ToDevice(e))];
    RunsJoined(o, Start(), run, s1, [SyncReply(r1, false, 8)], Scene([ToDevice(e)], 0, 1, Live, TwoChunks(e), v));
    run := run + [SyncReply(r1, false, 8)];
  }

  lemma CacheRead(o: Oracle, e: MXEvent, v: Service)
    ensures Goes(o, Scene([ToDevice(e)], 0, 1, Live, TwoChunks(e), v), HandleCache,
                 Moved(e, Replayed, TwoChunks(e), Some(v)))
  {
    var s := TwoChunks(e);
    assert s.ids[..1] == [7] && s.ids[..1][..0] == [] && MergeIds(s, [7]) == Some(Cached(0, JustToDevice(0, []))) by {
      assert [7][..0] == [];
    }
    MergedJustToDevice(e);
    assert MergeIds(s, s.ids) == Some(Cached(0, JustToDevice(1, [e]))) by {
      hide Merged;
    }
    assert MergeIds(s, s.outdated) == None;
    assert ReplayRooms(map[], JustToDevice(1, [e])) == map[];
    assert {} + AsSet([e]) == {e};
    hide MergeIds, Merged, Harvest, Continue, Fetched, Begin, Receive, ReplayRooms, AsSet;
  }

  lemma FirstFileDeleted(o: Oracle, e: MXEvent, s: Store, v: Service)
    requires s.outdated == [] && s.ids == [7, 8] && 7 in s.files
    ensures Reaches(o, Moved(e, Replayed, s, Some(v)), [StartDeletion, DeleteNext],
                    Moved(e, Deleting([7, 8]), DeleteFile(s, 7), Some(v)))
  {
    assert All(s) == [7, 8];
    var s0, s1 := Moved(e, Replayed, s, Some(v)), Moved(e, Deleting([7, 8]), s, Some(v));
    var s2 := Moved(e, Deleting([7, 8]), DeleteFile(s, 7), Some(v));
    hide Harvest, Continue, Fetched, Begin, Receive, HandleCached, Without, Reaches, DeleteFile;
    assert Goes(o, s0, StartDeletion, s1);
    assert Goes(o, s1, DeleteNext, s2);
    hide Goes, Moved;
    TwoSteps(o, s0, StartDeletion, s1, DeleteNext, s2);
  }

  lemma BothStopped(o: Oracle, e: MXEvent, s: Store, v: Service)
    ensures Reaches(o, Moved(e, Deleting([7, 8]), s, Some(v)), [SessionStops, ServiceStops], Moved(e, Live, s, None))
  {
    hide Harvest, Continue, Fetched, Begin, Receive, HandleCached, Reaches;
    var s2, s3, s4 := Moved(e, Deleting([7, 8]), s, Some(v)), Moved(e, Live, s, Some(v)), Moved(e, Live, s, None);
    assert Goes(o, s2, SessionStops, s3);
    assert Goes(o, s3, ServiceStops, s4);
    hide Goes, Moved;
    TwoSteps(o, s2, SessionStops, s3, ServiceStops, s4);
  }

  lemma CutOff(o: Oracle, e: MXEvent, v: Service) returns (run: seq<Action>)
    ensures Reaches(o, Moved(e, Replayed, TwoChunks(e), Some(v)), run,
                    Moved(e, Live, DeleteFile(TwoChunks(e), 7), None))
  {
    var s := TwoChunks(e);
    FirstFileDeleted(o, e, s, v);
    BothStopped(o, e, DeleteFile(s, 7), v);
    hide Reaches, Moved, DeleteFile, TwoChunks;
    RunsJoined(o, Moved(e, Replayed, s, Some(v)), [StartDeletion, DeleteNext],
               Moved(e, Deleting([7, 8]), DeleteFile(s, 7), Some(v)),
               [SessionStops, ServiceStops], Moved(e, Live, DeleteFile(s, 7), None));
    run := [StartDeletion, DeleteNext] + [SessionStops, ServiceStops];
  }

  lemma StartedAndCalled(o: Oracle, e: MXEvent)
    ensures var gone := DeleteFile(TwoChunks(e), 7);
            var v := NewService(Some(1));
            Reaches(o, Moved(e, Live, gone, None), [Init(map[], map[]), Call("$x", "!r")],
                    Moved(e, Live, gone, Some(v.(queue := [Req(0)], calls := [Req(0)]))))
  {
    var gone, v := DeleteFile(TwoChunks(e), 7), NewService(Some(1));
    var empty: map<KeyId, GroupSession> := map[];
    assert SyncToken(gone).None? && {} + empty.Items == {};
    assert [] + [Req(0)] == [Req(0)];
    hide Harvest, Continue, Fetched, Begin, Receive, NextOfSession, Reaches, DeleteFile, TwoChunks, SyncToken;
    var s0, s1 := Moved(e, Live, gone, None), Moved(e, Live, gone, Some(v));
    var s2 := Moved(e, Live, gone, Some(v.(queue := [Req(0)], calls := [Req(0)])));
    assert Goes(o, s0, Init(empty, map[]), s1);
    assert Goes(o, s1, Call("$x", "!r"), s2);
    hide Goes, Moved;
    TwoSteps(o, s0, Init(empty, map[]), s1, Call("$x", "!r"), s2);
  }

  /** The session handles a cache of two chunks, deletes the file of the first, and is stopped. A service started then
      takes a call and keeps a cache that starts at token 0, although the session is at token 1. */
  lemma InterruptedDeletionBlindsTheCheck(o: Oracle, e: MXEvent) returns (run: seq<Action>, s: System)
    requires e.clear.None? && !e.IsEncrypted()
    ensures Reaches(o, Start(), run, s) && Enabled(s, BeginRequest)
    ensures s.session.token == Some(1) && !UpToDate(Next(o, s, BeginRequest).store, s.session.token)
  {
    var v: Service;
    run, v := SecondChunk(o, e);
    var gone := DeleteFile(TwoChunks(e), 7);
    s := Moved(e, Live, gone, Some(NewService(Some(1)).(queue := [Req(0)], calls := [Req(0)])));
    assert Enabled(s, BeginRequest);
    assert StaleBehindHole(gone, Some(1)) by {
      assert gone.ids[1..][0] == 8 && FirstReadable(gone.files, gone.ids[1..]) == Some(gone.files[8]);
    }
    RequestBeginsUpToDateExactly(o, s);
    hide Next, Enabled, Reaches, TwoChunks, DeleteFile, StaleBehindHole, UpToDate, Goes;
    CacheRead(o, e, v);
    OneStep(o, Scene([ToDevice(e)], 0, 1, Live, TwoChunks(e), v), HandleCache,
            Moved(e, Replayed, TwoChunks(e), Some(v)));
    var cutOff := CutOff(o, e, v);
    StartedAndCalled(o, e);
    hide Moved, Scene;
    RunsJoined(o, Start(), run, Scene([ToDevice(e)], 0, 1, Live, TwoChunks(e), v), [HandleCache],
               Moved(e, Replayed, TwoChunks(e), Some(v)));
    run := run + [HandleCache];
    RunsJoined(o, Start(), run, Moved(e, Replayed, TwoChunks(e), Some(v)), cutOff, Moved(e, Live, gone, None));
    run := run + cutOff;
    RunsJoined(o, Start(), run, Moved(e, Live, gone, None), [Init(map[], map[]), Call("$x", "!r")], s);
    run := run + [Init(map[], map[]), Call("$x", "!r")];
  }
}
