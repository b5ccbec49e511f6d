// The run that quiet excludes: replies stored while the session deletes the cache it has already read.
module LostToDevice {
  import opened Wrappers
  import opened Events
  import opened SyncResponses
  import opened SyncStore
  import opened ServerLog
  import opened Crypto
  import opened SyncService
  import opened BackgroundSync
  import opened Conservation
  import opened RunPieces

  lemma CacheReadAndAppended(o: Oracle, v: Service, e: MXEvent)
    requires e.clear.None?
    ensures Reaches(o, Scene([], 0, 0, Live, FIRST_STORE, v), [HandleCache, Append(ToDevice(e))],
                    Scene([ToDevice(e)], 0, 0, Replayed, FIRST_STORE, v))
  {
    var store := FIRST_STORE;
    assert store.ids[..0] == [] && MergeIds(store, store.ids) == Some(Cached(0, JustToDevice(0, [])));
    assert MergeIds(store, store.outdated) == None;
    assert ReplayRooms(map[], JustToDevice(0, [])) == map[];
    hide MergeIds, Harvest, Continue, Fetched, Begin, Receive, ReplayRooms, Reaches;
    var s, mid := Scene([], 0, 0, Live, store, v), Scene([], 0, 0, Replayed, store, v);
    assert Goes(o, s, HandleCache, mid);
    assert Goes(o, mid, Append(ToDevice(e)), Scene([ToDevice(e)], 0, 0, Replayed, store, v));
    hide Goes, Scene;
    TwoSteps(o, s, HandleCache, mid, Append(ToDevice(e)), Scene([ToDevice(e)], 0, 0, Replayed, store, v));
  }

  // The homeserver is asked from behind the event, and the session deletes the one cached response.
  lemma AskAndDelete(o: Oracle, v: Service, store: Store, log: seq<Entry>) returns (run: seq<Action>)
    requires v.stage.Syncing? && v.stage.from == 1 && 7 in store.files && store.ids == [7] && store.outdated == []
    ensures Reaches(o, Scene(log, 0, 1, Replayed, store, v), run,
                    Scene(log, 1, 1, Live, ClearMetaData(DeleteId(DeleteFile(store, 7), 7)), v))
  {
    var gone := DeleteFile(store, 7);
    assert All(store) == [7];
    hide Harvest, Continue, Fetched, Begin, Receive, HandleCached, Without, Reaches;
    var s0, s1 := Scene(log, 0, 1, Replayed, store, v), Scene(log, 1, 1, Replayed, store, v);
    var s2, s3 := Scene(log, 1, 1, Deleting([7]), store, v), Scene(log, 1, 1, Deleting([7]), gone, v);
    var s4 := Scene(log, 1, 1, Deleting([]), DeleteId(gone, 7), v);
    var s5 := Scene(log, 1, 1, Live, ClearMetaData(DeleteId(gone, 7)), v);
    assert [7][1..] == [];
    assert Goes(o, s0, ServiceAsks, s1) && Goes(o, s1, StartDeletion, s2) && Goes(o, s2, DeleteNext, s3);
    assert Goes(o, s3, DeleteNext, s4) && Goes(o, s4, FinishDeletion, s5);
    hide Goes, Scene, DeleteId, DeleteFile, ClearMetaData;
    TwoSteps(o, s0, ServiceAsks, s1, StartDeletion, s2);
    TwoSteps(o, s2, DeleteNext, s3, DeleteNext, s4);
    OneStep(o, s4, FinishDeletion, s5);
    RunsJoined(o, s0, [ServiceAsks, StartDeletion], s2, [DeleteNext, DeleteNext], s4);
    run := [ServiceAsks, StartDeletion] + [DeleteNext, DeleteNext];
    RunsJoined(o, s0, run, s4, [FinishDeletion], s5);
    run := run + [FinishDeletion];
  }

  // A response stored while the session is about to delete the cache it has read, and the next sync from its end.
  lemma StoredBehindItsBack(o: Oracle, e: MXEvent, store: Store, v19: Service) returns (run: seq<Action>)
    requires e.clear.None? && !e.IsEncrypted()
    requires store == Store(map[7 := Cached(0, JustToDevice(1, [e]))], [7], [])
    requires v19 == Actor([], Syncing(Req(2), 1), [Req(0), Req(1)] + [Req(2)], [Failed(0)] + [Failed(1)], 1, 0)
    ensures Reaches(o, Scene([ToDevice(e)], 0, 0, Replayed, FIRST_STORE,
                             Actor([], Syncing(Req(1), 0), [Req(0), Req(1)], [Failed(0)], 1, 0)),
                    run, Scene([ToDevice(e)], 0, 1, Replayed, store, v19))
  {
    var r1, log := JustToDevice(1, [e]), [ToDevice(e)];
    var v0 := Actor([], Syncing(Req(1), 0), [Req(0), Req(1)], [Failed(0)], 1, 0);
    var v17 := Actor([], Idle, [Req(0), Req(1)], [Failed(0)] + [Failed(1)], 1, 1);
    var s12, s17 := Scene(log, 0, 0, Replayed, FIRST_STORE, v0), Scene(log, 0, 1, Replayed, store, v17);
    assert Update(FIRST_STORE, r1, 0, true, 8) == store by {
      MergedJustToDevice(e);
      hide Merged;
    }
    ReplyIs(s12, e);
    hide Reaches, Update, Reply;
    var served := Served(o, s12, v0, r1, 8);
    CallAndBegin(o, s17, v17, 1);
    RunsJoined(o, s12, served, s17, [Call("$x", "!r"), BeginRequest], Scene(log, 0, 1, Replayed, store, v19));
    run := served + [Call("$x", "!r"), BeginRequest];
  }

  /** The session reads the cache; a reply with a to-device event is stored behind its back; the service asks on from
      the end of that reply, so the homeserver forgets the event; the session deletes the cache. The event is lost. */
  lemma UnquietRunLosesEvent(o: Oracle, e: MXEvent) returns (run: seq<Action>, end: System)
    requires e.clear.None? && !e.IsEncrypted()
    ensures Reaches(o, Start(), run, end) && end.log == [ToDevice(e)] && end.acked == 1 && !Kept(end, e)
  {
    var log, store := [ToDevice(e)], Store(map[7 := Cached(0, JustToDevice(1, [e]))], [7], []);
    var v0 := Actor([], Syncing(Req(1), 0), [Req(0), Req(1)], [Failed(0)], 1, 0);
    var v19 := Actor([], Syncing(Req(2), 1), [Req(0), Req(1)] + [Req(2)], [Failed(0)] + [Failed(1)], 1, 0);
    end := Scene(log, 1, 1, Live, ClearMetaData(DeleteId(DeleteFile(store, 7), 7)), v19);
    assert !Kept(end, e);
    hide Reaches, Kept, DeleteId, DeleteFile, ClearMetaData;
    CacheReadAndAppended(o, v0, e);
    var stored := StoredBehindItsBack(o, e, store, v19);
    var deleted := AskAndDelete(o, v19, store, log);
    run := UntilSecondSync(o);
    hide Scene, Actor;
    RunsJoined(o, Start(), run, Scene([], 0, 0, Live, FIRST_STORE, v0), [HandleCache, Append(ToDevice(e))],
           Scene(log, 0, 0, Replayed, FIRST_STORE, v0));
    run := run + [HandleCache, Append(ToDevice(e))];
    RunsJoined(o, Start(), run, Scene(log, 0, 0, Replayed, FIRST_STORE, v0), stored,
               Scene(log, 0, 1, Replayed, store, v19));
    run := run + stored;
    RunsJoined(o, Start(), run, Scene(log, 0, 1, Replayed, store, v19), deleted, end);
    run := run + deleted;
  }
}
