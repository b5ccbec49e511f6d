// A room that the homeserver reports without gaps shows a prefix of the log in every run, however much of it came
// through the cache.
module Refinement {
  import opened Wrappers
  import opened SyncResponses
  import opened SyncStore
  import opened SessionReplay
  import opened ServerLog
  import opened Crypto
  import opened SyncService
  import opened BackgroundSync
  import opened ChainSafety
  import opened Conservation

  /** A reply reports the room from the token asked with, without a gap, an invite or a leave; of others it may say
      anything. */
  ghost predicate Gapless(s: System, a: Action, room: string) {
    && (a.SessionSyncs? ==> Accurate(s.log, room, SessionToken(s), a.response))
    && (a.SyncReply? && s.service.Some? && s.service.value.stage.Syncing? ==>
          Accurate(s.log, room, s.service.value.stage.from, a.response))
  }

  /** The room shows its events of the log up to the session's token, each once and in order. */
  ghost predicate ShowsPrefix(s: System, room: string) {
    SessionToken(s) <= |s.log| && Shows(View(s.session.rooms, room), RoomEvents(s.log[..SessionToken(s)], room))
  }

  ghost predicate Faithful(s: System, room: string) {
    AllAccurate(s.log, room, s.store) && ShowsPrefix(s, room)
  }

  lemma ReplayRoomsView(rooms: map<string, RoomView>, r: SyncResponse, room: string)
    ensures View(ReplayRooms(rooms, r), room) == Replay(View(rooms, room), SlotOf(r, room))
  {
  }

  lemma HandledShows(s: System, room: string, x: Session, r: SyncResponse)
    requires ShowsPrefix(s, room) && Accurate(s.log, room, SessionToken(s), r)
    requires x.rooms == ReplayRooms(s.session.rooms, r) && x.token == Some(r.nextBatch)
    ensures ShowsPrefix(s.(session := x), room)
  {
    hide Reports, Shows, Replay;
    ReplayRoomsView(s.session.rooms, r, room);
    ReplayShows(View(s.session.rooms, room), SlotOf(r, room),
                RoomEvents(s.log[..SessionToken(s)], room), RoomEvents(s.log[SessionToken(s)..r.nextBatch], room));
    RoomEventsBetween(s.log, 0, SessionToken(s), r.nextBatch, room);
    assert s.log[0..r.nextBatch] == s.log[..r.nextBatch] && s.log[0..SessionToken(s)] == s.log[..SessionToken(s)];
  }

  lemma AppendShows(s: System, room: string, entry: Entry)
    requires Faithful(s, room)
    ensures Faithful(s.(log := s.log + [entry]), room)
  {
    hide Accurate, Shows;
    var s' := s.(log := s.log + [entry]);
    forall id | id in s.store.files && Listed(s.store, id)
      ensures Accurate(s'.log, room, s.store.files[id].syncToken, s.store.files[id].response)
    {
      LongerLog(s.log, s'.log, room, s.store.files[id].syncToken, s.store.files[id].response);
    }
    assert s'.log[..SessionToken(s)] == s.log[..SessionToken(s)];
  }

  /** Handling a valid cache shows in the room what a direct sync to the end of the cache would. */
  lemma HandleCacheShows(s: System, room: string)
    requires Inv(s) && Faithful(s, room)
    ensures Faithful(s.(session := HandleCached(s.session, s.store)), room)
  {
    HandleCachedIs(s.session, s.store);
    hide HandleCached, Accurate, Shows, MergeIds, ReplayRooms, Tokens, InFlight, AllSound, ServiceSound, Distinct,
         RestReadable;
    var x := HandleCached(s.session, s.store);
    if SyncToken(s.store).Some? && SyncToken(s.store) == s.session.token {
      var k := |s.store.ids|;
      assert s.store.ids[..k] == s.store.ids;
      MergedChain(s.store, k);
      MergedChainIsOneReply(s.log, room, s.store, k);
      HandledShows(s, room, x, MergeIds(s.store, s.store.ids).value.response);
    }
  }

  lemma ReceiveShows(s: System, room: string, r: SyncResponse, small: bool, newId: nat)
    requires Inv(s) && Faithful(s, room) && Enabled(s, SyncReply(r, small, newId))
             && Gapless(s, SyncReply(r, small, newId), room)
    ensures Faithful(WithLocal(s.(reach := Max(s.reach, r.nextBatch)), Receive(LocalOf(s), r, small, newId)), room)
  {
    var from := s.service.value.stage.from;
    assert InFlight(s) && s.service.Some?;
    hide Accurate, Shows, Inv, Enabled, Merged;
    assert AllAccurate(s.log, room, Update(s.store, r, from, small, newId)) by {
      if small && Last(s.store).Some? {
        var c := Last(s.store).value;
        MergedIsLongerReply(s.log, room, c.syncToken, c.response, r);
      }
    }
    hide Update;
  }

  lemma StoreShrinks(s: System, s': System, room: string)
    requires Faithful(s, room) && s'.log == s.log && s'.session.rooms == s.session.rooms
             && s'.session.token == s.session.token
    requires forall id | id in s'.store.files && Listed(s'.store, id) ::
               id in s.store.files && Listed(s.store, id) && s'.store.files[id] == s.store.files[id]
    ensures Faithful(s', room)
  {
    hide Accurate, Shows;
  }

  lemma StepShows(o: Oracle, s: System, a: Action, room: string)
    requires Inv(s) && Faithful(s, room) && Enabled(s, a) && Gapless(s, a, room)
    ensures Faithful(Next(o, s, a), room)
  {
    hide Faithful, Inv, Begin, Receive, Harvest, HandleCached, Fetched, Continue, Reset, Reply, ReplayRooms, Accurate;
    var s' := Next(o, s, a);
    match a {
      case Append(entry) => AppendShows(s, room, entry);
      case SessionSyncs(r) => SessionSyncsShows(s, room, r);
      case HandleCache => HandleCacheShows(s, room);
      case SyncReply(r, small, newId) => ReceiveShows(s, room, r, small, newId);
      case DeleteNext => DeleteNextShows(s, room);
      case WriteCutOff(r, newId) => StoreShrinks(s, s', room);
      case BeginRequest =>
        BeginStore(o, s);
        StoreShrinks(s, s', room);
      case ContinueRequest =>
        ContinueStore(o, LocalOf(s));
        StoreShrinks(s, s', room);
      case EventReply(e) =>
        FetchedStore(o, LocalOf(s), e);
        StoreShrinks(s, s', room);
      case _ => StoreShrinks(s, s', room);
    }
  }

  lemma DeleteNextShows(s: System, room: string)
    requires Faithful(s, room) && s.session.phase.Deleting? && s.session.phase.todo != []
    ensures Faithful(NextOfSession(s, DeleteNext), room)
  {
    var s' := NextOfSession(s, DeleteNext);
    forall id | Listed(s'.store, id) ensures Listed(s.store, id) {
      DeletionListsNothing(s.store, s.session.phase.todo[0], id);
    }
    hide Listed, Faithful;
    StoreShrinks(s, s', room);
  }

  lemma SessionSyncsShows(s: System, room: string, r: SyncResponse)
    requires Faithful(s, room) && Accurate(s.log, room, SessionToken(s), r)
    ensures Faithful(NextOfSession(s, SessionSyncs(r)), room)
  {
    hide Accurate, Shows, ReplayRooms;
    HandledShows(s, room, HandleResponse(s.session, r), r);
  }

  // No reply of the run reports a gap, an invite or a leave of this room.
  ghost predicate GaplessRun(o: Oracle, s: System, run: seq<Action>, room: string)
    decreases |run|
  {
    run == [] || (Enabled(s, run[0]) && Gapless(s, run[0], room) && GaplessRun(o, Next(o, s, run[0]), run[1..], room))
  }

  lemma {:induction false} RunShows(o: Oracle, s: System, run: seq<Action>, end: System, room: string)
    requires Inv(s) && Faithful(s, room) && Reaches(o, s, run, end) && GaplessRun(o, s, run, room)
    ensures Inv(end) && Faithful(end, room)
    decreases |run|
  {
    if run != [] {
      StepKeeps(o, s, run[0]);
      StepShows(o, s, run[0], room);
      hide Inv, Faithful, Next, Enabled;
      RunShows(o, Next(o, s, run[0]), run[1..], end, room);
    }
  }

  lemma StartIsFaithful(room: string)
    ensures Faithful(Start(), room)
  {
  }

  /** In every run, whatever is interrupted: every room about which no reply reports a gap, an invite or a leave shows
      the events of the log up to the session's token, each once and in order, whatever the replies say of other rooms.
      What came through any number of background syncs, merges and chunks cannot be told from what the session synced
      itself. */
  lemma SessionShowsTheLog(o: Oracle, run: seq<Action>, end: System)
    requires Reaches(o, Start(), run, end)
    ensures SessionToken(end) <= |end.log|
    ensures forall room | GaplessRun(o, Start(), run, room) ::
              Shows(View(end.session.rooms, room), RoomEvents(end.log[..SessionToken(end)], room))
  {
    StartIsSafe();
    RunKeeps(o, Start(), run, end);
    hide GaplessRun, Shows, Reaches;
    forall room | GaplessRun(o, Start(), run, room)
      ensures Shows(View(end.session.rooms, room), RoomEvents(end.log[..SessionToken(end)], room))
    {
      RunShowsRoom(o, run, end, room);
    }
  }

  lemma RunShowsRoom(o: Oracle, run: seq<Action>, end: System, room: string)
    requires Reaches(o, Start(), run, end) && GaplessRun(o, Start(), run, room)
    ensures Inv(end) && Faithful(end, room)
  {
    StartIsSafe();
    StartIsFaithful(room);
    RunShows(o, Start(), run, end, room);
  }

  /** And when it then handles the cache, each such room shows the log up to the end of the cache. */
  lemma CacheBringsTheSessionToItsEnd(o: Oracle, run: seq<Action>, s: System)
    requires Reaches(o, Start(), run, s) && Enabled(s, HandleCache)
    requires SyncToken(s.store).Some? && SyncToken(s.store) == s.session.token
    ensures var s' := Next(o, s, HandleCache);
            && s'.session.token == NextSyncToken(s.store) && SessionToken(s') <= |s.log|
            && forall room | GaplessRun(o, Start(), run, room) ::
                 Shows(View(s'.session.rooms, room), RoomEvents(s.log[..SessionToken(s')], room))
  {
    StartIsSafe();
    RunKeeps(o, Start(), run, s);
    HandleCacheKeeps(o, s);
    var s' := Next(o, s, HandleCache);
    assert s'.log == s.log by {
      hide HandleCached, Reaches, GaplessRun;
    }
    hide Next, Enabled, Reaches, GaplessRun, NextSyncToken, SyncToken, Shows;
    forall room | GaplessRun(o, Start(), run, room)
      ensures Shows(View(s'.session.rooms, room), RoomEvents(s.log[..SessionToken(s')], room))
    {
      RunShowsRoom(o, run, s, room);
      StepShows(o, s, HandleCache, room);
    }
  }
}
