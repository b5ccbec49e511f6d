// What holds in every run: the cached responses form one chain.
module ChainSafety {
  import opened Wrappers
  import opened Events
  import opened SyncResponses
  import opened SyncStore
  import opened ServerLog
  import opened Crypto
  import opened EventDecryption
  import opened SyncService
  import opened BackgroundSync

  ghost predicate Tokens(s: System) {
    && s.acked <= s.reach <= |s.log| && SessionToken(s) <= s.reach
    && (s.service.Some? ==> s.service.value.snapshot.Or(0) <= s.reach)
    && forall p | 0 <= p < |s.log| :: s.log[p].event.clear.None?
  }

  /** The cache is one chain, and what is being deleted is its beginning. */
  ghost predicate Chain(s: System) {
    Chained(s.store) && (s.session.phase.Deleting? ==> s.session.phase.todo <= All(s.store))
  }

  /** A sync in flight asks from the end of the chain, unless the session has deleted that end meanwhile. */
  ghost predicate InFlight(s: System) {
    s.service.Some? && s.service.value.stage.Syncing? ==>
      && s.service.value.stage.from <= s.reach
      && (NextSyncToken(s.store).Some? ==> NextSyncToken(s.store) == Some(s.service.value.stage.from))
  }

  ghost predicate ServiceSound(s: System) {
    s.service.Some? ==>
      var v := s.service.value;
      && v.Valid()
      && (v.stage.Fetching? ==> v.stage.request.eventId !in v.cachedEvents)
      && (v.stage.Harvesting? ==> forall e | e in v.stage.toDevice :: SentBefore(s.log, s.reach, e))
  }

  ghost predicate Inv(s: System) {
    Tokens(s) && Chain(s) && InFlight(s) && AllSound(s.log, s.reach, s.store) && ServiceSound(s)
  }

  // ---- The homeserver ----

  lemma AllSoundGrows(log: seq<Entry>, more: seq<Entry>, reach: Token, further: Token, store: Store)
    requires AllSound(log, reach, store) && log <= more && reach <= further
    ensures AllSound(more, further, store)
  {
    hide Sound;
    forall id | id in store.files && Listed(store, id) ensures Sound(more, further, store.files[id]) {
      SoundGrows(log, more, reach, further, store.files[id]);
    }
  }

  lemma ServiceSoundGrows(s: System, s': System)
    requires ServiceSound(s) && s'.service == s.service && s.log <= s'.log && s.reach <= s'.reach
    ensures ServiceSound(s')
  {
    hide SentBefore;
    if s.service.Some? && s.service.value.stage.Harvesting? {
      forall e | e in s.service.value.stage.toDevice ensures SentBefore(s'.log, s'.reach, e) {
        SentBeforeGrows(s.log, s'.log, s.reach, s'.reach, e);
      }
    }
  }

  lemma AppendKeeps(o: Oracle, s: System, entry: Entry)
    requires Inv(s) && Enabled(s, Append(entry))
    ensures Inv(Next(o, s, Append(entry)))
  {
    var s' := s.(log := s.log + [entry]);
    assert Next(o, s, Append(entry)) == s';
    hide Next, Enabled, Chained, AllSound, ServiceSound;
    AllSoundGrows(s.log, s'.log, s.reach, s'.reach, s.store);
    ServiceSoundGrows(s, s');
  }

  // ---- The session ----

  lemma SessionSyncsKeeps(o: Oracle, s: System, r: SyncResponse)
    requires Inv(s) && Enabled(s, SessionSyncs(r))
    ensures Inv(Next(o, s, SessionSyncs(r)))
  {
    var s' := s.(session := HandleResponse(s.session, r), reach := Max(s.reach, r.nextBatch));
    assert Next(o, s, SessionSyncs(r)) == s';
    assert s.session.phase.Live? && SessionToken(s) <= r.nextBatch <= |s.log|;
    hide Next, Enabled, Chained, AllSound, ServiceSound;
    AllSoundGrows(s.log, s'.log, s.reach, s'.reach, s.store);
    ServiceSoundGrows(s, s');
    hide ReplayRooms;
  }

  lemma HandleCachedIs(x: Session, s: Store)
    ensures var x' := HandleCached(x, s); x'.phase.Live? || x'.phase.Replayed? || x'.phase == x.phase
    ensures !(SyncToken(s).Some? && SyncToken(s) == x.token) ==>
              HandleCached(x, s).token == x.token && HandleCached(x, s).rooms == x.rooms
    ensures SyncToken(s).Some? && SyncToken(s) == x.token && MergeIds(s, s.ids).Some? ==>
              var r := MergeIds(s, s.ids).value.response;
              HandleCached(x, s).token == Some(r.nextBatch) && HandleCached(x, s).rooms == ReplayRooms(x.rooms, r)
  {
    hide MergeIds, ReplayRooms;
    if SyncToken(s).Some? {
      assert All(s)[|s.outdated|] == s.ids[0];
    }
  }

  /** An empty cache is left alone; any other is to be deleted once it has been handled. */
  lemma EmptyCacheIsLeftAlone(x: Session, s: Store)
    ensures s.ids == [] && s.outdated == [] ==> HandleCached(x, s) == x
    ensures s.ids != [] || s.outdated != [] ==> HandleCached(x, s).phase == Replayed
  {
    hide MergeIds, ReplayRooms;
  }

  lemma CachedToken(s: System)
    requires Chain(s) && AllSound(s.log, s.reach, s.store)
    ensures var valid := SyncToken(s.store).Some? && SyncToken(s.store) == s.session.token;
            && HandleCached(s.session, s.store).token == (if valid then NextSyncToken(s.store) else s.session.token)
            && (valid ==> NextSyncToken(s.store).Some? && NextSyncToken(s.store).value <= s.reach)
  {
    HandleCachedIs(s.session, s.store);
    hide Distinct, RestReadable, HandleCached, Sound, MergeIds, ReplayRooms;
    if SyncToken(s.store).Some? && SyncToken(s.store) == s.session.token {
      var k := |s.store.ids|;
      assert s.store.ids[..k] == s.store.ids;
      MergedChain(s.store, k);
      SoundIs(s.log, s.reach, s.store.files[s.store.ids[k - 1]]);
    }
  }

  lemma CachedKeeps(s: System)
    requires Inv(s) && s.session.phase.Live?
    ensures Inv(s.(session := HandleCached(s.session, s.store)))
    ensures var valid := SyncToken(s.store).Some? && SyncToken(s.store) == s.session.token;
            HandleCached(s.session, s.store).token == if valid then NextSyncToken(s.store) else s.session.token
  {
    CachedToken(s);
    HandleCachedIs(s.session, s.store);
    hide Chained, HandleCached, AllSound, MergeIds, ReplayRooms, SyncToken, NextSyncToken, SentBefore;
  }

  /** Handling a cache that starts at the session's token moves the session to the end of the cache; handling any other
      cache moves it nowhere. */
  lemma HandleCacheKeeps(o: Oracle, s: System)
    requires Inv(s) && Enabled(s, HandleCache)
    ensures Inv(Next(o, s, HandleCache))
    ensures var valid := SyncToken(s.store).Some? && SyncToken(s.store) == s.session.token;
            Next(o, s, HandleCache).session.token == if valid then NextSyncToken(s.store) else s.session.token
  {
    CachedKeeps(s);
    hide Inv, HandleCached, SyncToken, NextSyncToken;
  }

  lemma SoundIs(log: seq<Entry>, reach: Token, c: Cached)
    requires Sound(log, reach, c)
    ensures c.response.nextBatch <= reach
  {
  }

  lemma DeleteNextKeeps(s: System)
    requires Inv(s) && s.session.phase.Deleting? && s.session.phase.todo != []
    ensures Inv(NextOfSession(s, DeleteNext))
  {
    var todo := s.session.phase.todo;
    assert todo[0] == All(s.store)[0];
    var s' := NextOfSession(s, DeleteNext);
    forall id | Listed(s'.store, id) ensures Listed(s.store, id) {
      DeletionListsNothing(s.store, todo[0], id);
    }
    hide Sound, ServiceSound, Listed;
    DeletionKeepsChain(s.store);
    assert s'.session.phase.todo <= All(s'.store) by {
      hide DeleteId;
      if todo[0] in s.store.files {
        assert All(s'.store) == All(s.store);
      } else {
        DeleteIdOfHead(s.store);
      }
    }
    hide Chained, NextSyncToken;
    ServiceSoundGrows(s, s');
  }

  lemma FinishKeeps(s: System)
    requires Inv(s)
    ensures Inv(NextOfSession(s, FinishDeletion))
  {
    var s' := NextOfSession(s, FinishDeletion);
    assert Chained(s'.store) && NextSyncToken(s'.store).None? && All(s'.store) == [];
    assert forall id :: !Listed(s'.store, id);
    ServiceSoundGrows(s, s');
    hide Sound, ServiceSound, Chained, Listed, NextSyncToken;
  }

  lemma OtherSessionStepsKeep(s: System, a: Action)
    requires Inv(s) && (a.StartDeletion? || a.FinishDeletion? || a.SessionStops? || a.SessionAsks?)
    ensures Inv(NextOfSession(s, a))
  {
    if a.FinishDeletion? {
      FinishKeeps(s);
    } else {
      ServiceSoundGrows(s, NextOfSession(s, a));
      hide AllSound, ServiceSound, Chained, NextSyncToken;
    }
  }

  lemma DeletionKeeps(o: Oracle, s: System, a: Action)
    requires Inv(s) && Enabled(s, a)
    requires a.StartDeletion? || a.DeleteNext? || a.FinishDeletion? || a.SessionStops? || a.SessionAsks?
    ensures Inv(Next(o, s, a))
  {
    hide Inv;
    if a.DeleteNext? {
      DeleteNextKeeps(s);
    } else {
      OtherSessionStepsKeep(s, a);
    }
    hide NextOfSession;
  }

  // ---- The service ----

  /** A step of the service that leaves the log, the session and the cache alone. */
  lemma ServiceMoves(s: System, s': System)
    requires Inv(s)
    requires (s'.log, s'.acked, s'.session, s'.store, s'.reach) == (s.log, s.acked, s.session, s.store, s.reach)
    requires ServiceSound(s') && InFlight(s') && (s'.service.Some? ==> s'.service.value.snapshot.Or(0) <= s.reach)
    ensures Inv(s')
  {
    hide Chained, AllSound, ServiceSound, InFlight;
  }

  lemma LaunchTokenWithin(s: System, l: Local)
    requires AllSound(s.log, s.reach, l.store) && l.service.snapshot.Or(0) <= s.reach && LaunchToken(l).Some?
    ensures LaunchToken(l).value <= s.reach && (NextSyncToken(l.store).Some? ==>
                                                NextSyncToken(l.store) == LaunchToken(l))
  {
    hide SentBefore;
    if Last(l.store).Some? {
      assert Sound(s.log, s.reach, Last(l.store).value);
    }
  }

  /** Whatever a request does once its stores are checked keeps the invariant. */
  lemma ProgressKeeps(s: System, l: Local, l': Local, r: Request, allowSync: bool)
    requires Inv(s) && s.store == l.store && l.service.snapshot.Or(0) <= s.reach
    requires Progress(l, l', r, allowSync)
    ensures Inv(WithLocal(s, l'))
  {
    if l'.service.stage.Syncing? {
      LaunchTokenWithin(s, l);
    }
    hide AllSound, Chain, LaunchToken;
    ServiceMoves(s, WithLocal(s, l'));
  }

  lemma BeginKeeps(o: Oracle, s: System)
    requires Inv(s) && Enabled(s, BeginRequest)
    ensures Inv(Next(o, s, BeginRequest))
  {
    var l := CheckStores(LocalOf(s), s.session.token);
    var l1 := l.(service := l.service.(queue := s.service.value.queue[1..], syncs := 0, keyed := 0));
    var l2 := Ask(o, l1, s.service.value.queue[0], true);
    assert Next(o, s, BeginRequest) == WithLocal(s, l2);
    hide Next, Enabled, Ask;
    var s1 := s.(store := l.store, service := None, stores := l.stores);
    assert Inv(s1) by {
      CheckIsExact(LocalOf(s), s.session.token);
      CheckKeepsChain(LocalOf(s), s.session.token);
      hide Chained, CheckStores, Sound;
    }
    AskProgress(o, l1, s.service.value.queue[0], true);
    hide Inv, Progress, CheckStores;
    assert WithLocal(s, l2) == WithLocal(s1, l2);
    assert l1.service.snapshot.Or(0) <= s1.reach by {
      CheckIsExact(LocalOf(s), s.session.token);
      assert Tokens(s) by { InvIs(s); }
    }
    ProgressKeeps(s1, l1, l2, s.service.value.queue[0], true);
  }

  lemma InvIs(s: System)
    requires Inv(s)
    ensures Tokens(s) && Chain(s) && InFlight(s) && AllSound(s.log, s.reach, s.store) && ServiceSound(s)
  {
  }

  lemma CheckKeepsChain(l: Local, token: Option<Token>)
    requires Chained(l.store)
    ensures Chained(CheckStores(l, token).store)
  {
    var s' := MarkOutdated(l.store);
    assert All(s') == All(l.store);
  }

  lemma ContinueKeeps(o: Oracle, s: System)
    requires Inv(s) && Enabled(s, ContinueRequest)
    ensures Inv(Next(o, s, ContinueRequest))
  {
    var l := LocalOf(s);
    var r := l.service.stage.request;
    assert Next(o, s, ContinueRequest) == WithLocal(s, Continue(o, l));
    hide Next, Enabled, Ask, Sound, Chained;
    if KeyMayCome(l) {
      hide KeyMayCome;
      LaunchProgress(l, r);
      hide Launch, Progress;
      ProgressKeeps(s, l, Launch(l, r), r, true);
    } else {
      hide KeyMayCome;
      AskProgress(o, l, r, false);
      hide Progress;
      ProgressKeeps(s, l, Ask(o, l, r, false), r, false);
    }
  }

  lemma LaunchProgress(l: Local, r: Request)
    requires l.service.Valid()
    ensures Progress(l, Launch(l, r), r, true)
  {
  }

  lemma EventReplyKeeps(o: Oracle, s: System, e: Option<MXEvent>)
    requires Inv(s) && Enabled(s, EventReply(e))
    ensures Inv(Next(o, s, EventReply(e)))
  {
    var l := LocalOf(s);
    assert Next(o, s, EventReply(e)) == WithLocal(s, Fetched(o, l, e));
    hide Next, Enabled, Sound, Chained;
    FetchedProgress(o, l, e);
    hide Progress, Fetched;
    ProgressKeeps(s, l, Fetched(o, l, e), l.service.stage.request, false);
  }

  lemma SyncReplyKeeps(o: Oracle, s: System, r: SyncResponse, small: bool, newId: nat)
    requires Inv(s) && Enabled(s, SyncReply(r, small, newId))
    ensures Inv(Next(o, s, SyncReply(r, small, newId)))
  {
    ReceivedKeeps(s, r, small, newId);
    hide Inv, Receive, Reply;
  }

  lemma ReceivedKeeps(s: System, r: SyncResponse, small: bool, newId: nat)
    requires Inv(s) && Enabled(s, SyncReply(r, small, newId))
    ensures Inv(WithLocal(s.(reach := Max(s.reach, r.nextBatch)), Receive(LocalOf(s), r, small, newId)))
  {
    var from := s.service.value.stage.from;
    var s' := WithLocal(s.(reach := Max(s.reach, r.nextBatch)), Receive(LocalOf(s), r, small, newId));
    UpdateExtendsChain(s.store, r, from, small, newId);
    assert AllSound(s'.log, s'.reach, s'.store) by {
      hide Chained;
      UpdateKeepsSound(s, r, small, newId);
    }
    assert ServiceSound(s') by {
      hide Update, Chained, SentBefore, SentBetween;
      forall e | e in r.toDevice ensures SentBefore(s'.log, s'.reach, e) {
        SentBetweenIsBefore(s.log, from, r.nextBatch, e);
        SentBeforeGrows(s.log, s'.log, r.nextBatch, s'.reach, e);
      }
    }
    assert Chain(s') by {
      UpdateAppends(s.store, r, from, small, newId);
      hide Update, Chained;
    }
    hide Update, Chained, AllSound, ServiceSound, NextSyncToken;
  }

  lemma UpdateAppends(s: Store, r: SyncResponse, token: Token, small: bool, newId: nat)
    ensures All(s) <= All(Update(s, r, token, small, newId))
  {
    assert s.outdated + (s.ids + [newId]) == s.outdated + s.ids + [newId];
  }

  lemma UpdateKeepsSound(s: System, r: SyncResponse, small: bool, newId: nat)
    requires Inv(s) && Enabled(s, SyncReply(r, small, newId))
    ensures AllSound(s.log, Max(s.reach, r.nextBatch), Update(s.store, r, s.service.value.stage.from, small, newId))
  {
    var from, reach := s.service.value.stage.from, Max(s.reach, r.nextBatch);
    var c := Cached(from, r);
    assert Sound(s.log, reach, c) by {
      hide SentBefore, SentBetween;
      forall e | e in r.toDevice ensures SentBefore(s.log, reach, e) {
        SentBetweenIsBefore(s.log, from, r.nextBatch, e);
        SentBeforeGrows(s.log, s.log, r.nextBatch, reach, e);
      }
    }
    AllSoundGrows(s.log, s.log, s.reach, reach, s.store);
    hide Sound, Enabled, Merged, Chained;
    if small && Last(s.store).Some? {
      MergedIsSound(s.log, reach, Last(s.store).value, r);
    }
  }

  lemma WriteCutOffKeeps(s: System, r: SyncResponse, newId: nat)
    requires Inv(s) && Replied(s, r, newId)
    ensures Inv(FileWithoutId(s, r, newId))
  {
    UnlistedFile(s.store, newId, Cached(s.service.value.stage.from, r));
    hide Reply, Sound, Chained, ServiceSound;
    assert All(FileWithoutId(s, r, newId).store) == All(s.store);
  }

  lemma CutOffKeeps(o: Oracle, s: System, r: SyncResponse, newId: nat)
    requires Inv(s) && Enabled(s, WriteCutOff(r, newId))
    ensures Inv(Next(o, s, WriteCutOff(r, newId)))
  {
    WriteCutOffKeeps(s, r, newId);
    hide Inv, Replied, FileWithoutId;
  }

  lemma HarvestKeeps(o: Oracle, s: System)
    requires Inv(s) && Enabled(s, HarvestNext)
    ensures Inv(Next(o, s, HarvestNext))
  {
    var s' := Next(o, s, HarvestNext);
    var (service, stores) := Harvest(o, LocalOf(s));
    assert s' == s.(service := service, stores := stores);
    hide Next, Enabled, HandleToDevice, SentBefore, Sound, Chained;
    assert ServiceSound(s') && InFlight(s');
    hide Harvest;
    ServiceMoves(s, s');
  }

  lemma OtherServiceStepsKeep(o: Oracle, s: System, a: Action)
    requires Inv(s) && Enabled(s, a)
    requires a.Init? || a.Call? || a.ServiceAsks? || a.SyncFails? || a.Deliver? || a.ServiceStops?
    ensures Inv(Next(o, s, a))
  {
    hide Chained, SentBefore, Sound, Reset;
  }

  /** Every step of the homeserver, the session and the service keeps the invariant, interruptions included. */
  lemma StepKeeps(o: Oracle, s: System, a: Action)
    requires Inv(s) && Enabled(s, a)
    ensures Inv(Next(o, s, a))
  {
    hide Inv, Enabled, Next;
    match a
    case Append(entry) => AppendKeeps(o, s, entry);
    case SessionSyncs(r) => SessionSyncsKeeps(o, s, r);
    case HandleCache => HandleCacheKeeps(o, s);
    case BeginRequest => BeginKeeps(o, s);
    case ContinueRequest => ContinueKeeps(o, s);
    case EventReply(e) => EventReplyKeeps(o, s, e);
    case SyncReply(r, small, newId) => SyncReplyKeeps(o, s, r, small, newId);
    case HarvestNext => HarvestKeeps(o, s);
    case WriteCutOff(r, newId) => CutOffKeeps(o, s, r, newId);
    case StartDeletion | DeleteNext | FinishDeletion | SessionStops | SessionAsks => DeletionKeeps(o, s, a);
    case _ => OtherServiceStepsKeep(o, s, a);
  }

  lemma StartIsSafe()
    ensures Inv(Start())
  {
  }

  lemma {:induction false} RunKeeps(o: Oracle, s: System, run: seq<Action>, end: System)
    requires Inv(s) && Reaches(o, s, run, end)
    ensures Inv(end)
    decreases |run|
  {
    if run != [] {
      StepKeeps(o, s, run[0]);
      hide Inv, Next, Enabled;
      RunKeeps(o, Next(o, s, run[0]), run[1..], end);
    }
  }

  /** In every run, whatever the homeserver reports and whatever is interrupted: each cached response starts where the
      one before it ends, and a sync asks from the end of the chain. */
  lemma EveryRunIsSafe(o: Oracle, run: seq<Action>, end: System)
    requires Reaches(o, Start(), run, end)
    ensures Chained(end.store) && InFlight(end)
  {
    StartIsSafe();
    RunKeeps(o, Start(), run, end);
  }
}
