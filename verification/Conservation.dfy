// No to-device event is lost, and every background key is accounted for.
module Conservation {
  import opened Wrappers
  import opened Events
  import opened SyncResponses
  import opened SyncStore
  import opened ServerLog
  import opened Crypto
  import opened EventDecryption
  import opened SyncService
  import opened BackgroundSync
  import opened ChainSafety

  // ---- To-device events ----

  ghost predicate Kept(s: System, e: MXEvent) {
    e in s.session.handled || Stored(s.store, e)
  }

  /** If the homeserver may have forgotten the event, the session has handled it, or still can. */
  ghost predicate Covered(s: System, e: MXEvent) {
    SentBefore(s.log, s.reach, e) ==> Kept(s, e)
  }

  ghost predicate HandledIfStored(s: System, e: MXEvent) {
    !s.session.phase.Live? && Stored(s.store, e) ==> e in s.session.handled
  }

  ghost predicate Conserved(s: System, e: MXEvent) {
    Covered(s, e) && HandledIfStored(s, e)
  }

  /** Between the session's reading of the cache and the end of its deletion, the service does not store the event,
      unless the session has handled it. */
  ghost predicate Quiet(s: System, a: Action, e: MXEvent) {
    a.SyncReply? && !s.session.phase.Live? && e in a.response.toDevice ==> e in s.session.handled
  }

  // Steps that neither reach further nor lose the event.
  lemma NothingLost(s: System, s': System, e: MXEvent)
    requires Conserved(s, e) && s.log <= s'.log && s'.reach == s.reach <= |s.log|
             && s.session.handled <= s'.session.handled
    requires Kept(s, e) ==> Kept(s', e)
    requires HandledIfStored(s', e)
    ensures Conserved(s', e)
  {
    hide Kept, HandledIfStored;
    assert forall p | 0 <= p < |s.log| :: s'.log[p] == s.log[p];
  }

  lemma StoreUntouched(s: System, s': System, e: MXEvent)
    requires Conserved(s, e) && s.log <= s'.log && s'.reach == s.reach <= |s.log|
    requires s'.session == s.session && s'.store == s.store
    ensures Conserved(s', e)
  {
    hide Stored;
    NothingLost(s, s', e);
  }

  lemma CachedAllHandled(x: Session, s: Store, e: MXEvent)
    requires Stored(s, e)
    ensures e in HandleCached(x, s).handled
  {
    hide ReplayRooms, MergeIds;
    var id :| Listed(s, id) && Carries(s, id, e);
    if SyncToken(s).Some? && SyncToken(s) == x.token {
      MergeIdsCarries(s, s.outdated, e);
      MergeIdsCarries(s, s.ids, e);
    } else {
      MergeIdsCarries(s, All(s), e);
      assert id in All(s);
    }
    assert All(s) != [];
  }

  /** Handling the cache handles the to-device events that are stored in it, and no other. */
  lemma HandledIsStoredExactly(x: Session, s: Store, e: MXEvent)
    ensures e in HandleCached(x, s).handled <==> e in x.handled || Stored(s, e)
  {
    if Stored(s, e) {
      CachedAllHandled(x, s, e);
    } else {
      MergeIdsCarries(s, s.outdated, e);
      MergeIdsCarries(s, s.ids, e);
      MergeIdsCarries(s, All(s), e);
      assert forall id | id in All(s) :: Listed(s, id);
    }
    assert x.handled <= HandleCached(x, s).handled by {
      hide ReplayRooms, MergeIds, Stored;
    }
    hide ReplayRooms, MergeIds, Stored;
  }

  lemma HandleCacheConserves(s: System, e: MXEvent)
    requires Conserved(s, e) && s.reach <= |s.log|
    ensures Conserved(s.(session := HandleCached(s.session, s.store)), e)
  {
    var s' := s.(session := HandleCached(s.session, s.store));
    if Stored(s.store, e) {
      CachedAllHandled(s.session, s.store, e);
    }
    assert s.session.handled <= s'.session.handled by {
      hide ReplayRooms, MergeIds, Stored;
    }
    hide HandleCached, Stored;
    NothingLost(s, s', e);
  }

  /** Deleting loses exactly what was stored in the file and nowhere else; nothing appears. */
  lemma DeletionOnlyForgets(s: Store, id: nat, e: MXEvent)
    requires Stored(DeleteStep(s, id), e)
    ensures Stored(s, e)
  {
    var s' := DeleteStep(s, id);
    var i :| Listed(s', i) && Carries(s', i, e);
    DeletionListsNothing(s, id, i);
    assert Listed(s, i) && Carries(s, i, e);
  }

  lemma SessionStepConserves(s: System, a: Action, e: MXEvent)
    requires Conserved(s, e) && s.reach <= |s.log|
    requires a.StartDeletion? || a.DeleteNext? || a.FinishDeletion? || a.SessionStops? || a.SessionAsks?
    requires a.StartDeletion? ==> s.session.phase.Replayed?
    requires a.DeleteNext? ==> s.session.phase.Deleting? && s.session.phase.todo != []
    requires a.FinishDeletion? ==> s.session.phase.Deleting?
    ensures Conserved(NextOfSession(s, a), e)
  {
    var s' := NextOfSession(s, a);
    if a.DeleteNext? {
      if Stored(s'.store, e) {
        DeletionOnlyForgets(s.store, s.session.phase.todo[0], e);
      }
      hide Stored, DeleteStep;
      NothingLost(s, s', e);
    } else if a.FinishDeletion? {
      assert !Stored(s'.store, e);
      hide Stored;
      NothingLost(s, s', e);
    } else {
      hide Stored;
      NothingLost(s, s', e);
    }
  }

  // What reaches further is Kept if the reply that reached it is.
  lemma FurtherIsCovered(s: System, s': System, r: SyncResponse, e: MXEvent)
    requires Conserved(s, e) && s.acked <= s.reach <= |s.log| && s'.log == s.log
             && s'.reach == Max(s.reach, r.nextBatch)
    requires forall p | s.acked <= p < r.nextBatch && p < |s.log| && s.log[p].ToDevice? :: s.log[p].event in r.toDevice
    requires Kept(s, e) || e in r.toDevice ==> Kept(s', e)
    ensures Covered(s', e)
  {
    hide Kept;
    if SentBefore(s'.log, s'.reach, e) {
      var p :| 0 <= p < s'.reach && p < |s.log| && s.log[p] == ToDevice(e);
      assert p < s.reach ==> SentBefore(s.log, s.reach, e);
    }
  }

  lemma SyncsConserve(s: System, r: SyncResponse, e: MXEvent)
    requires Conserved(s, e) && s.acked <= s.reach <= |s.log| && Reply(s, SessionToken(s), r) && s.session.phase.Live?
    ensures Conserved(NextOfSession(s, SessionSyncs(r)), e)
  {
    hide Stored, ReplayRooms, SentBetween, SentBefore;
    FurtherIsCovered(s, NextOfSession(s, SessionSyncs(r)), r, e);
  }

  lemma ReceiveConserves(s: System, r: SyncResponse, small: bool, newId: nat, e: MXEvent)
    requires Conserved(s, e) && s.acked <= s.reach <= |s.log| && Quiet(s, SyncReply(r, small, newId), e)
             && Replied(s, r, newId)
    ensures Conserved(WithLocal(s.(reach := Max(s.reach, r.nextBatch)), Receive(LocalOf(s), r, small, newId)), e)
  {
    hide Stored, Update, SentBetween, SentBefore, Fresh;
    UpdateStoresExactly(s.store, r, s.service.value.stage.from, small, newId, e);
    FurtherIsCovered(s, WithLocal(s.(reach := Max(s.reach, r.nextBatch)), Receive(LocalOf(s), r, small, newId)), r, e);
  }

  lemma CutOffConserves(s: System, r: SyncResponse, newId: nat, e: MXEvent)
    requires Conserved(s, e) && s.reach <= |s.log| && Replied(s, r, newId)
    ensures Conserved(FileWithoutId(s, r, newId), e)
  {
    UnlistedFile(s.store, newId, Cached(s.service.value.stage.from, r));
    hide Stored, Reply;
    NothingLost(s, FileWithoutId(s, r, newId), e);
  }

  /** Such a file holds the reply under no id that is listed, so no step of a deletion takes it away. */
  lemma CutOffLeavesFile(s: System, r: SyncResponse, newId: nat, id: nat)
    requires Replied(s, r, newId)
    ensures var store := FileWithoutId(s, r, newId).store;
            && !Listed(store, newId) && newId in store.files && store.files[newId].response == r
            && (Listed(store, id) ==> newId in DeleteStep(store, id).files)
  {
    hide Reply;
  }

  lemma CheckConserves(s: System, l: Local, e: MXEvent)
    requires Conserved(s, e) && s.reach <= |s.log|
    requires l.store == s.store || l.store == MarkOutdated(s.store)
    ensures Conserved(WithLocal(s, l), e)
  {
    MarkOutdatedStores(s.store, e);
    hide Stored, MarkOutdated;
    NothingLost(s, WithLocal(s, l), e);
  }

  lemma BeginStore(o: Oracle, s: System)
    requires Enabled(s, BeginRequest)
    ensures var l := Begin(o, LocalOf(s), s.session.token); l.store == s.store || l.store == MarkOutdated(s.store)
  {
    var l := CheckStores(LocalOf(s), s.session.token);
    var l1 := l.(service := l.service.(queue := s.service.value.queue[1..], syncs := 0, keyed := 0));
    hide Ask, MarkOutdated;
    AskProgress(o, l1, s.service.value.queue[0], true);
  }

  /** No step loses the event, but one that stores it unhandled during a deletion. */
  lemma StepConserves(o: Oracle, s: System, a: Action, e: MXEvent)
    requires Inv(s) && Conserved(s, e) && Enabled(s, a) && Quiet(s, a, e)
    ensures Conserved(Next(o, s, a), e)
  {
    var s' := Next(o, s, a);
    assert s.acked <= s.reach <= |s.log|;
    hide Conserved, Inv, FileWithoutId, NextOfSession, Begin, Receive, Harvest, HandleCached, Fetched, Continue, Reset;
    match a {
      case SessionSyncs(r) => SyncsConserve(s, r, e);
      case HandleCache =>
        HandleCacheConserves(s, e);
        assert s' == s.(session := HandleCached(s.session, s.store)) by { HandleCacheIs(s); }
      case StartDeletion | DeleteNext | FinishDeletion | SessionStops | SessionAsks => SessionStepConserves(s, a, e);
      case SyncReply(r, small, newId) => ReceiveConserves(s, r, small, newId, e);
      case WriteCutOff(r, newId) => CutOffConserves(s, r, newId, e);
      case BeginRequest =>
        BeginStore(o, s);
        CheckConserves(s, Begin(o, LocalOf(s), s.session.token), e);
      case ContinueRequest =>
        ContinueStore(o, LocalOf(s));
        StoreUntouched(s, s', e);
      case EventReply(reply) =>
        FetchedStore(o, LocalOf(s), reply);
        StoreUntouched(s, s', e);
      case _ => StoreUntouched(s, s', e);
    }
  }

  lemma HandleCacheIs(s: System)
    ensures NextOfSession(s, HandleCache) == s.(session := HandleCached(s.session, s.store))
  {
  }

  lemma ContinueStore(o: Oracle, l: Local)
    requires l.service.Valid() && l.service.stage.Harvesting?
    ensures Continue(o, l).store == l.store
  {
    hide Ask, KeyMayCome;
    AskProgress(o, l, l.service.stage.request, false);
  }

  lemma FetchedStore(o: Oracle, l: Local, e: Option<MXEvent>)
    requires l.service.Valid() && l.service.stage.Fetching?
    ensures Fetched(o, l, e).store == l.store
  {
    hide Decrypt;
  }

  // No reply of the run stores the event unhandled during a deletion.
  ghost predicate QuietRun(o: Oracle, s: System, run: seq<Action>, e: MXEvent)
    decreases |run|
  {
    run == [] || (Enabled(s, run[0]) && Quiet(s, run[0], e) && QuietRun(o, Next(o, s, run[0]), run[1..], e))
  }

  lemma {:induction false} QuietRunConserves(o: Oracle, s: System, run: seq<Action>, end: System, e: MXEvent)
    requires Inv(s) && Conserved(s, e) && Reaches(o, s, run, end) && QuietRun(o, s, run, e)
    ensures Inv(end) && Conserved(end, e)
    decreases |run|
  {
    if run != [] {
      StepKeeps(o, s, run[0]);
      StepConserves(o, s, run[0], e);
      hide Inv, Conserved, Next, Enabled;
      QuietRunConserves(o, Next(o, s, run[0]), run[1..], end, e);
    }
  }

  lemma StartConserves(e: MXEvent)
    ensures Conserved(Start(), e)
  {
  }

  /** In every run, whatever is interrupted: a to-device event that the homeserver no longer sends has been handled by
      the session, or is in a cached or outdated response that the session can still read, unless a reply of the run
      stored it during a deletion before the session had handled it. What happens to other events does not matter. */
  lemma NoToDeviceEventIsLost(o: Oracle, run: seq<Action>, end: System)
    requires Reaches(o, Start(), run, end)
    ensures forall p | 0 <= p < end.acked && p < |end.log| && end.log[p].ToDevice?
            && QuietRun(o, Start(), run, end.log[p].event) ::
              Kept(end, end.log[p].event)
  {
    hide Kept, Reaches, QuietRun, Next, Enabled;
    forall p | 0 <= p < end.acked && p < |end.log| && end.log[p].ToDevice?
      && QuietRun(o, Start(), run, end.log[p].event)
      ensures Kept(end, end.log[p].event)
    {
      var e := end.log[p].event;
      StartIsSafe();
      StartConserves(e);
      QuietRunConserves(o, Start(), run, end, e);
      assert SentBefore(end.log, end.reach, e);
    }
  }

  // ---- What a deletion loses ----

  /** A run of the deletion up to its end, or up to the stop of the session that cuts it off. */
  ghost predicate Window(o: Oracle, s: System, run: seq<Action>, last: Action, end: System)
    decreases |run|
  {
    && run != [] && Enabled(s, run[0])
    && if |run| == 1 then run[0] == last && end == Next(o, s, run[0])
       else !run[0].FinishDeletion? && !run[0].SessionStops? && Window(o, Next(o, s, run[0]), run[1..], last, end)
  }

  ghost predicate StoredIn(run: seq<Action>, e: MXEvent) {
    exists i :: 0 <= i < |run| && run[i].SyncReply? && e in run[i].response.toDevice
  }

  lemma WindowStep(o: Oracle, s: System, a: Action)
    requires !s.session.phase.Live? && Enabled(s, a) && !a.SessionStops? && !a.FinishDeletion?
    ensures !Next(o, s, a).session.phase.Live? && Next(o, s, a).session.handled == s.session.handled
  {
    hide Begin, Receive, Harvest, HandleCached, Fetched, Continue, Reset, Reply, ReplayRooms, DeleteStep;
  }

  /** At the end of a deletion exactly the events that the session has handled are still there, whatever was stored
      meanwhile, and wherever in the deletion it was lost. */
  lemma {:induction false} DeletionKeepsExactly(o: Oracle, s: System, run: seq<Action>, end: System, e: MXEvent)
    requires !s.session.phase.Live? && Window(o, s, run, FinishDeletion, end)
    ensures Kept(end, e) <==> e in s.session.handled
    decreases |run|
  {
    if |run| == 1 {
      hide Reply;
      assert end == NextOfSession(s, FinishDeletion);
      hide Next, Enabled;
    } else {
      WindowStep(o, s, run[0]);
      hide Next, Enabled, Kept;
      DeletionKeepsExactly(o, Next(o, s, run[0]), run[1..], end, e);
    }
  }

  ghost predicate HandledBeforeDeletion(s: System) {
    forall e :: HandledIfStored(s, e)
  }

  /** From any state in which the session has handled all that is cached, a deletion loses nothing exactly when the
      session had handled every to-device event of each reply that was stored during the deletion. */
  lemma DeletionConservesExactly(o: Oracle, s: System, run: seq<Action>, end: System)
    requires !s.session.phase.Live? && HandledBeforeDeletion(s) && Window(o, s, run, FinishDeletion, end)
    ensures (forall e | Kept(s, e) || StoredIn(run, e) :: Kept(end, e))
            <==> (forall e | StoredIn(run, e) :: e in s.session.handled)
  {
    hide Window, StoredIn, Stored;
    forall e | Kept(s, e) ensures e in s.session.handled {
      assert HandledIfStored(s, e);
    }
    forall e ensures Kept(end, e) <==> e in s.session.handled {
      DeletionKeepsExactly(o, s, run, end, e);
    }
  }

  lemma {:induction false} CutOffHandlesNothing(o: Oracle, s: System, run: seq<Action>, end: System)
    requires !s.session.phase.Live? && Window(o, s, run, SessionStops, end)
    ensures end.session.handled == s.session.handled
    decreases |run|
  {
    if |run| == 1 {
      hide Reply;
      assert end == NextOfSession(s, SessionStops);
    } else {
      WindowStep(o, s, run[0]);
      hide Next, Enabled;
      CutOffHandlesNothing(o, Next(o, s, run[0]), run[1..], end);
    }
  }

  /** A deletion that is cut off loses nothing exactly when each to-device event of the replies stored during it had
      been handled, or is in a response that the deletion has left. */
  lemma CutOffDeletionConservesExactly(o: Oracle, s: System, run: seq<Action>, end: System)
    requires !s.session.phase.Live? && HandledBeforeDeletion(s) && Window(o, s, run, SessionStops, end)
    ensures (forall e | Kept(s, e) || StoredIn(run, e) :: Kept(end, e))
            <==> (forall e | StoredIn(run, e) :: e in s.session.handled || Stored(end.store, e))
  {
    CutOffHandlesNothing(o, s, run, end);
    hide Window, StoredIn, Stored;
    forall e | Kept(s, e) ensures e in s.session.handled {
      assert HandledIfStored(s, e);
    }
  }
}
