// When a request may rely on the cache: whatever the session did meanwhile, the check finds out.
module Staleness {
  import opened Wrappers
  import opened SyncResponses
  import opened SyncStore
  import opened ServerLog
  import opened Crypto
  import opened SyncService
  import opened BackgroundSync
  import opened ChainSafety
  import opened Conservation

  /** Only the response that the session is deleting right now has an id and no file. */
  ghost predicate OnlyDeletingUnreadable(s: System) {
    forall id | id in All(s.store) && id !in s.store.files ::
      s.session.phase.Deleting? && s.session.phase.todo != [] && s.session.phase.todo[0] == id
  }

  /** The session is not stopped in the middle of a deletion. */
  predicate Tidy(s: System, a: Action) {
    a.SessionStops? ==> !s.session.phase.Deleting?
  }

  ghost predicate TidyRun(o: Oracle, s: System, run: seq<Action>)
    decreases |run|
  {
    run == [] || (Enabled(s, run[0]) && Tidy(s, run[0]) && TidyRun(o, Next(o, s, run[0]), run[1..]))
  }

  lemma DeleteNextTidy(s: System)
    requires Inv(s) && OnlyDeletingUnreadable(s) && s.session.phase.Deleting? && s.session.phase.todo != []
    ensures OnlyDeletingUnreadable(NextOfSession(s, DeleteNext))
  {
    var todo := s.session.phase.todo;
    assert todo[0] == All(s.store)[0];
    hide InFlight, AllSound, ServiceSound, Tokens, RestReadable, Linked;
    if todo[0] in s.store.files {
      assert All(DeleteFile(s.store, todo[0])) == All(s.store);
    } else {
      DeleteIdOfHead(s.store);
      hide DeleteId;
      assert forall i | 0 < i < |All(s.store)| :: All(s.store)[i] != todo[0];
    }
  }

  lemma StoreSameTidy(s: System, s': System)
    requires OnlyDeletingUnreadable(s)
    requires s'.store == s.store && (s'.session.phase == s.session.phase || !s.session.phase.Deleting?)
    ensures OnlyDeletingUnreadable(s')
  {
  }

  lemma ReceiveTidy(s: System, r: SyncResponse, small: bool, newId: nat)
    requires OnlyDeletingUnreadable(s) && s.service.Some? && s.service.value.stage.Syncing?
    ensures OnlyDeletingUnreadable(WithLocal(s.(reach := Max(s.reach, r.nextBatch)),
                                             Receive(LocalOf(s), r, small, newId)))
  {
    hide Merged;
    var store := Update(s.store, r, s.service.value.stage.from, small, newId);
    forall id | id in All(store) && id !in store.files ensures id in All(s.store) && id !in s.store.files {
    }
  }

  lemma CutOffTidy(s: System, r: SyncResponse, newId: nat)
    requires OnlyDeletingUnreadable(s) && s.service.Some? && s.service.value.stage.Syncing?
    ensures OnlyDeletingUnreadable(FileWithoutId(s, r, newId))
  {
    assert All(FileWithoutId(s, r, newId).store) == All(s.store);
  }

  lemma BeginTidy(o: Oracle, s: System)
    requires OnlyDeletingUnreadable(s) && Enabled(s, BeginRequest)
    ensures OnlyDeletingUnreadable(WithLocal(s, Begin(o, LocalOf(s), s.session.token)))
    ensures var store := Begin(o, LocalOf(s), s.session.token).store;
            && store == CheckStores(LocalOf(s), s.session.token).store
            && Begin(o, LocalOf(s), s.session.token).service.snapshot == s.session.token
  {
    var l := CheckStores(LocalOf(s), s.session.token);
    var l1 := l.(service := l.service.(queue := s.service.value.queue[1..], syncs := 0, keyed := 0));
    CheckIsExact(LocalOf(s), s.session.token);
    AskProgress(o, l1, s.service.value.queue[0], true);
    hide Ask, CheckStores, Keeps;
  }

  lemma StepTidy(o: Oracle, s: System, a: Action)
    requires Inv(s) && OnlyDeletingUnreadable(s) && Enabled(s, a) && Tidy(s, a)
    ensures OnlyDeletingUnreadable(Next(o, s, a))
  {
    hide OnlyDeletingUnreadable, Inv, FileWithoutId, Begin, Receive, Harvest, HandleCached, Fetched, Continue, Reset,
         Reply, ReplayRooms, DeleteStep;
    var s' := Next(o, s, a);
    match a {
      case DeleteNext => DeleteNextTidy(s);
      case FinishDeletion => NothingListed(s');
      case HandleCache => StoreSameTidy(s, s');
      case BeginRequest => BeginTidy(o, s);
      case SyncReply(r, small, newId) => ReceiveTidy(s, r, small, newId);
      case WriteCutOff(r, newId) => CutOffTidy(s, r, newId);
      case ContinueRequest =>
        ContinueStore(o, LocalOf(s));
        StoreSameTidy(s, s');
      case EventReply(e) =>
        FetchedStore(o, LocalOf(s), e);
        StoreSameTidy(s, s');
      case _ => StoreSameTidy(s, s');
    }
  }

  lemma NothingListed(s: System)
    requires s.store.ids == [] && s.store.outdated == []
    ensures OnlyDeletingUnreadable(s)
  {
  }

  lemma {:induction false} TidyRunReadable(o: Oracle, s: System, run: seq<Action>, end: System)
    requires Inv(s) && OnlyDeletingUnreadable(s) && Reaches(o, s, run, end) && TidyRun(o, s, run)
    ensures OnlyDeletingUnreadable(end)
    decreases |run|
  {
    if run != [] {
      StepKeeps(o, s, run[0]);
      StepTidy(o, s, run[0]);
      hide Inv, OnlyDeletingUnreadable, Next, Enabled;
      TidyRunReadable(o, Next(o, s, run[0]), run[1..], end);
    }
  }

  /** A request begins with the session's own token and with a cache that is empty or starts at that token, except
      exactly when the cache is stale behind a first response that cannot be read. */
  lemma RequestBeginsUpToDateExactly(o: Oracle, s: System)
    requires Enabled(s, BeginRequest)
    ensures var s' := Next(o, s, BeginRequest);
            && s'.service.value.snapshot == s.session.token
            && (UpToDate(s'.store, s.session.token) <==> !StaleBehindHole(s.store, s.session.token))
  {
    BeginStoreIs(o, s);
    CheckIsExact(LocalOf(s), s.session.token);
    hide Begin, CheckStores, UpToDate, StaleBehindHole;
  }

  /** In a run, that is exactly when the file of the first valid response is gone, and the second one does not start at
      the session's token. */
  lemma StaleInRunsExactly(o: Oracle, run: seq<Action>, s: System)
    requires Reaches(o, Start(), run, s) && Enabled(s, BeginRequest)
    ensures !UpToDate(Next(o, s, BeginRequest).store, s.session.token) <==>
            && |s.store.ids| >= 2 && s.store.ids[0] !in s.store.files
            && s.store.ids[1] in s.store.files && Some(s.store.files[s.store.ids[1]].syncToken) != s.session.token
  {
    RequestBeginsUpToDateExactly(o, s);
    StartIsSafe();
    RunKeeps(o, Start(), run, s);
    hide Reaches, Next, Enabled, Tokens, InFlight, AllSound, ServiceSound, Distinct;
    HoleAtTheStart(s.store, s.session.token);
  }

  lemma HoleAtTheStart(s: Store, token: Option<Token>)
    requires Chained(s)
    ensures StaleBehindHole(s, token) <==>
            && |s.ids| >= 2 && s.ids[0] !in s.files && s.ids[1] in s.files && Some(s.files[s.ids[1]].syncToken) != token
  {
    hide Distinct, Linked;
    ValidIdsAreInAll(s);
    if |s.ids| >= 2 {
      assert All(s)[|s.outdated| + 1] in s.files;
      assert FirstReadable(s.files, s.ids[1..]) == Some(s.files[s.ids[1]]);
    } else if |s.ids| == 1 {
      assert FirstReadable(s.files, s.ids[1..]) == None;
    }
  }

  lemma BeginStoreIs(o: Oracle, s: System)
    requires Enabled(s, BeginRequest)
    ensures var l := Begin(o, LocalOf(s), s.session.token);
            l.store == CheckStores(LocalOf(s), s.session.token).store && l.service.snapshot == s.session.token
  {
    var l := CheckStores(LocalOf(s), s.session.token);
    var l1 := l.(service := l.service.(queue := s.service.value.queue[1..], syncs := 0, keyed := 0));
    AskProgress(o, l1, s.service.value.queue[0], true);
    hide Ask, Keeps;
  }

  /** In every run that stops the session in no deletion, and outside deletions, every request begins up to date. */
  lemma RequestsBeginUpToDate(o: Oracle, run: seq<Action>, s: System)
    requires Reaches(o, Start(), run, s) && TidyRun(o, Start(), run)
    requires Enabled(s, BeginRequest) && !s.session.phase.Deleting?
    ensures UpToDate(Next(o, s, BeginRequest).store, s.session.token)
  {
    StartIsSafe();
    assert OnlyDeletingUnreadable(Start());
    TidyRunReadable(o, Start(), run, s);
    RequestBeginsUpToDateExactly(o, s);
    hide Reaches, TidyRun, Next, Enabled, UpToDate;
    if s.store.ids != [] {
      assert All(s.store)[|s.store.outdated|] == s.store.ids[0];
      assert s.store.ids[0] in All(s.store);
    }
  }
}
