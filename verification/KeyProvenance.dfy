// Where every key of the background crypto store comes from, in every run.
module KeyProvenance {
  import opened Wrappers
  import opened Events
  import opened SyncResponses
  import opened SyncStore
  import opened ServerLog
  import opened Crypto
  import opened EventDecryption
  import opened SyncService
  import opened BackgroundSync
  import opened ChainSafety
  import opened Conservation

  ghost predicate FromToDevice(o: Oracle, log: seq<Entry>, reach: Token, k: KeyId, g: GroupSession) {
    exists p :: 0 <= p < reach && p < |log| && log[p].ToDevice? && CameFrom(o, log[p].event, k, g)
  }

  /** A key was read from the app's store, or an authentic to-device event brought it. */
  ghost predicate Accounted(o: Oracle, s: System, k: KeyId, g: GroupSession) {
    (k, g) in s.lent || FromToDevice(o, s.log, s.reach, k, g)
  }

  ghost predicate KeysAccounted(o: Oracle, s: System) {
    && (forall k | k in s.stores.bgKeys :: Accounted(o, s, k, s.stores.bgKeys[k]))
    && (s.service.Some? ==> forall k | k in s.stores.appKeys :: (k, s.stores.appKeys[k]) in s.lent)
  }

  lemma AccountedGrows(o: Oracle, s: System, s': System, k: KeyId, g: GroupSession)
    requires Accounted(o, s, k, g) && s.log <= s'.log && s.reach <= s'.reach && s.lent <= s'.lent
    ensures Accounted(o, s', k, g)
  {
    hide CameFrom;
    if FromToDevice(o, s.log, s.reach, k, g) {
      var p :| 0 <= p < s.reach && p < |s.log| && s.log[p].ToDevice? && CameFrom(o, s.log[p].event, k, g);
      assert s'.log[p] == s.log[p];
    }
  }

  // Steps that add no key but copies, and forget some at most.
  lemma CopiesAreAccounted(o: Oracle, s: System, s': System)
    requires KeysAccounted(o, s) && s.log <= s'.log && s.reach <= s'.reach && s'.lent == s.lent
    requires s'.service.Some? ==> s.service.Some? && s'.stores.appKeys == s.stores.appKeys
    requires forall k | k in s'.stores.bgKeys ::
               (k in s.stores.bgKeys && s.stores.bgKeys[k] == s'.stores.bgKeys[k])
               || (s.service.Some? && k in s.stores.appKeys && s.stores.appKeys[k] == s'.stores.bgKeys[k])
    ensures KeysAccounted(o, s')
  {
    hide Accounted;
    forall k | k in s'.stores.bgKeys ensures Accounted(o, s', k, s'.stores.bgKeys[k]) {
      if k in s.stores.bgKeys && s.stores.bgKeys[k] == s'.stores.bgKeys[k] {
        AccountedGrows(o, s, s', k, s'.stores.bgKeys[k]);
      } else {
        LentIsAccounted(o, s', k, s'.stores.bgKeys[k]);
      }
    }
  }

  lemma LentIsAccounted(o: Oracle, s: System, k: KeyId, g: GroupSession)
    requires (k, g) in s.lent
    ensures Accounted(o, s, k, g)
  {
  }

  lemma BeginCopies(o: Oracle, l: Local, token: Option<Token>)
    requires l.service.Valid() && l.service.queue != []
    ensures OnlyCopies(l.stores, Begin(o, l, token).stores)
  {
    var l' := CheckStores(l, token);
    var l1 := l'.(service := l'.service.(queue := l.service.queue[1..], syncs := 0, keyed := 0));
    hide Ask, MarkOutdated;
    AskCopies(o, l1, l.service.queue[0], true);
  }

  lemma ContinueCopies(o: Oracle, l: Local)
    requires l.service.Valid() && l.service.stage.Harvesting?
    ensures OnlyCopies(l.stores, Continue(o, l).stores)
  {
    hide Ask, KeyMayCome;
    AskCopies(o, l, l.service.stage.request, false);
  }

  lemma HarvestIsAccounted(o: Oracle, s: System)
    requires Inv(s) && KeysAccounted(o, s) && Enabled(s, HarvestNext)
    ensures KeysAccounted(o, Next(o, s, HarvestNext))
  {
    var s' := Next(o, s, HarvestNext);
    var e := s.service.value.stage.toDevice[0];
    var h := HandleToDevice(o, s.stores, e);
    assert s'.stores == h.stores && s'.log == s.log && s'.reach == s.reach && s'.lent == s.lent;
    assert e in s.service.value.stage.toDevice && SentBefore(s.log, s.reach, e);
    HandlingKeepsAppKeys(o, s.stores, e);
    hide Next, Harvest, Enabled, HandleToDevice, Inv, CameFrom;
    forall k | k in s'.stores.bgKeys ensures Accounted(o, s', k, s'.stores.bgKeys[k]) {
      OnlyAuthenticEventsAddKeys(o, s.stores, e, k);
      if k in s.stores.bgKeys && s.stores.bgKeys[k] == s'.stores.bgKeys[k] {
        AccountedGrows(o, s, s', k, s'.stores.bgKeys[k]);
      } else if CameFrom(o, e, k, s'.stores.bgKeys[k]) {
        var p :| 0 <= p < s.reach && p < |s.log| && s.log[p] == ToDevice(e);
      }
    }
  }

  lemma HandlingKeepsAppKeys(o: Oracle, c: Stores, e: MXEvent)
    requires e.clear.None?
    ensures HandleToDevice(o, c, e).stores.appKeys == c.appKeys
  {
    DecryptKeys(o, c, e);
    hide Decrypt;
  }

  lemma InitIsAccounted(o: Oracle, s: System, a: Action)
    requires KeysAccounted(o, s) && a.Init? && Enabled(s, a)
    ensures KeysAccounted(o, Next(o, s, a))
  {
    var s' := Next(o, s, a);
    assert s'.lent == s.lent + a.appKeys.Items && s'.stores.appKeys == a.appKeys && s'.log == s.log
           && s'.reach == s.reach;
    assert forall k | k in s'.stores.bgKeys :: k in s.stores.bgKeys && s'.stores.bgKeys[k] == s.stores.bgKeys[k];
    hide Next, Enabled, Accounted;
    forall k | k in s'.stores.bgKeys ensures Accounted(o, s', k, s'.stores.bgKeys[k]) {
      AccountedGrows(o, s, s', k, s.stores.bgKeys[k]);
    }
    forall k | k in s'.stores.appKeys ensures (k, s'.stores.appKeys[k]) in s'.lent {
      assert (k, a.appKeys[k]) in a.appKeys.Items;
    }
  }

  /** A service that starts keeps the background keys of an earlier one exactly when the first cached response can be
      read. */
  lemma StartKeepsKeysExactly(o: Oracle, s: System, a: Action)
    requires a.Init? && Enabled(s, a)
    ensures var ids, files, stores, stores' := s.store.ids, s.store.files, s.stores, Next(o, s, a).stores;
            && stores'.appKeys == a.appKeys && stores'.appOlm == a.appOlm
            && (ids != [] && ids[0] in files ==> stores'.bgKeys == stores.bgKeys && stores'.bgOlm == stores.bgOlm)
            && (ids == [] || ids[0] !in files ==> stores'.bgKeys == map[] && stores'.bgOlm == map[])
  {
  }

  // Steps that look for an event, with what they do to the keys.
  lemma LocalIsAccounted(o: Oracle, s: System, l: Local)
    requires KeysAccounted(o, s) && s.service.Some? && OnlyCopies(s.stores, l.stores)
    ensures KeysAccounted(o, WithLocal(s, l))
  {
    hide KeysAccounted;
    CopiesAreAccounted(o, s, WithLocal(s, l));
  }

  lemma OtherStepsAccount(o: Oracle, s: System, a: Action)
    requires KeysAccounted(o, s) && Enabled(s, a)
    requires !a.HarvestNext? && !a.Init? && !a.BeginRequest? && !a.ContinueRequest? && !a.EventReply?
    ensures KeysAccounted(o, Next(o, s, a))
  {
    var s' := Next(o, s, a);
    assert s.log <= s'.log && s.reach <= s'.reach && s'.lent == s.lent && s'.stores == s.stores
           && (s'.service.Some? ==> s.service.Some?) by {
      hide KeysAccounted, Begin, Harvest, HandleCached, Fetched, Continue, Reset, DeleteStep, Update, Reply,
           ReplayRooms;
    }
    hide KeysAccounted, Next, Enabled;
    CopiesAreAccounted(o, s, s');
  }

  lemma StepAccounts(o: Oracle, s: System, a: Action)
    requires Inv(s) && KeysAccounted(o, s) && Enabled(s, a)
    ensures KeysAccounted(o, Next(o, s, a))
  {
    hide KeysAccounted, Inv, Begin, Receive, Harvest, Fetched, Continue, NextOfSession, OnlyCopies, Reply;
    match a {
      case HarvestNext => HarvestIsAccounted(o, s);
      case Init(_, _) => InitIsAccounted(o, s, a);
      case BeginRequest =>
        BeginCopies(o, LocalOf(s), s.session.token);
        LocalIsAccounted(o, s, Begin(o, LocalOf(s), s.session.token));
      case ContinueRequest =>
        ContinueCopies(o, LocalOf(s));
        LocalIsAccounted(o, s, Continue(o, LocalOf(s)));
      case EventReply(e) =>
        FetchedCopies(o, LocalOf(s), e);
        LocalIsAccounted(o, s, Fetched(o, LocalOf(s), e));
      case _ => OtherStepsAccount(o, s, a);
    }
  }

  lemma {:induction false} RunAccounts(o: Oracle, s: System, run: seq<Action>, end: System)
    requires Inv(s) && KeysAccounted(o, s) && Reaches(o, s, run, end)
    ensures KeysAccounted(o, end)
    decreases |run|
  {
    if run != [] {
      StepKeeps(o, s, run[0]);
      StepAccounts(o, s, run[0]);
      hide Inv, KeysAccounted, Next, Enabled;
      RunAccounts(o, Next(o, s, run[0]), run[1..], end);
    }
  }

  /** In every run, a background key was read from the app's store, or came from a to-device event of the homeserver
      that was encrypted, decrypted, passed its checks and had every field of a key. */
  lemma EveryKeyIsAccounted(o: Oracle, run: seq<Action>, end: System)
    requires Reaches(o, Start(), run, end)
    ensures forall k | k in end.stores.bgKeys :: Accounted(o, end, k, end.stores.bgKeys[k])
  {
    StartIsSafe();
    RunAccounts(o, Start(), run, end);
  }

  /** In every run, a background key was read from the app's store, or the event it came from has been handled by the
      session or still can be, unless that event was stored unhandled during a deletion: resetting the background store
      loses no other key that the session will not have. */
  lemma EveryKeyIsRecoverable(o: Oracle, run: seq<Action>, end: System, k: KeyId)
    requires Reaches(o, Start(), run, end) && k in end.stores.bgKeys
    ensures (k, end.stores.bgKeys[k]) in end.lent
            || exists e :: && SentBefore(end.log, end.reach, e) && CameFrom(o, e, k, end.stores.bgKeys[k])
                           && (QuietRun(o, Start(), run, e) ==> Kept(end, e))
  {
    EveryKeyIsAccounted(o, run, end);
    StartIsSafe();
    hide Reaches, QuietRun, CameFrom, Kept, Next, Enabled;
    var g := end.stores.bgKeys[k];
    assert Accounted(o, end, k, g);
    if (k, g) !in end.lent {
      var p :| 0 <= p < end.reach && p < |end.log| && end.log[p].ToDevice? && CameFrom(o, end.log[p].event, k, g);
      var e := end.log[p].event;
      assert SentBefore(end.log, end.reach, e);
      if QuietRun(o, Start(), run, e) {
        StartConserves(e);
        QuietRunConserves(o, Start(), run, end, e);
      }
    }
  }
}
