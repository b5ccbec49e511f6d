// The requests of the background sync service, as steps on its fields and the stores it keeps
// (MatrixSDK/Background/MXBackgroundSyncService.swift).
module SyncService {
  import opened Wrappers
  import opened Events
  import opened SyncResponses
  import opened SyncStore
  import opened Crypto
  import opened EventDecryption

  /** One call of `event(withEventId:inRoom:)`; calls are numbered in their order. */
  datatype Request = Request(no: nat, eventId: string, roomId: string)

  datatype ServiceError = Unstarted | Decrypting(error: CryptoError) | Network

  // Objects are shared between the cache and the callers; they are named by their index in `objects`.
  datatype Outcome = Success(obj: nat) | Failure(error: ServiceError)

  /** What the request being processed waits for: a sync reply, the handling of the to-device events of one, the event
      itself from the homeserver, or the main thread to deliver the result. */
  datatype Stage =
    | Idle
    | Syncing(request: Request, from: Token)
    | Harvesting(request: Request, toDevice: seq<MXEvent>, carried: bool)
    | Fetching(request: Request)
    | Completing(request: Request, outcome: Outcome)

  datatype Completion = Completion(request: Request, outcome: Outcome)

  /** The fields of the service; `calls`, `done`, `syncs` and `keyed` record its history: the calls and completions,
      and, for the current request, the syncs launched and the replies with to-device events. */
  datatype Service = Service(
    snapshot: Option<Token>,
    objects: seq<MXEvent>,
    cachedEvents: map<string, nat>,
    queue: seq<Request>,
    stage: Stage,
    calls: seq<Request>,
    done: seq<Completion>,
    syncs: nat,
    keyed: nat)
  {
    predicate Valid() {
      && (forall id | id in cachedEvents :: cachedEvents[id] < |objects|)
      && (stage.Completing? && stage.outcome.Success? ==> stage.outcome.obj < |objects|)
    }
  }

  datatype Local = Local(service: Service, store: Store, stores: Stores)

  function NewService(token: Option<Token>): Service {
    Service(token, [], map[], [], Idle, [], [], 0, 0)
  }

  function At(l: Local, stage: Stage): Local {
    l.(service := l.service.(stage := stage))
  }

  // ---- The staleness check ----

  /** `updateBackgroundServiceStoresIfNeeded`; `token` is the session's token as its store has it now. */
  function CheckStores(l: Local, token: Option<Token>): Local {
    var cached := SyncToken(l.store);
    var outdated := l.service.snapshot != token || token != cached;
    var store := if cached.Some? && outdated then MarkOutdated(l.store) else l.store;
    Local(l.service.(snapshot := token), store, if store.ids == [] then Reset(l.stores) else l.stores)
  }

  // The first valid response that is really there.
  function FirstReadable(files: map<nat, Cached>, ids: seq<nat>): Option<Cached> {
    if ids == [] then None else if ids[0] in files then Some(files[ids[0]]) else FirstReadable(files, ids[1..])
  }

  /** The valid responses that are there are none, or start where the session is. */
  predicate UpToDate(s: Store, token: Option<Token>) {
    var first := FirstReadable(s.files, s.ids);
    first.None? || Some(first.value.syncToken) == token
  }

  /** The first valid response cannot be read, and the first one after it that can is not of the session's token. */
  predicate StaleBehindHole(s: Store, token: Option<Token>) {
    s.ids != [] && First(s).None? && !UpToDate(s, token)
  }

  /** After the check the cache is up to date, except exactly when it was stale behind a first response that cannot be
      read, and without valid responses there is no background key. Nothing has been forgotten, and a second check
      changes nothing. */
  lemma CheckIsExact(l: Local, token: Option<Token>)
    ensures var l' := CheckStores(l, token);
            && l'.service == l.service.(snapshot := token)
            && (UpToDate(l'.store, token) <==> !StaleBehindHole(l.store, token))
            && (l'.store.ids == [] ==> l'.stores.bgKeys == map[] && l'.stores.bgOlm == map[])
            && l'.store.files == l.store.files && All(l'.store) == All(l.store)
            && CheckStores(l', token) == l'
  {
    assert l.store.outdated + l.store.ids + [] == l.store.outdated + l.store.ids;
  }

  /** Which check makes the cache outdated: one that can read its first response, and finds that the session has moved
      since the last check or that the cache does not start at the session's token. It then marks all of it, else
      nothing. Keys are dropped where there is no valid response afterwards, else kept. */
  lemma CheckMarksExactly(l: Local, token: Option<Token>)
    ensures var s, l' := l.store, CheckStores(l, token);
            var marked := s.ids != [] && s.ids[0] in s.files
                          && (l.service.snapshot != token || token != Some(s.files[s.ids[0]].syncToken));
            && l'.store.files == s.files
            && (marked ==> l'.store.ids == [] && l'.store.outdated == s.outdated + s.ids)
            && (!marked ==> l'.store.ids == s.ids && l'.store.outdated == s.outdated)
            && (l'.store.ids == [] ==> l'.stores.bgKeys == map[] && l'.stores.bgOlm == map[])
            && (l'.store.ids != [] ==> l'.stores == l.stores)
  {
  }

  // ---- One request ----

  function LaunchToken(l: Local): Option<Token> {
    if NextSyncToken(l.store).Some? then NextSyncToken(l.store) else l.service.snapshot
  }

  /** `launchBackgroundSync`. */
  function Launch(l: Local, r: Request): Local {
    match LaunchToken(l)
    case None => At(l, Completing(r, Failure(Unstarted)))
    case Some(token) => At(l.(service := l.service.(syncs := l.service.syncs + 1)), Syncing(r, token))
  }

  function FailDecryption(l: Local, r: Request, error: CryptoError, allowSync: bool): Local {
    if allowSync then Launch(l, r) else At(l, Completing(r, Failure(Decrypting(error))))
  }

  function HandleEncryption(o: Oracle, l: Local, r: Request, obj: nat, allowSync: bool): Local
    requires obj < |l.service.objects|
  {
    var e := l.service.objects[obj];
    if e.Readable() then At(l, Completing(r, Success(obj)))
    else if !CanDecrypt(l.stores, e) then FailDecryption(l, r, DecryptionFailure, allowSync)
    else
      var d := Decrypt(o, l.stores, e);
      var l' := Local(l.service.(objects := l.service.objects[obj := d.event]), l.store, d.stores);
      if d.error.None? then At(l', Completing(r, Success(obj)))
      else FailDecryption(l', r, d.error.value, allowSync)
  }

  function Remember(l: Local, eventId: string, e: MXEvent): Local {
    l.(service := l.service.(objects := l.service.objects + [e],
                             cachedEvents := l.service.cachedEvents[eventId := |l.service.objects|]))
  }

  /** `_event` after its check of the stores. */
  function Ask(o: Oracle, l: Local, r: Request, allowSync: bool): Local
    requires l.service.Valid()
  {
    if r.eventId in l.service.cachedEvents then HandleEncryption(o, l, r, l.service.cachedEvents[r.eventId], allowSync)
    else
      match Lookup(l.store, r.eventId, r.roomId)
      case Some(e) => HandleEncryption(o, Remember(l, r.eventId, e), r, |l.service.objects|, allowSync)
      case None => if allowSync then Launch(l, r) else At(l, Fetching(r))
  }

  /** The next call in the queue is processed. */
  function Begin(o: Oracle, l: Local, token: Option<Token>): Local
    requires l.service.Valid() && l.service.queue != []
  {
    var l' := CheckStores(l, token);
    Ask(o, l'.(service := l'.service.(queue := l.service.queue[1..], syncs := 0, keyed := 0)), l.service.queue[0], true)
  }

  /** A sync reply is stored before any of its to-device events is handled. */
  function Receive(l: Local, response: SyncResponse, small: bool, newId: nat): Local
    requires l.service.stage.Syncing?
  {
    var carried := response.toDevice != [];
    At(Local(l.service.(keyed := l.service.keyed + if carried then 1 else 0),
             Update(l.store, response, l.service.stage.from, small, newId), l.stores),
       Harvesting(l.service.stage.request, response.toDevice, carried))
  }

  /** The next to-device event; `None` when it crashes the service. */
  function Harvest(o: Oracle, l: Local): (Option<Service>, Stores)
    requires l.service.stage.Harvesting? && l.service.stage.toDevice != []
    requires l.service.stage.toDevice[0].clear.None?
  {
    var stage := l.service.stage;
    match HandleToDevice(o, l.stores, stage.toDevice[0])
    case Crashed(stores) => (None, stores)
    case Handled(stores) => (Some(l.service.(stage := stage.(toDevice := stage.toDevice[1..]))), stores)
  }

  // The event has arrived without its key, and the last reply carried to-device events: the key may be on its way.
  predicate KeyMayCome(l: Local)
    requires l.service.stage.Harvesting?
  {
    var e := Lookup(l.store, l.service.stage.request.eventId, l.service.stage.request.roomId);
    e.Some? && !CanDecrypt(l.stores, e.value) && l.service.stage.carried
  }

  /** All to-device events of the reply have been handled: sync again, or look for the event without syncing. */
  function Continue(o: Oracle, l: Local): Local
    requires l.service.Valid() && l.service.stage.Harvesting?
  {
    if KeyMayCome(l) then Launch(l, l.service.stage.request) else Ask(o, l, l.service.stage.request, false)
  }

  /** The homeserver's answer to `/event`. */
  function Fetched(o: Oracle, l: Local, reply: Option<MXEvent>): Local
    requires l.service.Valid() && l.service.stage.Fetching?
  {
    var r := l.service.stage.request;
    match reply
    case None => At(l, Completing(r, Failure(Network)))
    case Some(e) => HandleEncryption(o, Remember(l, r.eventId, e), r, |l.service.objects|, false)
  }

  // ---- What asking changes ----

  /** Events change in nothing but their clear version, readable events not at all, and what is cached under an id stays
      under it. */
  ghost predicate Keeps(before: Service, after: Service) {
    && |before.objects| <= |after.objects|
    && (forall i | 0 <= i < |before.objects| :: SameWire(before.objects[i], after.objects[i]))
    && (forall i | 0 <= i < |before.objects| && before.objects[i].Readable() :: after.objects[i] == before.objects[i])
    && (forall id | id in before.cachedEvents ::
        id in after.cachedEvents && after.cachedEvents[id] == before.cachedEvents[id])
  }

  // The request has moved on from where it was, and nothing but its own progress has changed.
  ghost predicate Progress(l: Local, l': Local, r: Request, allowSync: bool) {
    var s, s' := l.service, l'.service;
    && l'.store == l.store && s'.Valid() && Keeps(s, s')
    && (s'.snapshot, s'.queue, s'.calls, s'.done, s'.keyed) == (s.snapshot, s.queue, s.calls, s.done, s.keyed)
    && (s'.stage.Syncing? || s'.stage.Completing? || (s'.stage.Fetching? && !allowSync))
    && s'.stage.request == r
    && s'.syncs == s.syncs + (if s'.stage.Syncing? then 1 else 0)
    && (s'.stage.Fetching? ==> r.eventId !in s'.cachedEvents)
    && (s'.stage.Syncing? ==> allowSync && LaunchToken(l) == Some(s'.stage.from))
    && (s'.stage.Completing? && s'.stage.outcome.Success? ==>
          r.eventId in s'.cachedEvents && s'.cachedEvents[r.eventId] == s'.stage.outcome.obj)
  }

  predicate SameWire(e: MXEvent, e': MXEvent) {
    e'.(clear := None) == e.(clear := None)
  }

  lemma DecryptKeepsWire(o: Oracle, c: Stores, e: MXEvent)
    requires e.IsEncrypted() ==> HasContent(e)
    ensures SameWire(e, Decrypt(o, c, e).event)
  {
    if Decrypt(o, c, e).error.None? {
      DecryptedIsReadableExactly(o, c, e);
    } else {
      FailedDecryptionLeavesEvent(o, c, e);
    }
    hide Decrypt;
  }

  lemma HandleEncryptionProgress(o: Oracle, l: Local, r: Request, obj: nat, allowSync: bool)
    requires l.service.Valid() && r.eventId in l.service.cachedEvents && l.service.cachedEvents[r.eventId] == obj
    ensures Progress(l, HandleEncryption(o, l, r, obj, allowSync), r, allowSync)
  {
    hide Decrypt, CanDecrypt;
    if !l.service.objects[obj].Readable() {
      DecryptKeepsWire(o, l.stores, l.service.objects[obj]);
    }
  }

  /** Asking without leave to sync never syncs; asking with leave syncs from the end of the cache or from the session's
      token; a success is an object cached under the id asked for. */
  lemma AskProgress(o: Oracle, l: Local, r: Request, allowSync: bool)
    requires l.service.Valid()
    ensures Progress(l, Ask(o, l, r, allowSync), r, allowSync)
  {
    assert forall e :: SameWire(e, e);
    hide SameWire;
    if r.eventId in l.service.cachedEvents {
      HandleEncryptionProgress(o, l, r, l.service.cachedEvents[r.eventId], allowSync);
    } else if Lookup(l.store, r.eventId, r.roomId).Some? {
      hide HandleEncryption, Lookup;
      HandleEncryptionProgress(o, Remember(l, r.eventId, Lookup(l.store, r.eventId, r.roomId).value), r,
                               |l.service.objects|, allowSync);
    }
  }

  lemma FetchedProgress(o: Oracle, l: Local, reply: Option<MXEvent>)
    requires l.service.Valid() && l.service.stage.Fetching?
             && l.service.stage.request.eventId !in l.service.cachedEvents
    ensures Progress(l, Fetched(o, l, reply), l.service.stage.request, false)
  {
    if reply.Some? {
      hide HandleEncryption;
      HandleEncryptionProgress(o, Remember(l, l.service.stage.request.eventId, reply.value), l.service.stage.request,
                               |l.service.objects|, false);
    }
  }

  // Asking adds no key; it may copy one from the app's store.
  ghost predicate OnlyCopies(c: Stores, c': Stores) {
    c'.appKeys == c.appKeys && c'.appOlm == c.appOlm
    && forall k | k in c'.bgKeys ::
         (k in c.bgKeys && c.bgKeys[k] == c'.bgKeys[k]) || (k in c.appKeys && c.appKeys[k] == c'.bgKeys[k])
  }

  lemma HandleEncryptionCopies(o: Oracle, l: Local, r: Request, obj: nat, allowSync: bool)
    requires obj < |l.service.objects|
    ensures OnlyCopies(l.stores, HandleEncryption(o, l, r, obj, allowSync).stores)
  {
    hide Decrypt, CanDecrypt;
    var e := l.service.objects[obj];
    if !e.Readable() {
      DecryptKeys(o, l.stores, e);
    }
  }

  lemma AskCopies(o: Oracle, l: Local, r: Request, allowSync: bool)
    requires l.service.Valid()
    ensures OnlyCopies(l.stores, Ask(o, l, r, allowSync).stores)
  {
    hide HandleEncryption, Lookup;
    if r.eventId in l.service.cachedEvents {
      HandleEncryptionCopies(o, l, r, l.service.cachedEvents[r.eventId], allowSync);
    } else if Lookup(l.store, r.eventId, r.roomId).Some? {
      HandleEncryptionCopies(o, Remember(l, r.eventId, Lookup(l.store, r.eventId, r.roomId).value), r,
                             |l.service.objects|, allowSync);
    }
  }

  lemma FetchedCopies(o: Oracle, l: Local, reply: Option<MXEvent>)
    requires l.service.Valid() && l.service.stage.Fetching?
    ensures OnlyCopies(l.stores, Fetched(o, l, reply).stores)
  {
    hide HandleEncryption;
    if reply.Some? {
      HandleEncryptionCopies(o, Remember(l, l.service.stage.request.eventId, reply.value), l.service.stage.request,
                             |l.service.objects|, false);
    }
  }

  // ---- Syncing again ----

  lemma NewestIsOne(s: Store, eventId: string, roomId: string, i: nat, n: nat, p: nat, i': nat, n': nat, p': nat)
    requires IsNewest(s, s.ids, eventId, roomId, i, n, p) && IsNewest(s, s.ids, eventId, roomId, i', n', p')
    ensures (i, n, p) == (i', n', p')
  {
    hide Section;
    assert Has(s, s.ids[i], eventId, roomId) && Has(s, s.ids[i'], eventId, roomId);
  }

  lemma NothingIsNewest(s: Store, eventId: string, roomId: string)
    requires Lookup(s, eventId, roomId) == None
    ensures forall i: nat, n: nat, p: nat :: !IsNewest(s, s.ids, eventId, roomId, i, n, p)
  {
    var i0, n0, p0 := LookupExactly(s, eventId, roomId);
    forall i: nat, n: nat, p: nat ensures !IsNewest(s, s.ids, eventId, roomId, i, n, p) {
      if IsNewest(s, s.ids, eventId, roomId, i, n, p) {
        SectionIsOfRoom(s.files[s.ids[i]].response, roomId, n, p);
      }
    }
  }

  /** The cache has the event, encrypted with Megolm or not, and neither store has the Megolm key that it names. */
  ghost predicate CameWithoutKey(s: Store, c: Stores, eventId: string, roomId: string) {
    exists i: nat, n: nat, p: nat ::
      && IsNewest(s, s.ids, eventId, roomId, i, n, p)
      && var e := Section(s.files[s.ids[i]].response, roomId, n)[p];
         && e.wireType == RoomEncrypted
         && (e.wireContent.sessionId.Some? && e.wireContent.senderKey.Some? ==>
               var k := KeyId(e.wireContent.sessionId.value, e.wireContent.senderKey.value);
               k !in c.bgKeys && k !in c.appKeys)
  }

  lemma KeyMayComeExactly(l: Local)
    requires l.service.stage.Harvesting?
    ensures var r := l.service.stage.request;
            KeyMayCome(l) <==> l.service.stage.carried && CameWithoutKey(l.store, l.stores, r.eventId, r.roomId)
  {
    var r, s := l.service.stage.request, l.store;
    var i, n, p := LookupExactly(s, r.eventId, r.roomId);
    if Lookup(s, r.eventId, r.roomId).Some? {
      forall i': nat, n': nat, p': nat | IsNewest(s, s.ids, r.eventId, r.roomId, i', n', p')
        ensures (i, n, p) == (i', n', p')
      {
        NewestIsOne(s, r.eventId, r.roomId, i, n, p, i', n', p');
      }
    } else {
      NothingIsNewest(s, r.eventId, r.roomId);
    }
    hide Lookup, Section, IsNewest;
  }

  lemma LaunchStage(l: Local, r: Request)
    ensures var s := l.store;
            var token := if s.ids != [] && s.ids[|s.ids| - 1] in s.files
                         then Some(s.files[s.ids[|s.ids| - 1]].response.nextBatch) else l.service.snapshot;
            Launch(l, r).service.stage == match token
                                          case None => Completing(r, Failure(Unstarted))
                                          case Some(from) => Syncing(r, from)
  {
  }

  lemma AskNeverSyncs(o: Oracle, l: Local, r: Request)
    requires l.service.Valid()
    ensures !Ask(o, l, r, false).service.stage.Syncing?
  {
    AskProgress(o, l, r, false);
    hide Ask, Keeps;
  }

  /** After the to-device events of a reply the service syncs again exactly when the reply carried some, the event has
      come without its key, and there is a token to sync from: that of the end of the cache, else of the session. */
  lemma SyncsAgainExactly(o: Oracle, l: Local)
    requires l.service.Valid() && l.service.stage.Harvesting?
    ensures var s, r, stage := l.store, l.service.stage.request, Continue(o, l).service.stage;
            var token := if s.ids != [] && s.ids[|s.ids| - 1] in s.files
                         then Some(s.files[s.ids[|s.ids| - 1]].response.nextBatch) else l.service.snapshot;
            && (stage.Syncing? <==>
                  l.service.stage.carried && CameWithoutKey(s, l.stores, r.eventId, r.roomId) && token.Some?)
            && (stage.Syncing? ==> stage == Syncing(r, token.value))
            && (!(l.service.stage.carried && CameWithoutKey(s, l.stores, r.eventId, r.roomId)) ==>
                  Continue(o, l) == Ask(o, l, r, false))
  {
    KeyMayComeExactly(l);
    AskNeverSyncs(o, l, l.service.stage.request);
    LaunchStage(l, l.service.stage.request);
    hide Ask, Launch, KeyMayCome, CameWithoutKey;
  }

  // ---- The answer to a request ----

  /** The event that a request finds without the network: the object cached under its id, else the newest in the
      responses. */
  ghost predicate Holds(l: Local, r: Request, e: MXEvent)
    requires l.service.Valid()
  {
    if r.eventId in l.service.cachedEvents then e == l.service.objects[l.service.cachedEvents[r.eventId]]
    else exists i: nat, n: nat, p: nat ::
           IsNewest(l.store, l.store.ids, r.eventId, r.roomId, i, n, p)
           && e == EventAt(l.store, l.store.ids[i], r.roomId, n, p)
  }

  // Where a request is that has to sync: from the end of the cache, else from the session's token, if there is one.
  function SyncStage(l: Local, r: Request): Stage {
    var s := l.store;
    if s.ids != [] && s.ids[|s.ids| - 1] in s.files then Syncing(r, s.files[s.ids[|s.ids| - 1]].response.nextBatch)
    else if l.service.snapshot.Some? then Syncing(r, l.service.snapshot.value)
    else Completing(r, Failure(Unstarted))
  }

  // Decryption is tried on an event that is not readable and whose Megolm key is in one of the stores.
  ghost function Attempted(o: Oracle, c: Stores, e: MXEvent): Decryption {
    if e.wireType != RoomEncrypted || e.clear.Some? then Decryption(c, e, None)
    else if e.wireContent.sessionId.None? || e.wireContent.senderKey.None?
      then Decryption(c, e, Some(DecryptionFailure))
    else
      var k := KeyId(e.wireContent.sessionId.value, e.wireContent.senderKey.value);
      if k in c.bgKeys || k in c.appKeys then Decrypt(o, c, e) else Decryption(c, e, Some(DecryptionFailure))
  }

  /** The answer for an event: the event if it is readable or could be decrypted; else a sync, where that is allowed, or
      the error of the decryption. */
  ghost predicate Answered(o: Oracle, l: Local, s': Service, r: Request, e: MXEvent, allowSync: bool) {
    var d := Attempted(o, l.stores, e);
    if d.error.None?
    then && s'.stage.Completing? && s'.stage.request == r && s'.stage.outcome.Success?
         && s'.stage.outcome.obj < |s'.objects| && s'.objects[s'.stage.outcome.obj] == d.event
    else s'.stage == if allowSync then SyncStage(l, r) else Completing(r, Failure(Decrypting(d.error.value)))
  }

  lemma HandledExactly(o: Oracle, l: Local, r: Request, obj: nat, allowSync: bool)
    requires obj < |l.service.objects|
    ensures Answered(o, l, HandleEncryption(o, l, r, obj, allowSync).service, r, l.service.objects[obj], allowSync)
  {
    hide Decrypt;
  }

  lemma AnsweredFromCache(o: Oracle, l: Local, r: Request, allowSync: bool)
    requires l.service.Valid() && r.eventId in l.service.cachedEvents
    ensures exists e :: Holds(l, r, e)
    ensures forall e | Holds(l, r, e) :: Answered(o, l, Ask(o, l, r, allowSync).service, r, e, allowSync)
  {
    HandledExactly(o, l, r, l.service.cachedEvents[r.eventId], allowSync);
    assert Holds(l, r, l.service.objects[l.service.cachedEvents[r.eventId]]);
    hide HandleEncryption, Answered;
  }

  lemma LookupIsHeld(l: Local, r: Request, i: nat, n: nat, p: nat)
    requires l.service.Valid() && r.eventId !in l.service.cachedEvents
    requires Lookup(l.store, r.eventId, r.roomId).Some? ==>
               IsNewest(l.store, l.store.ids, r.eventId, r.roomId, i, n, p)
               && Lookup(l.store, r.eventId, r.roomId).value == EventAt(l.store, l.store.ids[i], r.roomId, n, p)
    ensures forall e :: Holds(l, r, e) <==> Lookup(l.store, r.eventId, r.roomId) == Some(e)
  {
    var s := l.store;
    if Lookup(s, r.eventId, r.roomId).Some? {
      forall i': nat, n': nat, p': nat | IsNewest(s, s.ids, r.eventId, r.roomId, i', n', p')
        ensures (i, n, p) == (i', n', p')
      {
        NewestIsOne(s, r.eventId, r.roomId, i, n, p, i', n', p');
      }
    } else {
      NothingIsNewest(s, r.eventId, r.roomId);
    }
    hide Lookup, Section, IsNewest;
  }

  lemma FoundIsAnswered(o: Oracle, l: Local, r: Request, e: MXEvent, allowSync: bool)
    ensures var l' := HandleEncryption(o, Remember(l, r.eventId, e), r, |l.service.objects|, allowSync);
            Answered(o, l, l'.service, r, e, allowSync)
  {
    HandledExactly(o, Remember(l, r.eventId, e), r, |l.service.objects|, allowSync);
    hide HandleEncryption, Attempted;
  }

  lemma AnsweredFromResponses(o: Oracle, l: Local, r: Request, allowSync: bool)
    requires l.service.Valid() && r.eventId !in l.service.cachedEvents
    ensures (exists e :: Holds(l, r, e)) <==> Lookup(l.store, r.eventId, r.roomId).Some?
    ensures forall e | Holds(l, r, e) :: Answered(o, l, Ask(o, l, r, allowSync).service, r, e, allowSync)
  {
    var i, n, p := LookupExactly(l.store, r.eventId, r.roomId);
    LookupIsHeld(l, r, i, n, p);
    hide Holds, Lookup, IsNewest, Section;
    if Lookup(l.store, r.eventId, r.roomId).Some? {
      var e := Lookup(l.store, r.eventId, r.roomId).value;
      FoundIsAnswered(o, l, r, e, allowSync);
      hide HandleEncryption, Answered;
      assert Holds(l, r, e);
    }
  }

  /** The answer to a request: for the event that it holds as above; without one a sync, or, where that is not allowed,
      a request to the homeserver for the event. */
  lemma AnswerExactly(o: Oracle, l: Local, r: Request, allowSync: bool)
    requires l.service.Valid()
    ensures (forall e :: !Holds(l, r, e)) ==>
              Ask(o, l, r, allowSync).service.stage == if allowSync then SyncStage(l, r) else Fetching(r)
    ensures forall e | Holds(l, r, e) :: Answered(o, l, Ask(o, l, r, allowSync).service, r, e, allowSync)
  {
    if r.eventId in l.service.cachedEvents {
      AnsweredFromCache(o, l, r, allowSync);
    } else {
      AnsweredFromResponses(o, l, r, allowSync);
    }
    hide HandleEncryption, Lookup, Holds, Answered;
  }

  // ---- Success is readable ----

  ghost predicate SuccessReadable(s: Service) {
    s.stage.Completing? && s.stage.outcome.Success? && s.stage.outcome.obj < |s.objects|
    ==> s.objects[s.stage.outcome.obj].Readable()
  }

  /** A success just reported is readable, except exactly when the event was decrypted just now by a Megolm session
      into something that is not a JSON object. */
  lemma SuccessIsReadableExactly(o: Oracle, l: Local, r: Request, obj: nat, allowSync: bool)
    requires obj < |l.service.objects|
    ensures SuccessReadable(HandleEncryption(o, l, r, obj, allowSync).service) <==>
            !(var e := l.service.objects[obj];
              !e.Readable() && CanDecrypt(l.stores, e) && TextIsNotJson(o, l.stores, e))
  {
    var e := l.service.objects[obj];
    if !e.Readable() && CanDecrypt(l.stores, e) {
      if Decrypt(o, l.stores, e).error.None? {
        DecryptedIsReadableExactly(o, l.stores, e);
      } else {
        NotJsonIsNoError(o, l.stores, e);
      }
    }
    hide Decrypt, TextIsNotJson, CanDecrypt;
  }

  lemma NotJsonIsNoError(o: Oracle, c: Stores, e: MXEvent)
    requires HasContent(e) && e.IsEncrypted() && Decrypt(o, c, e).error.Some?
    ensures !TextIsNotJson(o, c, e)
  {
  }

  /** The event is a Megolm message for its room, and some session decrypts its text into something that is not a JSON
      object. */
  ghost predicate NotJson(o: Oracle, e: MXEvent) {
    && e.IsEncrypted() && e.wireContent.algorithm == Some(MEGOLM) && e.wireContent.ciphertext.Text?
    && exists session: GroupSession ::
         e.roomId == Some(session.roomId) && o.megolmDecrypt(session, e.wireContent.ciphertext.text) == Plain(None)
  }

  ghost predicate Explained(o: Oracle, e: MXEvent) {
    e.Readable() || NotJson(o, e)
  }

  ghost predicate SuccessExplained(o: Oracle, s: Service) {
    s.stage.Completing? && s.stage.outcome.Success? && s.stage.outcome.obj < |s.objects|
    ==> Explained(o, s.objects[s.stage.outcome.obj])
  }

  /** A success is readable, or its event is such a message: whatever the primitives do. */
  lemma HandleEncryptionExplained(o: Oracle, l: Local, r: Request, obj: nat, allowSync: bool)
    requires obj < |l.service.objects|
    ensures SuccessExplained(o, HandleEncryption(o, l, r, obj, allowSync).service)
  {
    var e := l.service.objects[obj];
    SuccessIsReadableExactly(o, l, r, obj, allowSync);
    if !e.Readable() {
      DecryptKeepsWire(o, l.stores, e);
    }
    hide Decrypt, CanDecrypt;
  }

  lemma AskExplained(o: Oracle, l: Local, r: Request, allowSync: bool)
    requires l.service.Valid()
    ensures SuccessExplained(o, Ask(o, l, r, allowSync).service)
  {
    hide HandleEncryption, Lookup, Explained;
    if r.eventId in l.service.cachedEvents {
      HandleEncryptionExplained(o, l, r, l.service.cachedEvents[r.eventId], allowSync);
    } else if Lookup(l.store, r.eventId, r.roomId).Some? {
      HandleEncryptionExplained(o, Remember(l, r.eventId, Lookup(l.store, r.eventId, r.roomId).value), r,
                                |l.service.objects|, allowSync);
    }
  }

  lemma FetchedExplained(o: Oracle, l: Local, reply: Option<MXEvent>)
    requires l.service.Valid() && l.service.stage.Fetching?
    ensures SuccessExplained(o, Fetched(o, l, reply).service)
  {
    hide HandleEncryption, Explained;
    if reply.Some? {
      var r := l.service.stage.request;
      HandleEncryptionExplained(o, Remember(l, r.eventId, reply.value), r, |l.service.objects|, false);
    }
  }

  // ---- The next request for a cached event ----

  /** Once a readable event is cached, every request for it completes at once with the same object, whatever has become
      of the token, the cached responses and the keys. */
  lemma CachedSuccessIsStable(o: Oracle, l: Local, token: Option<Token>)
    requires l.service.Valid() && l.service.queue != [] && l.service.queue[0].eventId in l.service.cachedEvents
    requires l.service.objects[l.service.cachedEvents[l.service.queue[0].eventId]].Readable()
    ensures var s, s' := l.service, Begin(o, l, token).service;
            s'.stage == Completing(s.queue[0], Success(s.cachedEvents[s.queue[0].eventId])) && s'.syncs == 0
              && s'.objects == s.objects
  {
    hide Decrypt, Reset, MarkOutdated;
  }

  /** A request for a cached event that is not readable completes at once exactly when, after the check of the stores,
      its key is there and decrypts it without an error; the event then becomes readable, unless its text is no JSON
      object again. Else the request syncs, or fails where there is no token to sync from. */
  lemma CachedUnreadableExactly(o: Oracle, l: Local, token: Option<Token>)
    requires l.service.Valid() && l.service.queue != [] && l.service.queue[0].eventId in l.service.cachedEvents
    requires !l.service.objects[l.service.cachedEvents[l.service.queue[0].eventId]].Readable()
    ensures var r, l1, s' := l.service.queue[0], CheckStores(l, token), Begin(o, l, token).service;
            var obj := l.service.cachedEvents[r.eventId];
            var e := l.service.objects[obj];
            var again := CanDecrypt(l1.stores, e) && Decrypt(o, l1.stores, e).error.None?;
            && (s'.stage == Completing(r, Success(obj)) <==> again)
            && (again ==> s'.syncs == 0 && (s'.objects[obj].Readable() <==> !TextIsNotJson(o, l1.stores, e)))
            && (!again ==> s'.objects == l.service.objects
                           && s'.stage == match LaunchToken(l1)
                                          case None => Completing(r, Failure(Unstarted))
                                          case Some(from) => Syncing(r, from))
  {
    var l1 := CheckStores(l, token);
    var e := l.service.objects[l.service.cachedEvents[l.service.queue[0].eventId]];
    if CanDecrypt(l1.stores, e) {
      if Decrypt(o, l1.stores, e).error.None? {
        DecryptedIsReadableExactly(o, l1.stores, e);
      } else {
        FailedDecryptionLeavesEvent(o, l1.stores, e);
      }
    }
    hide Decrypt, CanDecrypt, TextIsNotJson, Reset, MarkOutdated, NextSyncToken;
  }
}
