// The whole protocol: the homeserver, a live session, the background sync service, and the stores they share
// (MatrixSDK/Background/MXBackgroundSyncService.swift, MatrixSDK/MXSession.m,
// MatrixSDK/Background/Store/MXSyncResponseStoreManager.swift).
module BackgroundSync {
  import opened Wrappers
  import opened Events
  import opened SyncResponses
  import opened SyncStore
  import opened SessionReplay
  import opened ServerLog
  import opened Crypto
  import opened SyncService

  /** The session syncs, or has handled the cache and is about to delete it, or deletes it write by write. */
  datatype Phase = Live | Replayed | Deleting(todo: seq<nat>)

  datatype Session = Session(token: Option<Token>, rooms: map<string, RoomView>, handled: set<MXEvent>, phase: Phase)

  /** `acked` is the furthest token the homeserver has been asked from: earlier to-device events are gone from it.
      `reach` and `lent` record history: the end of the furthest reply used, and the app keys ever readable here. */
  datatype System = System(
    log: seq<Entry>,
    acked: Token,
    session: Session,
    store: Store,
    stores: Stores,
    service: Option<Service>,
    reach: Token,
    lent: set<(KeyId, GroupSession)>)

  datatype Action =
    | Append(entry: Entry)
    | SessionAsks | SessionSyncs(response: SyncResponse)
    | HandleCache | StartDeletion | DeleteNext | FinishDeletion | SessionStops
    | Init(appKeys: map<KeyId, GroupSession>, appOlm: map<string, seq<string>>)
    | Call(eventId: string, roomId: string)
    | BeginRequest | ServiceAsks | SyncReply(response: SyncResponse, small: bool, newId: nat) | SyncFails
    | WriteCutOff(response: SyncResponse, newId: nat)
    | HarvestNext | ContinueRequest | EventReply(event: Option<MXEvent>) | Deliver | ServiceStops

  function Start(): System {
    System([], 0, Session(None, map[], {}, Live), Store(map[], [], []), Stores(map[], map[], map[], map[], 0), None,
           0, {})
  }

  function SessionToken(s: System): Token {
    s.session.token.Or(0)
  }

  function Max(a: nat, b: nat): nat {
    if a < b then b else a
  }

  /** A reply to a request from a token: all the to-device events the homeserver still has, none from before the token
      or that it never had, and whatever it says about rooms. */
  ghost predicate Reply(s: System, from: Token, r: SyncResponse) {
    && from <= r.nextBatch <= |s.log| && from <= s.acked
    && (forall p | s.acked <= p < r.nextBatch && s.log[p].ToDevice? :: s.log[p].event in r.toDevice)
    && (forall e | e in r.toDevice :: SentBetween(s.log, from, r.nextBatch, e))
  }

  // A sync reply has arrived, and an id is drawn for the file it may need.
  ghost predicate Replied(s: System, r: SyncResponse, newId: nat) {
    s.service.Some? && s.service.value.stage.Syncing? && Reply(s, s.service.value.stage.from, r)
      && Fresh(s.store, newId)
  }

  ghost predicate Enabled(s: System, a: Action) {
    match a
    case Append(entry) => entry.event.clear.None?
    case SessionAsks => s.session.phase.Live?
    case SessionSyncs(r) => s.session.phase.Live? && Reply(s, SessionToken(s), r)
    case HandleCache => s.session.phase.Live?
    case StartDeletion => s.session.phase.Replayed?
    case DeleteNext => s.session.phase.Deleting? && s.session.phase.todo != []
    case FinishDeletion => s.session.phase == Deleting([])
    case SessionStops => true
    case Init(_, _) => s.service.None?
    case ServiceStops => true
    case Call(_, _) => s.service.Some?
    case BeginRequest => s.service.Some? && s.service.value.Valid() && s.service.value.stage.Idle?
      && s.service.value.queue != []
    case ServiceAsks => s.service.Some? && s.service.value.stage.Syncing?
    case SyncReply(r, _, newId) => Replied(s, r, newId)
    case WriteCutOff(r, newId) => Replied(s, r, newId)
    case SyncFails => s.service.Some? && s.service.value.stage.Syncing?
    case HarvestNext =>
      s.service.Some? && s.service.value.stage.Harvesting? && s.service.value.stage.toDevice != []
      && s.service.value.stage.toDevice[0].clear.None?
    case ContinueRequest =>
      s.service.Some? && s.service.value.Valid() && s.service.value.stage.Harvesting?
        && s.service.value.stage.toDevice == []
    case EventReply(e) =>
      s.service.Some? && s.service.value.Valid() && s.service.value.stage.Fetching? && (e.Some? ==> e.value.clear.None?)
    case Deliver => s.service.Some? && s.service.value.stage.Completing?
  }

  // ---- The session ----

  function View(rooms: map<string, RoomView>, room: string): RoomView {
    if room in rooms then rooms[room] else Absent
  }

  function ReplayRooms(rooms: map<string, RoomView>, r: SyncResponse): map<string, RoomView> {
    map room | room in rooms.Keys + Rooms(r) :: Replay(View(rooms, room), SlotOf(r, room))
  }

  function AsSet(events: seq<MXEvent>): set<MXEvent> {
    set e | e in events
  }

  /** `handleSyncResponse`: to-device events, rooms, token. */
  function HandleResponse(x: Session, r: SyncResponse): Session {
    x.(handled := x.handled + AsSet(r.toDevice), rooms := ReplayRooms(x.rooms, r), token := Some(r.nextBatch))
  }

  /** `handleBackgroundSyncCacheIfRequired` up to the deletion: of outdated responses only the to-device events. A cache
      that does not start at the session's token, or whose start cannot be read, is all outdated. */
  function HandleCached(x: Session, s: Store): Session {
    var valid := SyncToken(s).Some? && SyncToken(s) == x.token;
    var outdated := if valid then MergeIds(s, s.outdated) else MergeIds(s, All(s));
    var x1 := if outdated.Some? then x.(handled := x.handled + AsSet(outdated.value.response.toDevice)) else x;
    var x2 := if valid && MergeIds(s, s.ids).Some? then HandleResponse(x1, MergeIds(s, s.ids).value.response) else x1;
    if All(s) == [] then x else x2.(phase := Replayed)
  }

  // ---- Steps ----

  function LocalOf(s: System): Local
    requires s.service.Some?
  {
    Local(s.service.value, s.store, s.stores)
  }

  function WithLocal(s: System, l: Local): System {
    s.(service := Some(l.service), store := l.store, stores := l.stores)
  }

  function WithStage(s: System, stage: Stage): System
    requires s.service.Some?
  {
    s.(service := Some(s.service.value.(stage := stage)))
  }

  function NextOfSession(s: System, a: Action): System
    requires a.SessionAsks? || a.SessionSyncs? || a.HandleCache? || a.StartDeletion? || a.DeleteNext?
             || a.FinishDeletion? || a.SessionStops?
    requires a.DeleteNext? ==> s.session.phase.Deleting? && s.session.phase.todo != []
  {
    match a
    case SessionAsks => s.(acked := Max(s.acked, SessionToken(s)))
    case SessionSyncs(r) => s.(session := HandleResponse(s.session, r), reach := Max(s.reach, r.nextBatch))
    case HandleCache => s.(session := HandleCached(s.session, s.store))
    case StartDeletion => s.(session := s.session.(phase := Deleting(All(s.store))))
    case DeleteNext =>
      var todo := s.session.phase.todo;
      s.(store := DeleteStep(s.store, todo[0]),
         session := if todo[0] in s.store.files then s.session else s.session.(phase := Deleting(todo[1..])))
    case FinishDeletion => s.(store := ClearMetaData(s.store), session := s.session.(phase := Live))
    case SessionStops => s.(session := s.session.(phase := Live))
  }

  // The service stops between the two writes of a new chunk: its file is there, its id is not.
  function FileWithoutId(s: System, r: SyncResponse, newId: nat): System
    requires s.service.Some? && s.service.value.stage.Syncing?
  {
    s.(service := None, store := s.store.(files := s.store.files[newId := Cached(s.service.value.stage.from, r)]))
  }

  predicate OfSession(a: Action) {
    a.SessionAsks? || a.SessionSyncs? || a.HandleCache? || a.StartDeletion? || a.DeleteNext? || a.FinishDeletion?
      || a.SessionStops?
  }

  ghost function Next(o: Oracle, s: System, a: Action): System
    requires Enabled(s, a)
  {
    if OfSession(a) then NextOfSession(s, a)
    else
      match a
      case Append(entry) => s.(log := s.log + [entry])
      case Init(appKeys, appOlm) =>
        var loaded := s.stores.(appKeys := appKeys, appOlm := appOlm);
        s.(service := Some(NewService(s.session.token)), lent := s.lent + appKeys.Items,
           stores := if SyncToken(s.store).None? then Reset(loaded) else loaded)
      case ServiceStops => s.(service := None)
      case Call(eventId, roomId) =>
        var v := s.service.value;
        var r := Request(|v.calls|, eventId, roomId);
        s.(service := Some(v.(queue := v.queue + [r], calls := v.calls + [r])))
      case BeginRequest => WithLocal(s, Begin(o, LocalOf(s), s.session.token))
      case ServiceAsks => s.(acked := Max(s.acked, s.service.value.stage.from))
      case SyncReply(r, small, newId) => WithLocal(s.(reach := Max(s.reach, r.nextBatch)),
                                                   Receive(LocalOf(s), r, small, newId))
      case WriteCutOff(r, newId) => FileWithoutId(s, r, newId)
      case SyncFails => WithStage(s, Completing(s.service.value.stage.request, Failure(Network)))
      case HarvestNext => var (service, stores) := Harvest(o, LocalOf(s)); s.(service := service, stores := stores)
      case ContinueRequest => WithLocal(s, Continue(o, LocalOf(s)))
      case EventReply(e) => WithLocal(s, Fetched(o, LocalOf(s), e))
      case Deliver =>
        var v := s.service.value;
        s.(service := Some(v.(done := v.done + [Completion(v.stage.request, v.stage.outcome)], stage := Idle)))
      case _ => s
  }

  ghost predicate Reaches(o: Oracle, s: System, run: seq<Action>, end: System)
    decreases |run|
  {
    if run == [] then s == end
    else Enabled(s, run[0]) && Reaches(o, Next(o, s, run[0]), run[1..], end)
  }
}
