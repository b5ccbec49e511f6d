// The service as it runs: its fields, and the blocks that its network calls come back to
// (MatrixSDK/Background/MXBackgroundSyncService.swift).
module BackgroundSyncService {
  import opened Wrappers
  import opened Events
  import opened SyncResponses
  import opened SyncStore
  import opened FileStore
  import opened Crypto
  import opened EventDecryption
  import opened OlmDevice
  import opened BackgroundStore
  import opened SyncService
  import PushRules

  // Account data as the push rules read it: its list of events, if it has one.
  type AccountData = Option<seq<PushRules.AccountEvent>>

  function EventsOf(accountData: Option<AccountData>): seq<PushRules.AccountEvent> {
    accountData.Or(None).Or([])
  }

  /** The handling of all the to-device events of a reply; `None` when one of them crashes the service. */
  ghost function HarvestAll(o: Oracle, l: Local): Option<Local>
    requires l.service.stage.Harvesting? && forall e | e in l.service.stage.toDevice :: e.clear.None?
    decreases if l.service.stage.Harvesting? then |l.service.stage.toDevice| else 0
  {
    if l.service.stage.toDevice == [] then Some(l)
    else
      var (service, stores) := Harvest(o, l);
      if service.None? then None else HarvestAll(o, Local(service.value, l.store, stores))
  }

  lemma {:induction false} HarvestAllKeeps(o: Oracle, l: Local)
    requires l.service.stage.Harvesting? && forall e | e in l.service.stage.toDevice :: e.clear.None?
    requires HarvestAll(o, l).Some?
    ensures HarvestAll(o, l).value.store == l.store
    ensures HarvestAll(o, l).value.service == l.service.(stage := l.service.stage.(toDevice := []))
    decreases |l.service.stage.toDevice|
  {
    if l.service.stage.toDevice != [] {
      var (service, stores) := Harvest(o, l);
      hide HandleToDevice;
      HarvestAllKeeps(o, Local(service.value, l.store, stores));
    }
  }

  /** What becomes of a reply: once it is stored and its to-device events are handled, the service syncs again, from the
      end of this reply, exactly when it carried to-device events and the event has come without its key. */
  lemma SyncsAgainAfterReplyExactly(o: Oracle, l: Local, reply: SyncResponse, small: bool, newId: nat, l': Local)
    requires l.service.Valid() && l.service.stage.Syncing? && forall e | e in reply.toDevice :: e.clear.None?
    requires HarvestAll(o, Receive(l, reply, small, newId)) == Some(l')
    ensures l'.service.Valid() && l'.service.stage.Harvesting?
    ensures var r, stage := l.service.stage.request, Continue(o, l').service.stage;
            && (stage.Syncing? <==> reply.toDevice != [] && CameWithoutKey(l'.store, l'.stores, r.eventId, r.roomId))
            && (stage.Syncing? ==> stage == Syncing(r, reply.nextBatch))
  {
    HarvestAllKeeps(o, Receive(l, reply, small, newId));
    SyncsAgainExactly(o, l');
    EndsWithReply(l.store, reply, l.service.stage.from, small, newId);
    hide Continue, CameWithoutKey, Update, HarvestAll;
  }

  lemma EndsWithReply(s: Store, reply: SyncResponse, from: Token, small: bool, newId: nat)
    ensures var s' := Update(s, reply, from, small, newId);
            s'.ids != [] && s'.ids[|s'.ids| - 1] in s'.files
            && s'.files[s'.ids[|s'.ids| - 1]].response.nextBatch == reply.nextBatch
  {
  }

  class MXBackgroundSyncService {
    const syncResponseStoreManager: SyncResponseStoreManager
    const olmDevice: BackgroundDevice
    const pushRulesManager: PushRules.BackgroundPushRulesManager
    var store: MXBackgroundStore
    var objects: seq<EventObject>          // every event object handed to the cache so far
    var cachedEvents: map<string, nat>     // by event id, the place of its object
    var queue: seq<Request>
    var stage: Stage
    var calls: seq<Request>
    var done: seq<Completion>
    var syncs: nat
    var keyed: nat

    ghost predicate Valid()
      reads this
    {
      && (forall i, j | 0 <= i < j < |objects| :: objects[i] != objects[j])
      && (forall id | id in cachedEvents :: cachedEvents[id] < |objects|)
    }

    /** The objects on the heap stand for this state. */
    ghost predicate Represents(l: Local)
      reads this, objects, syncResponseStoreManager, syncResponseStoreManager.syncResponseStore, olmDevice, store
    {
      && Valid() && l.service.Valid()
      && |l.service.objects| == |objects| && (forall i | 0 <= i < |objects| :: l.service.objects[i] == objects[i].event)
      && l.service == Service(store.eventStreamToken, l.service.objects, cachedEvents, queue, stage, calls, done,
                              syncs, keyed)
      && l.store == syncResponseStoreManager.State()
      && l.stores == olmDevice.State()
    }

    /** The background keys of an earlier run are kept only beside cached responses. The push rules are those of the
        account data cached beside them, else of the session's. */
    constructor (disk: Disk, manager: SyncResponseStoreManager, oracle: Oracle, kept: Stores,
                 checkers: PushRules.Checkers,
                 cachedAccountData: Option<AccountData>, userAccountData: Option<AccountData>)
      ensures syncResponseStoreManager == manager && olmDevice.oracle == oracle && fresh(olmDevice) && fresh(store)
      ensures Represents(Local(NewService(disk.eventStreamToken), manager.State(),
                               if SyncToken(manager.State()).None? then Reset(kept) else kept))
      ensures fresh(pushRulesManager) && pushRulesManager.Valid()
      ensures pushRulesManager.pushRulesResponse
              == PushRules.LastRules(None, EventsOf(if cachedAccountData.Some? then cachedAccountData
                                                    else userAccountData))
    {
      syncResponseStoreManager := manager;
      store := new MXBackgroundStore(disk);
      var syncToken := manager.GetSyncToken();
      olmDevice := new BackgroundDevice(oracle, kept, syncToken.None?);
      pushRulesManager := new PushRules.BackgroundPushRulesManager(oracle.userId, checkers);
      objects, cachedEvents, queue, stage, calls, done, syncs, keyed := [], map[], [], Idle, [], [], 0, 0;
      new;
      if cachedAccountData.Some? {
        pushRulesManager.HandleAccountData(cachedAccountData.value);
      } else if userAccountData.Some? {
        pushRulesManager.HandleAccountData(userAccountData.value);
      }
    }

    /** `disk` is the session's store as it is now; a new snapshot of it is taken and kept when the token has moved. */
    method UpdateBackgroundServiceStoresIfNeeded(disk: Disk, ghost l: Local)
      requires Represents(l)
      modifies this`store, syncResponseStoreManager.syncResponseStore, olmDevice
      ensures Represents(CheckStores(l, disk.eventStreamToken))
      ensures store == old(store) || fresh(store)
    {
      var outdatedStore := false;
      var eventStreamToken := store.eventStreamToken;
      var upToDateStore := new MXBackgroundStore(disk);
      var upToDateEventStreamToken := upToDateStore.eventStreamToken;
      if eventStreamToken != upToDateEventStreamToken {
        store := upToDateStore;
        outdatedStore := true;
      }
      var cachedSyncResponseSyncToken := syncResponseStoreManager.GetSyncToken();
      if cachedSyncResponseSyncToken.Some? {
        if upToDateEventStreamToken != cachedSyncResponseSyncToken {
          outdatedStore := true;
        }
        if outdatedStore {
          syncResponseStoreManager.MarkDataOutdated();
        }
      }
      if |syncResponseStoreManager.syncResponseStore.syncResponseIds| == 0 {
        olmDevice.Reset();
      }
    }

    method LaunchBackgroundSync(request: Request, ghost l: Local)
      requires Represents(l)
      modifies this`stage, this`syncs
      ensures Represents(Launch(l, request))
    {
      var nextSyncToken := syncResponseStoreManager.GetNextSyncToken();
      var eventStreamToken := if nextSyncToken.Some? then nextSyncToken else store.eventStreamToken;
      if eventStreamToken.None? {
        stage := Completing(request, Failure(Unstarted));
        return;
      }
      syncs := syncs + 1;
      stage := Syncing(request, eventStreamToken.value);
    }

    method HandleDecryptionFailure(request: Request, error: CryptoError, allowSync: bool, ghost l: Local)
      requires Represents(l)
      modifies this`stage, this`syncs
      ensures Represents(FailDecryption(l, request, error, allowSync))
    {
      if allowSync {
        LaunchBackgroundSync(request, l);
      } else {
        stage := Completing(request, Failure(Decrypting(error)));
      }
    }

    method HandleEncryption(request: Request, obj: nat, allowSync: bool, ghost l: Local)
      requires Represents(l) && obj < |objects|
      modifies this`stage, this`syncs, objects[obj], olmDevice
      ensures Represents(SyncService.HandleEncryption(olmDevice.oracle, l, request, obj, allowSync))
    {
      hide Launch, Decrypt, CanDecrypt;
      var event := objects[obj];
      if !event.event.IsEncrypted() {
        stage := Completing(request, Success(obj));
        return;
      }
      if event.event.clear.Some? {
        stage := Completing(request, Success(obj));
        return;
      }
      var can := olmDevice.CanDecryptEvent(event);
      if can {
        var error := olmDevice.DecryptEvent(event);
        ghost var d := Decrypt(olmDevice.oracle, l.stores, l.service.objects[obj]);
        ghost var l' := Local(l.service.(objects := l.service.objects[obj := d.event]), l.store, d.stores);
        assert Represents(l');
        if error.None? {
          stage := Completing(request, Success(obj));
        } else {
          HandleDecryptionFailure(request, error.value, allowSync, l');
        }
      } else {
        HandleDecryptionFailure(request, DecryptionFailure, allowSync, l);
      }
    }

    method CacheEvent(eventId: string, event: MXEvent, ghost l: Local) returns (obj: nat)
      requires Represents(l)
      modifies this`objects, this`cachedEvents
      ensures Represents(Remember(l, eventId, event)) && obj == |old(objects)|
      ensures objects[..obj] == old(objects) && |objects| == obj + 1 && fresh(objects[obj])
    {
      var cached := new EventObject(event);
      obj := |objects|;
      objects := objects + [cached];
      cachedEvents := cachedEvents[eventId := obj];
    }

    // `_event` after its check of the stores.
    method LookForEvent(request: Request, allowSync: bool, ghost l: Local)
      requires Represents(l)
      modifies this`stage, this`syncs, this`objects, this`cachedEvents, objects, olmDevice
      ensures Represents(Ask(olmDevice.oracle, l, request, allowSync))
    {
      hide SyncService.HandleEncryption, Launch, Lookup;
      if request.eventId in cachedEvents {
        HandleEncryption(request, cachedEvents[request.eventId], allowSync, l);
      } else {
        var event := syncResponseStoreManager.Event(request.eventId, request.roomId);
        if event.Some? {
          var obj := CacheEvent(request.eventId, event.value, l);
          HandleEncryption(request, obj, allowSync, Remember(l, request.eventId, event.value));
        } else if allowSync {
          LaunchBackgroundSync(request, l);
        } else {
          stage := Fetching(request);
        }
      }
    }

    // `event(withEventId:inRoom:)`: the call waits for its turn.
    method Event(eventId: string, roomId: string, ghost l: Local)
      requires Represents(l)
      modifies this`queue, this`calls
      ensures var r := Request(|l.service.calls|, eventId, roomId);
              Represents(l.(service := l.service.(queue := l.service.queue + [r], calls := l.service.calls + [r])))
    {
      var request := Request(|calls|, eventId, roomId);
      queue := queue + [request];
      calls := calls + [request];
    }

    /** The first waiting call is processed. */
    method StartNext(disk: Disk, ghost l: Local)
      requires Represents(l) && stage == Idle && queue != []
      modifies this, objects, syncResponseStoreManager.syncResponseStore, olmDevice
      ensures Represents(Begin(olmDevice.oracle, l, disk.eventStreamToken))
    {
      hide Ask;
      var request := queue[0];
      UpdateBackgroundServiceStoresIfNeeded(disk, l);
      ghost var l' := CheckStores(l, disk.eventStreamToken);
      queue, syncs, keyed := queue[1..], 0, 0;
      LookForEvent(request, true, l'.(service := l'.service.(queue := l.service.queue[1..], syncs := 0, keyed := 0)));
    }

    // The to-device events of a reply, in their order.
    method HandleToDeviceEvents(events: seq<MXEvent>, ghost l: Local) returns (crashed: bool, ghost l': Local)
      requires Represents(l) && stage.Harvesting? && stage.toDevice == events && forall e | e in events :: e.clear.None?
      modifies this`stage, olmDevice
      ensures HarvestAll(olmDevice.oracle, l) == if crashed then None else Some(l')
      ensures !crashed ==> Represents(l') && stage == old(stage).(toDevice := [])
    {
      hide HandleToDevice;
      l' := l;
      for i := 0 to |events|
        invariant Represents(l') && stage == old(stage).(toDevice := events[i..])
        invariant HarvestAll(olmDevice.oracle, l) == HarvestAll(olmDevice.oracle, l')
      {
        ghost var (service, stores) := Harvest(olmDevice.oracle, l');
        var event := new EventObject(events[i]);
        assert events[i..][0] == events[i] && events[i..][1..] == events[i + 1..];
        crashed := olmDevice.HandleToDeviceEvent(event);
        if crashed {
          return;
        }
        stage := stage.(toDevice := events[i + 1..]);
        l' := Local(service.value, l'.store, stores);
      }
      assert events[|events|..] == [];
      crashed := false;
    }

    method HandleAccountData(accountData: Option<AccountData>)
      requires pushRulesManager.Valid()
      modifies pushRulesManager
      ensures pushRulesManager.Valid()
      ensures pushRulesManager.pushRulesResponse
              == PushRules.LastRules(old(pushRulesManager.pushRulesResponse), EventsOf(accountData))
    {
      if accountData.Some? {
        pushRulesManager.HandleAccountData(accountData.value);
      }
    }

    method CacheResponse(syncResponse: SyncResponse, newId: nat, ghost l: Local)
      requires Represents(l) && stage.Syncing?
      modifies this`stage, this`keyed, syncResponseStoreManager.syncResponseStore
      ensures Represents(Receive(l, syncResponse, old(syncResponseStoreManager.Small()), newId))
    {
      hide Update;
      var events := syncResponse.toDevice;
      syncResponseStoreManager.UpdateStore(syncResponse, stage.from, newId);
      if events != [] {
        keyed := keyed + 1;
      }
      stage := Harvesting(stage.request, events, events != []);
    }

    /** `handleSyncResponse`: its account data reaches the push rules, the reply is cached, then its to-device events
        are handled in turn. */
    method HandleSyncResponse(syncResponse: SyncResponse, accountData: Option<AccountData>, newId: nat, ghost l: Local)
      returns (crashed: bool, ghost l': Local)
      requires Represents(l) && stage.Syncing? && pushRulesManager.Valid()
      requires forall e | e in syncResponse.toDevice :: e.clear.None?
      modifies this`stage, this`keyed, syncResponseStoreManager.syncResponseStore, olmDevice, pushRulesManager
      ensures var small := old(syncResponseStoreManager.Small());
              HarvestAll(olmDevice.oracle, Receive(l, syncResponse, small, newId)) == if crashed then None else Some(l')
      ensures !crashed ==> Represents(l') && stage == Harvesting(old(stage).request, [], syncResponse.toDevice != [])
      ensures pushRulesManager.Valid()
      ensures pushRulesManager.pushRulesResponse
              == PushRules.LastRules(old(pushRulesManager.pushRulesResponse), EventsOf(accountData))
    {
      hide Update, HarvestAll, PushRules.LastRules, PushRules.Flatten, EventsOf;
      HandleAccountData(accountData);
      ghost var small := syncResponseStoreManager.Small();
      CacheResponse(syncResponse, newId, l);
      crashed, l' := HandleToDeviceEvents(syncResponse.toDevice, Receive(l, syncResponse, small, newId));
    }

    // Once the to-device events of a reply are handled: sync again, or look for the event without syncing.
    method ContinueRequest(carriedToDevice: bool, ghost l: Local)
      requires Represents(l) && stage.Harvesting? && stage.carried == carriedToDevice
      modifies this`stage, this`syncs, this`objects, this`cachedEvents, objects, olmDevice
      ensures Represents(Continue(olmDevice.oracle, l))
    {
      hide Ask, Launch, Lookup;
      var request := stage.request;
      var event := syncResponseStoreManager.Event(request.eventId, request.roomId);
      var can := true;
      if event.Some? {
        var found := new EventObject(event.value);
        can := olmDevice.CanDecryptEvent(found);
      }
      if event.Some? && !can && carriedToDevice {
        LaunchBackgroundSync(request, l);
      } else {
        LookForEvent(request, false, l);
      }
    }

    /** A sync reply has arrived: cache it, take its keys, then sync again or look for the event without syncing. */
    method OnSyncResponse(syncResponse: SyncResponse, accountData: Option<AccountData>, newId: nat, ghost l: Local)
      returns (crashed: bool)
      requires Represents(l) && stage.Syncing? && pushRulesManager.Valid()
      requires forall e | e in syncResponse.toDevice :: e.clear.None?
      modifies this, objects, syncResponseStoreManager.syncResponseStore, olmDevice, pushRulesManager
      ensures var small := old(syncResponseStoreManager.Small());
              var harvested := HarvestAll(olmDevice.oracle, Receive(l, syncResponse, small, newId));
              && (crashed <==> harvested.None?)
              && (!crashed ==> harvested.value.service.Valid() && harvested.value.service.stage.Harvesting?
                               && Represents(Continue(olmDevice.oracle, harvested.value)))
      ensures pushRulesManager.Valid()
      ensures pushRulesManager.pushRulesResponse
              == PushRules.LastRules(old(pushRulesManager.pushRulesResponse), EventsOf(accountData))
    {
      hide Update, HandleToDevice, Continue, HarvestAll, PushRules.LastRules, PushRules.Flatten, EventsOf;
      ghost var l';
      crashed, l' := HandleSyncResponse(syncResponse, accountData, newId, l);
      if crashed {
        return;
      }
      ContinueRequest(|syncResponse.toDevice| > 0, l');
    }

    /** The result reaches the caller on the main thread, and the next call can start. The completion is handed the
        shared event object, or the error. */
    method Complete(ghost l: Local) returns (event: Option<EventObject>, error: Option<ServiceError>)
      requires Represents(l) && stage.Completing?
      modifies this`stage, this`done
      ensures Represents(l.(service := l.service.(done := l.service.done
                                                  + [Completion(l.service.stage.request, l.service.stage.outcome)],
                                                  stage := Idle)))
      ensures old(stage).outcome.Success? <==> event.Some?
      ensures event.Some? <==> error.None?
      ensures event.Some? ==> event.value == objects[old(stage).outcome.obj]
      ensures error.Some? ==> error.value == old(stage).outcome.error
    {
      match stage.outcome {
        case Success(obj) => event, error := Some(objects[obj]), None;
        case Failure(e) => event, error := None, Some(e);
      }
      done := done + [Completion(stage.request, stage.outcome)];
      stage := Idle;
    }

    method OnSyncFailure(ghost l: Local)
      requires Represents(l) && stage.Syncing?
      modifies this`stage
      ensures Represents(SyncService.At(l, Completing(l.service.stage.request, Failure(Network))))
    {
      stage := Completing(stage.request, Failure(Network));
    }

    /** The homeserver has answered `/event`. */
    method OnEventResponse(response: Option<MXEvent>, ghost l: Local)
      requires Represents(l) && stage.Fetching?
      modifies this`stage, this`syncs, this`objects, this`cachedEvents, olmDevice
      ensures Represents(Fetched(olmDevice.oracle, l, response))
    {
      hide SyncService.HandleEncryption;
      var request := stage.request;
      if response.None? {
        stage := Completing(request, Failure(Network));
        return;
      }
      var obj := CacheEvent(request.eventId, response.value, l);
      HandleEncryption(request, obj, false, Remember(l, request.eventId, response.value));
    }
  }
}
