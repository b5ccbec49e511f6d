// The cache of sync responses as it is updated in place
// (MatrixSDK/Background/Store/SyncResponseFileStore/MXSyncResponseFileStore.swift,
// MatrixSDK/Background/Store/MXSyncResponseStoreManager.swift).
module FileStore {
  import opened Wrappers
  import opened Events
  import opened SyncResponses
  import opened SyncStore

  // `firstIndex(of:)` and `remove(at:)`.
  function RemoveFirst(ids: seq<nat>, id: nat): seq<nat> {
    if ids == [] then [] else if ids[0] == id then ids[1..] else [ids[0]] + RemoveFirst(ids[1..], id)
  }

  function MarkOne(s: Store, id: nat): Store {
    if id in s.ids then s.(ids := RemoveFirst(s.ids, id), outdated := s.outdated + [id]) else s
  }

  function MarkEach(s: Store, marked: seq<nat>): Store
    decreases marked
  {
    if marked == [] then s else MarkEach(MarkOne(s, marked[0]), marked[1..])
  }

  /** Marking each of the valid ids, one by one, marks them all, in their order. */
  lemma {:induction false} MarkEachValid(s: Store)
    ensures MarkEach(s, s.ids) == MarkOutdated(s)
    decreases |s.ids|
  {
    if s.ids != [] {
      MarkEachValid(MarkOne(s, s.ids[0]));
      assert s.outdated + [s.ids[0]] + s.ids[1..] == s.outdated + s.ids;
    } else {
      assert s.outdated + [] == s.outdated;
    }
  }

  lemma {:induction false} MarkEachNext(s: Store, marked: seq<nat>, i: nat)
    requires i < |marked|
    ensures MarkEach(s, marked[..i + 1]) == MarkOne(MarkEach(s, marked[..i]), marked[i])
    decreases i
  {
    if i == 0 {
      assert marked[..1][1..] == [];
    } else {
      MarkEachNext(MarkOne(s, marked[0]), marked[1..], i - 1);
      assert marked[..i + 1][1..] == marked[1..][..i] && marked[..i][1..] == marked[1..][..i - 1];
    }
  }

  class SyncResponseFileStore {
    var files: map<nat, Cached>
    var syncResponseIds: seq<nat>
    var outdatedSyncResponseIds: seq<nat>
    const size: Cached -> nat   // bytes of the file a response is written to

    function State(): Store
      reads this
    {
      Store(files, syncResponseIds, outdatedSyncResponseIds)
    }

    constructor (size: Cached -> nat)
      ensures State() == Store(map[], [], []) && this.size == size
    {
      files, syncResponseIds, outdatedSyncResponseIds, this.size := map[], [], [], size;
    }

    // `id` is the UUID drawn for the new file.
    method AddSyncResponse(syncResponse: Cached, id: nat)
      modifies this
      ensures State() == Add(old(State()), id, syncResponse)
    {
      files := files[id := syncResponse];
      syncResponseIds := syncResponseIds + [id];
    }

    method SyncResponse(id: nat) returns (r: Option<Cached>)
      ensures r == Read(State(), id)
    {
      if id !in files {
        return None;
      }
      return Some(files[id]);
    }

    method SyncResponseSize(id: nat) returns (n: nat)
      ensures n == if id in files then size(files[id]) else 0
    {
      if id !in files {
        return 0;
      }
      return size(files[id]);
    }

    method UpdateSyncResponse(id: nat, syncResponse: Cached)
      modifies this
      ensures State() == old(State()).(files := old(files)[id := syncResponse])
    {
      files := files[id := syncResponse];
    }

    method DeleteSyncResponse(id: nat)
      modifies this
      ensures State() == DeleteId(DeleteFile(old(State()), id), id)
    {
      files := files - {id};
      syncResponseIds := Without(syncResponseIds, id);
      outdatedSyncResponseIds := Without(outdatedSyncResponseIds, id);
    }

    method MarkSyncResponsesOutdated(ids: seq<nat>)
      modifies this
      ensures State() == MarkEach(old(State()), ids)
    {
      for i := 0 to |ids|
        invariant State() == MarkEach(old(State()), ids[..i])
      {
        MarkEachNext(old(State()), ids, i);
        if ids[i] in syncResponseIds {
          syncResponseIds := RemoveFirst(syncResponseIds, ids[i]);
          outdatedSyncResponseIds := outdatedSyncResponseIds + [ids[i]];
        }
      }
      assert ids[..|ids|] == ids;
    }

    method DeleteData()
      modifies this
      ensures syncResponseIds == [] && outdatedSyncResponseIds == []
      ensures forall id :: id in files <==> id in old(files) && !Listed(old(State()), id)
      ensures forall id | id in files :: files[id] == old(files)[id]
    {
      var allSyncResponseIds := outdatedSyncResponseIds + syncResponseIds;
      for i := 0 to |allSyncResponseIds|
        invariant forall id :: id in files <==> id in old(files) && id !in allSyncResponseIds[..i]
        invariant forall id | id in files :: files[id] == old(files)[id]
      {
        DeleteSyncResponse(allSyncResponseIds[i]);
        assert allSyncResponseIds[..i + 1] == allSyncResponseIds[..i] + [allSyncResponseIds[i]];
      }
      assert allSyncResponseIds[..|allSyncResponseIds|] == allSyncResponseIds;
      syncResponseIds, outdatedSyncResponseIds := [], [];
    }
  }

  class SyncResponseStoreManager {
    const syncResponseStore: SyncResponseFileStore
    var syncResponseCacheSizeLimit: int

    constructor (syncResponseStore: SyncResponseFileStore)
      ensures this.syncResponseStore == syncResponseStore && syncResponseCacheSizeLimit == 512 * 1024
    {
      this.syncResponseStore, syncResponseCacheSizeLimit := syncResponseStore, 512 * 1024;
    }

    function State(): Store
      reads syncResponseStore
    {
      syncResponseStore.State()
    }

    // The last file can still grow.
    predicate Small()
      reads this, syncResponseStore
    {
      Last(State()).Some? && syncResponseStore.size(Last(State()).value) < syncResponseCacheSizeLimit
    }

    method FirstSyncResponse() returns (r: Option<Cached>)
      ensures r == First(State())
    {
      if syncResponseStore.syncResponseIds == [] {
        return None;
      }
      r := syncResponseStore.SyncResponse(syncResponseStore.syncResponseIds[0]);
    }

    method LastSyncResponse() returns (r: Option<Cached>)
      ensures r == Last(State())
    {
      var ids := syncResponseStore.syncResponseIds;
      if ids == [] {
        return None;
      }
      r := syncResponseStore.SyncResponse(ids[|ids| - 1]);
    }

    method GetSyncToken() returns (token: Option<Token>)
      ensures token == SyncToken(State())
    {
      var first := FirstSyncResponse();
      token := if first.Some? then Some(first.value.syncToken) else None;
    }

    method GetNextSyncToken() returns (token: Option<Token>)
      ensures token == NextSyncToken(State())
    {
      var last := LastSyncResponse();
      token := if last.Some? then Some(last.value.response.nextBatch) else None;
    }

    method MarkDataOutdated()
      modifies syncResponseStore
      ensures State() == MarkOutdated(old(State()))
    {
      var syncResponseIds := syncResponseStore.syncResponseIds;
      if |syncResponseIds| == 0 {
        assert MarkEach(State(), []) == MarkOutdated(State()) by {
          MarkEachValid(State());
        }
        return;
      }
      MarkEachValid(State());
      syncResponseStore.MarkSyncResponsesOutdated(syncResponseIds);
    }

    /** The new response joins the last chunk, or starts the next one. */
    method UpdateStore(newSyncResponse: SyncResponse, syncToken: Token, newId: nat)
      modifies syncResponseStore
      ensures State() == Update(old(State()), newSyncResponse, syncToken, old(Small()), newId)
      ensures var files, ids := old(syncResponseStore.files), old(syncResponseStore.syncResponseIds);
              var joins := ids != [] && ids[|ids| - 1] in files
                           && syncResponseStore.size(files[ids[|ids| - 1]]) < syncResponseCacheSizeLimit;
              && syncResponseStore.syncResponseIds == (if joins then ids else ids + [newId])
              && var last := syncResponseStore.syncResponseIds[|syncResponseStore.syncResponseIds| - 1];
                 last in syncResponseStore.files
                 && (!joins ==> syncResponseStore.files[last] == Cached(syncToken, newSyncResponse))
    {
      hide Merged;
      var ids := syncResponseStore.syncResponseIds;
      if ids != [] {
        var id := ids[|ids| - 1];
        var cachedSyncResponseSize := syncResponseStore.SyncResponseSize(id);
        var cachedSyncResponse := syncResponseStore.SyncResponse(id);
        if cachedSyncResponseSize < syncResponseCacheSizeLimit && cachedSyncResponse.Some? {
          var updatedSyncResponse := MergeOnto(newSyncResponse, cachedSyncResponse.value.response);
          syncResponseStore.UpdateSyncResponse(id, Cached(cachedSyncResponse.value.syncToken, updatedSyncResponse));
        } else {
          syncResponseStore.AddSyncResponse(Cached(syncToken, newSyncResponse), newId);
        }
      } else {
        syncResponseStore.AddSyncResponse(Cached(syncToken, newSyncResponse), newId);
      }
    }

    method Event(eventId: string, roomId: string) returns (event: Option<MXEvent>)
      ensures event == Lookup(State(), eventId, roomId)
    {
      var ids := syncResponseStore.syncResponseIds;
      var i: nat := |ids|;
      assert ids[..i] == ids;
      while i > 0
        invariant i <= |ids| && Lookup(State(), eventId, roomId) == FindEvent(State(), ids[..i], eventId, roomId)
      {
        i := i - 1;
        assert ids[..i + 1][..i] == ids[..i];
        var response := syncResponseStore.SyncResponse(ids[i]);
        if response.Some? {
          event := FindIn(response.value.response, eventId, roomId);
          if event.Some? {
            return;
          }
        }
      }
      return None;
    }

    method MergedSyncResponse(responseIds: seq<nat>) returns (merged: Option<Cached>)
      ensures merged == MergeIds(State(), responseIds)
    {
      hide Merged;
      var result: Option<SyncResponse>, syncToken: Option<Token> := None, None;
      merged := None;
      for i := 0 to |responseIds|
        invariant result.Some? == syncToken.Some? == MergeIds(State(), responseIds[..i]).Some?
        invariant result.Some? ==> MergeIds(State(), responseIds[..i]) == Some(Cached(syncToken.value, result.value))
      {
        assert responseIds[..i + 1][..i] == responseIds[..i];
        var response := syncResponseStore.SyncResponse(responseIds[i]);
        if response.Some? {
          if result.Some? {
            var tmpResult := MergeOnto(response.value.response, result.value);
            result := Some(tmpResult);
          } else {
            result, syncToken := Some(response.value.response), Some(response.value.syncToken);
          }
        }
      }
      assert responseIds[..|responseIds|] == responseIds;
      if result.Some? {
        merged := Some(Cached(syncToken.value, result.value));
      }
    }
  }
}
