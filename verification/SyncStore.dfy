// The cache of sync responses: its files, its two lists of ids, and the manager that fills it
// (MatrixSDK/Background/Store/MXSyncResponseStoreManager.swift,
// MatrixSDK/Background/Store/SyncResponseFileStore/MXSyncResponseFileStore.swift).
module SyncStore {
  import opened Wrappers
  import opened Events
  import opened SyncResponses

  datatype Cached = Cached(syncToken: Token, response: SyncResponse)

  /** What is on disk: response files by id, the ids of valid responses in chronological order, the outdated ids.
      An id whose file is missing is what an interrupted deletion leaves behind. */
  datatype Store = Store(files: map<nat, Cached>, ids: seq<nat>, outdated: seq<nat>)

  function Read(s: Store, id: nat): Option<Cached> {
    if id in s.files then Some(s.files[id]) else None
  }

  function First(s: Store): Option<Cached> {
    if s.ids == [] then None else Read(s, s.ids[0])
  }

  function Last(s: Store): Option<Cached> {
    if s.ids == [] then None else Read(s, s.ids[|s.ids| - 1])
  }

  function SyncToken(s: Store): Option<Token> {
    if First(s).Some? then Some(First(s).value.syncToken) else None
  }

  function NextSyncToken(s: Store): Option<Token> {
    if Last(s).Some? then Some(Last(s).value.response.nextBatch) else None
  }

  function Add(s: Store, id: nat, c: Cached): Store {
    s.(files := s.files[id := c], ids := s.ids + [id])
  }

  /** `updateStore(with:syncToken:)`; `small` says that the last file is under the size limit. */
  function Update(s: Store, r: SyncResponse, token: Token, small: bool, newId: nat): Store {
    if small && Last(s).Some?
    then
      var c := Last(s).value;
      s.(files := s.files[s.ids[|s.ids| - 1] := Cached(c.syncToken, Merged(r, c.response))])
    else Add(s, newId, Cached(token, r))
  }

  function MarkOutdated(s: Store): Store {
    s.(ids := [], outdated := s.outdated + s.ids)
  }

  // ---- The chain of cached responses ----

  // `allSyncResponseIds`, the order in which everything is deleted.
  function All(s: Store): seq<nat> {
    s.outdated + s.ids
  }

  predicate Listed(s: Store, id: nat) {
    id in s.ids || id in s.outdated
  }

  predicate Distinct(ids: seq<nat>) {
    forall i, j | 0 <= i < j < |ids| :: ids[i] != ids[j]
  }

  predicate RestReadable(files: map<nat, Cached>, ids: seq<nat>) {
    forall i | 0 < i < |ids| :: ids[i] in files
  }

  predicate Linked(files: map<nat, Cached>, ids: seq<nat>) {
    forall i | 0 < i < |ids| && ids[i - 1] in files ::
      ids[i] in files && files[ids[i - 1]].response.nextBatch == files[ids[i]].syncToken
  }

  /** No id is listed twice, every listed response but possibly the very first can be read, and each valid one starts
      where the one before it ends. */
  predicate Chained(s: Store) {
    Distinct(All(s)) && RestReadable(s.files, All(s)) && Linked(s.files, s.ids)
  }

  lemma ValidIdsAreInAll(s: Store)
    ensures forall i | 0 <= i < |s.ids| :: s.ids[i] == All(s)[|s.outdated| + i]
  {
  }

  predicate Fresh(s: Store, id: nat) {
    id !in s.files && !Listed(s, id)
  }

  /** A response asked for from the end of the chain extends the chain, whether it is merged or starts a new chunk. */
  lemma UpdateExtendsChain(s: Store, r: SyncResponse, token: Token, small: bool, newId: nat)
    requires Chained(s) && Fresh(s, newId)
    requires NextSyncToken(s).Some? ==> NextSyncToken(s).value == token
    ensures Chained(Update(s, r, token, small, newId))
    ensures NextSyncToken(Update(s, r, token, small, newId)) == Some(r.nextBatch)
    ensures SyncToken(Update(s, r, token, small, newId)) == if s.ids == [] then Some(token) else SyncToken(s)
  {
    hide Merged, Chained, Linked, RestReadable, Distinct;
    MergedTakesNewToken(r, if Last(s).Some? then Last(s).value.response else r);
    ChainOfUpdate(s, r, token, small, newId);
  }

  lemma ChainOfUpdate(s: Store, r: SyncResponse, token: Token, small: bool, newId: nat)
    requires Chained(s) && Fresh(s, newId)
    requires NextSyncToken(s).Some? ==> NextSyncToken(s).value == token
    ensures Chained(Update(s, r, token, small, newId))
  {
    hide Merged;
    if small && Last(s).Some? {
      var c := Last(s).value;
      LastReplaced(s, Cached(c.syncToken, Merged(r, c.response)));
    } else {
      Appended(s, newId, Cached(token, r));
    }
  }

  lemma LastReplaced(s: Store, c: Cached)
    requires Chained(s) && Last(s).Some? && c.syncToken == Last(s).value.syncToken
    ensures Chained(s.(files := s.files[s.ids[|s.ids| - 1] := c]))
  {
    var last := s.ids[|s.ids| - 1];
    var s' := s.(files := s.files[last := c]);
    assert All(s') == All(s);
    MoreReadable(s.files, last, c, All(s));
    DistinctIds(s);
    hide Distinct, RestReadable, Linked, All;
    LastRelinked(s.files, s.ids, c);
  }

  lemma MoreReadable(files: map<nat, Cached>, id: nat, c: Cached, ids: seq<nat>)
    requires RestReadable(files, ids)
    ensures RestReadable(files[id := c], ids)
  {
  }

  lemma LastRelinked(files: map<nat, Cached>, ids: seq<nat>, c: Cached)
    requires Linked(files, ids) && ids != [] && forall i | 0 <= i < |ids| - 1 :: ids[i] != ids[|ids| - 1]
    requires ids[|ids| - 1] in files && c.syncToken == files[ids[|ids| - 1]].syncToken
    ensures Linked(files[ids[|ids| - 1] := c], ids)
  {
  }

  lemma DistinctIds(s: Store)
    requires Distinct(All(s))
    ensures forall i, j | 0 <= i < j < |s.ids| :: s.ids[i] != s.ids[j]
  {
    ValidIdsAreInAll(s);
  }

  lemma Appended(s: Store, newId: nat, c: Cached)
    requires Chained(s) && Fresh(s, newId) && (Last(s).Some? ==> Last(s).value.response.nextBatch == c.syncToken)
    ensures Chained(Add(s, newId, c))
  {
    var s' := Add(s, newId, c);
    assert All(s') == All(s) + [newId];
    assert forall i | 0 <= i < |All(s)| :: All(s)[i] != newId by {
      assert forall i | 0 <= i < |All(s)| :: Listed(s, All(s)[i]);
    }
    assert Linked(s'.files, s'.ids) by {
      hide Distinct, RestReadable;
      assert forall i | 0 <= i < |s.ids| :: Listed(s, s.ids[i]);
    }
  }

  /** A to-device event can still be handed to the session: some listed response that can be read carries it. */
  ghost predicate Stored(s: Store, e: MXEvent) {
    exists id :: Listed(s, id) && Carries(s, id, e)
  }

  predicate Carries(s: Store, id: nat, e: MXEvent) {
    id in s.files && e in s.files[id].response.toDevice
  }

  /** Storing a response adds its to-device events and loses none. */
  lemma UpdateStoresExactly(s: Store, r: SyncResponse, token: Token, small: bool, newId: nat, e: MXEvent)
    requires Fresh(s, newId)
    ensures Stored(Update(s, r, token, small, newId), e) <==> Stored(s, e) || e in r.toDevice
  {
    hide Merged;
    var s' := Update(s, r, token, small, newId);
    MergedTakesNewToken(r, if Last(s).Some? then Last(s).value.response else r);
    if small && Last(s).Some? {
      var last := s.ids[|s.ids| - 1];
      assert forall id :: Listed(s', id) <==> Listed(s, id);
      assert forall id :: Carries(s', id, e) <==> Carries(s, id, e) || (id == last && e in r.toDevice);
      assert Listed(s', last);
    } else {
      assert forall id :: Listed(s', id) <==> Listed(s, id) || id == newId;
      assert forall id :: Carries(s', id, e) <==> Carries(s, id, e) || (id == newId && e in r.toDevice);
      assert Listed(s', newId);
    }
  }

  /** Marking everything outdated loses no to-device event; it only makes the chain empty. */
  lemma MarkOutdatedStores(s: Store, e: MXEvent)
    ensures Stored(MarkOutdated(s), e) <==> Stored(s, e)
    ensures Chained(s) ==> Chained(MarkOutdated(s))
  {
    var s' := MarkOutdated(s);
    assert All(s') == All(s);
    assert forall id :: Listed(s', id) <==> Listed(s, id);
    assert forall id :: Carries(s', id, e) <==> Carries(s, id, e);
  }

  // ---- Looking an event up ----

  function EventsOfRoom(r: SyncResponse, roomId: string): seq<MXEvent> {
    (if roomId in r.join then r.join[roomId].state + r.join[roomId].timeline.events + r.join[roomId].accountData
     else [])
    + (if roomId in r.invite then r.invite[roomId] else [])
    + (if roomId in r.leave then r.leave[roomId].state + r.leave[roomId].timeline.events + r.leave[roomId].accountData
       else [])
  }

  function FirstWithId(events: seq<MXEvent>, eventId: string): Option<MXEvent> {
    if events == [] then None else if events[0].eventId == eventId then Some(events[0])
      else FirstWithId(events[1..], eventId)
  }

  // An event read from a file has never been decrypted.
  function FindIn(r: SyncResponse, eventId: string, roomId: string): (found: Option<MXEvent>)
    ensures found.Some? ==> found.value.clear.None?
  {
    match FirstWithId(EventsOfRoom(r, roomId), eventId)
    case None => None
    case Some(e) => Some(e.(roomId := Some(roomId), clear := None))
  }

  // The newest response is searched first.
  function FindEvent(s: Store, ids: seq<nat>, eventId: string, roomId: string): (found: Option<MXEvent>)
    ensures found.Some? ==> found.value.clear.None?
  {
    if ids == [] then None
    else
      var id := ids[|ids| - 1];
      if id in s.files && FindIn(s.files[id].response, eventId, roomId).Some?
      then FindIn(s.files[id].response, eventId, roomId)
      else FindEvent(s, ids[..|ids| - 1], eventId, roomId)
  }

  function Lookup(s: Store, eventId: string, roomId: string): (found: Option<MXEvent>)
    ensures found.Some? ==> found.value.clear.None?
  {
    FindEvent(s, s.ids, eventId, roomId)
  }

  // ---- What is found ----

  /** The places of a response where events of a room are, in the order in which they are searched. */
  function Section(r: SyncResponse, roomId: string, n: nat): seq<MXEvent> {
    if n == 0 && roomId in r.join then r.join[roomId].state
    else if n == 1 && roomId in r.join then r.join[roomId].timeline.events
    else if n == 2 && roomId in r.join then r.join[roomId].accountData
    else if n == 3 && roomId in r.invite then r.invite[roomId]
    else if n == 4 && roomId in r.leave then r.leave[roomId].state
    else if n == 5 && roomId in r.leave then r.leave[roomId].timeline.events
    else if n == 6 && roomId in r.leave then r.leave[roomId].accountData
    else []
  }

  // At position p of section n of the response there is an event of this id.
  predicate IsAt(r: SyncResponse, roomId: string, eventId: string, n: nat, p: nat) {
    p < |Section(r, roomId, n)| && Section(r, roomId, n)[p].eventId == eventId
  }

  // And no other one from section m on comes before it.
  ghost predicate FirstAt(r: SyncResponse, roomId: string, eventId: string, m: nat, n: nat, p: nat) {
    && m <= n && IsAt(r, roomId, eventId, n, p)
    && (forall n': nat, p': nat | m <= n' && IsAt(r, roomId, eventId, n', p') :: n < n' || (n == n' && p <= p'))
  }

  function SectionsFrom(r: SyncResponse, roomId: string, n: nat): seq<MXEvent>
    decreases 7 - n
  {
    if n >= 7 then [] else Section(r, roomId, n) + SectionsFrom(r, roomId, n + 1)
  }

  lemma RoomIsItsSections(r: SyncResponse, roomId: string)
    ensures EventsOfRoom(r, roomId) == SectionsFrom(r, roomId, 0)
  {
    var r0, r3, r4 := SectionsFrom(r, roomId, 0), SectionsFrom(r, roomId, 3), SectionsFrom(r, roomId, 4);
    assert r4 == Section(r, roomId, 4) + Section(r, roomId, 5) + Section(r, roomId, 6);
    assert r3 == Section(r, roomId, 3) + r4;
    assert r0 == Section(r, roomId, 0) + Section(r, roomId, 1) + Section(r, roomId, 2) + r3;
  }

  lemma {:induction false} FirstWithIdSplits(a: seq<MXEvent>, b: seq<MXEvent>, eventId: string)
    ensures FirstWithId(a + b, eventId)
            == if FirstWithId(a, eventId).Some? then FirstWithId(a, eventId) else FirstWithId(b, eventId)
  {
    if a == [] {
      assert a + b == b;
    } else {
      FirstWithIdSplits(a[1..], b, eventId);
      assert (a + b)[1..] == a[1..] + b;
    }
  }

  lemma {:induction false} FirstWithIdIs(events: seq<MXEvent>, eventId: string) returns (p: nat)
    ensures match FirstWithId(events, eventId)
            case None => forall p' | 0 <= p' < |events| :: events[p'].eventId != eventId
            case Some(e) => && p < |events| && events[p] == e && e.eventId == eventId
                            && forall p' | 0 <= p' < p :: events[p'].eventId != eventId
  {
    p := 0;
    if events != [] && events[0].eventId != eventId {
      p := FirstWithIdIs(events[1..], eventId);
      p := p + 1;
      assert forall p' | 0 < p' < |events| :: events[p'] == events[1..][p' - 1];
    }
  }

  lemma FirstInSection(r: SyncResponse, roomId: string, eventId: string, m: nat, p: nat)
    requires IsAt(r, roomId, eventId, m, p)
    requires forall p' | 0 <= p' < p :: Section(r, roomId, m)[p'].eventId != eventId
    ensures FirstAt(r, roomId, eventId, m, m, p)
  {
    hide Section;
  }

  lemma FirstInLaterSection(r: SyncResponse, roomId: string, eventId: string, m: nat, n: nat, p: nat)
    requires FirstAt(r, roomId, eventId, m + 1, n, p)
    requires forall p' | 0 <= p' < |Section(r, roomId, m)| :: Section(r, roomId, m)[p'].eventId != eventId
    ensures FirstAt(r, roomId, eventId, m, n, p)
  {
    hide Section;
  }

  lemma NoneFrom(r: SyncResponse, roomId: string, eventId: string, m: nat)
    requires forall n: nat, p: nat | m + 1 <= n :: !IsAt(r, roomId, eventId, n, p)
    requires forall p | 0 <= p < |Section(r, roomId, m)| :: Section(r, roomId, m)[p].eventId != eventId
    ensures forall n: nat, p: nat | m <= n :: !IsAt(r, roomId, eventId, n, p)
  {
    hide Section;
  }

  lemma {:induction false} FirstFrom(r: SyncResponse, roomId: string, eventId: string, m: nat) returns (n: nat, p: nat)
    ensures match FirstWithId(SectionsFrom(r, roomId, m), eventId)
            case None => forall n: nat, p: nat | m <= n :: !IsAt(r, roomId, eventId, n, p)
            case Some(e) => FirstAt(r, roomId, eventId, m, n, p) && Section(r, roomId, n)[p] == e
    decreases 7 - m
  {
    n := m;
    if m >= 7 {
      p := 0;
    } else {
      FirstWithIdSplits(Section(r, roomId, m), SectionsFrom(r, roomId, m + 1), eventId);
      p := FirstWithIdIs(Section(r, roomId, m), eventId);
      assert FirstWithId(Section(r, roomId, m), eventId).Some? ==> IsAt(r, roomId, eventId, m, p);
      hide Section, FirstWithId, FirstAt, IsAt;
      if FirstWithId(Section(r, roomId, m), eventId).Some? {
        FirstInSection(r, roomId, eventId, m, p);
      } else {
        n, p := FirstFrom(r, roomId, eventId, m + 1);
        if FirstWithId(SectionsFrom(r, roomId, m + 1), eventId).Some? {
          FirstInLaterSection(r, roomId, eventId, m, n, p);
        } else {
          NoneFrom(r, roomId, eventId, m);
        }
      }
    }
  }

  // What a lookup returns of an event in a response: the event, told its room, as it came.
  function InRoom(e: MXEvent, roomId: string): MXEvent {
    e.(roomId := Some(roomId), clear := None)
  }

  /** In one response: the first event of the id asked for. */
  lemma FoundInExactly(r: SyncResponse, eventId: string, roomId: string) returns (n: nat, p: nat)
    ensures match FindIn(r, eventId, roomId)
            case None => forall n: nat, p: nat :: !IsAt(r, roomId, eventId, n, p)
            case Some(e) => FirstAt(r, roomId, eventId, 0, n, p) && e == InRoom(Section(r, roomId, n)[p], roomId)
  {
    RoomIsItsSections(r, roomId);
    n, p := FirstFrom(r, roomId, eventId, 0);
    hide EventsOfRoom, SectionsFrom, IsAt, FirstWithId, Section;
  }

  // The file of the id is there and has an event of this id in the room.
  ghost predicate Has(s: Store, id: nat, eventId: string, roomId: string) {
    id in s.files && exists n: nat, p: nat :: IsAt(s.files[id].response, roomId, eventId, n, p)
  }

  // The event is the first one in the newest of these responses that can be read and have one.
  ghost predicate IsNewest(s: Store, ids: seq<nat>, eventId: string, roomId: string, i: nat, n: nat, p: nat) {
    && i < |ids| && ids[i] in s.files && FirstAt(s.files[ids[i]].response, roomId, eventId, 0, n, p)
    && forall j | i < j < |ids| :: !Has(s, ids[j], eventId, roomId)
  }

  function EventAt(s: Store, id: nat, roomId: string, n: nat, p: nat): MXEvent
    requires id in s.files && p < |Section(s.files[id].response, roomId, n)|
  {
    InRoom(Section(s.files[id].response, roomId, n)[p], roomId)
  }

  lemma {:induction false} FindEventExactly(s: Store, ids: seq<nat>, eventId: string, roomId: string)
    returns (i: nat, n: nat, p: nat)
    ensures match FindEvent(s, ids, eventId, roomId)
            case None => forall j | 0 <= j < |ids| :: !Has(s, ids[j], eventId, roomId)
            case Some(e) => IsNewest(s, ids, eventId, roomId, i, n, p) && e == EventAt(s, ids[i], roomId, n, p)
    decreases ids
  {
    i, n, p := 0, 0, 0;
    if ids != [] {
      var init, id := ids[..|ids| - 1], ids[|ids| - 1];
      if id in s.files {
        n, p := FoundInExactly(s.files[id].response, eventId, roomId);
      }
      hide FindIn, FirstAt, Section, IsAt;
      if id in s.files && FindIn(s.files[id].response, eventId, roomId).Some? {
        i := |ids| - 1;
      } else {
        i, n, p := FindEventExactly(s, init, eventId, roomId);
        assert !Has(s, id, eventId, roomId);
        hide Has;
        assert forall j | 0 <= j < |init| :: ids[j] == init[j];
      }
    }
  }

  /** An event of the state, the timeline or the account data of the room joined or left, or of the invite to it. */
  predicate IsOfRoom(r: SyncResponse, roomId: string, e: MXEvent) {
    || (roomId in r.join
        && (e in r.join[roomId].state || e in r.join[roomId].timeline.events || e in r.join[roomId].accountData))
    || (roomId in r.invite && e in r.invite[roomId])
    || (roomId in r.leave
        && (e in r.leave[roomId].state || e in r.leave[roomId].timeline.events || e in r.leave[roomId].accountData))
  }

  lemma InSomeSection(r: SyncResponse, roomId: string, e: MXEvent) returns (n: nat, p: nat)
    requires IsOfRoom(r, roomId, e)
    ensures IsAt(r, roomId, e.eventId, n, p) && Section(r, roomId, n)[p] == e
  {
    n := if roomId in r.join && e in r.join[roomId].state then 0
         else if roomId in r.join && e in r.join[roomId].timeline.events then 1
         else if roomId in r.join && e in r.join[roomId].accountData then 2
         else if roomId in r.invite && e in r.invite[roomId] then 3
         else if roomId in r.leave && e in r.leave[roomId].state then 4
         else if roomId in r.leave && e in r.leave[roomId].timeline.events then 5 else 6;
    assert e in Section(r, roomId, n);
    p :| p < |Section(r, roomId, n)| && Section(r, roomId, n)[p] == e;
  }

  /** What is found in the cache: nothing exactly when no valid response that can be read has an event of this id in the
      room; else the first such event, in the order of the sections, of the newest such response, told its room. */
  lemma LookupExactly(s: Store, eventId: string, roomId: string) returns (i: nat, n: nat, p: nat)
    ensures Lookup(s, eventId, roomId) == None <==>
            forall id, e | id in s.ids && id in s.files && IsOfRoom(s.files[id].response, roomId, e) ::
              e.eventId != eventId
    ensures Lookup(s, eventId, roomId).Some? ==>
              var found := Lookup(s, eventId, roomId).value;
              && found.eventId == eventId && found.roomId == Some(roomId) && found.clear == None
              && IsNewest(s, s.ids, eventId, roomId, i, n, p)
              && var e := Section(s.files[s.ids[i]].response, roomId, n)[p];
                 IsOfRoom(s.files[s.ids[i]].response, roomId, e) && found == e.(roomId := Some(roomId), clear := None)
  {
    i, n, p := FindEventExactly(s, s.ids, eventId, roomId);
    if Lookup(s, eventId, roomId) == None {
      forall id, e | id in s.ids && id in s.files
        && IsOfRoom(s.files[id].response, roomId, e) ensures e.eventId != eventId {
        var n', p' := InSomeSection(s.files[id].response, roomId, e);
        var j :| 0 <= j < |s.ids| && s.ids[j] == id;
        assert !Has(s, s.ids[j], eventId, roomId);
      }
    } else {
      SectionIsOfRoom(s.files[s.ids[i]].response, roomId, n, p);
    }
    hide FindEvent, Section;
  }

  lemma SectionIsOfRoom(r: SyncResponse, roomId: string, n: nat, p: nat)
    requires p < |Section(r, roomId, n)|
    ensures IsOfRoom(r, roomId, Section(r, roomId, n)[p])
  {
  }

  // ---- Merging for the session ----

  /** `mergedSyncResponse(fromSyncResponseIds:)`: responses that cannot be read are skipped. */
  function MergeIds(s: Store, ids: seq<nat>): Option<Cached> {
    if ids == [] then None
    else
      var before, last := MergeIds(s, ids[..|ids| - 1]), Read(s, ids[|ids| - 1]);
      if last.None? then before
      else if before.None? then last
      else Some(Cached(before.value.syncToken, Merged(last.value.response, before.value.response)))
  }

  lemma {:induction false} MergeIdsCarries(s: Store, ids: seq<nat>, e: MXEvent)
    ensures MergeIds(s, ids).Some? && e in MergeIds(s, ids).value.response.toDevice
            <==> exists id :: id in ids && Carries(s, id, e)
  {
    if ids != [] {
      hide Merged;
      var init, id := ids[..|ids| - 1], ids[|ids| - 1];
      MergeIdsCarries(s, init, e);
      assert forall i :: i in ids <==> i in init || i == id;
      if MergeIds(s, init).Some? && Read(s, id).Some? {
        MergedTakesNewToken(Read(s, id).value.response, MergeIds(s, init).value.response);
      }
      assert id in ids;
    }
  }

  // ---- Deletion, one write at a time ----

  function Without(ids: seq<nat>, id: nat): seq<nat> {
    if ids == [] then [] else if ids[0] == id then Without(ids[1..], id) else [ids[0]] + Without(ids[1..], id)
  }

  function DeleteFile(s: Store, id: nat): Store {
    s.(files := s.files - {id})
  }

  function DeleteId(s: Store, id: nat): Store {
    s.(ids := Without(s.ids, id), outdated := Without(s.outdated, id))
  }

  // The deletion of one response: its file first, its id second.
  function DeleteStep(s: Store, id: nat): Store {
    if id in s.files then DeleteFile(s, id) else DeleteId(s, id)
  }

  function ClearMetaData(s: Store): Store {
    s.(ids := [], outdated := [])
  }

  lemma {:induction false} WithoutAbsent(ids: seq<nat>, id: nat)
    requires id !in ids
    ensures Without(ids, id) == ids
  {
    if ids != [] {
      WithoutAbsent(ids[1..], id);
    }
  }

  /** Deleting an id takes it out wherever it is listed, and nothing else. */
  lemma {:induction false} WithoutExactly(ids: seq<nat>, id: nat, i: nat)
    ensures i in Without(ids, id) <==> i in ids && i != id
  {
    if ids != [] {
      WithoutExactly(ids[1..], id, i);
    }
  }

  lemma DeletionListsNothing(s: Store, id: nat, i: nat)
    requires Listed(DeleteStep(s, id), i)
    ensures Listed(s, i)
  {
    WithoutExactly(s.ids, id, i);
    WithoutExactly(s.outdated, id, i);
  }

  // A file whose id is not listed changes nothing.
  lemma UnlistedFile(s: Store, id: nat, c: Cached)
    requires !Listed(s, id)
    ensures var s' := s.(files := s.files[id := c]);
            && (Chained(s) ==> Chained(s')) && First(s') == First(s) && Last(s') == Last(s)
            && forall e :: Stored(s', e) <==> Stored(s, e)
  {
    var s' := s.(files := s.files[id := c]);
    assert All(s') == All(s);
    assert forall i | 0 <= i < |All(s)| :: Listed(s, All(s)[i]);
    assert forall i | 0 <= i < |s.ids| :: Listed(s, s.ids[i]);
    forall e ensures Stored(s', e) <==> Stored(s, e) {
      assert forall i :: Listed(s', i) && Carries(s', i, e) <==> Listed(s, i) && Carries(s, i, e);
    }
  }

  lemma DeleteIdOfHead(s: Store)
    requires Distinct(All(s)) && All(s) != []
    ensures var s' := DeleteId(s, All(s)[0]);
            s'.files == s.files && All(s') == All(s)[1..] && s'.ids == if s.outdated == [] then s.ids[1..] else s.ids
  {
    var id := All(s)[0];
    assert id !in All(s)[1..];
    if s.outdated == [] {
      assert All(s) == s.ids;
      WithoutAbsent(s.ids[1..], id);
    } else {
      assert All(s)[1..] == s.outdated[1..] + s.ids;
      assert id !in s.outdated[1..] && id !in s.ids by {
        assert forall x | x in s.outdated[1..] + s.ids :: x != id;
        assert forall x | x in s.outdated[1..] :: x in s.outdated[1..] + s.ids;
        assert forall x | x in s.ids :: x in s.outdated[1..] + s.ids;
      }
      WithoutAbsent(s.outdated[1..], id);
      WithoutAbsent(s.ids, id);
    }
  }

  lemma DeleteFileOfHead(s: Store)
    requires Chained(s) && All(s) != []
    ensures Chained(DeleteFile(s, All(s)[0]))
  {
    var id := All(s)[0];
    assert All(DeleteFile(s, id)) == All(s);
    assert forall i | 0 < i < |All(s)| :: All(s)[i] != id;
    assert Linked(s.files - {id}, s.ids) by {
      ValidIdsAreInAll(s);
      hide Distinct, RestReadable, All;
      assert forall i | 0 < i < |s.ids| :: s.ids[i] != id;
    }
  }

  lemma TailStaysChained(files: map<nat, Cached>, ids: seq<nat>)
    requires ids != []
    ensures Distinct(ids) ==> Distinct(ids[1..])
    ensures RestReadable(files, ids) ==> RestReadable(files, ids[1..])
    ensures Linked(files, ids) ==> Linked(files, ids[1..])
  {
    var tail := ids[1..];
    assert forall i | 0 <= i < |tail| :: tail[i] == ids[i + 1];
    if Linked(files, ids) {
      forall i | 0 < i < |tail| && tail[i - 1] in files
        ensures tail[i] in files && files[tail[i - 1]].response.nextBatch == files[tail[i]].syncToken
      {
        assert tail[i - 1] == ids[i + 1 - 1];
      }
    }
  }

  lemma DeleteIdOfUnreadableHead(s: Store)
    requires Chained(s) && All(s) != []
    ensures Chained(DeleteId(s, All(s)[0]))
  {
    hide Distinct, RestReadable, Linked, DeleteId;
    DeleteIdOfHead(s);
    TailStaysChained(s.files, All(s));
    if s.outdated == [] {
      assert All(s) == s.ids;
      TailStaysChained(s.files, s.ids);
    }
  }

  lemma DeletionKeepsEnd(s: Store)
    requires Distinct(All(s)) && All(s) != []
    ensures var s' := DeleteStep(s, All(s)[0]); NextSyncToken(s').Some? ==> NextSyncToken(s') == NextSyncToken(s)
  {
    hide Distinct, DeleteId;
    if All(s)[0] !in s.files {
      DeleteIdOfHead(s);
    }
  }

  /** Deleting in order keeps the chain at every write: the end of the chain stays, or there is nothing left to read. */
  lemma DeletionKeepsChain(s: Store)
    requires Chained(s) && All(s) != []
    ensures var s' := DeleteStep(s, All(s)[0]);
            Chained(s') && (NextSyncToken(s').Some? ==> NextSyncToken(s') == NextSyncToken(s))
  {
    DeletionKeepsEnd(s);
    hide Chained, NextSyncToken;
    if All(s)[0] in s.files {
      DeleteFileOfHead(s);
    } else {
      DeleteIdOfUnreadableHead(s);
    }
  }
}
