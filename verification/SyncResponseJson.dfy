// The JSON dictionaries of sync responses: summing them is summing the responses room by room
// (MatrixSDK/JSONModels/Sync, MatrixSDK/Utils/Categories/NSDictionary.swift).
module SyncResponseJson {
  import opened Dictionaries
  import opened Events
  import opened SyncResponses

  // The keys of a response's JSON dictionary.
  datatype Key =
    | NextBatchKey | ToDeviceKey | RoomsKey | JoinKey | InviteKey | LeaveKey | EventsKey | StateKey | InviteStateKey
    | TimelineKey | AccountDataKey | LimitedKey | PrevBatchKey | RoomId(id: string)

  datatype Leaf = EventLeaf(event: MXEvent) | TokenLeaf(token: Token) | FlagLeaf(flag: bool)

  type Json = Value<Key, Leaf>

  function EventArray(events: seq<MXEvent>): Json {
    Array(seq(|events|, i requires 0 <= i < |events| => Atom(EventLeaf(events[i]))))
  }

  function EventDict(events: seq<MXEvent>): Json {
    Dict(map[EventsKey := EventArray(events)])
  }

  function TimelineJson(t: Timeline): Json {
    var always := map[EventsKey := EventArray(t.events), LimitedKey := Atom(FlagLeaf(t.limited))];
    Dict(if t.prevBatch.Some? then always[PrevBatchKey := Atom(TokenLeaf(t.prevBatch.value))] else always)
  }

  function RoomJson(r: RoomSync): Json {
    Dict(map[StateKey := EventDict(r.state), TimelineKey := TimelineJson(r.timeline),
             AccountDataKey := EventDict(r.accountData)])
  }

  function InviteJson(events: seq<MXEvent>): Json {
    Dict(map[InviteStateKey := EventDict(events)])
  }

  function RoomMapJson<V>(rooms: map<string, V>, json: V -> Json): Json {
    Dict(map key: Key | key in (set room | room in rooms :: RoomId(room)) :: json(rooms[key.id]))
  }

  function ResponseJson(r: SyncResponse): Json {
    Dict(map[NextBatchKey := Atom(TokenLeaf(r.nextBatch)),
             ToDeviceKey := EventDict(r.toDevice),
             RoomsKey := SectionsJson(r)])
  }

  function SectionsJson(r: SyncResponse): Json {
    Dict(map[JoinKey := RoomMapJson(r.join, RoomJson),
             InviteKey := RoomMapJson(r.invite, InviteJson),
             LeaveKey := RoomMapJson(r.leave, RoomJson)])
  }

  lemma EventDictsMerge(a: seq<MXEvent>, b: seq<MXEvent>)
    ensures MergeValue(EventDict(a), EventDict(b)) == EventDict(a + b)
  {
    assert EventArray(a).items + EventArray(b).items == EventArray(a + b).items;
    assert MergeValue(EventArray(a), EventArray(b)) == EventArray(a + b);
    assert MergeValue(EventDict(a), EventDict(b)).entries == EventDict(a + b).entries;
  }

  lemma AtomsMerge(a: Leaf, b: Leaf)
    ensures MergeValue<Key, Leaf>(Atom(a), Atom(b)) == Atom(b)
  {
  }

  lemma TimelinesMerge(a: Timeline, b: Timeline)
    ensures MergeValue(TimelineJson(a), TimelineJson(b)) ==
            TimelineJson(Timeline(a.events + b.events, b.limited,
                                  if b.prevBatch.Some? then b.prevBatch else a.prevBatch))
  {
    var sum := Timeline(a.events + b.events, b.limited, if b.prevBatch.Some? then b.prevBatch else a.prevBatch);
    assert EventArray(a.events).items + EventArray(b.events).items == EventArray(a.events + b.events).items;
    AtomsMerge(FlagLeaf(a.limited), FlagLeaf(b.limited));
    if a.prevBatch.Some? && b.prevBatch.Some? {
      AtomsMerge(TokenLeaf(a.prevBatch.value), TokenLeaf(b.prevBatch.value));
    }
    assert MergeValue(EventArray(a.events), EventArray(b.events)) == EventArray(sum.events);
    hide EventArray, MergeValue;
    SumByKey(TimelineJson(a).entries, TimelineJson(b).entries, TimelineJson(sum).entries);
  }

  lemma RoomsMerge(a: RoomSync, b: RoomSync)
    ensures MergeValue(RoomJson(a), RoomJson(b)) == RoomJson(PlusRoom(a, b))
  {
    hide EventDict, TimelineJson, MergeValue;
    EventDictsMerge(a.state, b.state);
    EventDictsMerge(a.accountData, b.accountData);
    TimelinesMerge(a.timeline, b.timeline);
    SumByKey(RoomJson(a).entries, RoomJson(b).entries, RoomJson(PlusRoom(a, b)).entries);
  }

  lemma InvitesMerge(a: seq<MXEvent>, b: seq<MXEvent>)
    ensures MergeValue(InviteJson(a), InviteJson(b)) == InviteJson(a + b)
  {
    hide EventDict;
    EventDictsMerge(a, b);
    assert MergeValue(InviteJson(a), InviteJson(b)).entries == InviteJson(a + b).entries;
  }

  lemma RoomMapsMerge<V>(a: map<string, V>, b: map<string, V>, plus: (V, V) -> V, json: V -> Json)
    requires forall x, y :: MergeValue(json(x), json(y)) == json(plus(x, y))
    ensures MergeValue(RoomMapJson(a, json), RoomMapJson(b, json)) == RoomMapJson(PlusMaps(a, b, plus), json)
  {
    hide MergeValue;
    var l, r, e := RoomMapJson(a, json).entries, RoomMapJson(b, json).entries,
      RoomMapJson(PlusMaps(a, b, plus), json).entries;
    assert e.Keys == l.Keys + r.Keys;
    forall key | key in e
      ensures e[key] == if key !in r then l[key] else if key !in l then r[key] else MergeValue(l[key], r[key])
    {
      if key.id in a && key.id in b {
        assert MergeValue(json(a[key.id]), json(b[key.id])) == json(plus(a[key.id], b[key.id]));
      }
    }
    SumByKey(l, r, e);
  }

  lemma SectionsMerge(a: SyncResponse, b: SyncResponse)
    ensures MergeValue(SectionsJson(a), SectionsJson(b)) == SectionsJson(PlusResponse(a, b))
  {
    hide RoomMapJson, PlusMaps, RoomJson, InviteJson, PlusRoom, MergeValue;
    forall x, y ensures MergeValue(RoomJson(x), RoomJson(y)) == RoomJson(PlusRoom(x, y)) {
      RoomsMerge(x, y);
    }
    RoomMapsMerge(a.join, b.join, PlusRoom, RoomJson);
    RoomMapsMerge(a.leave, b.leave, PlusRoom, RoomJson);
    forall x, y ensures MergeValue(InviteJson(x), InviteJson(y)) == InviteJson(AppendEvents(x, y)) {
      InvitesMerge(x, y);
    }
    RoomMapsMerge(a.invite, b.invite, AppendEvents, InviteJson);
    SumByKey(SectionsJson(a).entries, SectionsJson(b).entries, SectionsJson(PlusResponse(a, b)).entries);
  }

  /** Summing two responses room by room is what the recursive dictionary sum does with their JSON dictionaries. */
  lemma PlusIsDictionarySum(a: SyncResponse, b: SyncResponse)
    ensures MergeValue(ResponseJson(a), ResponseJson(b)) == ResponseJson(PlusResponse(a, b))
  {
    hide SectionsJson, EventDict, MergeValue;
    EventDictsMerge(a.toDevice, b.toDevice);
    SectionsMerge(a, b);
    AtomsMerge(TokenLeaf(a.nextBatch), TokenLeaf(b.nextBatch));
    SumByKey(ResponseJson(a).entries, ResponseJson(b).entries, ResponseJson(PlusResponse(a, b)).entries);
  }
}
