// Sync responses and the merge that keeps several of them in one cached chunk
// (MatrixSDK/Background/Store/MXSyncResponseStoreManager.swift, MatrixSDK/JSONModels/Sync).
module SyncResponses {
  import opened Wrappers
  import opened Events

  type Token = nat

  datatype Timeline = Timeline(events: seq<MXEvent>, limited: bool, prevBatch: Option<Token>)

  datatype RoomSync = RoomSync(state: seq<MXEvent>, timeline: Timeline, accountData: seq<MXEvent>)

  datatype SyncResponse = SyncResponse(
    nextBatch: Token,
    toDevice: seq<MXEvent>,
    join: map<string, RoomSync>,
    invite: map<string, seq<MXEvent>>,
    leave: map<string, RoomSync>)

  /** What one response says about one room. */
  datatype Slot = Slot(join: Option<RoomSync>, invite: Option<seq<MXEvent>>, leave: Option<RoomSync>)

  function At<V>(m: map<string, V>, k: string): Option<V> {
    if k in m then Some(m[k]) else None
  }

  function SlotOf(r: SyncResponse, room: string): Slot {
    Slot(At(r.join, room), At(r.invite, room), At(r.leave, room))
  }

  // `joinedOrLeftRoomSyncs`: the joined entry wins when a room has both.
  function JoinedOrLeft(s: Slot): Option<RoomSync> {
    if s.join.Some? then s.join else s.leave
  }

  function WithTimeline(r: RoomSync, events: seq<MXEvent>, limited: bool): RoomSync {
    r.(timeline := r.timeline.(events := events, limited := limited))
  }

  // A new limited timeline empties the old joined one and marks it limited.
  function DropGap(n: Slot, o: Slot): Slot {
    if JoinedOrLeft(n).Some? && JoinedOrLeft(n).value.timeline.limited && o.join.Some?
    then o.(join := Some(WithTimeline(o.join.value, [], true)))
    else o
  }

  // An old limited timeline marks the new joined one limited.
  function KeepLimited(n: Slot, o: Slot): Slot {
    if JoinedOrLeft(o).Some? && JoinedOrLeft(o).value.timeline.limited && n.join.Some?
    then n.(join := Some(WithTimeline(n.join.value, n.join.value.timeline.events, true)))
    else n
  }

  // The old invite becomes the first state of the room now joined or left.
  function MoveInvite(n: Slot, o: Slot): (Slot, Slot) {
    if o.invite.None? || JoinedOrLeft(n).None? then (n, o)
    else if n.join.Some?
    then (n.(join := Some(n.join.value.(state := o.invite.value + n.join.value.state))), o.(invite := None))
    else (n.(leave := Some(n.leave.value.(state := o.invite.value + n.leave.value.state))), o.(invite := None))
  }

  // The old joined state and timeline go in front of those of the room now left.
  function MoveJoin(n: Slot, o: Slot): (Slot, Slot) {
    if n.leave.None? || o.join.None? then (n, o)
    else
      var left, joined := n.leave.value, o.join.value;
      (n.(leave := Some(RoomSync(joined.state + left.state,
                                 left.timeline.(events := joined.timeline.events + left.timeline.events),
                                 left.accountData))),
       o.(join := None))
  }

  // The sum of two room dictionaries: arrays are appended, scalars taken from the right.
  function PlusRoom(a: RoomSync, b: RoomSync): RoomSync {
    RoomSync(a.state + b.state,
             Timeline(a.timeline.events + b.timeline.events, b.timeline.limited,
                      if b.timeline.prevBatch.Some? then b.timeline.prevBatch else a.timeline.prevBatch),
             a.accountData + b.accountData)
  }

  function AppendEvents(a: seq<MXEvent>, b: seq<MXEvent>): seq<MXEvent> {
    a + b
  }

  function PlusWith<V>(a: Option<V>, b: Option<V>, plus: (V, V) -> V): Option<V> {
    if a.Some? && b.Some? then Some(plus(a.value, b.value)) else if a.Some? then a else b
  }

  function PlusSlot(a: Slot, b: Slot): Slot {
    Slot(PlusWith(a.join, b.join, PlusRoom),
         PlusWith(a.invite, b.invite, AppendEvents),
         PlusWith(a.leave, b.leave, PlusRoom))
  }

  /** `merged(_:onto:)` for one room. */
  function MergeSlot(n: Slot, o: Slot): Slot {
    var o1 := DropGap(n, o);
    var n2 := KeepLimited(n, o1);
    var (n3, o3) := MoveInvite(n2, o1);
    var (n4, o4) := MoveJoin(n3, o3);
    PlusSlot(o4, n4)
  }

  function Rooms(r: SyncResponse): set<string> {
    r.join.Keys + r.invite.Keys + r.leave.Keys
  }

  /** `merged(_:onto:)`: every room on its own, to-device events appended, the newer token kept. */
  function Merged(n: SyncResponse, o: SyncResponse): SyncResponse {
    var slot := (room: string) => MergeSlot(SlotOf(n, room), SlotOf(o, room));
    SyncResponse(n.nextBatch, o.toDevice + n.toDevice,
      map room | room in Rooms(n) + Rooms(o) && slot(room).join.Some? :: slot(room).join.value,
      map room | room in Rooms(n) + Rooms(o) && slot(room).invite.Some? :: slot(room).invite.value,
      map room | room in Rooms(n) + Rooms(o) && slot(room).leave.Some? :: slot(room).leave.value)
  }

  lemma MergedPerRoom(n: SyncResponse, o: SyncResponse, room: string)
    ensures SlotOf(Merged(n, o), room) == MergeSlot(SlotOf(n, room), SlotOf(o, room))
  {
  }

  lemma MergedTakesNewToken(n: SyncResponse, o: SyncResponse)
    ensures Merged(n, o).nextBatch == n.nextBatch && Merged(n, o).toDevice == o.toDevice + n.toDevice
  {
  }

  lemma SameSlots(a: SyncResponse, b: SyncResponse)
    requires a.nextBatch == b.nextBatch && a.toDevice == b.toDevice
    requires forall room :: SlotOf(a, room) == SlotOf(b, room)
    ensures a == b
  {
    forall room ensures (room in a.join <==> room in b.join) && (room in a.invite <==> room in b.invite)
                        && (room in a.leave <==> room in b.leave)
    {
      assert SlotOf(a, room) == SlotOf(b, room);
    }
    forall room | room in a.join ensures a.join[room] == b.join[room] {
      assert SlotOf(a, room) == SlotOf(b, room);
    }
    forall room | room in a.invite ensures a.invite[room] == b.invite[room] {
      assert SlotOf(a, room) == SlotOf(b, room);
    }
    forall room | room in a.leave ensures a.leave[room] == b.leave[room] {
      assert SlotOf(a, room) == SlotOf(b, room);
    }
  }

  function PlusMaps<V>(a: map<string, V>, b: map<string, V>, plus: (V, V) -> V): map<string, V> {
    a + map room | room in b :: if room in a then plus(a[room], b[room]) else b[room]
  }

  function PlusResponse(a: SyncResponse, b: SyncResponse): SyncResponse {
    SyncResponse(b.nextBatch, a.toDevice + b.toDevice,
      PlusMaps(a.join, b.join, PlusRoom),
      PlusMaps(a.invite, b.invite, AppendEvents),
      PlusMaps(a.leave, b.leave, PlusRoom))
  }

  lemma PlusPerRoom(a: SyncResponse, b: SyncResponse, room: string)
    ensures SlotOf(PlusResponse(a, b), room) == PlusSlot(SlotOf(a, room), SlotOf(b, room))
  {
  }

  // ---- The merge as it runs: four passes over the rooms, then the sum ----

  method DropGaps(n: SyncResponse, o: SyncResponse) returns (o': SyncResponse)
    ensures o'.nextBatch == o.nextBatch && o'.toDevice == o.toDevice
    ensures forall room :: SlotOf(o', room) == DropGap(SlotOf(n, room), SlotOf(o, room))
  {
    o' := o;
    var rooms := n.join.Keys + n.leave.Keys;
    while rooms != {}
      invariant rooms <= n.join.Keys + n.leave.Keys
      invariant o'.nextBatch == o.nextBatch && o'.toDevice == o.toDevice
      invariant forall room :: SlotOf(o', room) == if room in rooms then SlotOf(o, room)
                else DropGap(SlotOf(n, room), SlotOf(o, room))
      decreases rooms
    {
      var room :| room in rooms;
      var roomSync := JoinedOrLeft(SlotOf(n, room)).value;
      if roomSync.timeline.limited && room in o'.join {
        o' := o'.(join := o'.join[room := WithTimeline(o'.join[room], [], true)]);
      }
      rooms := rooms - {room};
    }
  }

  method KeepLimits(n: SyncResponse, o: SyncResponse) returns (n': SyncResponse)
    ensures n'.nextBatch == n.nextBatch && n'.toDevice == n.toDevice
    ensures forall room :: SlotOf(n', room) == KeepLimited(SlotOf(n, room), SlotOf(o, room))
  {
    n' := n;
    var rooms := o.join.Keys + o.leave.Keys;
    while rooms != {}
      invariant rooms <= o.join.Keys + o.leave.Keys
      invariant n'.nextBatch == n.nextBatch && n'.toDevice == n.toDevice
      invariant forall room :: SlotOf(n', room) == if room in rooms then SlotOf(n, room)
                else KeepLimited(SlotOf(n, room), SlotOf(o, room))
      decreases rooms
    {
      var room :| room in rooms;
      var roomSync := JoinedOrLeft(SlotOf(o, room)).value;
      if roomSync.timeline.limited && room in n'.join {
        n' := n'.(join := n'.join[room := WithTimeline(n'.join[room], n'.join[room].timeline.events, true)]);
      }
      rooms := rooms - {room};
    }
  }

  // The body of the third pass, for one room.
  method MoveInviteOf(n: SyncResponse, o: SyncResponse, room: string) returns (n': SyncResponse, o': SyncResponse)
    requires room in n.join || room in n.leave
    ensures n'.nextBatch == n.nextBatch && n'.toDevice == n.toDevice && o'.toDevice == o.toDevice
    ensures (SlotOf(n', room), SlotOf(o', room)) == MoveInvite(SlotOf(n, room), SlotOf(o, room))
    ensures forall other | other != room ::
              SlotOf(n', other) == SlotOf(n, other) && SlotOf(o', other) == SlotOf(o, other)
  {
    n', o' := n, o;
    if room in o.invite {
      if room in n.join {
        n' := n.(join := n.join[room := n.join[room].(state := o.invite[room] + n.join[room].state)]);
      } else {
        n' := n.(leave := n.leave[room := n.leave[room].(state := o.invite[room] + n.leave[room].state)]);
      }
      o' := o.(invite := o.invite - {room});
    }
  }

  method MoveInvites(n: SyncResponse, o: SyncResponse) returns (n': SyncResponse, o': SyncResponse)
    ensures n'.nextBatch == n.nextBatch && n'.toDevice == n.toDevice && o'.toDevice == o.toDevice
    ensures forall room :: (SlotOf(n', room), SlotOf(o', room)) == MoveInvite(SlotOf(n, room), SlotOf(o, room))
  {
    n', o' := n, o;
    var rooms := n.join.Keys + n.leave.Keys;
    while rooms != {}
      invariant rooms <= n.join.Keys + n.leave.Keys
      invariant n'.nextBatch == n.nextBatch && n'.toDevice == n.toDevice && o'.toDevice == o.toDevice
      invariant forall room :: (SlotOf(n', room), SlotOf(o', room)) ==
                  if room in rooms then (SlotOf(n, room), SlotOf(o, room))
                    else MoveInvite(SlotOf(n, room), SlotOf(o, room))
      decreases rooms
    {
      var room :| room in rooms;
      assert SlotOf(n', room) == SlotOf(n, room) && SlotOf(o', room) == SlotOf(o, room);
      n', o' := MoveInviteOf(n', o', room);
      rooms := rooms - {room};
    }
  }

  // The body of the fourth pass, for one room.
  method MoveJoinOf(n: SyncResponse, o: SyncResponse, room: string) returns (n': SyncResponse, o': SyncResponse)
    requires room in n.leave
    ensures n'.nextBatch == n.nextBatch && n'.toDevice == n.toDevice && o'.toDevice == o.toDevice
    ensures (SlotOf(n', room), SlotOf(o', room)) == MoveJoin(SlotOf(n, room), SlotOf(o, room))
    ensures forall other | other != room ::
              SlotOf(n', other) == SlotOf(n, other) && SlotOf(o', other) == SlotOf(o, other)
  {
    n', o' := n, o;
    if room in o.join {
      var joined, left := o.join[room], n.leave[room];
      left := left.(state := joined.state + left.state);
      left := left.(timeline := left.timeline.(events := joined.timeline.events + left.timeline.events));
      n', o' := n.(leave := n.leave[room := left]), o.(join := o.join - {room});
    }
  }

  method MoveJoins(n: SyncResponse, o: SyncResponse) returns (n': SyncResponse, o': SyncResponse)
    ensures n'.nextBatch == n.nextBatch && n'.toDevice == n.toDevice && o'.toDevice == o.toDevice
    ensures forall room :: (SlotOf(n', room), SlotOf(o', room)) == MoveJoin(SlotOf(n, room), SlotOf(o, room))
  {
    n', o' := n, o;
    var rooms := n.leave.Keys;
    while rooms != {}
      invariant rooms <= n.leave.Keys
      invariant n'.nextBatch == n.nextBatch && n'.toDevice == n.toDevice && o'.toDevice == o.toDevice
      invariant forall room :: (SlotOf(n', room), SlotOf(o', room)) ==
                  if room in rooms then (SlotOf(n, room), SlotOf(o, room))
                    else MoveJoin(SlotOf(n, room), SlotOf(o, room))
      decreases rooms
    {
      var room :| room in rooms;
      assert SlotOf(n', room) == SlotOf(n, room) && SlotOf(o', room) == SlotOf(o, room);
      n', o' := MoveJoinOf(n', o', room);
      rooms := rooms - {room};
    }
  }

  /** `merged(_:onto:)`. */
  method MergeOnto(newSyncResponse: SyncResponse, oldSyncResponse: SyncResponse) returns (merged: SyncResponse)
    ensures merged == Merged(newSyncResponse, oldSyncResponse)
  {
    var o1 := DropGaps(newSyncResponse, oldSyncResponse);
    var n2 := KeepLimits(newSyncResponse, o1);
    var n3, o3 := MoveInvites(n2, o1);
    var n4, o4 := MoveJoins(n3, o3);
    merged := PlusResponse(o4, n4);
    forall room ensures SlotOf(merged, room) == SlotOf(Merged(newSyncResponse, oldSyncResponse), room) {
      PlusPerRoom(o4, n4, room);
      MergedPerRoom(newSyncResponse, oldSyncResponse, room);
      assert (SlotOf(n4, room), SlotOf(o4, room)) == MoveJoin(SlotOf(n3, room), SlotOf(o3, room));
      assert (SlotOf(n3, room), SlotOf(o3, room)) == MoveInvite(SlotOf(n2, room), SlotOf(o1, room));
    }
    SameSlots(merged, Merged(newSyncResponse, oldSyncResponse));
  }
}
