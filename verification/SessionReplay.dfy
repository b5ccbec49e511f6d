// What a live session does with a cached sync response, and why merging responses first does not change it
// (MatrixSDK/MXSession.m, MatrixSDK/Data/MXEventTimeline.m,
// MatrixSDK/Background/Store/MXSyncResponseStoreManager.swift).
module SessionReplay {
  import opened Wrappers
  import opened Events
  import opened SyncResponses

  // ---- Merging many responses ----

  /** `mergedSyncResponse(fromSyncResponseIds:)` over responses that can all be read. */
  function MergeAll(rs: seq<SyncResponse>): SyncResponse
    requires rs != []
  {
    if |rs| == 1 then rs[0] else Merged(rs[|rs| - 1], MergeAll(rs[..|rs| - 1]))
  }

  function MergeAllSlots(ss: seq<Slot>): Slot
    requires ss != []
  {
    if |ss| == 1 then ss[0] else MergeSlot(ss[|ss| - 1], MergeAllSlots(ss[..|ss| - 1]))
  }

  function Slots(rs: seq<SyncResponse>, room: string): (ss: seq<Slot>)
    ensures |ss| == |rs| && forall i | 0 <= i < |rs| :: ss[i] == SlotOf(rs[i], room)
  {
    seq(|rs|, i requires 0 <= i < |rs| => SlotOf(rs[i], room))
  }

  lemma LastSlot(rs: seq<SyncResponse>, room: string)
    requires |rs| > 1
    ensures var n := |rs| - 1;
            MergeAllSlots(Slots(rs, room)) == MergeSlot(SlotOf(rs[n], room), MergeAllSlots(Slots(rs[..n], room)))
  {
    hide MergeSlot, SlotOf;
    assert Slots(rs, room)[..|rs| - 1] == Slots(rs[..|rs| - 1], room);
  }

  lemma {:induction false} MergeAllPerRoom(rs: seq<SyncResponse>, room: string)
    requires rs != []
    ensures SlotOf(MergeAll(rs), room) == MergeAllSlots(Slots(rs, room))
  {
    if |rs| > 1 {
      var n := |rs| - 1;
      LastSlot(rs, room);
      hide Slots, Merged, MergeSlot, SlotOf, MergeAllSlots;
      MergeAllPerRoom(rs[..n], room);
      MergedPerRoom(rs[n], MergeAll(rs[..n]), room);
    }
  }

  function AllToDevice(rs: seq<SyncResponse>): seq<MXEvent> {
    if rs == [] then [] else AllToDevice(rs[..|rs| - 1]) + rs[|rs| - 1].toDevice
  }

  /** Whatever the rooms look like: no to-device event is lost, repeated or reordered, and the last token is kept. */
  lemma {:induction false} MergeKeepsToDevice(rs: seq<SyncResponse>)
    requires rs != []
    ensures MergeAll(rs).toDevice == AllToDevice(rs) && MergeAll(rs).nextBatch == rs[|rs| - 1].nextBatch
  {
    if |rs| > 1 {
      MergeKeepsToDevice(rs[..|rs| - 1]);
    } else {
      assert rs[..0] == [];
      assert AllToDevice(rs) == [] + rs[0].toDevice;
    }
  }

  // ---- Grouping ----

  // `MergeSlot` where nobody has left: the timeline after the last gap, the state behind any pending invite.
  function MergeStaying(n: Slot, o: Slot): Slot {
    var invites := o.invite.Or([]);
    if n.join.None? then Slot(o.join, PlusWith(o.invite, n.invite, AppendEvents), None)
    else Slot(Some(MergeJoined(n.join.value, o.join, invites)), n.invite, None)
  }

  function MergeJoined(n: RoomSync, o: Option<RoomSync>, invites: seq<MXEvent>): RoomSync {
    if o.None? then n.(state := invites + n.state)
    else RoomSync(o.value.state + (invites + n.state),
                  MergeTimeline(n.timeline, o.value.timeline),
                  o.value.accountData + n.accountData)
  }

  function MergeTimeline(n: Timeline, o: Timeline): Timeline {
    Timeline(if n.limited then n.events else o.events + n.events, n.limited || o.limited,
             if n.prevBatch.Some? then n.prevBatch else o.prevBatch)
  }

  lemma MergeSlotStaying(n: Slot, o: Slot)
    requires n.leave.None? && o.leave.None?
    ensures MergeSlot(n, o) == MergeStaying(n, o)
  {
    if n.join.Some? {
      assert [] + n.join.value.state == n.join.value.state;
      if n.join.value.timeline.limited {
        assert [] + n.join.value.timeline.events == n.join.value.timeline.events;
      }
    }
  }

  /** The merge with a response in which the room has been left: what was joined goes in front of what the leave brings,
      less a timeline before a gap; the pending invite goes before the state of the leave; account data of the joined
      room is not carried over. */
  lemma MergeSlotLeaving(n: Slot, o: Slot)
    requires n.leave.Some? && n.join.None? && o.leave.None?
    ensures var left, joined := n.leave.value, o.join.Or(RoomSync([], Timeline([], false, None), []));
            MergeSlot(n, o) == Slot(
              None, n.invite,
              Some(RoomSync(joined.state + (o.invite.Or([]) + left.state),
                            Timeline((if left.timeline.limited then [] else joined.timeline.events)
                                     + left.timeline.events,
                                     left.timeline.limited, left.timeline.prevBatch),
                            left.accountData)))
  {
    var left, invites := n.leave.value, o.invite.Or([]);
    assert [] + left.state == left.state && [] + left.timeline.events == left.timeline.events;
    assert [] + (invites + left.state) == invites + left.state;
  }

  lemma AppendAssociates(a: seq<MXEvent>, b: seq<MXEvent>, c: seq<MXEvent>)
    ensures (a + b) + c == a + (b + c)
  {
  }

  lemma MergeTimelineAssociates(a: Timeline, b: Timeline, c: Timeline)
    ensures MergeTimeline(c, MergeTimeline(b, a)) == MergeTimeline(MergeTimeline(c, b), a)
  {
    AppendAssociates(a.events, b.events, c.events);
  }

  lemma MergeStayingAssociates(a: Slot, b: Slot, c: Slot)
    ensures MergeStaying(c, MergeStaying(b, a)) == MergeStaying(MergeStaying(c, b), a)
  {
    var i, j := a.invite.Or([]), b.invite.Or([]);
    assert PlusWith(a.invite, b.invite, AppendEvents).Or([]) == i + j;
    if c.join.Some? {
      MergeJoinedAssociates(a, b, c.join.value);
    } else if a.invite.Some? && b.invite.Some? && c.invite.Some? {
      AppendAssociates(i, j, c.invite.value);
    }
  }

  lemma MergeJoinedAssociates(a: Slot, b: Slot, c: RoomSync)
    ensures var i, j := a.invite.Or([]), b.invite.Or([]);
            b.join.None? ==> MergeJoined(c, a.join, i + j) == MergeJoined(MergeJoined(c, None, j), a.join, i)
    ensures var i, j := a.invite.Or([]), b.invite.Or([]);
            b.join.Some? ==> MergeJoined(c, Some(MergeJoined(b.join.value, a.join, i)), j)
                             == MergeJoined(MergeJoined(c, b.join, j), a.join, i)
  {
    var i, j := a.invite.Or([]), b.invite.Or([]);
    AppendAssociates(i, j, c.state);
    if b.join.Some? {
      AppendAssociates(i, b.join.value.state, j + c.state);
      if a.join.Some? {
        AppendAssociates(a.join.value.state, i + b.join.value.state, j + c.state);
        AppendAssociates(a.join.value.accountData, b.join.value.accountData, c.accountData);
        MergeTimelineAssociates(a.join.value.timeline, b.join.value.timeline, c.timeline);
      }
    }
  }

  /** As long as nobody leaves a room, `merged(_:onto:)` is associative: where chunks begin and end cannot be seen. */
  lemma MergeSlotAssociates(a: Slot, b: Slot, c: Slot)
    requires a.leave.None? && b.leave.None? && c.leave.None?
    ensures MergeSlot(c, MergeSlot(b, a)) == MergeSlot(MergeSlot(c, b), a)
    ensures MergeSlot(b, a).leave.None?
  {
    hide MergeSlot, MergeStaying;
    MergeSlotStaying(b, a);
    MergeSlotStaying(c, b);
    StayingStays(b, a);
    StayingStays(c, b);
    MergeSlotStaying(c, MergeSlot(b, a));
    MergeSlotStaying(MergeSlot(c, b), a);
    MergeStayingAssociates(a, b, c);
  }

  lemma StayingStays(n: Slot, o: Slot)
    ensures MergeStaying(n, o).leave.None?
  {
  }

  lemma {:induction false} MergeAllSlotsSplits(a: seq<Slot>, b: seq<Slot>)
    requires a != [] && b != [] && forall i | 0 <= i < |a + b| :: (a + b)[i].leave.None?
    ensures MergeAllSlots(a + b) == MergeSlot(MergeAllSlots(b), MergeAllSlots(a))
    ensures MergeAllSlots(a).leave.None? && MergeAllSlots(b).leave.None?
    decreases |b|
  {
    hide MergeSlot;
    var n := |b| - 1;
    assert forall i | 0 <= i < |b| :: b[i] == (a + b)[|a| + i];
    MergeAllSlotsStays(a, a + b);
    if n == 0 {
      assert (a + b)[..|a + b| - 1] == a;
    } else {
      assert (a + b)[..|a + b| - 1] == a + b[..n];
      assert forall i | 0 <= i < |a + b[..n]| :: (a + b[..n])[i] == (a + b)[i];
      MergeAllSlotsSplits(a, b[..n]);
      MergeSlotAssociates(MergeAllSlots(a), MergeAllSlots(b[..n]), b[n]);
      MergeSlotStays(b[n], MergeAllSlots(b[..n]));
    }
  }

  lemma MergeSlotStays(n: Slot, o: Slot)
    requires n.leave.None? && o.leave.None?
    ensures MergeSlot(n, o).leave.None?
  {
    MergeSlotStaying(n, o);
    hide MergeSlot;
  }

  lemma {:induction false} MergeAllSlotsStays(a: seq<Slot>, whole: seq<Slot>)
    requires a != [] && a <= whole && forall i | 0 <= i < |whole| :: whole[i].leave.None?
    ensures MergeAllSlots(a).leave.None?
    decreases |a|
  {
    hide MergeSlot;
    assert a[|a| - 1] == whole[|a| - 1];
    if |a| > 1 {
      MergeAllSlotsStays(a[..|a| - 1], whole);
      MergeSlotStays(a[|a| - 1], MergeAllSlots(a[..|a| - 1]));
    }
  }

  function Concat(groups: seq<seq<SyncResponse>>): seq<SyncResponse> {
    if groups == [] then [] else Concat(groups[..|groups| - 1]) + groups[|groups| - 1]
  }

  function Chunks(groups: seq<seq<SyncResponse>>): (chunks: seq<SyncResponse>)
    requires forall i | 0 <= i < |groups| :: groups[i] != []
    ensures |chunks| == |groups| && forall i | 0 <= i < |groups| :: chunks[i] == MergeAll(groups[i])
  {
    seq(|groups|, i requires 0 <= i < |groups| => MergeAll(groups[i]))
  }

  function ConcatSlots(groups: seq<seq<Slot>>): seq<Slot> {
    if groups == [] then [] else ConcatSlots(groups[..|groups| - 1]) + groups[|groups| - 1]
  }

  function ChunkSlots(groups: seq<seq<Slot>>): (chunks: seq<Slot>)
    requires forall i | 0 <= i < |groups| :: groups[i] != []
    ensures |chunks| == |groups| && forall i | 0 <= i < |groups| :: chunks[i] == MergeAllSlots(groups[i])
  {
    seq(|groups|, i requires 0 <= i < |groups| => MergeAllSlots(groups[i]))
  }

  lemma {:induction false} SlotsOfConcat(groups: seq<seq<SyncResponse>>, slots: seq<seq<Slot>>, room: string)
    requires |slots| == |groups| && forall i | 0 <= i < |groups| :: slots[i] == Slots(groups[i], room)
    ensures Slots(Concat(groups), room) == ConcatSlots(slots)
    decreases |groups|
  {
    if groups != [] {
      var n := |groups| - 1;
      SlotsOfConcat(groups[..n], slots[..n], room);
      assert Slots(Concat(groups[..n]) + groups[n], room) == Slots(Concat(groups[..n]), room) + Slots(groups[n], room);
    }
  }

  function SlotGroups(groups: seq<seq<SyncResponse>>, room: string): (slots: seq<seq<Slot>>)
    ensures |slots| == |groups| && forall i | 0 <= i < |groups| :: slots[i] == Slots(groups[i], room)
  {
    seq(|groups|, i requires 0 <= i < |groups| => Slots(groups[i], room))
  }

  // One room of the merged chunks is the merge of the chunks of that room.
  lemma ChunksPerRoom(groups: seq<seq<SyncResponse>>, room: string)
    requires groups != [] && (forall i | 0 <= i < |groups| :: groups[i] != [])
    ensures SlotOf(MergeAll(Chunks(groups)), room) == MergeAllSlots(ChunkSlots(SlotGroups(groups, room)))
  {
    hide Merged;
    MergeAllPerRoom(Chunks(groups), room);
    forall i | 0 <= i < |groups| ensures Slots(Chunks(groups), room)[i] == ChunkSlots(SlotGroups(groups, room))[i] {
      MergeAllPerRoom(groups[i], room);
    }
    assert Slots(Chunks(groups), room) == ChunkSlots(SlotGroups(groups, room));
  }

  lemma {:induction false} ChunkSlotsAssociate(groups: seq<seq<Slot>>)
    requires groups != [] && (forall i | 0 <= i < |groups| :: groups[i] != [])
    requires forall s | s in ConcatSlots(groups) :: s.leave.None?
    ensures ConcatSlots(groups) != [] && MergeAllSlots(ChunkSlots(groups)) == MergeAllSlots(ConcatSlots(groups))
    decreases |groups|
  {
    hide MergeSlot;
    var n := |groups| - 1;
    var init, last := groups[..n], groups[n];
    assert ConcatSlots(groups) == ConcatSlots(init) + last;
    assert forall s | s in ConcatSlots(init) :: s in ConcatSlots(groups);
    if n == 0 {
      assert ConcatSlots(groups) == last;
    } else {
      ChunkSlotsAssociate(init);
      assert ChunkSlots(groups)[..n] == ChunkSlots(init);
      MergeAllSlotsSplits(ConcatSlots(init), last);
    }
  }

  /** However the size limit cuts the history of responses into chunks, merging the chunks at the end says about a room
      what merging the responses one by one does, as long as the history has no leave of that room. */
  lemma ChunkSizeIsInvisible(groups: seq<seq<SyncResponse>>, room: string)
    requires groups != [] && (forall i | 0 <= i < |groups| :: groups[i] != [])
    requires forall r | r in Concat(groups) :: room !in r.leave
    ensures Concat(groups) != [] && SlotOf(MergeAll(Chunks(groups)), room) == SlotOf(MergeAll(Concat(groups)), room)
  {
    hide Merged, MergeSlot;
    var slots, all := SlotGroups(groups, room), Concat(groups);
    SlotsOfConcat(groups, slots, room);
    forall s | s in ConcatSlots(slots) ensures s.leave.None? {
      var i :| 0 <= i < |all| && Slots(all, room)[i] == s;
      assert all[i] in all;
    }
    ChunkSlotsAssociate(slots);
    ChunksPerRoom(groups, room);
    assert |Slots(all, room)| == |all|;
    MergeAllPerRoom(all, room);
  }

  lemma {:induction false} AllToDeviceSplits(a: seq<SyncResponse>, b: seq<SyncResponse>)
    ensures AllToDevice(a + b) == AllToDevice(a) + AllToDevice(b)
    decreases |b|
  {
    if b == [] {
      assert a + b == a;
    } else {
      var init, last := b[..|b| - 1], b[|b| - 1];
      AllToDeviceSplits(a, init);
      AllToDeviceNext(a + init, last);
      AllToDeviceNext(init, last);
      assert a + b == (a + init) + [last] && b == init + [last];
      hide AllToDevice;
      AppendAssociates(AllToDevice(a), AllToDevice(init), last.toDevice);
    }
  }

  lemma AllToDeviceNext(rs: seq<SyncResponse>, last: SyncResponse)
    ensures AllToDevice(rs + [last]) == AllToDevice(rs) + last.toDevice
  {
    assert (rs + [last])[..|rs + [last]| - 1] == rs;
  }

  lemma {:induction false} ChunksToDevice(groups: seq<seq<SyncResponse>>)
    requires forall i | 0 <= i < |groups| :: groups[i] != []
    ensures AllToDevice(Chunks(groups)) == AllToDevice(Concat(groups))
    decreases |groups|
  {
    if groups != [] {
      var n := |groups| - 1;
      hide Merged;
      ChunksToDevice(groups[..n]);
      assert Chunks(groups)[..n] == Chunks(groups[..n]);
      MergeKeepsToDevice(groups[n]);
      AllToDeviceSplits(Concat(groups[..n]), groups[n]);
    }
  }

  /** And whoever leaves what: the to-device events and the token of the merged chunks are those of the history. */
  lemma ChunkSizeKeepsToDevice(groups: seq<seq<SyncResponse>>)
    requires groups != [] && (forall i | 0 <= i < |groups| :: groups[i] != [])
    ensures var m, all := MergeAll(Chunks(groups)), Concat(groups);
            all != [] && m.toDevice == AllToDevice(all) && m.nextBatch == all[|all| - 1].nextBatch
  {
    hide Merged;
    MergeKeepsToDevice(Chunks(groups));
    ChunksToDevice(groups);
    MergeKeepsToDevice(groups[|groups| - 1]);
  }

  // ---- Grouping around a leave ----

  // A homeserver lists a room in one section of a response at most.
  predicate Single(s: Slot) {
    !(s.join.Some? && s.invite.Some?) && !(s.join.Some? && s.leave.Some?) && !(s.invite.Some? && s.leave.Some?)
  }

  predicate Gap(r: Option<RoomSync>) {
    r.Some? && r.value.timeline.limited
  }

  predicate NoGap(r: Option<RoomSync>) {
    r.Some? && !r.value.timeline.limited
  }

  /** Three responses about a room whose grouping can be seen: a timeline with events before a gap and a leave; a gap
      before a leave without one and a new join; an invite before a leave and a new join. */
  predicate GroupingShows(a: Slot, b: Slot, c: Slot) {
    || (a.join.Some? && a.join.value.timeline.events != []
        && ((Gap(b.join) && NoGap(c.leave)) || (Gap(b.leave) && NoGap(c.leave))
            || (NoGap(b.leave) && (Gap(c.join) || Gap(c.leave)))))
    || ((Gap(a.join) || Gap(a.leave)) && NoGap(b.leave) && NoGap(c.join))
    || (a.invite.Some? && a.invite.value != [] && b.leave.Some? && c.join.Some?)
  }

  lemma PrefixVanishesExactly(a: seq<MXEvent>, b: seq<MXEvent>)
    ensures a + b == b <==> a == []
  {
    if a + b == b {
      assert |a + b| == |b|;
    }
    if a == [] {
      assert [] + b == b;
    }
  }

  lemma SyncsAssociateExactly(a: Slot, b: Slot, c: Slot)
    requires Single(a) && Single(b) && Single(c) && (a.leave.Some? || b.leave.Some? || c.leave.Some?)
    requires JoinedOrLeft(a).Some? && JoinedOrLeft(b).Some? && JoinedOrLeft(c).Some?
    ensures MergeSlot(c, MergeSlot(b, a)) == MergeSlot(MergeSlot(c, b), a) <==> !GroupingShows(a, b, c)
  {
    var x, y, z := JoinedOrLeft(a).value, JoinedOrLeft(b).value, JoinedOrLeft(c).value;
    AppendAssociates(x.state, y.state, z.state);
    AppendAssociates(x.timeline.events, y.timeline.events, z.timeline.events);
    AppendAssociates(x.accountData, y.accountData, z.accountData);
    PrefixVanishesExactly([], y.timeline.events);
    PrefixVanishesExactly([], z.timeline.events);
    PrefixVanishesExactly([], y.timeline.events + z.timeline.events);
    PrefixVanishesExactly(x.timeline.events, y.timeline.events);
    PrefixVanishesExactly(x.timeline.events, y.timeline.events + z.timeline.events);
  }

  lemma InvitesAssociateExactly(a: Slot, b: Slot, c: Slot)
    requires Single(a) && Single(b) && Single(c) && (a.leave.Some? || b.leave.Some? || c.leave.Some?)
    requires JoinedOrLeft(a).None? || JoinedOrLeft(b).None? || JoinedOrLeft(c).None?
    ensures MergeSlot(c, MergeSlot(b, a)) == MergeSlot(MergeSlot(c, b), a) <==> !GroupingShows(a, b, c)
  {
    var x, y, z := JoinedOrLeft(a), JoinedOrLeft(b), JoinedOrLeft(c);
    if a.invite.Some? && y.Some? && z.Some? {
      AppendAssociates(a.invite.value, y.value.state, z.value.state);
      PrefixVanishesExactly(a.invite.value, z.value.state);
      PrefixVanishesExactly(a.invite.value, y.value.state);
    } else if a.invite.Some? && b.invite.Some? && z.Some? {
      AppendAssociates(a.invite.value, b.invite.value, z.value.state);
    } else if x.Some? && b.invite.Some? && z.Some? {
      AppendAssociates(x.value.state, b.invite.value, z.value.state);
    }
  }

  /** For what a homeserver sends about a room, merging is associative exactly when the grouping does not show. */
  lemma MergeSlotAssociatesExactly(a: Slot, b: Slot, c: Slot)
    requires Single(a) && Single(b) && Single(c)
    ensures MergeSlot(c, MergeSlot(b, a)) == MergeSlot(MergeSlot(c, b), a) <==> !GroupingShows(a, b, c)
  {
    hide MergeSlot;
    if a.leave.None? && b.leave.None? && c.leave.None? {
      MergeSlotAssociates(a, b, c);
    } else if JoinedOrLeft(a).Some? && JoinedOrLeft(b).Some? && JoinedOrLeft(c).Some? {
      SyncsAssociateExactly(a, b, c);
    } else {
      InvitesAssociateExactly(a, b, c);
    }
  }

  /** Merging three responses of the homeserver is associative exactly when the grouping shows in no room. */
  lemma MergedAssociatesExactly(a: SyncResponse, b: SyncResponse, c: SyncResponse)
    requires forall room :: Single(SlotOf(a, room)) && Single(SlotOf(b, room)) && Single(SlotOf(c, room))
    ensures Merged(c, Merged(b, a)) == Merged(Merged(c, b), a) <==>
            forall room :: !GroupingShows(SlotOf(a, room), SlotOf(b, room), SlotOf(c, room))
  {
    hide Merged, MergeSlot, GroupingShows, Single, SlotOf;
    var l, r := Merged(c, Merged(b, a)), Merged(Merged(c, b), a);
    MergedTakesNewToken(b, a);
    MergedTakesNewToken(c, b);
    MergedTakesNewToken(c, Merged(b, a));
    MergedTakesNewToken(Merged(c, b), a);
    AppendAssociates(a.toDevice, b.toDevice, c.toDevice);
    forall room ensures SlotOf(l, room) == SlotOf(r, room)
      <==> !GroupingShows(SlotOf(a, room), SlotOf(b, room), SlotOf(c, room)) {
      MergedPerRoom(b, a, room);
      MergedPerRoom(c, b, room);
      MergedPerRoom(c, Merged(b, a), room);
      MergedPerRoom(Merged(c, b), a, room);
      MergeSlotAssociatesExactly(SlotOf(a, room), SlotOf(b, room), SlotOf(c, room));
    }
    if forall room :: !GroupingShows(SlotOf(a, room), SlotOf(b, room), SlotOf(c, room)) {
      SameSlots(l, r);
    }
  }

  /** With a leave it can be seen: a room joined, then resynced after a gap, then left. One chunk for all three keeps
      the timeline before the gap out, a chunk boundary after the first brings it back. */
  lemma LeaveRevealsGrouping(x: MXEvent, y: MXEvent, z: MXEvent)
    ensures var a := Slot(Some(RoomSync([], Timeline([x], false, None), [])), None, None);
            var b := Slot(Some(RoomSync([], Timeline([y], true, None), [])), None, None);
            var c := Slot(None, None, Some(RoomSync([], Timeline([z], false, None), [])));
            MergeSlot(c, MergeSlot(b, a)).leave.value.timeline.events == [y, z]
            && MergeSlot(MergeSlot(c, b), a).leave.value.timeline.events == [x, y, z]
            && !MergeSlot(c, MergeSlot(b, a)).leave.value.timeline.limited
  {
  }

  // ---- Adding events to a timeline ----

  predicate HasId(shown: seq<MXEvent>, eventId: string) {
    exists i :: 0 <= i < |shown| && shown[i].eventId == eventId
  }

  /** `addEvent`: an event whose id the room already has is skipped. */
  function AddEvent(shown: seq<MXEvent>, e: MXEvent): seq<MXEvent> {
    if HasId(shown, e.eventId) then shown else shown + [e]
  }

  function AddEvents(shown: seq<MXEvent>, events: seq<MXEvent>): seq<MXEvent> {
    if events == [] then shown else AddEvent(AddEvents(shown, events[..|events| - 1]), events[|events| - 1])
  }

  lemma {:induction false} AddEventsSplits(shown: seq<MXEvent>, a: seq<MXEvent>, b: seq<MXEvent>)
    ensures AddEvents(shown, a + b) == AddEvents(AddEvents(shown, a), b)
    decreases |b|
  {
    if b == [] {
      assert a + b == a;
    } else {
      hide AddEvent;
      AddEventsSplits(shown, a, b[..|b| - 1]);
      assert (a + b)[..|a + b| - 1] == a + b[..|b| - 1];
    }
  }

  predicate DistinctIds(events: seq<MXEvent>) {
    forall i, j | 0 <= i < j < |events| :: events[i].eventId != events[j].eventId
  }

  lemma {:induction false} AddEventsKeeps(shown: seq<MXEvent>, events: seq<MXEvent>)
    ensures shown <= AddEvents(shown, events)
    ensures DistinctIds(shown) ==> DistinctIds(AddEvents(shown, events))
  {
    if events != [] {
      AddEventsKeeps(shown, events[..|events| - 1]);
    }
  }

  function Unknown(shown: seq<MXEvent>, events: seq<MXEvent>): (rest: seq<MXEvent>)
    ensures forall e | e in rest :: e in events
  {
    if events == [] then []
    else
      var last := events[|events| - 1];
      Unknown(shown, events[..|events| - 1]) + if HasId(shown, last.eventId) then [] else [last]
  }

  lemma {:induction false} UnknownHasId(shown: seq<MXEvent>, events: seq<MXEvent>, eventId: string)
    ensures HasId(shown + Unknown(shown, events), eventId) <==> HasId(shown, eventId) || HasId(events, eventId)
  {
    if events != [] {
      var init, last := events[..|events| - 1], events[|events| - 1];
      UnknownHasId(shown, init, eventId);
      hide Unknown;
      HasIdOfSum(init, [last], eventId);
      assert events == init + [last];
      HasIdOfSum(shown, Unknown(shown, init), eventId);
      HasIdOfSum(shown, Unknown(shown, events), eventId);
      UnknownLast(shown, events);
      HasIdOfSum(Unknown(shown, init), [last], eventId);
    } else {
      assert shown + [] == shown;
    }
  }

  lemma UnknownLast(shown: seq<MXEvent>, events: seq<MXEvent>)
    requires events != []
    ensures var last := events[|events| - 1];
            Unknown(shown, events) == if HasId(shown, last.eventId) then Unknown(shown, events[..|events| - 1])
                                      else Unknown(shown, events[..|events| - 1]) + [last]
  {
  }

  lemma HasIdOfSum(a: seq<MXEvent>, b: seq<MXEvent>, eventId: string)
    ensures HasId(a + b, eventId) <==> HasId(a, eventId) || HasId(b, eventId)
  {
    if HasId(a, eventId) {
      var i :| 0 <= i < |a| && a[i].eventId == eventId;
      assert (a + b)[i].eventId == eventId;
    }
    if HasId(b, eventId) {
      var i :| 0 <= i < |b| && b[i].eventId == eventId;
      assert (a + b)[|a| + i].eventId == eventId;
    }
  }

  /** What is added is what is not there yet, as it would be added to an empty room. */
  lemma {:induction false} AddEventsIs(shown: seq<MXEvent>, events: seq<MXEvent>)
    ensures AddEvents(shown, events) == shown + Unknown(shown, AddEvents([], events))
  {
    if events == [] {
      assert shown + [] == shown;
    } else {
      var init, last := events[..|events| - 1], events[|events| - 1];
      AddEventsIs(shown, init);
      var d := AddEvents([], init);
      UnknownHasId(shown, d, last.eventId);
      if !HasId(d, last.eventId) {
        UnknownLast(shown, d + [last]);
        assert (d + [last])[..|d + [last]| - 1] == d;
        assert (shown + Unknown(shown, d)) + [last] == shown + (Unknown(shown, d) + [last]);
        assert [] + Unknown(shown, d) == Unknown(shown, d);
      }
    }
  }

  lemma DistinctFromLast(events: seq<MXEvent>, last: MXEvent)
    requires DistinctIds(events + [last])
    ensures DistinctIds(events) && !HasId(events, last.eventId)
  {
    var all := events + [last];
    assert forall i | 0 <= i < |events| :: all[i] == events[i];
    forall i | 0 <= i < |events| ensures events[i].eventId != last.eventId {
      assert all[i].eventId != all[|events|].eventId;
    }
  }

  lemma {:induction false} UnknownOfLonger(shown: seq<MXEvent>, more: seq<MXEvent>)
    requires DistinctIds(shown + more)
    ensures Unknown(shown, shown + more) == more
    decreases |more|
  {
    hide DistinctIds, HasId, Unknown;
    if more == [] {
      assert shown + more == shown;
      NothingUnknown(shown, shown);
    } else {
      var init, last := more[..|more| - 1], more[|more| - 1];
      assert shown + more == (shown + init) + [last] && more == init + [last];
      DistinctFromLast(shown + init, last);
      HasIdOfSum(shown, init, last.eventId);
      UnknownOfLonger(shown, init);
      UnknownLast(shown, (shown + init) + [last]);
      assert ((shown + init) + [last])[..|shown + more| - 1] == shown + init;
    }
  }

  lemma {:induction false} NothingUnknown(shown: seq<MXEvent>, events: seq<MXEvent>)
    requires events <= shown
    ensures Unknown(shown, events) == []
  {
    if events != [] {
      var n := |events| - 1;
      NothingUnknown(shown, events[..n]);
      assert shown[n] == events[n];
    }
  }

  /** Adding to what is shown is adding to an empty room exactly when what is shown comes first there anyway. */
  lemma RestartUnseenExactly(shown: seq<MXEvent>, events: seq<MXEvent>)
    ensures AddEvents(shown, events) == AddEvents([], events) <==> shown <= AddEvents([], events)
  {
    AddEventsKeeps(shown, events);
    AddEventsKeeps([], events);
    AddEventsIs(shown, events);
    hide AddEvents, Unknown;
    var d := AddEvents([], events);
    if shown <= d {
      assert d == shown + d[|shown|..];
      UnknownOfLonger(shown, d[|shown|..]);
    }
  }

  // ---- Replay ----

  /** A room as a session shows it. */
  datatype RoomView = Absent | Invited(events: seq<MXEvent>) | Joined(events: seq<MXEvent>)

  /** One response: joined rooms first, then invited ones, then left ones. A room joined from an invite starts afresh,
      a limited timeline flushes the messages, an event that is there already is skipped, a left room is removed. */
  function Replay(v: RoomView, s: Slot): RoomView {
    var v1 := if s.join.None? then v
              else
                var t := s.join.value.timeline;
                Joined(AddEvents(if v.Joined? && !t.limited then v.events else [], t.events));
    var v2 := if s.invite.None? then v1 else Invited(AddEvents(if v1.Absent? then [] else v1.events, s.invite.value));
    if s.leave.Some? then Absent else v2
  }

  function ReplayAll(v: RoomView, ss: seq<Slot>): RoomView {
    if ss == [] then v else Replay(ReplayAll(v, ss[..|ss| - 1]), ss[|ss| - 1])
  }

  // The older response invites to a room shown as joined, and the newer one joins it without a gap, not repeating first
  // what is shown.
  predicate InviteForgotten(v: RoomView, o: Slot, n: Slot) {
    && o.invite.Some? && n.join.Some? && !n.join.value.timeline.limited
    && v.Joined? && !(v.events <= AddEvents([], n.join.value.timeline.events))
  }

  /** Two responses merged and then replayed leave the room as the two replayed in turn, exactly when the room does not
      come back after a leave, and an invite accepted without a gap was not addressed to a joined room with messages
      that the join does not bring again. */
  lemma MergedReplayExactly(v: RoomView, o: Slot, n: Slot)
    requires Single(o) && Single(n)
    ensures Replay(v, MergeSlot(n, o)) == Replay(Replay(v, o), n) <==>
            !(o.leave.Some? && (n.join.Some? || n.invite.Some?)) && !InviteForgotten(v, o, n)
  {
    if n.leave.Some? || o.leave.Some? {
      hide AddEvents;
    } else {
      MergeSlotStaying(n, o);
      hide MergeSlot, MergeStaying, Replay, InviteForgotten;
      ReplayStaying(v, o, n);
    }
  }

  // A room's entry with a timeline and nothing else.
  function JustEvents(events: seq<MXEvent>): RoomSync {
    RoomSync([], Timeline(events, false, None), [])
  }

  lemma AddOne(shown: seq<MXEvent>, e: MXEvent)
    ensures AddEvents(shown, [e]) == AddEvent(shown, e)
  {
    assert [e][..0] == [];
  }

  /** A concrete case: left in one response, joined again in the next. In turn the room is there, merged it is
      removed. */
  lemma ReturnIsRemoved(v: RoomView, x: MXEvent, y: MXEvent)
    ensures var o, n := Slot(None, None, Some(JustEvents([x]))), Slot(Some(JustEvents([y])), None, None);
            Replay(Replay(v, o), n) == Joined([y]) && Replay(v, MergeSlot(n, o)) == Absent
  {
    AddOne([], y);
    hide AddEvents;
    assert [] + [y] == [y];
  }

  /** Another: invited in one response to a room shown as joined, joined in the next. Merged, the room keeps its
      events. */
  lemma InviteIsForgotten(x: MXEvent, i: MXEvent, y: MXEvent)
    requires x.eventId != y.eventId
    ensures var o, n := Slot(None, Some([i]), None), Slot(Some(JustEvents([y])), None, None);
            Replay(Replay(Joined([x]), o), n) == Joined([y]) && Replay(Joined([x]), MergeSlot(n, o)) == Joined([x, y])
  {
    AddOne([], y);
    AddOne([x], y);
    assert [] + [y] == [y] && [x] + [y] == [x, y];
    hide AddEvents;
  }

  lemma ReplayStaying(v: RoomView, o: Slot, n: Slot)
    requires Single(o) && Single(n) && o.leave.None? && n.leave.None?
    ensures Replay(v, MergeStaying(n, o)) == Replay(Replay(v, o), n) <==> !InviteForgotten(v, o, n)
  {
    hide AddEvents;
    if n.join.Some? && o.join.Some? {
      AddEventsSplits(if v.Joined? && !o.join.value.timeline.limited then v.events else [],
                      o.join.value.timeline.events, n.join.value.timeline.events);
    } else if n.invite.Some? && o.invite.Some? {
      AddEventsSplits(if v.Absent? then [] else v.events, o.invite.value, n.invite.value);
    } else if n.join.Some? && o.invite.Some? && v.Joined? {
      RestartUnseenExactly(v.events, n.join.value.timeline.events);
    }
  }

  // ---- Replay of a whole cache ----

  predicate SomeJoin(ss: seq<Slot>) { exists i :: 0 <= i < |ss| && ss[i].join.Some? }
  predicate SomeInvite(ss: seq<Slot>) { exists i :: 0 <= i < |ss| && ss[i].invite.Some? }
  predicate SomeLeave(ss: seq<Slot>) { exists i :: 0 <= i < |ss| && ss[i].leave.Some? }

  /** The room is not invited once joined and does not come back once left. */
  predicate Orderly(v: RoomView, ss: seq<Slot>) {
    && (forall i | 0 <= i < |ss| :: Single(ss[i]))
    && (v.Joined? ==> !SomeInvite(ss))
    && (forall i, j | 0 <= i < j < |ss| :: ss[i].join.Some? ==> ss[j].invite.None?)
    && (forall i, j | 0 <= i < j < |ss| :: ss[i].leave.Some? ==> ss[j].join.None? && ss[j].invite.None?)
  }

  predicate ComesFrom(m: Slot, ss: seq<Slot>) {
    && (m.join.Some? ==> SomeJoin(ss)) && (m.invite.Some? ==> SomeInvite(ss)) && (m.leave.Some? ==> SomeLeave(ss))
  }

  lemma OrderlySplits(v: RoomView, a: seq<Slot>, b: seq<Slot>)
    requires Orderly(v, a + b)
    ensures Orderly(v, a) && (SomeLeave(a) ==> !SomeJoin(b) && !SomeInvite(b)) && (SomeJoin(a) ==> !SomeInvite(b))
    ensures Orderly(Absent, b) && (v.Joined? ==> !SomeInvite(b))
  {
    var ab := a + b;
    assert forall i | 0 <= i < |a| :: ab[i] == a[i];
    assert forall i | 0 <= i < |b| :: ab[|a| + i] == b[i];
    if SomeInvite(a) || SomeInvite(b) {
      assert SomeInvite(ab);
    }
  }

  lemma MergeStep(v: RoomView, o: Slot, n: Slot, before: seq<Slot>, after: seq<Slot>)
    requires Orderly(v, before + after) && Single(o) && Single(n) && ComesFrom(o, before) && ComesFrom(n, after)
    ensures Replay(v, MergeSlot(n, o)) == Replay(Replay(v, o), n)
    ensures Single(MergeSlot(n, o)) && ComesFrom(MergeSlot(n, o), before + after)
  {
    OrderlySplits(v, before, after);
    if SomeInvite(before) {
      var i :| 0 <= i < |before| && before[i].invite.Some?;
      assert (before + after)[i].invite.Some?;
    }
    SomeOf(before, after);
    assert !InviteForgotten(v, o, n);
    hide Replay, SomeJoin, SomeInvite, SomeLeave, Orderly, InviteForgotten;
    MergedReplayExactly(v, o, n);
    MergedSections(o, n);
  }

  lemma SomeOf(a: seq<Slot>, b: seq<Slot>)
    ensures SomeJoin(a + b) <==> SomeJoin(a) || SomeJoin(b)
    ensures SomeInvite(a + b) <==> SomeInvite(a) || SomeInvite(b)
    ensures SomeLeave(a + b) <==> SomeLeave(a) || SomeLeave(b)
  {
    var ab := a + b;
    assert forall i | 0 <= i < |a| :: ab[i] == a[i];
    assert forall i | 0 <= i < |b| :: ab[|a| + i] == b[i];
  }

  lemma MergedSections(o: Slot, n: Slot)
    ensures var m := MergeSlot(n, o);
            && (m.leave.Some? <==> n.leave.Some? || o.leave.Some?)
            && (m.join.Some? <==> n.join.Some? || (o.join.Some? && n.leave.None?))
            && (m.invite.Some? <==> n.invite.Some? || (o.invite.Some? && n.join.None? && n.leave.None?))
  {
  }

  lemma {:induction false} MergeAllReplays(v: RoomView, ss: seq<Slot>)
    requires ss != [] && Orderly(v, ss)
    ensures Replay(v, MergeAllSlots(ss)) == ReplayAll(v, ss)
    ensures Single(MergeAllSlots(ss)) && ComesFrom(MergeAllSlots(ss), ss)
    decreases |ss|
  {
    var n := |ss| - 1;
    hide Replay, MergeSlot;
    if n == 0 {
      assert ss[0].join.Some? ==> SomeJoin(ss);
      assert ReplayAll(v, ss[..0]) == v;
    } else {
      var init, last := ss[..n], [ss[n]];
      assert ss == init + last;
      OrderlySplits(v, init, last);
      MergeAllReplays(v, init);
      assert ComesFrom(last[0], last);
      MergeStep(v, MergeAllSlots(init), last[0], init, last);
    }
  }

  lemma {:induction false} ReplayAllSplits(v: RoomView, a: seq<Slot>, b: seq<Slot>)
    ensures ReplayAll(v, a + b) == ReplayAll(ReplayAll(v, a), b)
    decreases |b|
  {
    if b == [] {
      assert a + b == a;
    } else {
      ReplayAllSplits(v, a, b[..|b| - 1]);
      assert (a + b)[..|a + b| - 1] == a + b[..|b| - 1];
    }
  }

  lemma {:induction false} JoinedByReplay(v: RoomView, ss: seq<Slot>)
    requires ReplayAll(v, ss).Joined?
    ensures v.Joined? || SomeJoin(ss)
    decreases |ss|
  {
    if ss != [] && ss[|ss| - 1].join.None? {
      JoinedByReplay(v, ss[..|ss| - 1]);
      if SomeJoin(ss[..|ss| - 1]) {
        var i :| 0 <= i < |ss| - 1 && ss[..|ss| - 1][i].join.Some?;
        assert ss[i].join.Some?;
      }
    }
  }

  lemma {:induction false} ChunkedReplays(v: RoomView, groups: seq<seq<Slot>>)
    requires groups != [] && (forall i | 0 <= i < |groups| :: groups[i] != []) && Orderly(v, ConcatSlots(groups))
    ensures var m := MergeAllSlots(ChunkSlots(groups));
            Replay(v, m) == ReplayAll(v, ConcatSlots(groups)) && Single(m) && ComesFrom(m, ConcatSlots(groups))
    decreases |groups|
  {
    hide Replay, MergeSlot, Orderly, ComesFrom, Single;
    var n := |groups| - 1;
    var before, last := ConcatSlots(groups[..n]), groups[n];
    if n == 0 {
      assert ConcatSlots(groups) == last;
      MergeAllReplays(v, last);
    } else {
      OrderlySplits(v, before, last);
      ChunkedReplays(v, groups[..n]);
      assert ChunkSlots(groups)[..n] == ChunkSlots(groups[..n]);
      var v' := ReplayAll(v, before);
      OrderlyLater(v, before, last);
      MergeAllReplays(v', last);
      MergeStep(v, MergeAllSlots(ChunkSlots(groups[..n])), MergeAllSlots(last), before, last);
      ReplayAllSplits(v, before, last);
    }
  }

  lemma OrderlyLater(v: RoomView, before: seq<Slot>, last: seq<Slot>)
    requires Orderly(v, before + last)
    ensures Orderly(ReplayAll(v, before), last)
  {
    OrderlySplits(v, before, last);
    if ReplayAll(v, before).Joined? {
      JoinedByReplay(v, before);
    }
  }

  /** The session that merges its cached chunks and handles them as one response ends, in every orderly room, like the
      session that handled the responses one by one as the homeserver sent them, whatever the chunk sizes. */
  lemma CachedReplayIsLiveReplay(v: RoomView, groups: seq<seq<SyncResponse>>, room: string)
    requires groups != [] && (forall i | 0 <= i < |groups| :: groups[i] != [])
    requires Orderly(v, Slots(Concat(groups), room))
    ensures Replay(v, SlotOf(MergeAll(Chunks(groups)), room)) == ReplayAll(v, Slots(Concat(groups), room))
  {
    hide Replay, MergeSlot, Orderly, Merged;
    SlotsOfConcat(groups, SlotGroups(groups, room), room);
    ChunkedReplays(v, SlotGroups(groups, room));
    ChunksPerRoom(groups, room);
  }

  // ---- What merging two joined syncs does to state and pagination ----

  // The events that update the room state, in the order the session applies them.
  function StateLog(r: RoomSync): seq<MXEvent> {
    r.state + r.timeline.events
  }

  function PaginationToken(before: Option<Token>, r: RoomSync): Option<Token> {
    if r.timeline.limited then r.timeline.prevBatch else before
  }

  // Two joined responses about a room, merged.
  function MergedRoom(n: RoomSync, o: RoomSync): RoomSync
  {
    MergeSlotStaying(Slot(Some(n), None, None), Slot(Some(o), None, None));
    MergeSlot(Slot(Some(n), None, None), Slot(Some(o), None, None)).join.value
  }

  lemma MergedRoomIs(n: RoomSync, o: RoomSync)
    ensures MergedRoom(n, o) == MergeJoined(n, Some(o), [])
  {
    MergeSlotStaying(Slot(Some(n), None, None), Slot(Some(o), None, None));
  }

  lemma MiddleExactly(a: seq<MXEvent>, x: seq<MXEvent>, y: seq<MXEvent>, b: seq<MXEvent>)
    ensures a + x + b == a + y + b <==> x == y
  {
    if a + x + b == a + y + b {
      assert |x| == |y| by {
        assert |a + x + b| == |a + y + b|;
      }
      assert x == (a + x + b)[|a|..|a| + |x|];
      assert y == (a + y + b)[|a|..|a| + |y|];
    }
  }

  /** The room state is built from the same events in the same order exactly when a gap drops no earlier timeline, and,
      without a gap, the second state section changes places with the first timeline unseen. */
  lemma MergedStateLogExactly(o: RoomSync, n: RoomSync)
    ensures StateLog(MergedRoom(n, o)) == StateLog(o) + StateLog(n) <==>
            if n.timeline.limited then o.timeline.events == []
              else n.state + o.timeline.events == o.timeline.events + n.state
  {
    MergedRoomIs(n, o);
    hide MergedRoom;
    var os, ot, ns, nt := o.state, o.timeline.events, n.state, n.timeline.events;
    assert [] + ns == ns;
    assert StateLog(o) + StateLog(n) == os + (ot + ns) + nt;
    if n.timeline.limited {
      assert StateLog(MergedRoom(n, o)) == os + ns + nt;
      MiddleExactly(os, ns, ot + ns, nt);
      assert |ot + ns| == |ot| + |ns|;
      if ot == [] {
        assert ot + ns == ns;
      }
    } else {
      assert StateLog(MergedRoom(n, o)) == os + (ns + ot) + nt;
      MiddleExactly(os, ns + ot, ot + ns, nt);
    }
  }

  /** A concrete case: after a gap the change in the timeline before it is not part of the room state. */
  lemma GapDropsStateChange(x: MXEvent, y: MXEvent)
    ensures var o, n := JustEvents([x]), RoomSync([], Timeline([y], true, Some(1)), []);
            StateLog(MergedRoom(n, o)) == [y] && StateLog(o) + StateLog(n) == [x, y]
  {
    MergedRoomIs(JustEvents([x]), RoomSync([], Timeline([y], true, Some(1)), []));
    hide MergedRoom;
  }

  /** The token to paginate back from is the one a live session would hold exactly when the newer previous-batch token
      does not replace that of an older gap, and a newer gap has a token of its own. */
  lemma MergedPaginationExactly(before: Option<Token>, o: RoomSync, n: RoomSync)
    ensures PaginationToken(before, MergedRoom(n, o)) == PaginationToken(PaginationToken(before, o), n) <==>
            && (n.timeline.limited && n.timeline.prevBatch.None? ==> o.timeline.prevBatch.None?)
            && (!n.timeline.limited && o.timeline.limited && n.timeline.prevBatch.Some? ==>
                n.timeline.prevBatch == o.timeline.prevBatch)
  {
    MergedRoomIs(n, o);
  }

  /** A concrete case: a gap whose token is 1, then a timeline without a gap whose token is 2. A live session paginates
      back from 1 and fills the gap, one that handles the merged response from 2. */
  lemma LaterTokenHidesGap(before: Option<Token>, x: MXEvent, y: MXEvent)
    ensures var o, n := RoomSync([], Timeline([x], true, Some(1)), []), RoomSync([], Timeline([y], false, Some(2)), []);
            PaginationToken(before, MergedRoom(n, o)) == Some(2)
              && PaginationToken(PaginationToken(before, o), n) == Some(1)
  {
    MergedRoomIs(RoomSync([], Timeline([y], false, Some(2)), []), RoomSync([], Timeline([x], true, Some(1)), []));
  }
}
