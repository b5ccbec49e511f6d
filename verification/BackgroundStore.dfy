// A snapshot of the session's store (MatrixSDK/Background/MXBackgroundStore.swift).
module BackgroundStore {
  import opened Wrappers
  import opened Events
  import opened SyncResponses

  /** The messages of one room as a file holds them. */
  datatype RoomFile = RoomFile(events: seq<MXEvent>)

  /** What the session has on disk at one moment. */
  datatype Disk = Disk(eventStreamToken: Option<Token>, rooms: map<string, RoomFile>)

  datatype Snapshot = Snapshot(eventStreamToken: Option<Token>, rooms: map<string, RoomFile>)

  function Open(d: Disk): Snapshot {
    Snapshot(d.eventStreamToken, map[])
  }

  /** `roomStore(forRoom:)`: the first file found for a room is kept; a missing room is looked for again. */
  function Load(s: Snapshot, d: Disk, room: string): (Snapshot, Option<RoomFile>) {
    if room in s.rooms then (s, Some(s.rooms[room]))
    else if room in d.rooms then (s.(rooms := s.rooms[room := d.rooms[room]]), Some(d.rooms[room]))
    else (s, None)
  }

  datatype Access = Access(disk: Disk, room: string)

  function LoadAll(s: Snapshot, run: seq<Access>): Snapshot {
    if run == [] then s
    else
      var before, last := LoadAll(s, run[..|run| - 1]), run[|run| - 1];
      Load(before, last.disk, last.room).0
  }

  // Where a room was first found on disk, among the accesses of a run.
  ghost predicate FirstFound(run: seq<Access>, room: string, i: nat) {
    i < |run| && run[i].room == room && room in run[i].disk.rooms
    && forall j | 0 <= j < i :: !(run[j].room == room && room in run[j].disk.rooms)
  }

  /** Whatever the session writes meanwhile: the token stays that of the opening, and a room stays as it was when it was
      first asked for and found. */
  lemma {:induction false} SnapshotIsStable(d: Disk, run: seq<Access>, room: string)
    ensures var s := LoadAll(Open(d), run);
            && s.eventStreamToken == d.eventStreamToken
            && (room in s.rooms <==> exists i: nat :: FirstFound(run, room, i))
            && (forall i: nat | FirstFound(run, room, i) :: s.rooms[room] == run[i].disk.rooms[room])
  {
    if run != [] {
      var n := |run| - 1;
      var init := run[..n];
      SnapshotIsStable(d, init, room);
      assert forall i | 0 <= i < n :: FirstFound(run, room, i) == FirstFound(init, room, i);
      var before := LoadAll(Open(d), init);
      if room in before.rooms {
        var first: nat :| FirstFound(init, room, first);
        assert FirstFound(run, room, first);
        forall i: nat | FirstFound(run, room, i) ensures FirstFound(init, room, i) && run[i] == init[i] {
          assert i < n by {
            assert run[first].room == room && room in run[first].disk.rooms;
          }
        }
      } else {
        assert forall i: nat | i < n :: !FirstFound(init, room, i);
        NotFoundBefore(init, room);
        assert forall i: nat | i < n :: !FirstFound(run, room, i);
        assert run[n].room == room && room in run[n].disk.rooms <==> FirstFound(run, room, n);
      }
    }
  }

  lemma {:induction false} NotFoundBefore(run: seq<Access>, room: string)
    requires forall i: nat :: !FirstFound(run, room, i)
    ensures forall j | 0 <= j < |run| :: !(run[j].room == room && room in run[j].disk.rooms)
  {
    if run != [] {
      var n := |run| - 1;
      assert forall i | 0 <= i < n :: FirstFound(run, room, i) == FirstFound(run[..n], room, i);
      NotFoundBefore(run[..n], room);
      assert forall j | 0 <= j < n :: run[j] == run[..n][j];
      assert !FirstFound(run, room, n);
    }
  }

  class MXBackgroundStore {
    const eventStreamToken: Option<Token>
    var roomsStore: map<string, RoomFile>

    function State(): Snapshot
      reads this
    {
      Snapshot(eventStreamToken, roomsStore)
    }

    constructor (disk: Disk)
      ensures State() == Open(disk)
    {
      eventStreamToken, roomsStore := disk.eventStreamToken, map[];
    }

    method RoomStore(disk: Disk, roomId: string) returns (roomStore: Option<RoomFile>)
      modifies this
      ensures (State(), roomStore) == Load(old(State()), disk, roomId)
    {
      if roomId in roomsStore {
        return Some(roomsStore[roomId]);
      }
      if roomId !in disk.rooms {
        return None;
      }
      roomStore := Some(disk.rooms[roomId]);
      roomsStore := roomsStore[roomId := roomStore.value];
    }

    /** The event of that id in the room as it was first loaded. */
    method Event(disk: Disk, eventId: string, roomId: string) returns (event: Option<MXEvent>)
      modifies this
      ensures State() == Load(old(State()), disk, roomId).0
      ensures var file := Load(old(State()), disk, roomId).1;
              && (event.Some? ==> file.Some? && event.value in file.value.events && event.value.eventId == eventId)
              && (event.None? && file.Some? ==> forall e | e in file.value.events :: e.eventId != eventId)
    {
      var roomStore := RoomStore(disk, roomId);
      if roomStore.None? {
        return None;
      }
      var events := roomStore.value.events;
      for i := 0 to |events|
        invariant forall j | 0 <= j < i :: events[j].eventId != eventId
      {
        if events[i].eventId == eventId {
          return Some(events[i]);
        }
      }
      return None;
    }
  }
}
