// The homeserver as an append-only log with positions as tokens, and the sync replies that report a part of it
// without gaps (section 9.4 of the Matrix Client-Server API r0.6.1).
module ServerLog {
  import opened Events
  import opened SyncResponses
  import opened SyncStore
  import opened SessionReplay

  datatype Entry = ToDevice(event: MXEvent) | InRoom(roomId: string, event: MXEvent)

  /** The events of one room, in order. */
  function RoomEvents(log: seq<Entry>, room: string): seq<MXEvent> {
    if log == [] then []
    else
      var last := log[|log| - 1];
      RoomEvents(log[..|log| - 1], room) + if last.InRoom? && last.roomId == room then [last.event] else []
  }

  lemma {:induction false} RoomEventsSplit(a: seq<Entry>, b: seq<Entry>, room: string)
    ensures RoomEvents(a + b, room) == RoomEvents(a, room) + RoomEvents(b, room)
    decreases b
  {
    if b == [] {
      assert a + b == a;
    } else {
      var n := |b| - 1;
      assert (a + b)[..|a + b| - 1] == a + b[..n];
      RoomEventsSplit(a, b[..n], room);
    }
  }

  lemma RoomEventsBetween(log: seq<Entry>, from: nat, via: nat, to: nat, room: string)
    requires from <= via <= to <= |log|
    ensures RoomEvents(log[from..to], room) == RoomEvents(log[from..via], room) + RoomEvents(log[via..to], room)
  {
    assert log[from..to] == log[from..via] + log[via..to];
    RoomEventsSplit(log[from..via], log[via..to], room);
  }

  // One room of a reply reports exactly what the part of the log has for it.
  predicate Reports(slot: Slot, events: seq<MXEvent>) {
    && slot.invite.None? && slot.leave.None?
    && (slot.join.Some? ==> !slot.join.value.timeline.limited && slot.join.value.timeline.events == events)
    && (slot.join.None? ==> events == [])
  }

  /** For one room the response reports what the log has between two tokens, without a gap, an invite or a leave. */
  predicate Accurate(log: seq<Entry>, room: string, from: Token, r: SyncResponse) {
    from <= r.nextBatch <= |log| && Reports(SlotOf(r, room), RoomEvents(log[from..r.nextBatch], room))
  }

  lemma MergedReports(o: Slot, n: Slot, before: seq<MXEvent>, after: seq<MXEvent>)
    requires Reports(o, before) && Reports(n, after)
    ensures Reports(MergeSlot(n, o), before + after)
  {
    MergeSlotStaying(n, o);
    hide MergeSlot;
    assert before + [] == before && [] + after == after;
  }

  /** Two replies that follow each other, merged, are a reply for the longer request. */
  lemma MergedIsLongerReply(log: seq<Entry>, room: string, from: Token, o: SyncResponse, n: SyncResponse)
    requires Accurate(log, room, from, o) && Accurate(log, room, o.nextBatch, n)
    ensures Accurate(log, room, from, Merged(n, o))
  {
    hide Merged, MergeSlot, Reports;
    MergedTakesNewToken(n, o);
    MergedPerRoom(n, o, room);
    MergedReports(SlotOf(o, room), SlotOf(n, room),
                  RoomEvents(log[from..o.nextBatch], room), RoomEvents(log[o.nextBatch..n.nextBatch], room));
    RoomEventsBetween(log, from, o.nextBatch, n.nextBatch, room);
  }

  lemma LongerLog(log: seq<Entry>, more: seq<Entry>, room: string, from: Token, r: SyncResponse)
    requires Accurate(log, room, from, r) && log <= more
    ensures Accurate(more, room, from, r)
  {
    assert more[from..r.nextBatch] == log[from..r.nextBatch];
  }

  // ---- A room of the session ----

  function EventsShown(v: RoomView): seq<MXEvent> {
    if v.Absent? then [] else v.events
  }

  /** The room shows these events, each id once, in the order of their first arrival. */
  predicate Shows(v: RoomView, events: seq<MXEvent>) {
    !v.Invited? && EventsShown(v) == AddEvents([], events)
  }

  lemma ReplayShows(v: RoomView, slot: Slot, before: seq<MXEvent>, after: seq<MXEvent>)
    requires Shows(v, before) && Reports(slot, after)
    ensures Shows(Replay(v, slot), before + after)
  {
    AddEventsSplits([], before, after);
    if slot.join.None? {
      assert before + [] == before;
    }
    hide AddEvents;
  }

  // ---- A chain of cached responses ----

  ghost predicate SentBetween(log: seq<Entry>, from: Token, to: Token, e: MXEvent) {
    exists p :: from <= p < to && p < |log| && log[p] == ToDevice(e)
  }

  ghost predicate SentBefore(log: seq<Entry>, reach: Token, e: MXEvent) {
    exists p :: 0 <= p < reach && p < |log| && log[p] == ToDevice(e)
  }

  lemma SentBetweenIsBefore(log: seq<Entry>, from: Token, to: Token, e: MXEvent)
    requires SentBetween(log, from, to, e)
    ensures SentBefore(log, to, e)
  {
  }

  lemma SentBeforeGrows(log: seq<Entry>, more: seq<Entry>, reach: Token, further: Token, e: MXEvent)
    requires SentBefore(log, reach, e) && log <= more && reach <= further
    ensures SentBefore(more, further, e)
  {
    var p :| 0 <= p < reach && p < |log| && log[p] == ToDevice(e);
    assert more[p] == ToDevice(e);
  }

  /** A cached response leads forward in the log, and its to-device events are the log's. */
  ghost predicate Sound(log: seq<Entry>, reach: Token, c: Cached) {
    c.syncToken <= c.response.nextBatch <= reach && forall e | e in c.response.toDevice :: SentBefore(log, reach, e)
  }

  lemma SoundGrows(log: seq<Entry>, more: seq<Entry>, reach: Token, further: Token, c: Cached)
    requires Sound(log, reach, c) && log <= more && reach <= further
    ensures Sound(more, further, c)
  {
    hide SentBefore;
    forall e | e in c.response.toDevice ensures SentBefore(more, further, e) {
      SentBeforeGrows(log, more, reach, further, e);
    }
  }

  lemma MergedIsSound(log: seq<Entry>, reach: Token, c: Cached, n: SyncResponse)
    requires Sound(log, reach, c) && Sound(log, reach, Cached(c.response.nextBatch, n))
    ensures Sound(log, reach, Cached(c.syncToken, Merged(n, c.response)))
  {
    hide SentBefore, Merged;
    MergedTakesNewToken(n, c.response);
  }

  ghost predicate AllSound(log: seq<Entry>, reach: Token, s: Store) {
    forall id | id in s.files && Listed(s, id) :: Sound(log, reach, s.files[id])
  }

  /** Every listed response on disk reports the room from its own token. */
  ghost predicate AllAccurate(log: seq<Entry>, room: string, s: Store) {
    forall id | id in s.files && Listed(s, id) :: Accurate(log, room, s.files[id].syncToken, s.files[id].response)
  }

  /** Merging the first k responses of a readable chain leads from where the chain starts to where the k-th response
      ends. */
  lemma {:induction false} MergedChain(s: Store, k: nat)
    requires Linked(s.files, s.ids) && 0 < k <= |s.ids| && s.ids[0] in s.files
    ensures s.ids[k - 1] in s.files
    ensures var m := MergeIds(s, s.ids[..k]);
            && m.Some? && m.value.syncToken == s.files[s.ids[0]].syncToken
            && m.value.response.nextBatch == s.files[s.ids[k - 1]].response.nextBatch
            && (k == 1 ==> m.value.response == s.files[s.ids[0]].response)
            && (k > 1 ==> var before := MergeIds(s, s.ids[..k - 1]);
                          before.Some?
                          && m.value.response == Merged(s.files[s.ids[k - 1]].response, before.value.response))
  {
    hide Merged;
    var ids := s.ids[..k];
    assert ids[..k - 1] == s.ids[..k - 1] && ids[k - 1] == s.ids[k - 1];
    if k == 1 {
      assert ids[..0] == [];
    } else {
      MergedChain(s, k - 1);
      MergedTakesNewToken(s.files[s.ids[k - 1]].response, MergeIds(s, s.ids[..k - 1]).value.response);
    }
  }

  /** And for each room that all responses report without gaps, so does the merged one. */
  lemma {:induction false} MergedChainIsOneReply(log: seq<Entry>, room: string, s: Store, k: nat)
    requires Linked(s.files, s.ids) && 0 < k <= |s.ids| && s.ids[0] in s.files && AllAccurate(log, room, s)
    ensures var m := MergeIds(s, s.ids[..k]); m.Some? && Accurate(log, room, m.value.syncToken, m.value.response)
  {
    hide Accurate, Merged, MergeIds;
    MergedChain(s, k);
    if k > 1 {
      MergedChainIsOneReply(log, room, s, k - 1);
      MergedChain(s, k - 1);
      var before, n := MergeIds(s, s.ids[..k - 1]).value, s.files[s.ids[k - 1]];
      assert before.response.nextBatch == n.syncToken;
      MergedIsLongerReply(log, room, before.syncToken, before.response, n.response);
    }
  }
}
