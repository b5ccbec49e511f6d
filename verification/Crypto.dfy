// Decryption in the background: the crypto store in front of the app's, Olm and Megolm decryption, and the keys that
// to-device events bring (MatrixSDK/Background/MXBackgroundSyncService.swift,
// MatrixSDK/Background/MXBackgroundCryptoStore.m, MatrixSDK/Crypto/MXOlmDevice.m).
module Crypto {
  import opened Wrappers
  import opened Events

  const MEGOLM := "m.megolm.v1.aes-sha2"
  const OLM := "m.olm.v1.curve25519-aes-sha2"

  datatype KeyId = KeyId(sessionId: string, senderKey: string)

  /** A Megolm session with what was stored beside it. */
  datatype GroupSession = GroupSession(
    sessionKey: string,
    identifier: string,
    firstKnownIndex: nat,
    roomId: string,
    claimedEd25519: Option<string>,
    forwardingChain: seq<string>)

  datatype Imported = Imported(identifier: string, firstKnownIndex: nat)
  datatype Created = Created(sessionId: string, payload: Option<string>)

  /** A clear event as decryption delivers it. */
  datatype ClearEvent = ClearEvent(eventType: EventType, content: Option<Content>)

  datatype OlmPayload = OlmPayload(
    recipient: Option<string>,
    recipientEd25519: Option<string>,
    sender: Option<string>,
    roomId: Option<string>,
    claimedEd25519: Option<string>,
    clear: ClearEvent)

  // The text of a Megolm message may not be a JSON object; it then has no payload.
  datatype Plaintext = Undecryptable | Plain(payload: Option<ClearEvent>)

  /** The primitives. What an Olm session makes of a message depends on its ratchet, hence on the time of the call;
      whether a prekey message was meant for it does not. */
  datatype Oracle = Oracle(
    olmDecrypt: (nat, string, OlmMessage) -> Option<string>,
    olmMatches: (string, OlmMessage) -> bool,
    olmCreate: (nat, string, OlmMessage) -> Option<Created>,
    megolmDecrypt: (GroupSession, string) -> Plaintext,
    importSession: (string, bool) -> Option<Imported>,
    parse: string -> Option<OlmPayload>,
    userId: Option<string>,
    curve25519: Option<string>,
    ed25519: Option<string>)

  /** The background store, the app's store it reads through to, and the time. Olm sessions are listed by device key. */
  datatype Stores = Stores(
    bgKeys: map<KeyId, GroupSession>,
    appKeys: map<KeyId, GroupSession>,
    bgOlm: map<string, seq<string>>,
    appOlm: map<string, seq<string>>,
    clock: nat)

  const NO_KEYS := Stores(map[], map[], map[], map[], 0)

  datatype CryptoError = Unknown | UnknownAlgorithm | DecryptionFailure | NoGroupSession

  // ---- The two stores as one ----

  function Key(c: Stores, k: KeyId): Option<GroupSession> {
    if k in c.bgKeys then Some(c.bgKeys[k]) else if k in c.appKeys then Some(c.appKeys[k]) else None
  }

  function Sessions(m: map<string, seq<string>>, device: string): seq<string> {
    if device in m then m[device] else []
  }

  function Known(c: Stores, device: string): seq<string> {
    Sessions(c.bgOlm, device) + Sessions(c.appOlm, device)
  }

  function StoreOlm(c: Stores, device: string, sessionId: string): Stores {
    var bg := Sessions(c.bgOlm, device);
    if sessionId in bg then c else c.(bgOlm := c.bgOlm[device := bg + [sessionId]])
  }

  // Before a session is used it is copied from the app's store.
  function TransferOlm(c: Stores, device: string, sessionId: string): Stores {
    if sessionId !in Sessions(c.bgOlm, device) && sessionId in Sessions(c.appOlm, device)
    then StoreOlm(c, device, sessionId)
    else c
  }

  function TransferKey(c: Stores, k: KeyId): Stores {
    if k !in c.bgKeys && k in c.appKeys then c.(bgKeys := c.bgKeys[k := c.appKeys[k]]) else c
  }

  function Tick(c: Stores): Stores {
    c.(clock := c.clock + 1)
  }

  /** `reset()`: the background store starts afresh. */
  function Reset(c: Stores): Stores {
    c.(bgKeys := map[], bgOlm := map[])
  }

  // ---- Olm ----

  datatype Verdict = Opened(payload: string) | Matched | Unclaimed

  function TrySessions(o: Oracle, c: Stores, ids: seq<string>, device: string, m: OlmMessage): (Stores, Verdict)
    decreases ids
  {
    if ids == [] then (c, Unclaimed)
    else
      var payload := o.olmDecrypt(c.clock, ids[0], m);
      var c' := Tick(TransferOlm(c, device, ids[0]));
      if payload.Some? then (c', Opened(payload.value))
      else if m.messageType == 0 && o.olmMatches(ids[0], m) then (c', Matched)
      else TrySessions(o, c', ids[1..], device, m)
  }

  function CreateInbound(o: Oracle, c: Stores, device: string, m: OlmMessage): (Stores, Option<string>) {
    match o.olmCreate(c.clock, device, m)
    case None => (Tick(c), None)
    case Some(created) => (StoreOlm(Tick(c), device, created.sessionId), created.payload)
  }

  /** `decryptMessageWithOlm`. */
  function DecryptOlm(o: Oracle, c: Stores, device: string, m: OlmMessage): (Stores, Option<string>) {
    var (c', verdict) := TrySessions(o, c, Known(c, device), device, m);
    match verdict
    case Opened(payload) => (c', Some(payload))
    case Matched => (c', None)
    case Unclaimed => if m.messageType != 0 then (c', None) else CreateInbound(o, c', device, m)
  }

  // Session number i of the list gives the message back, or claims it.
  predicate Takes(o: Oracle, clock: nat, ids: seq<string>, m: OlmMessage, i: nat)
    requires i < |ids|
  {
    o.olmDecrypt(clock + i, ids[i], m).Some? || (m.messageType == 0 && o.olmMatches(ids[i], m))
  }

  /** The first session that takes the message, or the number of sessions. */
  function FirstTaker(o: Oracle, clock: nat, ids: seq<string>, m: OlmMessage): (i: nat)
    ensures i <= |ids| && (i < |ids| ==> Takes(o, clock, ids, m, i))
    ensures forall j | 0 <= j < i :: !Takes(o, clock, ids, m, j)
    decreases ids
  {
    if ids == [] || Takes(o, clock, ids, m, 0) then 0
    else
      var i := FirstTaker(o, clock + 1, ids[1..], m);
      assert i < |ids[1..]| ==> Takes(o, clock + 1, ids[1..], m, i);
      assert forall j | 0 < j <= i && j < |ids| ::
             Takes(o, clock, ids, m, j) == Takes(o, clock + 1, ids[1..], m, j - 1);
      i + 1
  }

  function VerdictOf(o: Oracle, clock: nat, ids: seq<string>, m: OlmMessage): Verdict {
    var i := FirstTaker(o, clock, ids, m);
    if i == |ids| then Unclaimed
    else if o.olmDecrypt(clock + i, ids[i], m).Some? then Opened(o.olmDecrypt(clock + i, ids[i], m).value)
    else Matched
  }

  /** The first session that decrypts or matches decides; without one every session has been tried. */
  lemma {:induction false} TrySessionsMeaning(o: Oracle, c: Stores, ids: seq<string>, device: string, m: OlmMessage)
    ensures TrySessions(o, c, ids, device, m).1 == VerdictOf(o, c.clock, ids, m)
    ensures VerdictOf(o, c.clock, ids, m).Unclaimed? ==> TrySessions(o, c, ids, device, m).0.clock == c.clock + |ids|
    decreases ids
  {
    if ids != [] && !Takes(o, c.clock, ids, m, 0) {
      var c1 := Tick(TransferOlm(c, device, ids[0]));
      TrySessionsMeaning(o, c1, ids[1..], device, m);
    }
  }

  // What it is for none of the first n sessions to take the message.
  lemma NoneTakes(o: Oracle, clock: nat, ids: seq<string>, m: OlmMessage, n: nat)
    requires n <= |ids|
    ensures (forall j | 0 <= j < n :: !Takes(o, clock, ids, m, j)) <==>
            && (forall j | 0 <= j < n :: o.olmDecrypt(clock + j, ids[j], m).None?)
            && (forall j | 0 <= j < n :: m.messageType == 0 ==> !o.olmMatches(ids[j], m))
  {
    forall j | 0 <= j < n
      ensures Takes(o, clock, ids, m, j)
              <==> o.olmDecrypt(clock + j, ids[j], m).Some? || (m.messageType == 0 && o.olmMatches(ids[j], m))
    {
    }
    hide Takes;
    if forall j | 0 <= j < n :: !Takes(o, clock, ids, m, j) {
      forall j | 0 <= j < n
        ensures o.olmDecrypt(clock + j, ids[j], m).None? && (m.messageType == 0 ==> !o.olmMatches(ids[j], m))
      {
        assert !Takes(o, clock, ids, m, j);
      }
    }
  }

  lemma OpenedExactly(o: Oracle, clock: nat, ids: seq<string>, m: OlmMessage, text: string)
    ensures VerdictOf(o, clock, ids, m) == Opened(text) <==>
            exists i :: && 0 <= i < |ids| && o.olmDecrypt(clock + i, ids[i], m) == Some(text)
                        && (forall j | 0 <= j < i :: o.olmDecrypt(clock + j, ids[j], m).None?)
                        && (forall j | 0 <= j < i :: m.messageType == 0 ==> !o.olmMatches(ids[j], m))
  {
    var first := FirstTaker(o, clock, ids, m);
    NoneTakes(o, clock, ids, m, first);
    if i :| && 0 <= i < |ids| && o.olmDecrypt(clock + i, ids[i], m) == Some(text)
            && (forall j | 0 <= j < i :: o.olmDecrypt(clock + j, ids[j], m).None?)
            && (forall j | 0 <= j < i :: m.messageType == 0 ==> !o.olmMatches(ids[j], m)) {
      assert Takes(o, clock, ids, m, i);
      hide Takes;
      NoneTakes(o, clock, ids, m, i);
      assert first == i;
    }
  }

  lemma UnclaimedExactly(o: Oracle, clock: nat, ids: seq<string>, m: OlmMessage)
    ensures VerdictOf(o, clock, ids, m).Unclaimed? <==>
            && (forall j | 0 <= j < |ids| :: o.olmDecrypt(clock + j, ids[j], m).None?)
            && (forall j | 0 <= j < |ids| :: m.messageType == 0 ==> !o.olmMatches(ids[j], m))
  {
    NoneTakes(o, clock, ids, m, |ids|);
    hide Takes;
  }

  /** One of these sessions gives the text that is tried before any other that decrypts or matches the message, or none
      of them does either and the session created from a prekey message gives it. */
  ghost predicate GivenAmong(o: Oracle, clock: nat, ids: seq<string>, device: string, m: OlmMessage, text: string) {
    || (exists i :: && 0 <= i < |ids| && o.olmDecrypt(clock + i, ids[i], m) == Some(text)
                    && (forall j | 0 <= j < i :: o.olmDecrypt(clock + j, ids[j], m).None?)
                    && (forall j | 0 <= j < i :: m.messageType == 0 ==> !o.olmMatches(ids[j], m)))
    || (&& m.messageType == 0
        && (forall j | 0 <= j < |ids| :: o.olmDecrypt(clock + j, ids[j], m).None?)
        && (forall j | 0 <= j < |ids| :: m.messageType == 0 ==> !o.olmMatches(ids[j], m))
        && o.olmCreate(clock + |ids|, device, m).Some?
        && o.olmCreate(clock + |ids|, device, m).value.payload == Some(text))
  }

  ghost predicate OlmGives(o: Oracle, c: Stores, device: string, m: OlmMessage, text: string) {
    var bg := if device in c.bgOlm then c.bgOlm[device] else [];
    var app := if device in c.appOlm then c.appOlm[device] else [];
    GivenAmong(o, c.clock, bg + app, device, m, text)
  }

  predicate CreatedGives(o: Oracle, clock: nat, device: string, m: OlmMessage, text: string) {
    m.messageType == 0 && o.olmCreate(clock, device, m).Some?
      && o.olmCreate(clock, device, m).value.payload == Some(text)
  }

  lemma GivenByVerdict(o: Oracle, clock: nat, ids: seq<string>, device: string, m: OlmMessage, text: string)
    ensures var verdict := VerdictOf(o, clock, ids, m);
            GivenAmong(o, clock, ids, device, m, text) <==>
            verdict == Opened(text) || (verdict.Unclaimed? && CreatedGives(o, clock + |ids|, device, m, text))
  {
    hide VerdictOf;
    OpenedExactly(o, clock, ids, m, text);
    UnclaimedExactly(o, clock, ids, m);
  }

  lemma TextByVerdict(o: Oracle, c: Stores, device: string, m: OlmMessage, text: string)
    ensures var ids := Known(c, device);
            var verdict := VerdictOf(o, c.clock, ids, m);
            DecryptOlm(o, c, device, m).1 == Some(text) <==>
            verdict == Opened(text) || (verdict.Unclaimed? && CreatedGives(o, c.clock + |ids|, device, m, text))
  {
    TrySessionsMeaning(o, c, Known(c, device), device, m);
    hide TrySessions, VerdictOf, Known, StoreOlm;
  }

  /** Decrypting an Olm message gives a text exactly when some session gives it, known to one of the stores or new. */
  lemma OlmTextExactly(o: Oracle, c: Stores, device: string, m: OlmMessage, text: string)
    ensures DecryptOlm(o, c, device, m).1 == Some(text) <==> OlmGives(o, c, device, m, text)
  {
    TextByVerdict(o, c, device, m, text);
    GivenByVerdict(o, c.clock, Known(c, device), device, m, text);
    hide DecryptOlm, GivenAmong, VerdictOf, CreatedGives;
  }

  predicate IsKnown(c: Stores, device: string, sessionId: string) {
    sessionId in Known(c, device)
  }

  // Nothing is known after a step but what was known before, possibly `extra` of one device, and nothing is forgotten.
  ghost predicate Gains(c: Stores, c': Stores, device: string, extra: Option<string>) {
    && c'.appOlm == c.appOlm && c'.appKeys == c.appKeys && c'.bgKeys == c.bgKeys
    && forall d, sid :: IsKnown(c', d, sid) <==> IsKnown(c, d, sid) || (d == device && Some(sid) == extra)
  }

  lemma StoreOlmGains(c: Stores, device: string, sessionId: string)
    ensures Gains(c, Tick(StoreOlm(c, device, sessionId)), device, Some(sessionId))
    ensures Gains(c, StoreOlm(Tick(c), device, sessionId), device, Some(sessionId))
  {
  }

  lemma TransferGainsNothing(c: Stores, device: string, sessionId: string)
    ensures Gains(c, Tick(TransferOlm(c, device, sessionId)), device, None)
  {
  }

  lemma {:induction false} TrySessionsGainsNothing(o: Oracle, c: Stores, ids: seq<string>, device: string,
                                                   m: OlmMessage)
    ensures Gains(c, TrySessions(o, c, ids, device, m).0, device, None)
    decreases ids
  {
    if ids != [] {
      hide IsKnown, TransferOlm;
      TransferGainsNothing(c, device, ids[0]);
      TrySessionsGainsNothing(o, Tick(TransferOlm(c, device, ids[0])), ids[1..], device, m);
    }
  }

  /** The session that decrypting this message creates, if it creates one. */
  function NewSession(o: Oracle, c: Stores, device: string, m: OlmMessage): Option<string> {
    var ids := Known(c, device);
    if m.messageType == 0 && VerdictOf(o, c.clock, ids, m).Unclaimed? && o.olmCreate(c.clock + |ids|, device, m).Some?
    then Some(o.olmCreate(c.clock + |ids|, device, m).value.sessionId)
    else None
  }

  /** A session is created exactly for a prekey message that no known session decrypts or matches, and it is the only
      thing that is new afterwards. */
  lemma OlmSessionsGrowExactly(o: Oracle, c: Stores, device: string, m: OlmMessage)
    ensures Gains(c, DecryptOlm(o, c, device, m).0, device, NewSession(o, c, device, m))
  {
    hide IsKnown, TrySessions, StoreOlm, VerdictOf;
    var ids := Known(c, device);
    var c1 := TrySessions(o, c, ids, device, m).0;
    TrySessionsMeaning(o, c, ids, device, m);
    TrySessionsGainsNothing(o, c, ids, device, m);
    TickGainsNothing(c1, device);
    if o.olmCreate(c1.clock, device, m).Some? {
      StoreOlmGains(c1, device, o.olmCreate(c1.clock, device, m).value.sessionId);
    }
  }

  lemma TickGainsNothing(c: Stores, device: string)
    ensures Gains(c, Tick(c), device, None)
  {
  }

  // No session before this one in the list has decrypted or matched the message.
  ghost predicate Reached(o: Oracle, clock: nat, ids: seq<string>, m: OlmMessage, i: nat) {
    && i < |ids| && (forall j | 0 <= j < i :: o.olmDecrypt(clock + j, ids[j], m).None?)
    && (forall j | 0 <= j < i :: m.messageType == 0 ==> !o.olmMatches(ids[j], m))
  }

  ghost predicate IsTried(o: Oracle, clock: nat, ids: seq<string>, m: OlmMessage, sid: string) {
    exists i: nat :: Reached(o, clock, ids, m, i) && ids[i] == sid
  }

  predicate NoneTwice(ids: seq<string>) {
    forall i, j | 0 <= i < j < |ids| :: ids[i] != ids[j]
  }

  // Sessions of the background store after sessions of this list have been tried: those before, in front, and those
  // tried.
  ghost predicate StoredOf(o: Oracle, c: Stores, c': Stores, ids: seq<string>, device: string, m: OlmMessage) {
    && (NoneTwice(Sessions(c.bgOlm, device)) ==> NoneTwice(Sessions(c'.bgOlm, device)))
    && Sessions(c.bgOlm, device) <= Sessions(c'.bgOlm, device)
    && (forall sid :: sid in Sessions(c'.bgOlm, device) <==>
          sid in Sessions(c.bgOlm, device) || IsTried(o, c.clock, ids, m, sid))
  }

  // Only this session is new among those of the device, and it is behind the others.
  ghost predicate AddsOne(c: Stores, c': Stores, device: string, sessionId: string) {
    var bg, bg' := Sessions(c.bgOlm, device), Sessions(c'.bgOlm, device);
    bg <= bg' && (NoneTwice(bg) ==> NoneTwice(bg')) && forall sid :: sid in bg' <==> sid in bg || sid == sessionId
  }

  lemma TransferStores(c: Stores, device: string, sessionId: string)
    requires IsKnown(c, device, sessionId)
    ensures AddsOne(c, Tick(TransferOlm(c, device, sessionId)), device, sessionId)
  {
  }

  lemma ReachedNext(o: Oracle, clock: nat, ids: seq<string>, m: OlmMessage, i: nat)
    requires ids != [] && o.olmDecrypt(clock, ids[0], m).None? && (m.messageType == 0 ==> !o.olmMatches(ids[0], m))
    ensures Reached(o, clock, ids, m, i + 1) <==> Reached(o, clock + 1, ids[1..], m, i)
  {
    if i + 1 < |ids| {
      assert forall j | 0 <= j < i :: ids[1..][j] == ids[j + 1];
      if Reached(o, clock, ids, m, i + 1) {
        forall j | 0 <= j < i ensures o.olmDecrypt(clock + 1 + j, ids[1..][j], m).None? {
          assert o.olmDecrypt(clock + (j + 1), ids[j + 1], m).None?;
        }
      }
      if Reached(o, clock + 1, ids[1..], m, i) {
        forall j | 0 <= j < i + 1 ensures o.olmDecrypt(clock + j, ids[j], m).None? {
          if 0 < j {
            assert o.olmDecrypt(clock + 1 + (j - 1), ids[1..][j - 1], m).None?;
          }
        }
        forall j | 0 <= j < i + 1 ensures m.messageType == 0 ==> !o.olmMatches(ids[j], m) {
          assert 0 < j ==> ids[j] == ids[1..][j - 1];
        }
      }
    }
  }

  lemma ReachedHead(o: Oracle, clock: nat, ids: seq<string>, m: OlmMessage, sid: string)
    requires ids != []
    ensures var more := o.olmDecrypt(clock, ids[0], m).None? && (m.messageType == 0 ==> !o.olmMatches(ids[0], m));
            IsTried(o, clock, ids, m, sid) <==> sid == ids[0] || (more && IsTried(o, clock + 1, ids[1..], m, sid))
  {
    assert Reached(o, clock, ids, m, 0);
    if o.olmDecrypt(clock, ids[0], m).None? && (m.messageType == 0 ==> !o.olmMatches(ids[0], m)) {
      if i: nat :| Reached(o, clock, ids, m, i) && ids[i] == sid && 0 < i {
        ReachedNext(o, clock, ids, m, i - 1);
        assert ids[1..][i - 1] == sid;
      }
      if i: nat :| Reached(o, clock + 1, ids[1..], m, i) && ids[1..][i] == sid {
        ReachedNext(o, clock, ids, m, i);
        assert ids[i + 1] == sid;
      }
    }
  }

  // The list is tried no further than this session.
  predicate Stops(o: Oracle, clock: nat, sessionId: string, m: OlmMessage) {
    o.olmDecrypt(clock, sessionId, m).Some? || (m.messageType == 0 && o.olmMatches(sessionId, m))
  }

  lemma StoredAtOnce(o: Oracle, c: Stores, c1: Stores, ids: seq<string>, device: string, m: OlmMessage)
    requires ids != [] && AddsOne(c, c1, device, ids[0]) && Stops(o, c.clock, ids[0], m)
    ensures StoredOf(o, c, c1, ids, device, m)
  {
    hide IsTried;
    forall sid ensures IsTried(o, c.clock, ids, m, sid) <==> sid == ids[0] {
      ReachedHead(o, c.clock, ids, m, sid);
    }
  }

  lemma StoredOnwards(o: Oracle, c: Stores, c1: Stores, c2: Stores, ids: seq<string>, device: string, m: OlmMessage)
    requires ids != [] && AddsOne(c, c1, device, ids[0]) && !Stops(o, c.clock, ids[0], m) && c1.clock == c.clock + 1
    requires StoredOf(o, c1, c2, ids[1..], device, m)
    ensures StoredOf(o, c, c2, ids, device, m)
  {
    hide IsTried;
    forall sid ensures IsTried(o, c.clock, ids, m, sid)
      <==> sid == ids[0] || IsTried(o, c.clock + 1, ids[1..], m, sid) {
      ReachedHead(o, c.clock, ids, m, sid);
    }
  }

  /** Each session that is tried is in the background store afterwards, behind those that were, and no other is new
      there. */
  lemma {:induction false} TriedAreStored(o: Oracle, c: Stores, ids: seq<string>, device: string, m: OlmMessage)
    requires forall id | id in ids :: IsKnown(c, device, id)
    ensures StoredOf(o, c, TrySessions(o, c, ids, device, m).0, ids, device, m)
    decreases ids
  {
    if ids == [] {
      assert forall sid :: !IsTried(o, c.clock, ids, m, sid);
    } else {
      var c1 := Tick(TransferOlm(c, device, ids[0]));
      TransferStores(c, device, ids[0]);
      TransferGainsNothing(c, device, ids[0]);
      hide AddsOne, StoredOf, TransferOlm, IsKnown;
      if Stops(o, c.clock, ids[0], m) {
        StoredAtOnce(o, c, c1, ids, device, m);
      } else {
        TriedAreStored(o, c1, ids[1..], device, m);
        StoredOnwards(o, c, c1, TrySessions(o, c1, ids[1..], device, m).0, ids, device, m);
      }
    }
  }

  lemma CreatedIsStored(o: Oracle, c: Stores, device: string, m: OlmMessage)
    ensures var created, c' := o.olmCreate(c.clock, device, m), CreateInbound(o, c, device, m).0;
            && (created.Some? ==> AddsOne(c, c', device, created.value.sessionId))
            && (created.None? ==> Sessions(c'.bgOlm, device) == Sessions(c.bgOlm, device))
  {
  }

  // What is stored of the sessions of a list and of one that is created afterwards, or of none.
  lemma StoredThen(o: Oracle, c: Stores, c1: Stores, c2: Stores, ids: seq<string>, device: string, m: OlmMessage,
                   created: Option<string>)
    requires StoredOf(o, c, c1, ids, device, m)
    requires created.Some? ==> AddsOne(c1, c2, device, created.value)
    requires created.None? ==> Sessions(c2.bgOlm, device) == Sessions(c1.bgOlm, device)
    ensures var bg, bg2 := Sessions(c.bgOlm, device), Sessions(c2.bgOlm, device);
            && bg <= bg2 && (NoneTwice(bg) ==> NoneTwice(bg2))
            && forall sid :: sid in bg2 <==> sid in bg || Some(sid) == created || IsTried(o, c.clock, ids, m, sid)
  {
    hide IsTried, NoneTwice, Sessions;
  }

  /** What decrypting an Olm message leaves in the background store: the sessions of the device that were there, each
      one that was tried, and the one that was created, none of them twice. */
  lemma OlmStoresExactly(o: Oracle, c: Stores, device: string, m: OlmMessage)
    ensures var bg, bg' := Sessions(c.bgOlm, device), Sessions(DecryptOlm(o, c, device, m).0.bgOlm, device);
            && bg <= bg' && (NoneTwice(bg) ==> NoneTwice(bg'))
            && forall sid :: sid in bg' <==>
                 sid in bg || Some(sid) == NewSession(o, c, device, m) || IsTried(o, c.clock, Known(c, device), m, sid)
  {
    var ids := Known(c, device);
    var c1 := TrySessions(o, c, ids, device, m).0;
    assert forall id | id in ids :: IsKnown(c, device, id);
    TriedAreStored(o, c, ids, device, m);
    TrySessionsMeaning(o, c, ids, device, m);
    CreatedIsStored(o, c1, device, m);
    hide TrySessions, VerdictOf, Known, CreateInbound, StoredOf, AddsOne, IsTried, Sessions, NoneTwice;
    StoredThen(o, c, c1, DecryptOlm(o, c, device, m).0, ids, device, m, NewSession(o, c, device, m));
  }

  // ---- Olm over whole runs ----

  /** A created session recognises the prekey message it was created from. */
  ghost predicate MatchesOwnPrekey(o: Oracle) {
    forall n: nat, device, m :: o.olmCreate(n, device, m).Some? ==>
      o.olmMatches(o.olmCreate(n, device, m).value.sessionId, m)
  }

  datatype Delivery = Delivery(device: string, message: OlmMessage)

  /** A message is decrypted; the background store is reset; the service starts again, when the app may have other
      sessions. */
  datatype OlmStep = Arrive(delivery: Delivery) | ResetStore | Reopen(appOlm: map<string, seq<string>>)

  function AfterOlm(o: Oracle, c: Stores, step: OlmStep): Stores {
    match step
    case Arrive(d) => DecryptOlm(o, c, d.device, d.message).0
    case ResetStore => Reset(c)
    case Reopen(appOlm) => c.(appOlm := appOlm)
  }

  // How often the run creates a session for one message of one device.
  function Creations(o: Oracle, c: Stores, run: seq<OlmStep>, target: Delivery): nat
    decreases run
  {
    if run == [] then 0
    else
      (if run[0] == Arrive(target) && NewSession(o, c, target.device, target.message).Some? then 1 else 0)
      + Creations(o, AfterOlm(o, c, run[0]), run[1..], target)
  }

  ghost predicate Forgets(o: Oracle, c: Stores, step: OlmStep, device: string) {
    exists sid :: IsKnown(c, device, sid) && !IsKnown(AfterOlm(o, c, step), device, sid)
  }

  // How many steps of the run forget a session of the device.
  ghost function Losses(o: Oracle, c: Stores, run: seq<OlmStep>, device: string): nat
    decreases run
  {
    if run == [] then 0
    else (if Forgets(o, c, run[0], device) then 1 else 0) + Losses(o, AfterOlm(o, c, run[0]), run[1..], device)
  }

  /** Decrypting forgets no session: only a reset, or an app that comes back with fewer sessions, does. */
  lemma ArrivalsForgetNothing(o: Oracle, c: Stores, step: OlmStep, device: string)
    requires Forgets(o, c, step, device)
    ensures !step.Arrive?
  {
    if step.Arrive? {
      OlmSessionsGrowExactly(o, c, step.delivery.device, step.delivery.message);
      hide DecryptOlm, NewSession, IsKnown;
    }
  }

  predicate HasMatch(o: Oracle, c: Stores, d: Delivery) {
    exists sid :: sid in Known(c, d.device) && o.olmMatches(sid, d.message)
  }

  lemma MatchBlocksCreation(o: Oracle, c: Stores, d: Delivery)
    requires HasMatch(o, c, d)
    ensures NewSession(o, c, d.device, d.message).None?
  {
    var ids := Known(c, d.device);
    var sid :| sid in ids && o.olmMatches(sid, d.message);
    var i :| 0 <= i < |ids| && ids[i] == sid;
    assert d.message.messageType == 0 ==> Takes(o, c.clock, ids, d.message, i);
  }

  lemma MatchStays(o: Oracle, c: Stores, step: OlmStep, d: Delivery)
    requires HasMatch(o, c, d) && !Forgets(o, c, step, d.device)
    ensures HasMatch(o, AfterOlm(o, c, step), d)
  {
    hide AfterOlm;
    var sid :| sid in Known(c, d.device) && o.olmMatches(sid, d.message);
    assert IsKnown(c, d.device, sid);
    assert IsKnown(AfterOlm(o, c, step), d.device, sid);
  }

  lemma {:induction false} NoCreationAfterMatch(o: Oracle, c: Stores, run: seq<OlmStep>, target: Delivery)
    requires MatchesOwnPrekey(o) && HasMatch(o, c, target)
    ensures Creations(o, c, run, target) <= Losses(o, c, run, target.device)
    decreases run, 0
  {
    if run != [] {
      MatchBlocksCreation(o, c, target);
      if Forgets(o, c, run[0], target.device) {
        hide HasMatch, NewSession, AfterOlm, Forgets;
        ReplayCreatesOncePerLoss(o, AfterOlm(o, c, run[0]), run[1..], target);
      } else {
        MatchStays(o, c, run[0], target);
        hide HasMatch, NewSession, AfterOlm, Forgets;
        NoCreationAfterMatch(o, AfterOlm(o, c, run[0]), run[1..], target);
      }
    }
  }

  /** Whatever else is delivered between, and however often the service starts: one message creates at most one session,
      and one more for each step that forgets a session of its device. */
  lemma {:induction false} ReplayCreatesOncePerLoss(o: Oracle, c: Stores, run: seq<OlmStep>, target: Delivery)
    requires MatchesOwnPrekey(o)
    ensures Creations(o, c, run, target) <= 1 + Losses(o, c, run, target.device)
    decreases run, 1
  {
    if run != [] {
      var c' := AfterOlm(o, c, run[0]);
      if run[0] == Arrive(target) && NewSession(o, c, target.device, target.message).Some? {
        CreatedMatches(o, c, target);
        hide HasMatch, NewSession, AfterOlm, Forgets;
        NoCreationAfterMatch(o, c', run[1..], target);
      } else {
        hide HasMatch, NewSession, AfterOlm, Forgets;
        ReplayCreatesOncePerLoss(o, c', run[1..], target);
      }
    }
  }

  lemma CreatedMatches(o: Oracle, c: Stores, d: Delivery)
    requires MatchesOwnPrekey(o) && NewSession(o, c, d.device, d.message).Some?
    ensures HasMatch(o, AfterOlm(o, c, Arrive(d)), d)
  {
    OlmSessionsGrowExactly(o, c, d.device, d.message);
    hide DecryptOlm;
    var sid := NewSession(o, c, d.device, d.message).value;
    assert IsKnown(DecryptOlm(o, c, d.device, d.message).0, d.device, sid);
  }

  /** After a reset a message creates a session, be it again, exactly when it is a prekey message that no session of the
      app takes and from which a session can be built. */
  lemma CreatesAfterResetExactly(o: Oracle, c: Stores, d: Delivery)
    ensures var app := Sessions(c.appOlm, d.device);
            NewSession(o, Reset(c), d.device, d.message).Some? <==>
            && d.message.messageType == 0
            && (forall i | 0 <= i < |app| :: !Takes(o, c.clock, app, d.message, i))
            && o.olmCreate(c.clock + |app|, d.device, d.message).Some?
  {
    var app := Sessions(c.appOlm, d.device);
    assert Known(Reset(c), d.device) == app;
    var i := FirstTaker(o, c.clock, app, d.message);
    assert i < |app| ==> Takes(o, c.clock, app, d.message, i);
  }

  // An app without sessions, and sessions that claim every message and decrypt none.
  function Claiming(): Oracle {
    Oracle((n: nat, sid, m) => None, (sid, m) => true, (n: nat, device, m) => Some(Created("s", None)),
           (session, text) => Undecryptable, (key, exported) => None, text => None, None, None, None)
  }

  lemma FirstCreation(d: Delivery)
    requires d.message.messageType == 0
    ensures NewSession(Claiming(), NO_KEYS, d.device, d.message) == Some("s")
    ensures var c := AfterOlm(Claiming(), NO_KEYS, Arrive(d));
            && Known(c, d.device) == ["s"] && c.appOlm == map[] && NewSession(Claiming(), c, d.device, d.message).None?
            && NewSession(Claiming(), Reset(c), d.device, d.message).Some? && Known(Reset(c), d.device) == []
  {
    var o, c := Claiming(), AfterOlm(Claiming(), NO_KEYS, Arrive(d));
    assert Known(NO_KEYS, d.device) == [];
    assert ["s"] + [] == ["s"] && [] + ["s"] == ["s"];
    assert Known(c, d.device) == ["s"];
    CreatesAfterResetExactly(o, c, d);
    CreatedMatches(o, NO_KEYS, d);
    MatchBlocksCreation(o, c, d);
  }

  lemma OneArrival(o: Oracle, c: Stores, d: Delivery)
    ensures Creations(o, c, [Arrive(d)], d) == if NewSession(o, c, d.device, d.message).Some? then 1 else 0
    ensures Losses(o, c, [Arrive(d)], d.device) == 0
  {
    if Forgets(o, c, Arrive(d), d.device) {
      ArrivalsForgetNothing(o, c, Arrive(d), d.device);
    }
    hide NewSession, AfterOlm, Forgets;
    assert [Arrive(d)][1..] == [];
  }

  /** The bound is reached: one prekey message, delivered before and after a reset, creates twice; without it once. */
  lemma ResetCreatesAgain(d: Delivery) returns (o: Oracle, c: Stores)
    requires d.message.messageType == 0
    ensures MatchesOwnPrekey(o)
    ensures var run := [Arrive(d), ResetStore, Arrive(d)];
            Creations(o, c, run, d) == 2 && Losses(o, c, run, d.device) == 1
    ensures Creations(o, c, [Arrive(d), Arrive(d)], d) == 1
  {
    o, c := Claiming(), NO_KEYS;
    var c1 := AfterOlm(o, c, Arrive(d));
    FirstCreation(d);
    assert IsKnown(c1, d.device, "s") && !IsKnown(AfterOlm(o, c1, ResetStore), d.device, "s");
    if Forgets(o, c, Arrive(d), d.device) {
      ArrivalsForgetNothing(o, c, Arrive(d), d.device);
    }
    OneArrival(o, c1, d);
    OneArrival(o, Reset(c1), d);
    var run := [Arrive(d), ResetStore, Arrive(d)];
    assert run[1..] == [ResetStore, Arrive(d)] && run[1..][1..] == [Arrive(d)];
    assert [Arrive(d), Arrive(d)][1..] == [Arrive(d)];
    assert Forgets(o, c1, ResetStore, d.device);
    assert AfterOlm(o, c1, ResetStore) == Reset(c1);
    hide NewSession, AfterOlm, Forgets;
    assert Creations(o, c1, run[1..], d) == 1 && Losses(o, c1, run[1..], d.device) == 1;
  }
}
