// Decrypting one event, and taking the room keys that to-device events carry
// (MatrixSDK/Background/MXBackgroundSyncService.swift, MatrixSDK/Crypto/MXOlmDevice.m, MatrixSDK/JSONModels/MXEvent.m).
module EventDecryption {
  import opened Wrappers
  import opened Events
  import opened Crypto

  datatype Decryption = Decryption(stores: Stores, event: MXEvent, error: Option<CryptoError>)

  // The content is read without a check for nil.
  predicate HasContent(e: MXEvent) {
    e.Content().Some?
  }

  function KeyOf(e: MXEvent): Option<KeyId>
    requires HasContent(e)
  {
    var content := e.Content().value;
    if content.senderKey.Some? && content.sessionId.Some?
    then Some(KeyId(content.sessionId.value, content.senderKey.value))
    else None
  }

  /** `canDecryptEvent`: only Megolm keys are looked for. */
  predicate CanDecrypt(c: Stores, e: MXEvent)
    requires e.IsEncrypted() ==> HasContent(e)
  {
    !e.IsEncrypted() || (KeyOf(e).Some? && Key(c, KeyOf(e).value).Some?)
  }

  // `setClearData`: without a clear event nothing is set.
  function SetClearData(e: MXEvent, clear: Option<ClearEvent>, senderKey: string, claimed: Option<string>,
                        chain: seq<string>): MXEvent {
    e.(clear := if clear.None? then None
                else Some(ClearData(clear.value.eventType, clear.value.content, Some(senderKey), claimed, chain)))
  }

  /** `decryptGroupMessage` and what is done with its result. */
  function DecryptMegolm(o: Oracle, c: Stores, e: MXEvent): Decryption
    requires HasContent(e)
  {
    var content := e.Content().value;
    if KeyOf(e).None? || !content.ciphertext.Text? then Decryption(c, e, Some(Unknown))
    else
      var c' := TransferKey(c, KeyOf(e).value);
      var session := Key(c', KeyOf(e).value);
      if session.None? || e.roomId != Some(session.value.roomId) then Decryption(c', e, Some(NoGroupSession))
      else
        match o.megolmDecrypt(session.value, content.ciphertext.text)
        case Undecryptable => Decryption(c', e, Some(NoGroupSession))
        case Plain(clear) =>
          Decryption(c', SetClearData(e, clear, KeyOf(e).value.senderKey, session.value.claimedEd25519,
                                      session.value.forwardingChain), None)
  }

  /** The message is for this user and this device, and from whom and for where it says. */
  predicate Addressed(o: Oracle, e: MXEvent, p: OlmPayload) {
    && p.recipient.Some? && p.recipient == o.userId
    && p.recipientEd25519.Some? && p.recipientEd25519 == o.ed25519
    && p.sender.Some? && p.sender == e.sender
    && (e.roomId.Some? ==> p.roomId == e.roomId)
  }

  function OlmMessageFor(o: Oracle, e: MXEvent): Option<OlmMessage>
    requires HasContent(e)
  {
    var ciphertext := e.Content().value.ciphertext;
    if ciphertext.PerDevice? && o.curve25519.Some? && o.curve25519.value in ciphertext.messages
    then Some(ciphertext.messages[o.curve25519.value])
    else None
  }

  function DecryptWithOlm(o: Oracle, c: Stores, e: MXEvent): Decryption
    requires HasContent(e) && e.Content().value.senderKey.Some?
  {
    var senderKey := e.Content().value.senderKey.value;
    if OlmMessageFor(o, e).None? then Decryption(c, e, Some(DecryptionFailure))
    else
      var (c', text) := DecryptOlm(o, c, senderKey, OlmMessageFor(o, e).value);
      if text.None? || o.parse(text.value).None? || !Addressed(o, e, o.parse(text.value).value)
      then Decryption(c', e, Some(DecryptionFailure))
      else
        var p := o.parse(text.value).value;
        Decryption(c', SetClearData(e, Some(p.clear), senderKey, p.claimedEd25519, []), None)
  }

  /** `decryptEvent`. */
  function Decrypt(o: Oracle, c: Stores, e: MXEvent): Decryption
    requires e.IsEncrypted() ==> HasContent(e)
  {
    if !e.IsEncrypted() then Decryption(c, e, None)
    else
      var content := e.Content().value;
      if content.senderKey.None? || content.algorithm.None? then Decryption(c, e, Some(Unknown))
      else if content.algorithm.value == MEGOLM then DecryptMegolm(o, c, e)
      else if content.algorithm.value == OLM then DecryptWithOlm(o, c, e)
      else Decryption(c, e, Some(UnknownAlgorithm))
  }

  // The session has the key, and the message's text is not a JSON object.
  predicate TextIsNotJson(o: Oracle, c: Stores, e: MXEvent)
    requires HasContent(e)
  {
    var content := e.Content().value;
    && content.algorithm == Some(MEGOLM) && KeyOf(e).Some? && content.ciphertext.Text?
    && Key(c, KeyOf(e).value).Some? && e.roomId == Some(Key(c, KeyOf(e).value).value.roomId)
    && o.megolmDecrypt(Key(c, KeyOf(e).value).value, content.ciphertext.text) == Plain(None)
  }

  /** Decryption without an error leaves a readable event, except exactly when a Megolm message is not a JSON object:
      that is not reported as an error and leaves no clear event. */
  lemma DecryptedIsReadableExactly(o: Oracle, c: Stores, e: MXEvent)
    requires e.IsEncrypted() ==> HasContent(e)
    requires Decrypt(o, c, e).error.None?
    ensures Decrypt(o, c, e).event.Readable() <==> !(e.IsEncrypted() && TextIsNotJson(o, c, e))
    ensures Decrypt(o, c, e).event.(clear := None) == e.(clear := None)
  {
    hide DecryptOlm;
  }

  /** A failed decryption leaves the event alone. */
  lemma FailedDecryptionLeavesEvent(o: Oracle, c: Stores, e: MXEvent)
    requires (e.IsEncrypted() ==> HasContent(e)) && Decrypt(o, c, e).error.Some?
    ensures Decrypt(o, c, e).event == e
  {
    hide DecryptOlm;
  }

  lemma OlmIsNotMegolm()
    ensures OLM != MEGOLM
  {
    assert OLM[2] == 'o' && MEGOLM[2] == 'm';
  }

  /** An Olm event decrypts, and to this clear data, exactly when it has a message for this device, a session gives a
      text for it, and the text is for this user and device, from the sender and for the room of the event. */
  lemma OlmDecryptsExactly(o: Oracle, c: Stores, e: MXEvent, clear: ClearData)
    requires e.clear.None? && e.IsEncrypted() && e.wireContent.algorithm == Some("m.olm.v1.curve25519-aes-sha2")
    ensures Decrypt(o, c, e).error.None? && Decrypt(o, c, e).event.clear == Some(clear) <==>
            && e.wireContent.senderKey.Some? && e.wireContent.ciphertext.PerDevice?
            && o.curve25519.Some? && o.curve25519.value in e.wireContent.ciphertext.messages
            && var device, m := e.wireContent.senderKey.value, e.wireContent.ciphertext.messages[o.curve25519.value];
               exists text ::
                 && OlmGives(o, c, device, m, text) && o.parse(text).Some?
                 && var p := o.parse(text).value;
                    && p.recipient.Some? && p.recipient == o.userId
                    && p.recipientEd25519.Some? && p.recipientEd25519 == o.ed25519
                    && p.sender.Some? && p.sender == e.sender && (e.roomId.Some? ==> p.roomId == e.roomId)
                    && clear == ClearData(p.clear.eventType, p.clear.content, Some(device), p.claimedEd25519, [])
  {
    OlmIsNotMegolm();
    if OlmMessageFor(o, e).Some? && e.wireContent.senderKey.Some? {
      var device, m := e.wireContent.senderKey.value, OlmMessageFor(o, e).value;
      forall text ensures DecryptOlm(o, c, device, m).1 == Some(text) <==> OlmGives(o, c, device, m, text) {
        OlmTextExactly(o, c, device, m, text);
      }
    }
    hide DecryptOlm, OlmGives, DecryptMegolm;
  }

  /** A Megolm event decrypts, and to this clear data, exactly when its key is in one of the stores, is of the room of
      the event, and gives this content. */
  lemma MegolmDecryptsExactly(o: Oracle, c: Stores, e: MXEvent, clear: ClearData)
    requires e.clear.None? && e.IsEncrypted() && e.wireContent.algorithm == Some("m.megolm.v1.aes-sha2")
    ensures Decrypt(o, c, e).error.None? && Decrypt(o, c, e).event.clear == Some(clear) <==>
            && e.wireContent.senderKey.Some? && e.wireContent.sessionId.Some? && e.wireContent.ciphertext.Text?
            && var k := KeyId(e.wireContent.sessionId.value, e.wireContent.senderKey.value);
               && (k in c.bgKeys || k in c.appKeys)
               && var session := if k in c.bgKeys then c.bgKeys[k] else c.appKeys[k];
                  && e.roomId == Some(session.roomId)
                  && o.megolmDecrypt(session, e.wireContent.ciphertext.text)
                     == Plain(Some(ClearEvent(clear.eventType, clear.content)))
                  && clear.senderKey == e.wireContent.senderKey && clear.claimedEd25519 == session.claimedEd25519
                  && clear.forwardingChain == session.forwardingChain
  {
    hide DecryptWithOlm;
  }

  /** Which error a decryption that fails reports. */
  lemma DecryptionErrorsExactly(o: Oracle, c: Stores, e: MXEvent)
    requires e.clear.None? && e.IsEncrypted()
    ensures var content, error := e.wireContent, Decrypt(o, c, e).error;
            && (error == Some(Unknown) <==>
                  || content.senderKey.None? || content.algorithm.None?
                  || (content.algorithm == Some(MEGOLM) && (!content.ciphertext.Text? || content.sessionId.None?)))
            && (error == Some(UnknownAlgorithm) <==>
                  content.senderKey.Some? && content.algorithm.Some? && content.algorithm.value !in {MEGOLM, OLM})
            && (error == Some(DecryptionFailure) ==> content.algorithm == Some(OLM))
            && (error == Some(NoGroupSession) ==> content.algorithm == Some(MEGOLM))
  {
    OlmIsNotMegolm();
    hide DecryptOlm, Addressed;
  }

  // ---- Taking a room key ----

  datatype RoomKeyData = RoomKeyData(
    id: KeyId, sessionKey: string, roomId: string, chain: seq<string>, claimedEd25519: string, exported: bool)

  function SessionOf(d: RoomKeyData, i: Imported): GroupSession {
    GroupSession(d.sessionKey, i.identifier, i.firstKnownIndex, d.roomId, Some(d.claimedEd25519), d.chain)
  }

  /** A session is kept in preference to a new one that knows no earlier message of the same room. */
  predicate Accepts(o: Oracle, c: Stores, d: RoomKeyData) {
    var i, existing := o.importSession(d.sessionKey, d.exported), Key(c, d.id);
    && i.Some? && i.value.identifier == d.id.sessionId
    && (existing.Some? && existing.value.roomId == d.roomId ==>
        i.value.firstKnownIndex < existing.value.firstKnownIndex)
  }

  /** `addInboundGroupSession`. */
  function AddKey(o: Oracle, c: Stores, d: RoomKeyData): Stores {
    if Accepts(o, c, d)
    then c.(bgKeys := c.bgKeys[d.id := SessionOf(d, o.importSession(d.sessionKey, d.exported).value)])
    else c
  }

  // What a decrypted event says about a key; a trap is a forced cast that fails.
  datatype Extraction = Incomplete | Trap | Extracted(data: RoomKeyData)

  function Extract(e: MXEvent): Extraction {
    if e.Content().None? then Incomplete
    else
      var content := e.Content().value;
      if content.roomId.None? || content.sessionId.None? || content.sessionKey.None?
        || e.SenderKey().None? then Incomplete
      else
        var senderKey := e.SenderKey().value;
        match e.EventType()
        case RoomKey =>
          if e.ClaimedEd25519().None? then Trap
          else Extracted(RoomKeyData(KeyId(content.sessionId.value, senderKey), content.sessionKey.value,
                                     content.roomId.value,
                                     [], e.ClaimedEd25519().value, false))
        case RoomForwardedKey =>
          if content.senderKey.None? || content.senderClaimedEd25519.None? then Incomplete
          else Extracted(RoomKeyData(KeyId(content.sessionId.value, content.senderKey.value), content.sessionKey.value,
                                     content.roomId.value, content.forwardingChain.Or([]) + [senderKey],
                                     content.senderClaimedEd25519.value, true))
        case _ => Incomplete
  }

  datatype Handling = Handled(stores: Stores) | Crashed(stores: Stores)

  /** `handleToDeviceEvent`. */
  function HandleToDevice(o: Oracle, c: Stores, e: MXEvent): Handling
    requires e.IsEncrypted() ==> HasContent(e)
  {
    var d := Decrypt(o, c, e);
    if d.error.Some? then Handled(d.stores)
    else
      match Extract(d.event)
      case Incomplete => Handled(d.stores)
      case Trap => Crashed(d.stores)
      case Extracted(data) => Handled(AddKey(o, d.stores, data))
  }

  // ---- Where keys come from ----

  // Some Olm session, old or new, of the device gave this text for the message.
  ghost predicate OlmText(o: Oracle, device: string, m: OlmMessage, text: string) {
    || (exists n: nat, sid :: o.olmDecrypt(n, sid, m) == Some(text))
    || (exists n: nat :: o.olmCreate(n, device, m).Some? && o.olmCreate(n, device, m).value.payload == Some(text))
  }

  ghost predicate OlmOpens(o: Oracle, e: MXEvent, text: string, clear: ClearData)
  {
    && e.wireContent.algorithm == Some(OLM) && e.wireContent.senderKey.Some?
    && e.wireContent.ciphertext.PerDevice? && o.curve25519.Some?
       && o.curve25519.value in e.wireContent.ciphertext.messages
    && OlmText(o, e.wireContent.senderKey.value, e.wireContent.ciphertext.messages[o.curve25519.value], text)
    && o.parse(text).Some? && Addressed(o, e, o.parse(text).value)
    && clear.eventType == o.parse(text).value.clear.eventType && clear.content == o.parse(text).value.clear.content
    && clear.claimedEd25519 == o.parse(text).value.claimedEd25519
  }

  ghost predicate MegolmOpens(o: Oracle, e: MXEvent, session: GroupSession, clear: ClearData)
  {
    && e.wireContent.algorithm == Some(MEGOLM) && e.wireContent.ciphertext.Text?
    && e.roomId == Some(session.roomId) && clear.claimedEd25519 == session.claimedEd25519
    && o.megolmDecrypt(session, e.wireContent.ciphertext.text)
       == Plain(Some(ClearEvent(clear.eventType, clear.content)))
  }

  /** The clear data is the decryption of the event by some session; an Olm message has passed all its checks. */
  ghost predicate Authentic(o: Oracle, e: MXEvent, clear: ClearData) {
    && e.IsEncrypted() && e.wireContent.senderKey.Some? && clear.senderKey == e.wireContent.senderKey
    && ((exists text :: OlmOpens(o, e, text, clear)) || (exists session :: MegolmOpens(o, e, session, clear)))
  }

  /** A clear key event with all its fields, and the group session it describes. */
  ghost predicate Describes(o: Oracle, clear: ClearData, id: KeyId, session: GroupSession) {
    && clear.content.Some?
    && var content := clear.content.value;
    && content.sessionId == Some(id.sessionId) && content.sessionKey == Some(session.sessionKey)
       && content.roomId == Some(session.roomId)
    && session.identifier == id.sessionId
    && o.importSession(session.sessionKey, clear.eventType.RoomForwardedKey?)
       == Some(Imported(session.identifier, session.firstKnownIndex))
    && clear.senderKey.Some? && session.claimedEd25519.Some?
    && (clear.eventType.RoomKey? || clear.eventType.RoomForwardedKey?)
    && (clear.eventType.RoomKey? ==>
          clear.senderKey == Some(id.senderKey) && session.claimedEd25519 == clear.claimedEd25519
            && session.forwardingChain == [])
    && (clear.eventType.RoomForwardedKey? ==>
          && content.senderKey == Some(id.senderKey) && session.claimedEd25519 == content.senderClaimedEd25519
          && session.forwardingChain == content.forwardingChain.Or([]) + [clear.senderKey.value])
  }

  ghost predicate CameFrom(o: Oracle, e: MXEvent, id: KeyId, session: GroupSession) {
    exists clear :: Authentic(o, e, clear) && Describes(o, clear, id, session)
  }

  lemma DecryptIsAuthentic(o: Oracle, c: Stores, e: MXEvent)
    requires e.clear.None? && e.IsEncrypted()
    requires Decrypt(o, c, e).error.None? && Decrypt(o, c, e).event.clear.Some?
    ensures Authentic(o, e, Decrypt(o, c, e).event.clear.value)
  {
    var clear := Decrypt(o, c, e).event.clear.value;
    if e.wireContent.algorithm == Some(MEGOLM) {
      hide DecryptWithOlm;
      var session := Key(TransferKey(c, KeyOf(e).value), KeyOf(e).value).value;
      assert MegolmOpens(o, e, session, clear);
    } else {
      hide DecryptMegolm, DecryptOlm;
      var m := OlmMessageFor(o, e).value;
      var text := DecryptOlm(o, c, e.wireContent.senderKey.value, m).1.value;
      OlmTextOf(o, c, e.wireContent.senderKey.value, m);
      assert OlmOpens(o, e, text, clear);
    }
  }

  lemma OlmTextOf(o: Oracle, c: Stores, device: string, m: OlmMessage)
    requires DecryptOlm(o, c, device, m).1.Some?
    ensures OlmText(o, device, m, DecryptOlm(o, c, device, m).1.value)
  {
    hide TrySessions, VerdictOf, Known;
    var ids := Known(c, device);
    TrySessionsMeaning(o, c, ids, device, m);
    if VerdictOf(o, c.clock, ids, m).Opened? {
      OpenedText(o, c.clock, ids, m);
    }
  }

  lemma OpenedText(o: Oracle, clock: nat, ids: seq<string>, m: OlmMessage)
    requires VerdictOf(o, clock, ids, m).Opened?
    ensures exists n: nat, sid :: o.olmDecrypt(n, sid, m) == Some(VerdictOf(o, clock, ids, m).payload)
  {
    var i := FirstTaker(o, clock, ids, m);
    assert o.olmDecrypt(clock + i, ids[i], m) == Some(VerdictOf(o, clock, ids, m).payload);
  }

  // What decryption does to the keys: at most it copies one from the app's store.
  lemma DecryptKeys(o: Oracle, c: Stores, e: MXEvent)
    requires e.IsEncrypted() ==> HasContent(e)
    ensures var c' := Decrypt(o, c, e).stores;
            && c'.appKeys == c.appKeys && c'.appOlm == c.appOlm
            && (c'.bgKeys == c.bgKeys
                || (exists k :: k !in c.bgKeys && k in c.appKeys && c'.bgKeys == c.bgKeys[k := c.appKeys[k]]))
            && forall k :: Key(c', k) == Key(c, k)
  {
    hide DecryptOlm, NewSession;
    if e.IsEncrypted() && OlmMessageFor(o, e).Some? && e.Content().value.senderKey.Some? {
      OlmSessionsGrowExactly(o, c, e.Content().value.senderKey.value, OlmMessageFor(o, e).value);
    }
  }

  /** Decryption changes the Megolm keys in one case only: the key that a Megolm message names is in the app's store
      alone, and is then copied before it is used, whatever it makes of the message. */
  lemma DecryptionBorrowsExactly(o: Oracle, c: Stores, e: MXEvent)
    requires e.clear.None?
    ensures var content, bgKeys := e.wireContent, Decrypt(o, c, e).stores.bgKeys;
            if e.wireType == RoomEncrypted && content.algorithm == Some("m.megolm.v1.aes-sha2")
              && content.ciphertext.Text?
               && content.senderKey.Some? && content.sessionId.Some?
               && KeyId(content.sessionId.value, content.senderKey.value) in c.appKeys
               && KeyId(content.sessionId.value, content.senderKey.value) !in c.bgKeys
            then var k := KeyId(content.sessionId.value, content.senderKey.value);
                 bgKeys == c.bgKeys[k := c.appKeys[k]]
            else bgKeys == c.bgKeys
  {
    OlmIsNotMegolm();
    if OlmMessageFor(o, e).Some? && e.wireContent.senderKey.Some? {
      OlmSessionsGrowExactly(o, c, e.wireContent.senderKey.value, OlmMessageFor(o, e).value);
    }
    hide DecryptOlm, NewSession;
  }

  lemma ExtractedIsDescribed(o: Oracle, e: MXEvent, i: Imported)
    requires Extract(e).Extracted? && e.clear.Some?
    requires o.importSession(Extract(e).data.sessionKey, Extract(e).data.exported) == Some(i)
    requires i.identifier == Extract(e).data.id.sessionId
    ensures Describes(o, e.clear.value, Extract(e).data.id, SessionOf(Extract(e).data, i))
  {
  }

  /** Every key in the store after a to-device event was there before, was copied from the app's store, or came from
      this event, which then was encrypted, decrypted, passed its checks and had all fields of a key. */
  lemma OnlyAuthenticEventsAddKeys(o: Oracle, c: Stores, e: MXEvent, k: KeyId)
    requires e.clear.None? && k in HandleToDevice(o, c, e).stores.bgKeys
    ensures var g := HandleToDevice(o, c, e).stores.bgKeys[k];
            || (k in c.bgKeys && c.bgKeys[k] == g) || (k in c.appKeys && c.appKeys[k] == g) || CameFrom(o, e, k, g)
  {
    DecryptKeys(o, c, e);
    var d := Decrypt(o, c, e);
    if d.error.None? && Extract(d.event).Extracted? && Accepts(o, d.stores, Extract(d.event).data)
      && k == Extract(d.event).data.id {
      var data := Extract(d.event).data;
      hide Decrypt;
      assert d.event.clear.Some?;
      NotEncryptedNotDecrypted(o, c, e);
      DecryptIsAuthentic(o, c, e);
      hide Authentic, Describes;
      ExtractedIsDescribed(o, d.event, o.importSession(data.sessionKey, data.exported).value);
    }
  }

  lemma NotEncryptedNotDecrypted(o: Oracle, c: Stores, e: MXEvent)
    requires e.clear.None?
    ensures !e.IsEncrypted() ==> Decrypt(o, c, e) == Decryption(c, e, None)
  {
    hide DecryptWithOlm, DecryptMegolm;
  }

  /** An event that is not encrypted, or fails to decrypt, brings no key and no crash. */
  lemma OtherEventsBringNothing(o: Oracle, c: Stores, e: MXEvent)
    requires e.clear.None? && (!e.IsEncrypted() || Decrypt(o, c, e).error.Some? || Decrypt(o, c, e).event.clear.None?)
    ensures HandleToDevice(o, c, e) == Handled(Decrypt(o, c, e).stores)
    ensures forall k :: Key(HandleToDevice(o, c, e).stores, k) == Key(c, k)
  {
    DecryptKeys(o, c, e);
    assert e.IsEncrypted() && Decrypt(o, c, e).error.None? ==> Decrypt(o, c, e).event == e by {
      if e.IsEncrypted() && Decrypt(o, c, e).error.None? {
        DecryptedIsReadableExactly(o, c, e);
      }
    }
  }

  /** The one way a to-device event stops the service: a complete room key that decrypts but claims no Ed25519 key. */
  lemma CrashesExactly(o: Oracle, c: Stores, e: MXEvent)
    requires e.clear.None?
    ensures HandleToDevice(o, c, e).Crashed? <==>
            && e.IsEncrypted() && Decrypt(o, c, e).error.None? && Decrypt(o, c, e).event.clear.Some?
            && var clear := Decrypt(o, c, e).event.clear.value;
               clear.eventType.RoomKey? && clear.claimedEd25519.None? && clear.senderKey.Some? && clear.content.Some?
               && clear.content.value.roomId.Some? && clear.content.value.sessionId.Some?
                  && clear.content.value.sessionKey.Some?
  {
    NotEncryptedNotDecrypted(o, c, e);
    if e.IsEncrypted() && Decrypt(o, c, e).error.None? {
      DecryptedIsReadableExactly(o, c, e);
    }
    hide Decrypt, TextIsNotJson;
  }

  /** No key is lost, and a key is replaced only by one that reaches further back, or by one of another room. */
  lemma KeysAreKept(o: Oracle, c: Stores, e: MXEvent, k: KeyId)
    requires e.clear.None? && Key(c, k).Some?
    ensures var before, after := Key(c, k).value, Key(HandleToDevice(o, c, e).stores, k);
            && after.Some?
            && (after.value == before || after.value.roomId != before.roomId
                || after.value.firstKnownIndex < before.firstKnownIndex)
  {
    DecryptKeys(o, c, e);
    hide Decrypt;
  }

  /** The event decrypts to a complete key of this id, which imports under its own id, and names another room than the
      known one or reaches further back. */
  predicate Replaces(o: Oracle, c: Stores, e: MXEvent, k: KeyId)
    requires (e.IsEncrypted() ==> HasContent(e)) && Key(c, k).Some?
  {
    var d := Decrypt(o, c, e);
    && d.error.None? && Extract(d.event).Extracted?
    && var data := Extract(d.event).data;
       var i := o.importSession(data.sessionKey, data.exported);
       && data.id == k && i.Some? && i.value.identifier == k.sessionId
       && (data.roomId != Key(c, k).value.roomId || i.value.firstKnownIndex < Key(c, k).value.firstKnownIndex)
  }

  /** A known key changes exactly then, and becomes the one the event describes. */
  lemma KeyChangesExactly(o: Oracle, c: Stores, e: MXEvent, k: KeyId)
    requires e.clear.None? && Key(c, k).Some?
    ensures var after := Key(HandleToDevice(o, c, e).stores, k);
            && after.Some?
            && (after != Key(c, k) <==> Replaces(o, c, e, k))
            && (after != Key(c, k) ==>
                  var data := Extract(Decrypt(o, c, e).event).data;
                  after == Some(SessionOf(data, o.importSession(data.sessionKey, data.exported).value)))
  {
    DecryptKeys(o, c, e);
    hide Decrypt, Extract;
  }

  /** The event decrypts to a complete room key or forwarded room key that describes this session, and the known key of
      this id, if there is one, is of another room or reaches less far back. */
  ghost predicate Brings(o: Oracle, c: Stores, e: MXEvent, k: KeyId, g: GroupSession)
    requires e.clear.None?
  {
    var d, known := Decrypt(o, c, e), Key(c, k);
    && d.error.None? && d.event.clear.Some? && Describes(o, d.event.clear.value, k, g)
    && (known.Some? ==> known.value.roomId != g.roomId || g.firstKnownIndex < known.value.firstKnownIndex)
  }

  /** What becomes of any key, known before or not: it is the session that the event brings, and else what it was. */
  lemma KeyAfterExactly(o: Oracle, c: Stores, e: MXEvent, k: KeyId)
    requires e.clear.None?
    ensures forall g | Brings(o, c, e, k, g) :: Key(HandleToDevice(o, c, e).stores, k) == Some(g)
    ensures (forall g :: !Brings(o, c, e, k, g)) ==> Key(HandleToDevice(o, c, e).stores, k) == Key(c, k)
  {
    DecryptKeys(o, c, e);
    var d := Decrypt(o, c, e);
    NotEncryptedNotDecrypted(o, c, e);
    if d.error.None? && d.event.clear.Some? {
      forall g | Describes(o, d.event.clear.value, k, g) ensures Extracts(o, d.event, k, g) {
        DescribedIsExtracted(o, d.event, k, g);
      }
      if Extract(d.event).Extracted? && Accepts(o, d.stores, Extract(d.event).data) && Extract(d.event).data.id == k {
        var data := Extract(d.event).data;
        var g := SessionOf(data, o.importSession(data.sessionKey, data.exported).value);
        ExtractedIsDescribed(o, d.event, o.importSession(data.sessionKey, data.exported).value);
        assert Brings(o, c, e, k, g);
      }
    }
    hide Decrypt, Extract, Describes;
  }

  predicate Extracts(o: Oracle, e: MXEvent, k: KeyId, g: GroupSession) {
    && Extract(e).Extracted? && Extract(e).data.id == k
    && var data := Extract(e).data;
       var i := o.importSession(data.sessionKey, data.exported);
       i.Some? && i.value.identifier == k.sessionId && g == SessionOf(data, i.value)
  }

  lemma DescribedIsExtracted(o: Oracle, e: MXEvent, k: KeyId, g: GroupSession)
    requires e.clear.Some? && Describes(o, e.clear.value, k, g)
    ensures Extracts(o, e, k, g)
  {
  }

  /** An Olm event for which some session, established or new, gives a text that is for this user and device and
      describes a session unknown so far, leaves that session under its id. */
  lemma NewOlmKeyIsTaken(o: Oracle, c: Stores, e: MXEvent, text: string, k: KeyId, g: GroupSession)
    requires e.clear.None? && e.IsEncrypted() && e.wireContent.algorithm == Some(OLM) && e.wireContent.senderKey.Some?
    requires e.wireContent.ciphertext.PerDevice? && o.curve25519.Some?
    requires o.curve25519.value in e.wireContent.ciphertext.messages
    requires OlmGives(o, c, e.wireContent.senderKey.value, e.wireContent.ciphertext.messages[o.curve25519.value], text)
    requires o.parse(text).Some? && Addressed(o, e, o.parse(text).value)
    requires var p := o.parse(text).value;
             Describes(o, ClearData(p.clear.eventType, p.clear.content, e.wireContent.senderKey, p.claimedEd25519, []),
                       k, g)
    requires Key(c, k).None?
    ensures Key(HandleToDevice(o, c, e).stores, k) == Some(g)
  {
    var p := o.parse(text).value;
    OlmDecryptsExactly(o, c, e, ClearData(p.clear.eventType, p.clear.content, e.wireContent.senderKey,
                                          p.claimedEd25519, []));
    KeyAfterExactly(o, c, e, k);
    assert Brings(o, c, e, k, g) by {
      hide Decrypt, Describes, OlmGives;
    }
    hide Decrypt, Describes, OlmGives, HandleToDevice, Brings;
  }

  // A room key of one device, for any room, that reaches back to message 5 only.
  function RoomKeyEvent(roomId: string): MXEvent {
    MXEvent("", None, Some("@bob"), RoomEncrypted,
            Content(Some(OLM), PerDevice(map["me" := OlmMessage(Some(roomId), 0)]), None, None, None, Some("bob"),
                    None, None),
            None)
  }

  // Olm messages carry the room id itself, and every session key imports as session "s".
  function Literal(): Oracle {
    Oracle((n: nat, sid, m) => None, (sid, m) => false, (n: nat, device, m: OlmMessage) => Some(Created("olm", m.body)),
           (session, text) => Plain(Some(ClearEvent(OtherType("m.room.message"), None))),
           (key, exported) => Some(Imported("s", 5)),
           roomId => Some(OlmPayload(Some("@me"), Some("ed"), Some("@bob"), None, Some("bobEd"),
                                     ClearEvent(RoomKey,
                                                Some(Content(None, NoCiphertext, Some(roomId), Some("s"), Some("key"),
                                                             None, None, None))))),
           Some("@me"), Some("me"), Some("ed"))
  }

  /** A concrete case: a room key whose Olm payload claims no Ed25519 key, all else being there. */
  lemma UnclaimedKeyCrashes() returns (o: Oracle)
    ensures HandleToDevice(o, NO_KEYS, RoomKeyEvent("!a")).Crashed?
  {
    var e := RoomKeyEvent("!a");
    o := Literal().(parse := roomId => Some(Literal().parse(roomId).value.(claimedEd25519 := None)));
    assert Known(NO_KEYS, "bob") == [];
    assert DecryptOlm(o, NO_KEYS, "bob", OlmMessage(Some("!a"), 0)).1 == Some("!a");
    hide DecryptOlm;
    OlmIsNotMegolm();
    CrashesExactly(o, NO_KEYS, e);
  }

  function Message(): MXEvent {
    MXEvent("$m", Some("!a"), Some("@bob"), RoomEncrypted,
            Content(Some(MEGOLM), Text("text"), None, Some("s"), None, Some("bob"), None, None), None)
  }

  /** A concrete case: a key of room !a that knows all messages gives way to one of room !b, and a message of room !a
      that could be decrypted no longer can. */
  lemma AnotherRoomTakesTheKey() returns (c: Stores, k: KeyId)
    ensures Key(c, k).Some? && Key(c, k).value.roomId == "!a" && Key(c, k).value.firstKnownIndex == 0
    ensures var after := HandleToDevice(Literal(), c, RoomKeyEvent("!b")).stores;
            && Key(after, k).Some? && Key(after, k).value.roomId == "!b" && Key(after, k).value.firstKnownIndex == 5
            && Decrypt(Literal(), c, Message()).error.None?
               && Decrypt(Literal(), after, Message()).error == Some(NoGroupSession)
  {
    var o, e := Literal(), RoomKeyEvent("!b");
    k := KeyId("s", "bob");
    c := Stores(map[k := GroupSession("old", "s", 0, "!a", None, [])], map[], map[], map[], 0);
    assert Known(c, "bob") == [];
    assert DecryptOlm(o, c, "bob", OlmMessage(Some("!b"), 0)).1 == Some("!b");
    hide DecryptOlm;
    DecryptKeys(o, c, e);
    OlmIsNotMegolm();
    assert Replaces(o, c, e, k);
    KeyChangesExactly(o, c, e, k);
  }
}
