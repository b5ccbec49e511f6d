// Decryption as it runs: sessions tried one after the other, events and stores updated in place
// (MatrixSDK/Background/MXBackgroundSyncService.swift, MatrixSDK/Background/MXBackgroundCryptoStore.m,
// MatrixSDK/Crypto/MXOlmDevice.m, MatrixSDK/JSONModels/MXEvent.m).
module OlmDevice {
  import opened Wrappers
  import opened Events
  import opened Crypto
  import opened EventDecryption

  /** An event as its holders share it. */
  class EventObject {
    var event: MXEvent

    constructor (event: MXEvent)
      ensures this.event == event
    {
      this.event := event;
    }

    method SetClear(clearEvent: Option<ClearEvent>, senderKey: string, claimed: Option<string>, chain: seq<string>)
      modifies this
      ensures event == SetClearData(old(event), clearEvent, senderKey, claimed, chain)
    {
      event := event.(clear := None);
      if clearEvent.Some? {
        event := event.(clear := Some(ClearData(clearEvent.value.eventType, clearEvent.value.content, None, None, [])));
        event := event.(clear := Some(event.clear.value.(senderKey := Some(senderKey))));
        event := event.(clear := Some(event.clear.value.(claimedEd25519 := claimed, forwardingChain := chain)));
      }
    }
  }

  class BackgroundDevice {
    const oracle: Oracle
    var bgKeys: map<KeyId, GroupSession>
    const appKeys: map<KeyId, GroupSession>
    var bgOlm: map<string, seq<string>>
    const appOlm: map<string, seq<string>>
    var clock: nat

    function State(): Stores
      reads this
    {
      Stores(bgKeys, appKeys, bgOlm, appOlm, clock)
    }

    /** The background store is kept from an earlier run, or reset. */
    constructor (oracle: Oracle, kept: Stores, resetBackgroundCryptoStore: bool)
      ensures this.oracle == oracle && State() == if resetBackgroundCryptoStore then Crypto.Reset(kept) else kept
    {
      this.oracle, appKeys, appOlm, clock := oracle, kept.appKeys, kept.appOlm, kept.clock;
      if resetBackgroundCryptoStore {
        bgKeys, bgOlm := map[], map[];
      } else {
        bgKeys, bgOlm := kept.bgKeys, kept.bgOlm;
      }
    }

    method Reset()
      modifies this
      ensures State() == Crypto.Reset(old(State()))
    {
      bgKeys, bgOlm := map[], map[];
    }

    method StoreSession(sessionId: string, device: string)
      modifies this`bgOlm
      ensures State() == StoreOlm(old(State()), device, sessionId)
    {
      var sessions := Sessions(bgOlm, device);
      if sessionId !in sessions {
        bgOlm := bgOlm[device := sessions + [sessionId]];
      }
    }

    method DecryptMessage(m: OlmMessage, sessionId: string, device: string) returns (payload: Option<string>)
      modifies this
      ensures State() == Tick(TransferOlm(old(State()), device, sessionId))
      ensures payload == oracle.olmDecrypt(old(clock), sessionId, m)
    {
      if sessionId !in Sessions(bgOlm, device) {
        if sessionId in Sessions(appOlm, device) {
          StoreSession(sessionId, device);
        }
      }
      payload := oracle.olmDecrypt(clock, sessionId, m);
      clock := clock + 1;
    }

    method CreateInboundSession(device: string, m: OlmMessage) returns (created: bool, payload: Option<string>)
      modifies this
      ensures (State(), payload) == CreateInbound(oracle, old(State()), device, m)
      ensures !created ==> payload == None
    {
      var session := oracle.olmCreate(clock, device, m);
      clock := clock + 1;
      if session.None? {
        return false, None;
      }
      StoreSession(session.value.sessionId, device);
      return true, session.value.payload;
    }

    method DecryptMessageWithOlm(m: OlmMessage, theirDeviceIdentityKey: string) returns (payload: Option<string>)
      modifies this
      ensures (State(), payload) == DecryptOlm(oracle, old(State()), theirDeviceIdentityKey, m)
    {
      hide TransferOlm, CreateInbound, Known;
      var sessionIds := Known(State(), theirDeviceIdentityKey);
      for i := 0 to |sessionIds|
        invariant TrySessions(oracle, old(State()), sessionIds, theirDeviceIdentityKey, m)
               == TrySessions(oracle, State(), sessionIds[i..], theirDeviceIdentityKey, m)
      {
        payload := DecryptMessage(m, sessionIds[i], theirDeviceIdentityKey);
        if payload.Some? {
          return;
        }
        var foundSession := m.messageType == 0 && oracle.olmMatches(sessionIds[i], m);
        if foundSession {
          return None;
        }
      }
      if m.messageType != 0 {
        return None;
      }
      var created;
      created, payload := CreateInboundSession(theirDeviceIdentityKey, m);
      if !created {
        return None;
      }
    }

    method CanDecryptEvent(event: EventObject) returns (can: bool)
      requires event.event.IsEncrypted() ==> HasContent(event.event)
      ensures can == CanDecrypt(State(), event.event)
    {
      if !event.event.IsEncrypted() {
        return true;
      }
      var content := event.event.Content().value;
      if content.senderKey.None? || content.sessionId.None? {
        return false;
      }
      return Key(State(), KeyId(content.sessionId.value, content.senderKey.value)).Some?;
    }

    // `decryptGroupMessage`: the session decrypts for its own room only.
    method DecryptGroupMessage(body: string, roomId: Option<string>, id: KeyId)
      returns (result: Option<(Option<ClearEvent>, GroupSession)>)
      modifies this
      ensures State() == TransferKey(old(State()), id)
      ensures var session := Key(State(), id);
              result == if session.None? || roomId != Some(session.value.roomId)
                || oracle.megolmDecrypt(session.value, body).Undecryptable?
                        then None
                        else Some((oracle.megolmDecrypt(session.value, body).payload, session.value))
    {
      if id !in bgKeys && id in appKeys {
        bgKeys := bgKeys[id := appKeys[id]];
      }
      if id !in bgKeys || roomId != Some(bgKeys[id].roomId) {
        return None;
      }
      match oracle.megolmDecrypt(bgKeys[id], body)
      case Undecryptable => result := None;
      case Plain(payload) => result := Some((payload, bgKeys[id]));
    }

    method DecryptEvent(event: EventObject) returns (error: Option<CryptoError>)
      requires event.event.IsEncrypted() ==> HasContent(event.event)
      modifies this, event
      ensures var d := Decrypt(oracle, old(State()), old(event.event));
              State() == d.stores && event.event == d.event && error == d.error
    {
      hide DecryptOlm, TransferKey;
      if !event.event.IsEncrypted() {
        return None;
      }
      var content := event.event.Content().value;
      if content.senderKey.None? || content.algorithm.None? {
        return Some(Unknown);
      }
      var senderKey := content.senderKey.value;
      if content.algorithm.value == MEGOLM {
        if !content.ciphertext.Text? || content.sessionId.None? {
          return Some(Unknown);
        }
        var olmResult := DecryptGroupMessage(content.ciphertext.text, event.event.roomId,
                                             KeyId(content.sessionId.value, senderKey));
        if olmResult.None? {
          return Some(NoGroupSession);
        }
        event.SetClear(olmResult.value.0, senderKey, olmResult.value.1.claimedEd25519,
                       olmResult.value.1.forwardingChain);
        return None;
      } else if content.algorithm.value == OLM {
        if !content.ciphertext.PerDevice? || oracle.curve25519.None?
          || oracle.curve25519.value !in content.ciphertext.messages {
          return Some(DecryptionFailure);
        }
        var payloadString := DecryptMessageWithOlm(content.ciphertext.messages[oracle.curve25519.value], senderKey);
        if payloadString.None? || oracle.parse(payloadString.value).None? {
          return Some(DecryptionFailure);
        }
        var payload := oracle.parse(payloadString.value).value;
        if payload.recipient.None? || payload.recipient != oracle.userId
          || payload.recipientEd25519.None? || payload.recipientEd25519 != oracle.ed25519
          || payload.sender.None? || payload.sender != event.event.sender {
          return Some(DecryptionFailure);
        }
        if event.event.roomId.Some? {
          if payload.roomId != event.event.roomId {
            return Some(DecryptionFailure);
          }
        }
        event.SetClear(Some(payload.clear), senderKey, payload.claimedEd25519, []);
        return None;
      } else {
        return Some(UnknownAlgorithm);
      }
    }

    // The source compares with index 0 when the new session could not be built; the identifier check then refuses it.
    method AddInboundGroupSession(d: RoomKeyData) returns (added: bool)
      modifies this
      ensures State() == AddKey(oracle, old(State()), d) && added == Accepts(oracle, old(State()), d)
    {
      var session := oracle.importSession(d.sessionKey, d.exported);
      var firstKnownIndex := if session.Some? then session.value.firstKnownIndex else 0;
      var existingSession := Key(State(), d.id);
      if existingSession.Some? && existingSession.value.roomId != d.roomId {
        existingSession := None;
      }
      if existingSession.Some? {
        if existingSession.value.firstKnownIndex <= firstKnownIndex {
          return false;
        }
      }
      if session.None? || session.value.identifier != d.id.sessionId {
        return false;
      }
      bgKeys := bgKeys[d.id := SessionOf(d, session.value)];
      return true;
    }

    method HandleToDeviceEvent(event: EventObject) returns (crashed: bool)
      requires event.event.IsEncrypted() ==> HasContent(event.event)
      modifies this, event
      ensures (if crashed then Crashed(State()) else Handled(State()))
              == HandleToDevice(oracle, old(State()), old(event.event))
    {
      hide Decrypt, AddKey;
      if event.event.IsEncrypted() {
        var error := DecryptEvent(event);
        if error.Some? {
          return false;
        }
      } else {
        PlainIsItself(oracle, State(), event.event);
      }
      if event.event.Content().None? {
        return false;
      }
      var content := event.event.Content().value;
      if content.roomId.None? || content.sessionId.None? || content.sessionKey.None? || event.event.SenderKey().None? {
        return false;
      }
      var senderKey := event.event.SenderKey().value;
      var forwardingKeyChain: seq<string>, exportFormat := [], false;
      var ed25519: string;
      match event.event.EventType() {
        case RoomKey =>
          if event.event.ClaimedEd25519().None? {
            return true;
          }
          ed25519 := event.event.ClaimedEd25519().value;
        case RoomForwardedKey =>
          exportFormat := true;
          if content.forwardingChain.Some? {
            forwardingKeyChain := content.forwardingChain.value;
          }
          forwardingKeyChain := forwardingKeyChain + [senderKey];
          if content.senderKey.None? {
            return false;
          }
          senderKey := content.senderKey.value;
          if content.senderClaimedEd25519.None? {
            return false;
          }
          ed25519 := content.senderClaimedEd25519.value;
        case _ =>
          return false;
      }
      var _ := AddInboundGroupSession(RoomKeyData(KeyId(content.sessionId.value, senderKey), content.sessionKey.value,
                                                  content.roomId.value, forwardingKeyChain, ed25519, exportFormat));
      return false;
    }
  }

  lemma PlainIsItself(o: Oracle, c: Stores, e: MXEvent)
    requires !e.IsEncrypted()
    ensures Decrypt(o, c, e) == Decryption(c, e, None)
  {
  }
}
