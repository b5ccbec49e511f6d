// Matrix events as the background service reads them (MatrixSDK/JSONModels/MXEvent.m).
module Events {
  import opened Wrappers

  datatype EventType = RoomEncrypted | RoomKey | RoomForwardedKey | OtherType(name: string)

  datatype OlmMessage = OlmMessage(body: Option<string>, messageType: nat)

  // The "ciphertext" entry: a string for Megolm, a dictionary by device key for Olm.
  datatype Ciphertext = NoCiphertext | Text(text: string) | PerDevice(messages: map<string, OlmMessage>)

  /** The entries of an event's content that the service looks at; `None` when absent or not of the right type. */
  datatype Content = Content(
    algorithm: Option<string>,
    ciphertext: Ciphertext,
    roomId: Option<string>,
    sessionId: Option<string>,
    sessionKey: Option<string>,
    senderKey: Option<string>,
    forwardingChain: Option<seq<string>>,
    senderClaimedEd25519: Option<string>)

  /** What decryption adds to an event: the clear event and what is known of its sender's keys. */
  datatype ClearData = ClearData(
    eventType: EventType,
    content: Option<Content>,
    senderKey: Option<string>,
    claimedEd25519: Option<string>,
    forwardingChain: seq<string>)

  datatype MXEvent = MXEvent(
    eventId: string,
    roomId: Option<string>,
    sender: Option<string>,
    wireType: EventType,
    wireContent: Content,
    clear: Option<ClearData>)
  {
    predicate IsEncrypted() { wireType.RoomEncrypted? }

    // The clear version is preferred once there is one.
    function EventType(): EventType { if clear.Some? then clear.value.eventType else wireType }
    function Content(): Option<Content> { if clear.Some? then clear.value.content else Some(wireContent) }

    // Key information comes from decryption only; the JSON of an event carries none.
    function SenderKey(): Option<string> { if clear.Some? then clear.value.senderKey else None }
    function ClaimedEd25519(): Option<string> { if clear.Some? then clear.value.claimedEd25519 else None }

    /** A reader can use the event: it was never encrypted or its clear version is there. */
    predicate Readable() { !IsEncrypted() || clear.Some? }
  }
}
