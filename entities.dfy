/** The persisted rows of the backend (the JPA entities), as values. */
module Entities {
  import opened Common
  import opened Uuids

  /** app_user: only the columns the core reads. */
  datatype AppUser = AppUser(id: Uuid, handle: string)

  /** The key_curve enumeration, kept opaque. */
  datatype KeyCurve = KeyCurve(name: string)

  /** user_device. `publicKxKey` and `identityBindingSig` are written by enrollment. */
  datatype UserDevice = UserDevice(
    id: Uuid,
    userId: Uuid,
    deviceName: Option<string>,
    platform: Option<string>,
    publicIdentityKey: Option<string>,
    publicKxKey: Option<string>,
    identityBindingSig: Option<Bytes>,
    keyCurve: Option<KeyCurve>,
    pqkemPublicKey: Option<Bytes>,
    certSignature: Option<Bytes>,
    certPayload: Option<string>,
    revokedAt: Option<Instant>,
    createdAt: Instant,
    lastSeenAt: Option<Instant>)
  {
    /** UserDevice.isActive. */
    predicate IsActive() { revokedAt.None? }
  }

  datatype KeyType = SignedPrekey | OneTimePrekey

  /** user_key: a signed prekey or a one-time prekey of one device. */
  datatype UserKey = UserKey(
    deviceId: Uuid,
    keyType: KeyType,
    keyId: Int32,
    publicKey: string,
    signature: Option<Bytes>,
    used: bool,
    validUntil: Option<Instant>,
    claimedAt: Option<Instant>,
    createdAt: Instant)

  /** conversation. */
  datatype Conversation = Conversation(id: Uuid, isGroup: bool, createdAt: Instant)

  /** A value of a JSON header object as the services build it. */
  datatype JsonValue = JString(text: string) | JNumber(number: int) | JNull

  /** A JSON object header (`HashMap<String, Object>` before serialisation). */
  type Header = map<string, JsonValue>

  /** message_core: one row per logical message. */
  datatype MessageCore = MessageCore(
    id: Uuid,
    conversationId: Uuid,
    senderId: Option<Uuid>,
    createdAt: Instant,
    contentType: string,
    header: Header)

  /** message_delivery: one row per recipient device of a message. */
  datatype MessageDelivery = MessageDelivery(
    messageId: Uuid,
    recipientDeviceId: Uuid,
    ciphertext: Bytes,
    msgHeader: Header,
    deliveredAt: Option<Instant>,
    readAt: Option<Instant>)
}
