# chat-e2e backend core in Dafny

This project models the server-side bookkeeping of the chat-e2e backend and
proves properties about it. The server never sees plaintext. It stores
public keys, hands out prekey bundles, and delivers ciphertext, once per
recipient device. The model covers:

- **Device enrollment.** A user registers a device and gets a single-use
  nonce that is valid for 300 seconds (`start`). The device then proves
  possession of its Ed25519 identity key: an Ed25519 signature binding its
  key-agreement key, and a proof over the domain tag, device id, nonce and
  both keys (`finish`). The owner can later revoke the device (`revoke`).
- **Prekeys.** A device publishes one signed prekey, which replaces the
  previous ones (`uploadSpk`), and one-time prekeys in batches
  (`uploadOpks`). A bundle fetch returns the identity key, the newest
  signed prekey and at most one one-time prekey: the oldest unused one,
  which the fetch claims (`buildBundle`, `claimOneOpk`).
- **Conversations.** A conversation is created with its member users
  (`createConversation`). A member registers the devices that should
  receive (`addMemberDevices`). The bootstrap snapshot lists conversations
  and the caller's devices (`bootstrap`).
- **Messages.**
  - `send` writes one core row and one delivery row, with the same
    ciphertext, for every active member device except the sender's.
  - `distributeCK` writes one delivery row per member device, each holding
    that device's own sealed chain key.
  - `fetchInbox` maps inbox rows to DTOs.
  - The pagination cursor has the form `<epochSecond>:<uuid>`.
  - `ack` and `markRead` both issue repository commands.
- **Realtime.** The STOMP `CONNECT` interceptor takes the bearer token from
  the `Authorization` header and sets the frame's principal.

How the model is built:

- The database is a `Store.Database` object whose fields are the tables.
- Each service is a class holding that object. Its methods change only the
  tables they name.
- A failing `@Transactional` call restores the tables it touched.
- The clock (`now`), generated ids, random nonces, Base64, SHA-256,
  Ed25519 and the JWT verifier are all parameters.
- UUIDs are 128-bit numbers. Their canonical text form is proved to
  round-trip through parsing.

## Model

| member | source | states |
|---|---|---|
| `Messaging.MessageService.Send` | backend/src/main/java/com/chat/e2e/backend/chat/MessageService.java:32-101 | fails exactly when SendRejection names an error, with that error and no table changed; otherwise adds the text core with its 4-key header, appends one delivery row with the decoded ciphertext, in visiting order, for each eligible recipient, and reports that count |
| `Messaging.MessageService.DeliverToEach` | backend/src/main/java/com/chat/e2e/backend/chat/MessageService.java:81-98 | the rows appended are the fan-out over an enumeration of exactly the recipients that exist and are not revoked, and the returned count is its length |
| `Messaging.MessageService.DistributeCK` | backend/src/main/java/com/chat/e2e/backend/chat/MessageService.java:105-148 | fails exactly for an unknown conversation or any non-Base64 payload, with nothing changed; otherwise adds the control core (null sender, "control/ck_distribute") and one row per addressed member device carrying that device's own payload |
| `Messaging.MessageService.DeliverSealed` | backend/src/main/java/com/chat/e2e/backend/chat/MessageService.java:128-146 | reports success iff every payload decodes; then the appended rows enumerate exactly the map keys that are member devices, each with its own decoded payload |
| `Messaging.SendRejection` | backend/src/main/java/com/chat/e2e/backend/chat/MessageService.java:38-79 | no error iff the conversation exists, the sender is a member, the sender device exists and the ciphertext is Base64; an unknown conversation is reported first |
| `Messaging.MemberDeviceIds` | backend/src/main/java/com/chat/e2e/backend/chat/MessageService.java:68 | a device id is listed iff a member-device row of that conversation names it |
| `Messaging.Recipients` | backend/src/main/java/com/chat/e2e/backend/chat/MessageService.java:68-71 | a device id is a recipient iff a member-device row of the conversation names it and it is not the sending device |
| `Messaging.Eligible` | backend/src/main/java/com/chat/e2e/backend/chat/MessageService.java:84-85 | a subset of the recipients: exactly those found and not revoked |
| `Messaging.Fanout` | backend/src/main/java/com/chat/e2e/backend/chat/MessageService.java:90-96 | one row per id, in order, each with the shared ciphertext and header and no delivered/read stamp |
| `Messaging.SealedRows` | backend/src/main/java/com/chat/e2e/backend/chat/MessageService.java:138-144 | one row per id, in order, each with that id's own decoded payload |
| `Messaging.DistributeRejection` | backend/src/main/java/com/chat/e2e/backend/chat/MessageService.java:106-131 | no error iff the conversation exists and every payload in the map is Base64 |
| `Messaging.CkTargets` | backend/src/main/java/com/chat/e2e/backend/chat/MessageService.java:129-136 | an id is a target iff it is a key of the sealed map and a member device of the conversation |
| `Messaging.SendCountBounds` | backend/src/main/java/com/chat/e2e/backend/chat/MessageService.java:68-100 | the delivery count equals the number of eligible devices, is at most the number of recipients, never includes the sending device, and every delivered device is an active member device |
| `Messaging.ThreeDevicesTwoDeliveries` | backend/src/main/java/com/chat/e2e/backend/chat/MessageService.java:68-98 | three active member devices, one of them the sender's, give exactly two deliveries |
| `Messaging.MalformedPayloadToStrangerAborts` | backend/src/main/java/com/chat/e2e/backend/chat/MessageService.java:129-136 | a malformed payload aborts the distribution even when it is addressed to a non-member device, because decoding precedes the membership test |
| `Messaging.DistributeCount` | backend/src/main/java/com/chat/e2e/backend/chat/MessageService.java:128-147 | the reported count equals the number of addressed member devices and is at most the size of the map |
| `Messaging.MapRows` | backend/src/main/java/com/chat/e2e/backend/chat/MessageService.java:155-171 | one DTO per row, same order, ciphertext Base64-encoded |
| `Messaging.FetchInbox` | backend/src/main/java/com/chat/e2e/backend/chat/MessageService.java:150-172 | a page size below one is an error; otherwise the DTOs correspond one to one and in order to the rows the query returns for the decoded cursor, each carrying its row's delivery, message and conversation ids, content type, header and creation time, and the ciphertext in Base64 |
| `Messaging.ComputeNextCursor` | backend/src/main/java/com/chat/e2e/backend/chat/MessageService.java:174-178 | a null or empty page keeps the previous cursor; otherwise the cursor's two fields are the last item's epoch second and message id |
| `Messaging.NextCursorResumesAfterLast` | backend/src/main/java/com/chat/e2e/backend/chat/MessageService.java:174-207 | the next cursor decodes to the last item's id and its creation time truncated to the second |
| `Messaging.Ack` | backend/src/main/java/com/chat/e2e/backend/chat/MessageService.java:181-184 | no command iff the id list is null or empty; otherwise one bulk "delivered at now" update for exactly those ids on that device |
| `Messaging.MarkRead` | backend/src/main/java/com/chat/e2e/backend/chat/MessageService.java:187-190 | always one "read at now" update for that device and message |
| `MessageCursor.Decode` | backend/src/main/java/com/chat/e2e/backend/chat/MessageService.java:197-204 | the cursor is non-empty exactly when the string is well formed (not blank, a first field that parses as a long within Instant's range, a second field that parses as a UUID), and then it holds that second and that UUID; null, blank and malformed strings give the empty cursor; the two parts are present together; a time is a whole second |
| `MessageCursor.WellFormed` | backend/src/main/java/com/chat/e2e/backend/chat/MessageService.java:198-203 | a well-formed cursor text contains a colon and has at least 38 characters (one digit, the colon and a 36-character UUID) |
| `Common.OfEpochSecond` | backend/src/main/java/com/chat/e2e/backend/chat/MessageService.java:202 | the instant is a whole second whose epoch second is the given one |
| `JavaText.IsBlankJava11` | backend/src/main/java/com/chat/e2e/backend/chat/MessageService.java:198 | String.isBlank, computed as indexOfNonWhitespace() == length(): blank iff every character is Java whitespace |
| `JavaText.SplitColon` | backend/src/main/java/com/chat/e2e/backend/chat/MessageService.java:201 | the fields hold no colon; a text without a colon is its own single field; otherwise the last field is not empty |
| `JavaText.SplitColonRejoins` | backend/src/main/java/com/chat/e2e/backend/chat/MessageService.java:201 | joining the fields with ':' gives the text back up to the trailing colons split drops |
| `MessageCursor.Encode` | backend/src/main/java/com/chat/e2e/backend/chat/MessageService.java:205-207 | null iff either part is null; otherwise the colon-separated fields are the decimal epoch second and the canonical UUID, and the text is exactly those two fields joined by one colon, with no trailing colon |
| `MessageCursor.DecodeEncode` | backend/src/main/java/com/chat/e2e/backend/chat/MessageService.java:197-207 | decode(encode(t, id)) gives back id and t truncated to whole seconds |
| `MessageCursor.TruncationBounds` | backend/src/main/java/com/chat/e2e/backend/chat/MessageService.java:206 | the truncated instant is the start of the second that contains t |
| `MessageCursor.RoundTripDropsNanos` | backend/src/main/java/com/chat/e2e/backend/chat/MessageService.java:202-206 | 1.5 s past the epoch comes back as 1 s: the round trip loses sub-second precision |
| `JavaText.ParseLong` | backend/src/main/java/com/chat/e2e/backend/chat/MessageService.java:202 | parses exactly when the text is an optional sign followed by at least one decimal digit and its signed value lies in the Java long range, and then gives that signed value |
| `JavaText.ParseLongExamples` | backend/src/main/java/com/chat/e2e/backend/chat/MessageService.java:202 | "+5", "007" and "-12" parse to 5, 7 and -12; "", "-", "x" and "1x" do not parse |
| `JavaText.LongRoundTrip` | backend/src/main/java/com/chat/e2e/backend/chat/MessageService.java:202-206 | every long prints to decimal text that parses back to itself |
| `Uuids.ParseToString` | backend/src/main/java/com/chat/e2e/backend/chat/MessageService.java:202-206 | UUID.fromString(u.toString()) == u |
| `Uuids.ToStringInjective` | backend/src/main/java/com/chat/e2e/backend/chat/MessageService.java:206 | distinct UUIDs have distinct text forms |
| `Uuids.ToString` | backend/src/main/java/com/chat/e2e/backend/chat/MessageService.java:206 | 36 characters, dashes at positions 8, 13, 18 and 23, a lower-case hex digit everywhere else, and no colon |
| `Uuids.Parse` | backend/src/main/java/com/chat/e2e/backend/chat/MessageService.java:202 | parses exactly the 36-character texts with dashes at 8, 13, 18 and 23 and a hex digit of either case at every other position, to the value of the 32 digits read as one hexadecimal number |
| `Enrollment.DeviceEnrollmentService.Start` | backend/src/main/java/com/chat/e2e/backend/device/DeviceEnrollmentService.java:28-36 | an unknown handle is refused with nothing changed; otherwise appends a device with platform "unknown" for that user, stores the nonce Base64(UUID text) expiring 300 s after now, returns id, nonce and expiry, and keeps the two nonce maps aligned and the device ids distinct |
| `Enrollment.DeviceEnrollmentService.Finish` | backend/src/main/java/com/chat/e2e/backend/device/DeviceEnrollmentService.java:39-109 | fails exactly when FinishRejection names an error, with that error, leaving devices and nonces unchanged; otherwise rewrites only the device row (keys, binding signature, platform, name, lastSeenAt) and removes its nonce from both maps; distinct keys stay distinct |
| `Enrollment.DeviceEnrollmentService.Precheck` | backend/src/main/java/com/chat/e2e/backend/device/DeviceEnrollmentService.java:41-54 | returns the error of the argument, device and nonce checks exactly as PrecheckRejection names it, in the source's order |
| `Enrollment.DeviceEnrollmentService.Revoke` | backend/src/main/java/com/chat/e2e/backend/device/DeviceEnrollmentService.java:150-155 | refused with nothing changed unless the handle owns the device; otherwise only the row with that id gets revokedAt = now, so the device is no longer active; with distinct keys that row is the device the owner was checked on, and the keys stay distinct |
| `Enrollment.PrecheckRejection` | backend/src/main/java/com/chat/e2e/backend/device/DeviceEnrollmentService.java:41-54 | no error only when both arguments are present, no required field is blank, the device exists and its nonce is present and not yet expired |
| `Enrollment.CheckProofs` | backend/src/main/java/com/chat/e2e/backend/device/DeviceEnrollmentService.java:63-97 | each signed message is assembled with concat, and the result is the first of: key not Ed25519 SPKI, binding signature invalid, proof invalid, platform not accepted |
| `Enrollment.ProofRejection` | backend/src/main/java/com/chat/e2e/backend/device/DeviceEnrollmentService.java:62-97 | no error iff the identity key is Ed25519 SPKI, both signatures verify and the platform is blank or accepted; a non-Ed25519 key is reported first; every error is an IllegalArgumentException |
| `Enrollment.FinishRejection` | backend/src/main/java/com/chat/e2e/backend/device/DeviceEnrollmentService.java:39-97 | the precheck error wins; after a passed precheck the error is malformed Base64 iff a field does not decode; no error only when the precheck passes, the fields decode and ProofRejection finds nothing |
| `Enrollment.Concat` | backend/src/main/java/com/chat/e2e/backend/device/DeviceEnrollmentService.java:130-135 | a fresh array whose length is the summed lengths and whose contents are the parts in order |
| `Enrollment.CopyAt` | backend/src/main/java/com/chat/e2e/backend/device/DeviceEnrollmentService.java:133 | the bytes before the offset are kept, the part follows them, and the bytes after the part are unchanged |
| `Enrollment.TagsAreUtf8` | backend/src/main/java/com/chat/e2e/backend/device/DeviceEnrollmentService.java:72-80 | the two domain tags are the UTF-8 encodings of "bind:" and "enroll:" |
| `Enrollment.MissingNonceWinsOverSignatures` | backend/src/main/java/com/chat/e2e/backend/device/DeviceEnrollmentService.java:41-88 | without a nonce the request is refused with "nonce not found", whatever the keys and signatures |
| `Enrollment.ExpiryIsInclusive` | backend/src/main/java/com/chat/e2e/backend/device/DeviceEnrollmentService.java:54 | at the expiry instant the nonce is accepted; one nanosecond later it is "nonce expired" |
| `Enrollment.AcceptedMeansBothSignaturesVerify` | backend/src/main/java/com/chat/e2e/backend/device/DeviceEnrollmentService.java:57-97 | an accepted request has decodable fields, an Ed25519 identity key, a verifying binding signature over SHA-256("bind:" ‖ kx), a verifying proof over the enrollment message, an unexpired nonce and a valid or blank platform |
| `Enrollment.ReplayIsRefused` | backend/src/main/java/com/chat/e2e/backend/device/DeviceEnrollmentService.java:106-108 | replaying an accepted request on the state finish leaves, at any later time, is refused with "nonce not found" |
| `Enrollment.RevokeNeedsOwner` | backend/src/main/java/com/chat/e2e/backend/device/DeviceEnrollmentService.java:150-152 | a handle that owns no device with that id never finds it |
| `UserDeviceRepository.OwnedRowIsIndexed` | backend/src/main/java/com/chat/e2e/backend/device/UserDevice.java:19-21 | when device ids are distinct, the row findByIdAndUser_Handle finds is the row with that id |
| `Store.Database.constructor` | backend/src/main/java/com/chat/e2e/backend/user/AppUser.java:14-19 | a store starts with its users, whose ids and handles are distinct, and empty tables |
| `JavaText.IsBlank` | backend/src/main/java/com/chat/e2e/backend/device/DeviceEnrollmentService.java:117-119 | blank iff null or every character is at most U+0020 |
| `JavaText.Trim` | backend/src/main/java/com/chat/e2e/backend/device/DeviceEnrollmentService.java:118 | the result is a slice of the input with only characters at most U+0020 cut off before and after it, has no such character at either end, and is empty iff the input consists only of such characters |
| `UserDeviceRepository.FindByUserHandle` | backend/src/main/java/com/chat/e2e/backend/device/UserDeviceRepository.java:13-20 | exactly the devices of the user with that handle, revoked ones only when asked for, as a permutation of the matching rows ordered by createdAt ascending |
| `UserDeviceRepository.SelectByHandle` | backend/src/main/java/com/chat/e2e/backend/device/UserDeviceRepository.java:14-16 | a device is selected iff it is a row, its owner has the handle, and it is active or revoked ones are included |
| `UserDeviceRepository.ActiveIsSubset` | backend/src/main/java/com/chat/e2e/backend/device/UserDeviceRepository.java:16 | the active listing is the full listing restricted to active devices |
| `UserDeviceRepository.FindByIdAndUserHandle` | backend/src/main/java/com/chat/e2e/backend/device/UserDeviceRepository.java:22 | returns a row with that id owned by that handle, and none iff no such row exists |
| `UserDeviceRepository.FindUserByHandle` | backend/src/main/java/com/chat/e2e/backend/user/AppUserRepository.java:9 | a user with that handle, and none iff there is none |
| `UserDeviceRepository.FindDeviceById` | backend/src/main/java/com/chat/e2e/backend/keys/PrekeyService.java:60 | the row with that id, and none iff there is none |
| `UserDeviceRepository.SaveDevice` | backend/src/main/java/com/chat/e2e/backend/device/DeviceEnrollmentService.java:104 | afterwards the id finds the saved row; every other id finds what it found before |
| `UserDeviceRepository.FindByUserId` | backend/src/main/java/com/chat/e2e/backend/chat/ConversationService.java:91 | exactly the devices of that user, revoked ones included |
| `UserKeyRepository.FindSpks` | backend/src/main/java/com/chat/e2e/backend/keys/UserKeyRepository.java:11-16 | a permutation of the device's signed prekeys, ordered newest first |
| `UserKeyRepository.SpksOf` | backend/src/main/java/com/chat/e2e/backend/keys/UserKeyRepository.java:12-13 | a key is listed iff it is a signed prekey of the device |
| `UserKeyRepository.NewestSpkFirst` | backend/src/main/java/com/chat/e2e/backend/keys/UserKeyRepository.java:14 | the first signed prekey returned is at least as new as every signed prekey of the device |
| `UserKeyRepository.CountAvailableOpk` | backend/src/main/java/com/chat/e2e/backend/keys/UserKeyRepository.java:18-22 | zero iff no row is an unused one-time prekey of the device; never more than the table size |
| `UserKeyRepository.CountIsAvailableIndices` | backend/src/main/java/com/chat/e2e/backend/keys/UserKeyRepository.java:18-22 | the count is the number of rows that are unused one-time prekeys of the device |
| `UserKeyRepository.OldestAvailableOpk` | backend/src/main/java/com/chat/e2e/backend/keys/UserKeyRepository.java:26-33 | an unused one-time prekey of the device whose createdAt is no later than that of any other; none iff the count is zero |
| `UserKeyRepository.Claim` | backend/src/main/java/com/chat/e2e/backend/keys/UserKeyRepository.java:25-41 | no row iff nothing is available, the table then unchanged; otherwise the oldest available key is marked used and claimed at now, its key id and public key are returned, and no other row changes |
| `UserKeyRepository.ClaimEffect` | backend/src/main/java/com/chat/e2e/backend/keys/UserKeyRepository.java:25-41 | a successful claim lowers the device's count by exactly one; other devices' counts, signed prekeys and used keys are untouched; used never reverts |
| `UserKeyRepository.ClaimKeepsColumns` | backend/src/main/java/com/chat/e2e/backend/keys/UserKeyRepository.java:35-39 | a claim never rewrites device, type, key id or public key; it only removes keys from the available set, including the claimed one |
| `UserKeyRepository.ClaimRunCount` | backend/src/main/java/com/chat/e2e/backend/keys/UserKeyRepository.java:25-41 | with K keys available, exactly the first K of successive claims return a row, and the count ends at K − min(n, K) |
| `UserKeyRepository.ClaimRunRows` | backend/src/main/java/com/chat/e2e/backend/keys/UserKeyRepository.java:39 | every row that successive claims return was an available key at the start, with its own key id and public key |
| `UserKeyRepository.ClaimRunDistinct` | backend/src/main/java/com/chat/e2e/backend/keys/UserKeyRepository.java:26-36 | successive claims never return the same key twice |
| `UserKeyRepository.ClaimOneOpk` | backend/src/main/java/com/chat/e2e/backend/keys/UserKeyRepository.java:25-41 | the table becomes the claim's table; the returned list holds the claimed row, or is empty when nothing was available |
| `Prekeys.PrekeyService.UploadSpk` | backend/src/main/java/com/chat/e2e/backend/keys/PrekeyService.java:19-34 | a non-Base64 signature fails and leaves the keys unchanged; otherwise the device's signed prekeys are removed and the new unused one is appended, with a null signature kept null |
| `Prekeys.PrekeyService.DeleteSpks` | backend/src/main/java/com/chat/e2e/backend/keys/PrekeyService.java:21-22 | the table loses exactly the device's signed prekeys and keeps the other rows in order |
| `Prekeys.WithoutSpks` | backend/src/main/java/com/chat/e2e/backend/keys/PrekeyService.java:21-22 | a row is kept iff it is not a signed prekey of the device |
| `Prekeys.DecodeSignature` | backend/src/main/java/com/chat/e2e/backend/keys/PrekeyService.java:29 | fails iff a signature is given and is not Base64; null maps to null, anything else to its decoding |
| `Prekeys.UploadSpkReplaces` | backend/src/main/java/com/chat/e2e/backend/keys/PrekeyService.java:19-34 | afterwards the new key is the device's only signed prekey and the one findSpks returns; every row that is not a signed prekey of the device is kept, and no device's available count moves |
| `Prekeys.PrekeyService.UploadOpks` | backend/src/main/java/com/chat/e2e/backend/keys/PrekeyService.java:37-51 | appends one unused one-time prekey per item, in order, and returns the number of items |
| `Prekeys.OpkRows` | backend/src/main/java/com/chat/e2e/backend/keys/PrekeyService.java:39-49 | one row per item, in item order, each with that item's key id and public key |
| `Prekeys.CountAfterOpks` | backend/src/main/java/com/chat/e2e/backend/keys/PrekeyService.java:37-51 | uploading n items raises the device's available count by n and leaves every other device's count alone |
| `Prekeys.PrekeyService.CountAvailable` | backend/src/main/java/com/chat/e2e/backend/keys/PrekeyService.java:53-55 | the number of rows that are unused one-time prekeys of the device |
| `Prekeys.BundleOf` | backend/src/main/java/com/chat/e2e/backend/keys/PrekeyService.java:73-85 | the one-time prekey fields are null iff nothing was claimed; the certificate is present iff the device has a payload, with kid "ed25519:root-2025"; the PQ prekey is always null |
| `Prekeys.PrekeyService.BuildBundle` | backend/src/main/java/com/chat/e2e/backend/keys/PrekeyService.java:59-86 | "device not found" and then "no SPK available" fail with the keys unchanged; otherwise the keys are those after one claim, and the bundle is built from the device, its newest signed prekey and the claimed row |
| `Prekeys.BundleContents` | backend/src/main/java/com/chat/e2e/backend/keys/PrekeyService.java:59-86 | a served bundle carries the device's newest signed prekey with its signature in Base64, and a one-time prekey iff one was available: the oldest, which is no longer available |
| `Prekeys.RevocationIgnored` | backend/src/main/java/com/chat/e2e/backend/keys/PrekeyService.java:60 | revoking a device changes neither whether a bundle is served nor the device data it is built from, apart from revokedAt |
| `Common.EncodeNullable` | backend/src/main/java/com/chat/e2e/backend/keys/PrekeyService.java:77 | null iff the bytes are null, otherwise their Base64 encoding |
| `Conversations.ConversationService.CreateConversation` | backend/src/main/java/com/chat/e2e/backend/chat/ConversationService.java:27-48 | fails iff some handle is unknown, naming such a handle and with nothing saved; otherwise saves the conversation with the null-as-false group flag and one "member" row for each user the handles name |
| `Conversations.UserIdsOf` | backend/src/main/java/com/chat/e2e/backend/chat/ConversationService.java:35-46 | a user id is included iff some given handle resolves to that user |
| `Conversations.IsGroupFlag` | backend/src/main/java/com/chat/e2e/backend/chat/ConversationService.java:29 | true iff the flag is present and true |
| `Conversations.OneMemberPerHandle` | backend/src/main/java/com/chat/e2e/backend/chat/ConversationService.java:35-46 | with distinct user ids and all handles known, n handles give n member rows |
| `Conversations.ConversationService.AddMemberDevices` | backend/src/main/java/com/chat/e2e/backend/chat/ConversationService.java:51-73 | "user not found", then "user not member"; succeeds iff every device exists and belongs to the user, then saves one row per device; any failure leaves the rows unchanged, and a failure after the user is found and is a member names a requested device with its own error ("device not found" or "device does not belong to user") |
| `Conversations.ConversationService.RegisterDevices` | backend/src/main/java/com/chat/e2e/backend/chat/ConversationService.java:59-72 | succeeds iff every device exists and is the user's, and then saves exactly one row per device; on failure it rolls back and names a failing device |
| `Conversations.DeviceProblem` | backend/src/main/java/com/chat/e2e/backend/chat/ConversationService.java:60-63 | no problem iff the device exists and belongs to the user |
| `Conversations.RegisteredDevicesReceive` | backend/src/main/java/com/chat/e2e/backend/chat/ConversationService.java:66-71 | after registration every registered device except the sender's is in send's recipient set (before the revoked filter) |
| `Conversations.Bootstrap` | backend/src/main/java/com/chat/e2e/backend/chat/ConversationService.java:74-97 | "user not found" iff the handle is unknown; otherwise the caller's id and handle, every conversation with exactly the briefs of its member rows, each with the member's handle or "?", and exactly the caller's devices |
| `Conversations.HandleOr` | backend/src/main/java/com/chat/e2e/backend/chat/ConversationService.java:85 | the member's handle, or "?" when the user row is missing |
| `Conversations.MembersOf` | backend/src/main/java/com/chat/e2e/backend/chat/ConversationService.java:83-85 | a brief is listed iff a member row of the conversation names its user and its handle is that user's handle, or "?" without a user row |
| `Conversations.BootstrapListsEveryConversation` | backend/src/main/java/com/chat/e2e/backend/chat/ConversationService.java:80-88 | each conversation keeps its own id, flag and time, and lists a user iff a member row of that conversation names them, whether or not the caller is a member; a listed user appears with one handle only: the user row's handle, or "?" without one |
| `Conversations.BootstrapKeepsRevoked` | backend/src/main/java/com/chat/e2e/backend/chat/ConversationService.java:91-94 | revoked devices of the caller are listed too |
| `Realtime.AuthChannelInterceptor.PreSend` | backend/src/main/java/com/chat/e2e/backend/realtime/AuthChannelInterceptor.java:20-44 | frames without an accessor, or that are not CONNECT, pass unchanged; a CONNECT either fails with its error and nothing changed, or gets the verified principal as user and is left mutable |
| `Realtime.FirstNonNull` | backend/src/main/java/com/chat/e2e/backend/realtime/AuthChannelInterceptor.java:46 | the first argument when present, else the second |
| `Realtime.FirstNativeHeader` | backend/src/main/java/com/chat/e2e/backend/realtime/AuthChannelInterceptor.java:26-27 | present iff the header has a value, and then its first value |
| `Realtime.ExtractBearer` | backend/src/main/java/com/chat/e2e/backend/realtime/AuthChannelInterceptor.java:30-33 | the missing-bearer error iff the header is absent or its lower-cased form does not start with "bearer "; otherwise the rest after 7 characters, trimmed |
| `Realtime.AnyCaseBearer` | backend/src/main/java/com/chat/e2e/backend/realtime/AuthChannelInterceptor.java:30-33 | any ASCII casing of "bearer " followed by t yields trim(t) |
| `Realtime.TokenRoundTrip` | backend/src/main/java/com/chat/e2e/backend/realtime/AuthChannelInterceptor.java:33 | a token without surrounding blanks reaches the verifier unchanged |
| `Realtime.ConnectOutcome` | backend/src/main/java/com/chat/e2e/backend/realtime/AuthChannelInterceptor.java:25-40 | no header or no "bearer " prefix means the missing-bearer error; a token the verifier rejects gives the verifier's error; a verified token gives the principal of its user and device ids, with the user id's text as its name |

## Left out

- Persistence, JPA and SQL are not modelled. Tables are sequences or maps in a `Database` object.
- Key constraints are the predicate `Database.Keyed` (distinct user ids, handles and device ids). The enrollment operations preserve it, and `Revoke` relies on it to name the owned row. The other unique constraints of the schema are not modelled.
- `MessageDelivery`'s generated `id` is not stored in the modelled rows. The inbox query that returns it and the bulk update `Ack` issues with it are outside the model, so no operation here reads it from the table.
- Each `@Transactional` rollback is an explicit restore of the tables the method touched.
- The inbox query `findNextForDevice` (MessageDeliveryRepository) is not part of this model. It is a parameter of `FetchInbox`.
- The `bulkSetDeliveredAt` and `updateRead` queries are not part of this model. `Ack` and `MarkRead` return the command they issue.
- Concurrency is not modelled. That covers the two `ConcurrentHashMap` nonce stores, and the `FOR UPDATE SKIP LOCKED` protection of the claim. `UserKeyRepository.ClaimRunDistinct` covers sequential claims only.
- These are parameters, because their code is outside the core or is I/O:
  - randomness (the generated ids and the nonce UUID);
  - the clock `now`;
  - Base64;
  - SHA-256;
  - the Ed25519 key factory and signature verification;
  - the JWT verifier.
- Each call uses one `now`. In the source, `finish` reads the clock twice, and every saved row reads it again.
- `UserKeyRepository.Claim`: `claimed_at = now()` is the database's clock, and it is modelled as the same `now`.
- Iteration order of `HashSet`, `HashMap` and `Set` is not fixed. Loops pick an arbitrary element, so a contract states the result up to order.
  - A send returns its visiting order as a ghost value.
  - Where several handles or devices would fail, the error names one of them.
- Jackson serialisation of the headers is modelled as the JSON object before printing (`Header`). The text bytes are not modelled.
- Bootstrap conversations are a map keyed by id and members are a set: `findAll` fixes no order. Bootstrap's principal name is taken as a handle, as the source assumes.
- Java's `int` wrap-around of the delivery and upload counters is not modelled. The counters are `nat`.
- `Instant.plusSeconds` overflow is not modelled. Instants are unbounded nanosecond counts.
- `JavaText.ToLowerCase` lowers ASCII letters only. The `"bearer "` prefix test is still exact: no other character lowercases to one of its letters or to a space.
- `Enrollment.ProofRejection`: the platform check differs from Java's `toLowerCase` in two ways.
  - Java maps KELVIN SIGN U+212A to `k`, so `"DES\u212ATOP"` becomes `"desktop"` and is accepted. The model rejects it.
  - Under a Turkish default locale, Java lowers `"IOS"` to `"ıos"` and `"ANDROID"` to `"androıd"` and rejects them. The model accepts them.
- `JavaText.ParseLong` accepts ASCII digits only. `Long.parseLong` accepts any Unicode decimal digit (`Character.digit`), so a cursor such as `"١٧٠٠٠٠٠٠٠٠:<uuid>"` (Arabic-Indic digits) decodes in Java but gives the empty cursor in the model.
- `UUID.fromString` is modelled on its strict 36-character form. The JDK's lenient `fromString1` path is left out. That path takes shorter forms, and also 36-character texts the fast path refuses, such as a sign or non-ASCII digits read by `Long.parseLong(…, 16)` (`"+0000000-0000-0000-0000-000000000000"`).
- `Uuids.Parse` therefore rejects some cursors the JDK would accept.
- Null request objects are left out, apart from `finish`'s own `deviceId`/`req` checks. `finish` also does not model the optional `deviceName` null-vs-blank distinction beyond `isBlank`.
- The DTO file of the repository lacks some request and response records the services use (`SendMessageRequest`, `DeliveryDTO`, `CreateConversationRequest`, `AddMemberDevicesRequest`, `BootstrapResponse`, `JwtClaims`). Their fields are taken from how the services use them.
- `UserDevice`'s `publicKxKey` and `identityBindingSig` columns are written by `finish` but missing from the entity source. The model adds them.
- The entity declares `publicIdentityKey` non-null, yet `start` saves a device without one; the model allows null. Likewise `distributeCK` stores a null `senderId` although that column is declared non-null.
- The device certificate metadata columns (`certIssuedAt`, `certExpiresAt`, `certAlg`, `certSerial`) are not modelled, because no core operation reads them.
- `addMemberDevices` does not check that the conversation exists, only membership, and the model follows that.
- Controllers, the WebSocket configuration, the development JWT verifier, `AppUserService` and the REST mapping are outside the modelled core.
- The generated ids are assumed fresh: `Send`, `DistributeCK` and `CreateConversation` require an unused id; `Start` requires an unused device id.
