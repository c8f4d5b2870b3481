/** MessageService: the fan-out of a message to the member devices of a
    conversation, the distribution of per-device sealed chain keys, the inbox
    page mapping, the next-cursor rule and the ack/read commands. */
module Messaging {
  import opened Common
  import opened Uuids
  import opened Entities
  import opened Store
  import opened JavaText
  import opened MessageCursor
  import opened UserDeviceRepository

  /** DTOs.SendMessageRequest. */
  datatype SendMessageRequest = SendMessageRequest(contentType: string, epoch: Int32, counter: int, ciphertextB64: string)

  /** DTOs.DistributeCKRequest: one Base64 sealed chain key per device id. */
  datatype DistributeCKRequest = DistributeCKRequest(
    epoch: Int32,
    sealedForDevice: map<Uuid, string>,
    sigFromDevice: Option<string>,
    fromDeviceId: Option<Uuid>)

  /** DTOs.SendMessageResponse. */
  datatype SendMessageResponse = SendMessageResponse(messageId: Uuid, createdAt: Instant, deliveries: nat)

  /** The header of a text message core. */
  function CoreHeader(req: SendMessageRequest): Header
  {
    map["type" := JString("text"), "epoch" := JNumber(req.epoch),
        "counter" := JNumber(req.counter), "content_type" := JString(req.contentType)]
  }

  /** The header of one delivery row. */
  function DeliveryHeader(epoch: int, counter: int): Header
  {
    map["epoch" := JNumber(epoch), "counter" := JNumber(counter)]
  }

  /** ConversationMemberDeviceRepository.findAllDeviceIdsByConversationId. */
  function MemberDeviceIds(memberDevices: map<(Uuid, Uuid), Uuid>, conversationId: Uuid): (r: set<Uuid>)
    ensures forall d :: d in r <==> (conversationId, d) in memberDevices
  {
    set k | k in memberDevices && k.0 == conversationId :: k.1
  }

  /** The recipient set of `send`: every member device except the sending one. */
  function Recipients(memberDevices: map<(Uuid, Uuid), Uuid>, conversationId: Uuid, senderDeviceId: Uuid): (r: set<Uuid>)
    ensures forall d :: d in r <==> (conversationId, d) in memberDevices && d != senderDeviceId
  {
    MemberDeviceIds(memberDevices, conversationId) - {senderDeviceId}
  }

  /** A device `send` writes a row for: it exists and is not revoked. */
  predicate Deliverable(devices: seq<UserDevice>, id: Uuid)
  {
    FindDeviceById(devices, id).Some? && FindDeviceById(devices, id).value.IsActive()
  }

  function Eligible(devices: seq<UserDevice>, ids: set<Uuid>): (r: set<Uuid>)
    ensures r <= ids
    ensures forall id :: id in r <==> id in ids && Deliverable(devices, id)
  {
    set id | id in ids && Deliverable(devices, id)
  }

  /** The reason `send` throws, checked in the order the source checks:
      conversation, membership, sender device, then the ciphertext's Base64. */
  function SendRejection(conversations: map<Uuid, Conversation>, members: map<(Uuid, Uuid), string>,
                         devices: seq<UserDevice>, conversationId: Uuid, senderUserId: Uuid,
                         senderDeviceId: Uuid, ciphertextB64: string, codec: Base64Codec): (r: Option<Error>)
    ensures conversationId !in conversations ==> r == Some(IllegalArgument("conversation not found"))
    ensures r.None? <==> conversationId in conversations && (conversationId, senderUserId) in members &&
                         FindDeviceById(devices, senderDeviceId).Some? && codec.decode(ciphertextB64).Some?
  {
    if conversationId !in conversations then Some(IllegalArgument("conversation not found"))
    else if (conversationId, senderUserId) !in members then Some(IllegalArgument("sender not a member"))
    else if FindDeviceById(devices, senderDeviceId).None? then Some(IllegalArgument("sender device not found"))
    else if codec.decode(ciphertextB64).None? then Some(MalformedBase64)
    else None
  }

  /** The delivery rows written for the devices `ids`, in that order, all with
      the same ciphertext and header. */
  function Fanout(messageId: Uuid, ids: seq<Uuid>, ciphertext: Bytes, header: Header): (r: seq<MessageDelivery>)
    ensures |r| == |ids|
    ensures forall k :: 0 <= k < |ids| ==> r[k] == MessageDelivery(messageId, ids[k], ciphertext, header, None, None)
  {
    if ids == [] then []
    else Fanout(messageId, ids[..|ids| - 1], ciphertext, header)
         + [MessageDelivery(messageId, ids[|ids| - 1], ciphertext, header, None, None)]
  }

  /** The decoded sealed payload for `id` (empty where the map has none). */
  function Payload(sealed: map<Uuid, string>, codec: Base64Codec, id: Uuid): Bytes
  {
    if id in sealed && codec.decode(sealed[id]).Some? then codec.decode(sealed[id]).value else []
  }

  /** The delivery rows of a chain-key distribution to `ids`, each with its own payload. */
  function SealedRows(messageId: Uuid, ids: seq<Uuid>, sealed: map<Uuid, string>, codec: Base64Codec, header: Header): (r: seq<MessageDelivery>)
    ensures |r| == |ids|
    ensures forall k :: 0 <= k < |ids| ==> r[k] == MessageDelivery(messageId, ids[k], Payload(sealed, codec, ids[k]), header, None, None)
  {
    if ids == [] then []
    else SealedRows(messageId, ids[..|ids| - 1], sealed, codec, header)
         + [MessageDelivery(messageId, ids[|ids| - 1], Payload(sealed, codec, ids[|ids| - 1]), header, None, None)]
  }

  lemma FanoutSnoc(messageId: Uuid, ids: seq<Uuid>, id: Uuid, ciphertext: Bytes, header: Header)
    ensures Fanout(messageId, ids + [id], ciphertext, header)
            == Fanout(messageId, ids, ciphertext, header) + [MessageDelivery(messageId, id, ciphertext, header, None, None)]
  {
    assert (ids + [id])[..|ids|] == ids;
  }

  lemma SealedRowsSnoc(messageId: Uuid, ids: seq<Uuid>, id: Uuid, sealed: map<Uuid, string>, codec: Base64Codec, header: Header)
    ensures SealedRows(messageId, ids + [id], sealed, codec, header)
            == SealedRows(messageId, ids, sealed, codec, header) + [MessageDelivery(messageId, id, Payload(sealed, codec, id), header, None, None)]
  {
    assert (ids + [id])[..|ids|] == ids;
  }

  /** The header of a chain-key distribution core. */
  function CkHeader(req: DistributeCKRequest): Header
  {
    map["type" := JString("ck_distribute"), "epoch" := JNumber(req.epoch),
        "from_device" := (if req.fromDeviceId.None? then JNull else JString(ToString(req.fromDeviceId.value))),
        "sig" := (if req.sigFromDevice.None? then JNull else JString(req.sigFromDevice.value))]
  }

  /** The reason `distributeCK` throws: an unknown conversation, or any payload
      that is not Base64, whether or not it is addressed to a member device. */
  function DistributeRejection(conversations: map<Uuid, Conversation>, conversationId: Uuid,
                               sealed: map<Uuid, string>, codec: Base64Codec): (r: Option<Error>)
    ensures conversationId !in conversations ==> r == Some(IllegalArgument("conversation not found"))
    ensures r.None? <==> conversationId in conversations && forall id :: id in sealed ==> codec.decode(sealed[id]).Some?
  {
    if conversationId !in conversations then Some(IllegalArgument("conversation not found"))
    else if exists id :: id in sealed && codec.decode(sealed[id]).None? then Some(MalformedBase64)
    else None
  }

  /** The devices `distributeCK` writes for: the map's keys that are member
      devices of the conversation (revocation is not consulted). */
  function CkTargets(memberDevices: map<(Uuid, Uuid), Uuid>, conversationId: Uuid, sealed: map<Uuid, string>): (r: set<Uuid>)
    ensures forall id :: id in r <==> id in sealed && (conversationId, id) in memberDevices
  {
    set id | id in sealed && (conversationId, id) in memberDevices
  }

  class MessageService {
    const db: Database

    constructor (db: Database)
      ensures this.db == db
    {
      this.db := db;
    }

    /** send: a core row and one delivery row per active recipient device. The
        `order` in which the HashSet of recipients is visited is returned as a
        ghost value; the stored rows follow it. */
    method Send(conversationId: Uuid, senderUserId: Uuid, senderDeviceId: Uuid, req: SendMessageRequest,
                now: Instant, coreId: Uuid, codec: Base64Codec)
      returns (r: Result<SendMessageResponse>, ghost order: seq<Uuid>)
      requires coreId !in db.cores
      modifies db`cores, db`deliveries
      ensures var rejection := SendRejection(old(db.conversations), old(db.members), old(db.devices),
                                             conversationId, senderUserId, senderDeviceId, req.ciphertextB64, codec);
              (r.Err? <==> rejection.Some?) && (r.Err? ==> r.error == rejection.value)
      ensures r.Err? ==> db.cores == old(db.cores) && db.deliveries == old(db.deliveries)
      ensures r.Ok? ==>
                db.cores == old(db.cores)[coreId := MessageCore(coreId, conversationId, Some(senderUserId), now, req.contentType, CoreHeader(req))] &&
                Enumerates(order, Eligible(db.devices, Recipients(db.memberDevices, conversationId, senderDeviceId))) &&
                db.deliveries == old(db.deliveries) + Fanout(coreId, order, codec.decode(req.ciphertextB64).value, DeliveryHeader(req.epoch, req.counter)) &&
                r.value == SendMessageResponse(coreId, now, |order|)
    {
      order := [];
      if conversationId !in db.conversations {
        return Err(IllegalArgument("conversation not found")), order;
      }
      if (conversationId, senderUserId) !in db.members {
        return Err(IllegalArgument("sender not a member")), order;
      }
      if FindDeviceById(db.devices, senderDeviceId).None? {
        return Err(IllegalArgument("sender device not found")), order;
      }
      var savedCores := db.cores;
      db.cores := db.cores[coreId := MessageCore(coreId, conversationId, Some(senderUserId), now, req.contentType, CoreHeader(req))];

      var recipients := Recipients(db.memberDevices, conversationId, senderDeviceId);
      var decoded := codec.decode(req.ciphertextB64);
      if decoded.None? {
        db.cores := savedCores;   // the transaction rolls back
        return Err(MalformedBase64), order;
      }
      var deliveries;
      deliveries, order := DeliverToEach(coreId, recipients, decoded.value, DeliveryHeader(req.epoch, req.counter));
      r := Ok(SendMessageResponse(coreId, now, deliveries));
    }

    /** The loop of send: one row with the shared ciphertext for every recipient
        that exists and is not revoked. */
    method DeliverToEach(coreId: Uuid, recipients: set<Uuid>, ciphertext: Bytes, header: Header)
      returns (deliveries: nat, ghost order: seq<Uuid>)
      modifies db`deliveries
      ensures Enumerates(order, Eligible(db.devices, recipients))
      ensures db.deliveries == old(db.deliveries) + Fanout(coreId, order, ciphertext, header)
      ensures deliveries == |order|
    {
      ghost var eligible := Eligible(db.devices, recipients);
      order := [];
      deliveries := 0;
      var remaining := recipients;
      while remaining != {}
        invariant remaining <= recipients
        invariant deliveries == |order|
        invariant Distinct(order)
        invariant forall x :: x in order ==> x in eligible && x !in remaining
        invariant forall x :: x in eligible && x !in remaining ==> x in order
        invariant db.deliveries == old(db.deliveries) + Fanout(coreId, order, ciphertext, header)
        decreases |remaining|
      {
        var devId :| devId in remaining;
        var d := FindDeviceById(db.devices, devId);
        if d.Some? && d.value.revokedAt.None? {
          FanoutSnoc(coreId, order, devId, ciphertext, header);
          db.deliveries := db.deliveries + [MessageDelivery(coreId, devId, ciphertext, header, None, None)];
          order := order + [devId];
          deliveries := deliveries + 1;
        }
        remaining := remaining - {devId};
      }
    }

    /** distributeCK: a control core and, for each map key that is a member
        device, a delivery row holding that device's own sealed payload. */
    method DistributeCK(conversationId: Uuid, req: DistributeCKRequest, now: Instant, coreId: Uuid, codec: Base64Codec)
      returns (r: Result<SendMessageResponse>, ghost order: seq<Uuid>)
      requires coreId !in db.cores
      modifies db`cores, db`deliveries
      ensures var rejection := DistributeRejection(old(db.conversations), conversationId, req.sealedForDevice, codec);
              (r.Err? <==> rejection.Some?) && (r.Err? ==> r.error == rejection.value)
      ensures r.Err? ==> db.cores == old(db.cores) && db.deliveries == old(db.deliveries)
      ensures r.Ok? ==>
                db.cores == old(db.cores)[coreId := MessageCore(coreId, conversationId, None, now, "control/ck_distribute", CkHeader(req))] &&
                Enumerates(order, CkTargets(db.memberDevices, conversationId, req.sealedForDevice)) &&
                db.deliveries == old(db.deliveries) + SealedRows(coreId, order, req.sealedForDevice, codec, DeliveryHeader(req.epoch, 0)) &&
                r.value == SendMessageResponse(coreId, now, |order|)
    {
      order := [];
      if conversationId !in db.conversations {
        return Err(IllegalArgument("conversation not found")), order;
      }
      var savedCores, savedDeliveries := db.cores, db.deliveries;
      db.cores := db.cores[coreId := MessageCore(coreId, conversationId, None, now, "control/ck_distribute", CkHeader(req))];
      var decodedAll, deliveries;
      decodedAll, deliveries, order := DeliverSealed(conversationId, coreId, req.sealedForDevice, codec, DeliveryHeader(req.epoch, 0));
      if !decodedAll {
        db.cores, db.deliveries := savedCores, savedDeliveries;   // the transaction rolls back
        return Err(MalformedBase64), order;
      }
      r := Ok(SendMessageResponse(coreId, now, deliveries));
    }

    /** The loop of distributeCK: every entry is decoded first, and a row is
        written when its device is a member device of the conversation. Stops
        with `decodedAll` false at the first payload that is not Base64. */
    method DeliverSealed(conversationId: Uuid, coreId: Uuid, sealed: map<Uuid, string>, codec: Base64Codec, header: Header)
      returns (decodedAll: bool, deliveries: nat, ghost order: seq<Uuid>)
      modifies db`deliveries
      ensures decodedAll <==> forall x :: x in sealed ==> codec.decode(sealed[x]).Some?
      ensures decodedAll ==>
                Enumerates(order, CkTargets(db.memberDevices, conversationId, sealed)) &&
                db.deliveries == old(db.deliveries) + SealedRows(coreId, order, sealed, codec, header) &&
                deliveries == |order|
    {
      ghost var targets := CkTargets(db.memberDevices, conversationId, sealed);
      order := [];
      deliveries := 0;
      var remaining := sealed.Keys;
      while remaining != {}
        invariant remaining <= sealed.Keys
        invariant deliveries == |order|
        invariant Distinct(order)
        invariant forall x :: x in order ==> x in targets && x !in remaining
        invariant forall x :: x in targets && x !in remaining ==> x in order
        invariant forall x :: x in sealed && x !in remaining ==> codec.decode(sealed[x]).Some?
        invariant db.deliveries == old(db.deliveries) + SealedRows(coreId, order, sealed, codec, header)
        decreases |remaining|
      {
        var devId :| devId in remaining;
        var payload := codec.decode(sealed[devId]);
        if payload.None? {
          return false, deliveries, order;
        }
        if (conversationId, devId) in db.memberDevices {
          SealedRowsSnoc(coreId, order, devId, sealed, codec, header);
          db.deliveries := db.deliveries + [MessageDelivery(coreId, devId, payload.value, header, None, None)];
          order := order + [devId];
          deliveries := deliveries + 1;
        }
        remaining := remaining - {devId};
      }
      decodedAll := true;
    }
  }

  /** The count `send` returns is the size of the eligible set, which is at most
      the size of the recipient set, and never includes the sending device. */
  lemma SendCountBounds(devices: seq<UserDevice>, memberDevices: map<(Uuid, Uuid), Uuid>,
                        conversationId: Uuid, senderDeviceId: Uuid, order: seq<Uuid>)
    requires Enumerates(order, Eligible(devices, Recipients(memberDevices, conversationId, senderDeviceId)))
    ensures |order| == |Eligible(devices, Recipients(memberDevices, conversationId, senderDeviceId))|
    ensures |order| <= |Recipients(memberDevices, conversationId, senderDeviceId)|
    ensures senderDeviceId !in order
    ensures forall d :: d in order ==> (conversationId, d) in memberDevices && Deliverable(devices, d)
  {
    var recipients := Recipients(memberDevices, conversationId, senderDeviceId);
    EnumerationSize(order, Eligible(devices, recipients));
    SubsetSize(Eligible(devices, recipients), recipients);
  }

  lemma SubsetSize(a: set<Uuid>, b: set<Uuid>)
    requires a <= b
    ensures |a| <= |b|
  {
    assert b == a + (b - a);
  }

  /** Three member devices, all active, one of them the sender's: two deliveries. */
  lemma ThreeDevicesTwoDeliveries(c: Uuid, u: Uuid, order: seq<Uuid>)
    requires var memberDevices := map[(c, 1) := u, (c, 2) := u, (c, 3) := u];
             var devices := [ExampleDevice(1, u), ExampleDevice(2, u), ExampleDevice(3, u)];
             Enumerates(order, Eligible(devices, Recipients(memberDevices, c, 3)))
    ensures |order| == 2
  {
    var memberDevices := map[(c, 1) := u, (c, 2) := u, (c, 3) := u];
    var devices := [ExampleDevice(1, u), ExampleDevice(2, u), ExampleDevice(3, u)];
    assert MemberDeviceIds(memberDevices, c) == {1, 2, 3};
    assert Recipients(memberDevices, c, 3) == {1, 2};
    assert FindDeviceById(devices, 1) == Some(devices[0]);
    assert FindDeviceById(devices, 2) == Some(devices[1]);
    assert Eligible(devices, {1, 2}) == {1, 2};
    EnumerationSize(order, {1, 2});
  }

  function ExampleDevice(id: Uuid, owner: Uuid): UserDevice
  {
    UserDevice(id, owner, None, None, None, None, None, None, None, None, None, None, 0, None)
  }

  /** A malformed payload addressed to a device outside the conversation still
      rejects the whole distribution. */
  lemma MalformedPayloadToStrangerAborts(conversations: map<Uuid, Conversation>, memberDevices: map<(Uuid, Uuid), Uuid>,
                                         conversationId: Uuid, sealed: map<Uuid, string>, codec: Base64Codec, stranger: Uuid)
    requires conversationId in conversations
    requires stranger in sealed && codec.decode(sealed[stranger]).None?
    requires stranger !in CkTargets(memberDevices, conversationId, sealed)
    ensures DistributeRejection(conversations, conversationId, sealed, codec) == Some(MalformedBase64)
  {
  }

  /** The count `distributeCK` returns is the number of addressed member devices. */
  lemma DistributeCount(memberDevices: map<(Uuid, Uuid), Uuid>, conversationId: Uuid, sealed: map<Uuid, string>, order: seq<Uuid>)
    requires Enumerates(order, CkTargets(memberDevices, conversationId, sealed))
    ensures |order| == |CkTargets(memberDevices, conversationId, sealed)| <= |sealed|
  {
    EnumerationSize(order, CkTargets(memberDevices, conversationId, sealed));
    SubsetSize(CkTargets(memberDevices, conversationId, sealed), sealed.Keys);
  }

  /** One row of findNextForDevice: d.id, m.id, m.conversationId, m.contentType,
      m.header, d.ciphertext, m.createdAt. */
  datatype InboxRow = InboxRow(deliveryId: Uuid, messageId: Uuid, conversationId: Uuid, contentType: string,
                               header: string, ciphertext: Bytes, createdAt: Instant)

  /** DTOs.DeliveryDTO. */
  datatype DeliveryDTO = DeliveryDTO(deliveryId: Uuid, messageId: Uuid, conversationId: Uuid, contentType: string,
                                     header: string, ciphertextB64: string, createdAt: Instant)

  /** The inbox query, whose text the core does not contain: device, decoded
      cursor and page size to rows. */
  type InboxQuery = (Uuid, Cursor, nat) -> seq<InboxRow>

  function ToDeliveryDTO(row: InboxRow, codec: Base64Codec): DeliveryDTO
  {
    DeliveryDTO(row.deliveryId, row.messageId, row.conversationId, row.contentType, row.header,
                codec.encode(row.ciphertext), row.createdAt)
  }

  function MapRows(rows: seq<InboxRow>, codec: Base64Codec): (r: seq<DeliveryDTO>)
    ensures |r| == |rows|
    ensures forall i :: 0 <= i < |rows| ==> r[i] == ToDeliveryDTO(rows[i], codec)
  {
    if rows == [] then [] else [ToDeliveryDTO(rows[0], codec)] + MapRows(rows[1..], codec)
  }

  /** fetchInbox: PageRequest.of(0, limit) rejects a page size below one; the rows
      of the query, run with the decoded cursor, map one to one and in order to
      DTOs carrying the ciphertext in Base64. */
  function FetchInbox(deviceId: Uuid, sinceCursor: Option<string>, limit: Int32, query: InboxQuery, codec: Base64Codec): (r: Result<seq<DeliveryDTO>>)
    ensures r.Err? <==> limit < 1
    ensures r.Err? ==> r.error == IllegalArgument("Page size must not be less than one")
    ensures r.Ok? ==>
              var rows := query(deviceId, Decode(sinceCursor), limit as nat);
              |r.value| == |rows| &&
              forall i :: 0 <= i < |rows| ==>
                r.value[i].deliveryId == rows[i].deliveryId && r.value[i].messageId == rows[i].messageId &&
                r.value[i].conversationId == rows[i].conversationId && r.value[i].contentType == rows[i].contentType &&
                r.value[i].header == rows[i].header && r.value[i].ciphertextB64 == codec.encode(rows[i].ciphertext) &&
                r.value[i].createdAt == rows[i].createdAt
  {
    if limit < 1 then Err(IllegalArgument("Page size must not be less than one"))
    else Ok(MapRows(query(deviceId, Decode(sinceCursor), limit as nat), codec))
  }

  /** computeNextCursor: the previous cursor for a null or empty page, otherwise
      the encoding of the last item. */
  function ComputeNextCursor(items: Option<seq<DeliveryDTO>>, prev: Option<string>): (r: Option<string>)
    ensures items.None? || items.value == [] ==> r == prev
    ensures items.Some? && items.value != [] ==>
              r.Some? && SplitColon(r.value) == [LongToString(EpochSecond(Last(items.value).createdAt)), ToString(Last(items.value).messageId)]
  {
    if items.None? || items.value == [] then prev
    else
      var last := Last(items.value);
      Encode(Some(last.createdAt), Some(last.messageId))
  }

  function Last(items: seq<DeliveryDTO>): DeliveryDTO
    requires items != []
  {
    items[|items| - 1]
  }

  /** On a non-empty page the next cursor decodes to the last item's id and its
      creation time truncated to the second: a client resumes after that item. */
  lemma NextCursorResumesAfterLast(items: seq<DeliveryDTO>, prev: Option<string>)
    requires items != []
    requires INSTANT_MIN_SECOND <= EpochSecond(Last(items).createdAt) <= INSTANT_MAX_SECOND
    ensures Decode(ComputeNextCursor(Some(items), prev))
            == Cursor(Some(OfEpochSecond(EpochSecond(Last(items).createdAt))), Some(Last(items).messageId))
  {
    DecodeEncode(Last(items).createdAt, Last(items).messageId);
  }

  /** The repository commands behind ack and markRead (their queries are not part
      of the core). */
  datatype DeliveryCommand =
    | BulkSetDeliveredAt(deviceId: Uuid, deliveryIds: seq<Uuid>, at: Instant)
    | UpdateRead(deviceId: Uuid, messageId: Uuid, at: Instant)

  /** ack: no command for a null or empty id list, otherwise one bulk update of
      exactly those ids stamped `now`. */
  function Ack(deviceId: Uuid, deliveryIds: Option<seq<Uuid>>, now: Instant): (r: Option<DeliveryCommand>)
    ensures r.None? <==> deliveryIds.None? || deliveryIds.value == []
    ensures r.Some? ==> r.value.BulkSetDeliveredAt? && r.value.deviceId == deviceId &&
                        r.value.deliveryIds == deliveryIds.value && r.value.at == now
  {
    if deliveryIds.None? || deliveryIds.value == [] then None
    else Some(BulkSetDeliveredAt(deviceId, deliveryIds.value, now))
  }

  /** markRead: always one read update for that device and message. */
  function MarkRead(deviceId: Uuid, messageId: Uuid, now: Instant): (r: DeliveryCommand)
    ensures r.UpdateRead? && r.deviceId == deviceId && r.messageId == messageId && r.at == now
  {
    UpdateRead(deviceId, messageId, now)
  }
}
