/** ConversationService: creating a conversation with its member users,
    registering member devices for one member, and the bootstrap snapshot of a
    user's conversations and devices. */
module Conversations {
  import opened Common
  import opened Uuids
  import opened Entities
  import opened Store
  import opened UserDeviceRepository
  import opened Messaging

  /** DTOs.CreateConversationResponse. */
  datatype CreateResponse = CreateResponse(conversationId: Uuid, createdAt: Instant)

  /** The role createConversation gives every member. */
  const MEMBER_ROLE: string := "member"

  // --------------------------------------------------- createConversation

  /** The ids of the users the given handles name (unknown handles name none). */
  function UserIdsOf(users: seq<AppUser>, handles: set<string>): (r: set<Uuid>)
    ensures forall u :: u in r <==> exists h :: h in handles && FindUserByHandle(users, h) == Some(AppUser(u, h))
  {
    set h | h in handles && FindUserByHandle(users, h).Some? :: FindUserByHandle(users, h).value.id
  }

  /** `after` is `before` with one row (conversationId, id) -> v saved for every
      id in `ids` (a save on an existing key overwrites it). */
  ghost predicate SavesRows<V>(after: map<(Uuid, Uuid), V>, before: map<(Uuid, Uuid), V>, conversationId: Uuid, ids: set<Uuid>, v: V)
  {
    (forall k :: k in after <==> k in before || (k.0 == conversationId && k.1 in ids)) &&
    (forall k :: k in after ==> after[k] == if k.0 == conversationId && k.1 in ids then v else before[k])
  }

  lemma SavesNothing<V>(m: map<(Uuid, Uuid), V>, conversationId: Uuid, v: V)
    ensures SavesRows(m, m, conversationId, {}, v)
  {
  }

  /** Saving one more row extends the saved set by its id. */
  lemma SavesOneMore<V>(after: map<(Uuid, Uuid), V>, before: map<(Uuid, Uuid), V>, conversationId: Uuid, ids: set<Uuid>, v: V, id: Uuid)
    requires SavesRows(after, before, conversationId, ids, v)
    ensures SavesRows(after[(conversationId, id) := v], before, conversationId, ids + {id}, v)
  {
  }

  /** Resolving one more handle adds that user's id. */
  lemma UserIdsSnoc(users: seq<AppUser>, done: set<string>, h: string)
    requires FindUserByHandle(users, h).Some?
    ensures UserIdsOf(users, done + {h}) == UserIdsOf(users, done) + {FindUserByHandle(users, h).value.id}
  {
  }

  /** `Boolean.TRUE.equals(isGroup)`: null counts as false. */
  function IsGroupFlag(isGroup: Option<bool>): (r: bool)
    ensures r <==> isGroup.Some? && isGroup.value
  {
    isGroup == Some(true)
  }

  /** A handle createConversation cannot resolve. */
  predicate UnknownHandle(users: seq<AppUser>, handles: Option<set<string>>, h: string)
  {
    handles.Some? && h in handles.value && FindUserByHandle(users, h).None?
  }

  /** Distinct handles name distinct users when user ids are distinct, so a
      conversation created for n known handles has n member rows. */
  lemma {:induction false} OneMemberPerHandle(users: seq<AppUser>, handles: set<string>)
    requires forall i, j :: 0 <= i < j < |users| ==> users[i].id != users[j].id
    requires forall h :: h in handles ==> FindUserByHandle(users, h).Some?
    ensures |UserIdsOf(users, handles)| == |handles|
    decreases |handles|
  {
    if handles != {} {
      var h :| h in handles;
      var rest := handles - {h};
      OneMemberPerHandle(users, rest);
      var u := FindUserByHandle(users, h).value;
      assert UserIdsOf(users, handles) == UserIdsOf(users, rest) + {u.id};
      if u.id in UserIdsOf(users, rest) {
        var h' :| h' in rest && FindUserByHandle(users, h') == Some(AppUser(u.id, h'));
        SameIdSameUser(users, u, AppUser(u.id, h'));
        assert false;
      }
    }
  }

  lemma SameIdSameUser(users: seq<AppUser>, a: AppUser, b: AppUser)
    requires forall i, j :: 0 <= i < j < |users| ==> users[i].id != users[j].id
    requires a in users && b in users && a.id == b.id
    ensures a == b
  {
    var i :| 0 <= i < |users| && users[i] == a;
    var j :| 0 <= j < |users| && users[j] == b;
  }

  // ---------------------------------------------------- addMemberDevices

  /** Why one requested device is refused, if it is: it does not exist, or it
      belongs to another user. */
  function DeviceProblem(devices: seq<UserDevice>, userId: Uuid, deviceId: Uuid): (r: Option<Error>)
    ensures r.None? <==> FindDeviceById(devices, deviceId).Some? && FindDeviceById(devices, deviceId).value.userId == userId
  {
    match FindDeviceById(devices, deviceId)
    case None => Some(IllegalArgument("device not found: " + ToString(deviceId)))
    case Some(d) =>
      if d.userId != userId then Some(IllegalArgument("device does not belong to user: " + ToString(deviceId)))
      else None
  }

  /** Once addMemberDevices has succeeded, every registered device except the
      sending one is a recipient of what is sent to the conversation. */
  lemma RegisteredDevicesReceive(after: map<(Uuid, Uuid), Uuid>, before: map<(Uuid, Uuid), Uuid>, conversationId: Uuid,
                                 userId: Uuid, deviceIds: set<Uuid>, senderDeviceId: Uuid)
    requires SavesRows(after, before, conversationId, deviceIds, userId)
    ensures forall d :: d in deviceIds && d != senderDeviceId ==> d in Recipients(after, conversationId, senderDeviceId)
  {
    forall d | d in deviceIds && d != senderDeviceId
      ensures d in Recipients(after, conversationId, senderDeviceId)
    {
      assert (conversationId, d) in after;
    }
  }

  // ----------------------------------------------------------- bootstrap

  /** DTOs.MemberBrief. */
  datatype MemberBrief = MemberBrief(userId: Uuid, handle: string)

  /** DTOs.ConversationBrief. */
  datatype ConversationBrief = ConversationBrief(id: Uuid, isGroup: bool, createdAt: Instant, members: set<MemberBrief>)

  /** DTOs.UserDeviceBrief. */
  datatype UserDeviceBrief = UserDeviceBrief(deviceId: Uuid, platform: Option<string>, revokedAt: Option<Instant>, lastSeenAt: Option<Instant>)

  /** DTOs.BootstrapResponse; conversations keyed by id, since findAll fixes no order. */
  datatype BootstrapResponse = BootstrapResponse(
    userId: Uuid,
    handle: string,
    conversations: map<Uuid, ConversationBrief>,
    devices: seq<UserDeviceBrief>)

  /** A member's handle, or "?" when its user row is missing. */
  function HandleOr(users: seq<AppUser>, userId: Uuid): (r: string)
    ensures FindUserById(users, userId).None? ==> r == "?"
    ensures FindUserById(users, userId).Some? ==> r == FindUserById(users, userId).value.handle
  {
    match FindUserById(users, userId)
    case None => "?"
    case Some(u) => u.handle
  }

  /** The briefs of one conversation: one per member row, with the member's handle. */
  function MembersOf(users: seq<AppUser>, members: map<(Uuid, Uuid), string>, conversationId: Uuid): (r: set<MemberBrief>)
    ensures forall m :: m in r <==> (conversationId, m.userId) in members && m.handle == HandleOr(users, m.userId)
  {
    set k | k in members && k.0 == conversationId :: MemberBrief(k.1, HandleOr(users, k.1))
  }

  function DeviceBrief(d: UserDevice): UserDeviceBrief
  {
    UserDeviceBrief(d.id, d.platform, d.revokedAt, d.lastSeenAt)
  }

  /** bootstrap(principal) for the principal name `handle`. */
  function Bootstrap(users: seq<AppUser>, conversations: map<Uuid, Conversation>, members: map<(Uuid, Uuid), string>,
                     devices: seq<UserDevice>, handle: string): (r: Result<BootstrapResponse>)
    ensures r.Err? <==> FindUserByHandle(users, handle).None?
    ensures r.Err? ==> r.error == IllegalArgument("user not found")
    ensures r.Ok? ==>
              var me := FindUserByHandle(users, handle).value;
              r.value.userId == me.id && r.value.handle == handle &&
              r.value.conversations.Keys == conversations.Keys &&
              (forall d :: d in r.value.devices <==> exists x :: x in devices && x.userId == me.id && d == DeviceBrief(x)) &&
              (forall c, m :: c in conversations ==>
                 (m in r.value.conversations[c].members <==> (c, m.userId) in members && m.handle == HandleOr(users, m.userId)))
  {
    match FindUserByHandle(users, handle)
    case None => Err(IllegalArgument("user not found"))
    case Some(me) =>
      var owned := FindByUserId(devices, me.id);
      var briefs := seq(|owned|, j requires 0 <= j < |owned| => DeviceBrief(owned[j]));
      assert forall d :: d in briefs <==> exists x :: x in owned && d == DeviceBrief(x) by {
        forall d ensures d in briefs ==> exists x :: x in owned && d == DeviceBrief(x) {
          if d in briefs {
            var j :| 0 <= j < |briefs| && briefs[j] == d;
            assert owned[j] in owned;
          }
        }
        forall x | x in owned ensures DeviceBrief(x) in briefs {
          var j :| 0 <= j < |owned| && owned[j] == x;
          assert briefs[j] == DeviceBrief(x);
        }
      }
      Ok(BootstrapResponse(
        me.id, me.handle,
        map c | c in conversations :: ConversationBrief(c, conversations[c].isGroup, conversations[c].createdAt,
                                                        MembersOf(users, members, c)),
        briefs))
  }

  /** Every conversation is listed with exactly its own member rows, whether or
      not the caller is among them; a member without a user row shows as "?". */
  lemma BootstrapListsEveryConversation(users: seq<AppUser>, conversations: map<Uuid, Conversation>,
                                        members: map<(Uuid, Uuid), string>, devices: seq<UserDevice>,
                                        handle: string, c: Uuid, u: Uuid)
    requires FindUserByHandle(users, handle).Some? && c in conversations
    ensures var b := Bootstrap(users, conversations, members, devices, handle).value.conversations[c];
            b.id == c && b.isGroup == conversations[c].isGroup && b.createdAt == conversations[c].createdAt &&
            ((exists h :: MemberBrief(u, h) in b.members) <==> (c, u) in members) &&
            ((c, u) in members && FindUserById(users, u).None? ==> MemberBrief(u, "?") in b.members) &&
            ((c, u) in members && FindUserById(users, u).Some? ==>
               MemberBrief(u, FindUserById(users, u).value.handle) in b.members) &&
            (forall h :: MemberBrief(u, h) in b.members ==> h == HandleOr(users, u))
  {
    var b := Bootstrap(users, conversations, members, devices, handle).value.conversations[c];
    if (c, u) in members {
      assert MemberBrief(u, HandleOr(users, u)) in b.members;
    }
  }

  /** Revoked devices are listed too. */
  lemma BootstrapKeepsRevoked(users: seq<AppUser>, conversations: map<Uuid, Conversation>,
                              members: map<(Uuid, Uuid), string>, devices: seq<UserDevice>, handle: string, d: UserDevice)
    requires FindUserByHandle(users, handle).Some?
    requires d in devices && d.userId == FindUserByHandle(users, handle).value.id && !d.IsActive()
    ensures DeviceBrief(d) in Bootstrap(users, conversations, members, devices, handle).value.devices
  {
  }

  class ConversationService {
    const db: Database

    constructor (db: Database)
      ensures this.db == db
    {
      this.db := db;
    }

    /** createConversation: saves the conversation, then one member row per
        handle; an unknown handle rolls everything back. `newId` is the
        generated id. */
    method CreateConversation(isGroup: Option<bool>, memberHandles: Option<set<string>>, newId: Uuid, now: Instant)
      returns (r: Result<CreateResponse>)
      requires newId !in db.conversations
      modifies db`conversations, db`members
      ensures r.Err? <==> exists h :: UnknownHandle(db.users, memberHandles, h)
      ensures r.Err? ==>
                (exists h :: UnknownHandle(db.users, memberHandles, h) && r.error == IllegalArgument("user not found: " + h)) &&
                db.conversations == old(db.conversations) && db.members == old(db.members)
      ensures r.Ok? ==>
                r.value == CreateResponse(newId, now) &&
                db.conversations == old(db.conversations)[newId := Conversation(newId, IsGroupFlag(isGroup), now)] &&
                SavesRows(db.members, old(db.members), newId,
                          if memberHandles.None? then {} else UserIdsOf(db.users, memberHandles.value), MEMBER_ROLE)
    {
      var savedConversations, savedMembers := db.conversations, db.members;
      db.conversations := db.conversations[newId := Conversation(newId, IsGroupFlag(isGroup), now)];
      if memberHandles.None? {
        SavesNothing(db.members, newId, MEMBER_ROLE);
        return Ok(CreateResponse(newId, now));
      }
      var handles := memberHandles.value;
      var remaining := handles;
      ghost var done: set<string> := {};
      SavesNothing(db.members, newId, MEMBER_ROLE);
      while remaining != {}
        invariant remaining <= handles && done == handles - remaining
        invariant db.conversations == old(db.conversations)[newId := Conversation(newId, IsGroupFlag(isGroup), now)]
        invariant forall h :: h in done ==> FindUserByHandle(db.users, h).Some?
        invariant SavesRows(db.members, savedMembers, newId, UserIdsOf(db.users, done), MEMBER_ROLE)
        decreases |remaining|
      {
        var h :| h in remaining;
        var u := FindUserByHandle(db.users, h);
        if u.None? {
          db.conversations, db.members := savedConversations, savedMembers;   // the transaction rolls back
          assert UnknownHandle(db.users, memberHandles, h);
          return Err(IllegalArgument("user not found: " + h));
        }
        UserIdsSnoc(db.users, done, h);
        SavesOneMore(db.members, savedMembers, newId, UserIdsOf(db.users, done), MEMBER_ROLE, u.value.id);
        db.members := db.members[(newId, u.value.id) := MEMBER_ROLE];
        remaining := remaining - {h};
        done := done + {h};
      }
      r := Ok(CreateResponse(newId, now));
    }

    /** addMemberDevices: the user must exist and be a member; then, device by
        device, the device must exist and be the user's, and a member-device row
        is saved. Any refusal rolls every saved row back. */
    method AddMemberDevices(conversationId: Uuid, handle: string, deviceIds: set<Uuid>) returns (r: Outcome)
      modifies db`memberDevices
      ensures FindUserByHandle(db.users, handle).None? ==> r == Fail(IllegalArgument("user not found"))
      ensures FindUserByHandle(db.users, handle).Some? && (conversationId, FindUserByHandle(db.users, handle).value.id) !in db.members ==>
                r == Fail(IllegalArgument("user not member"))
      ensures r.Done? <==>
                FindUserByHandle(db.users, handle).Some? &&
                (conversationId, FindUserByHandle(db.users, handle).value.id) in db.members &&
                forall id :: id in deviceIds ==> DeviceProblem(db.devices, FindUserByHandle(db.users, handle).value.id, id).None?
      ensures r.Fail? ==> db.memberDevices == old(db.memberDevices)
      ensures r.Fail? && FindUserByHandle(db.users, handle).Some? &&
              (conversationId, FindUserByHandle(db.users, handle).value.id) in db.members ==>
                exists id :: id in deviceIds && DeviceProblem(db.devices, FindUserByHandle(db.users, handle).value.id, id) == Some(r.error)
      ensures r.Done? ==>
                SavesRows(db.memberDevices, old(db.memberDevices), conversationId, deviceIds, FindUserByHandle(db.users, handle).value.id)
    {
      var user := FindUserByHandle(db.users, handle);
      if user.None? {
        return Fail(IllegalArgument("user not found"));
      }
      var userId := user.value.id;
      if (conversationId, userId) !in db.members {
        return Fail(IllegalArgument("user not member"));
      }
      r := RegisterDevices(conversationId, userId, deviceIds);
    }

    /** The loop of addMemberDevices for the resolved member `userId`. */
    method RegisterDevices(conversationId: Uuid, userId: Uuid, deviceIds: set<Uuid>) returns (r: Outcome)
      modifies db`memberDevices
      ensures r.Done? <==> forall id :: id in deviceIds ==> DeviceProblem(db.devices, userId, id).None?
      ensures r.Fail? ==>
                db.memberDevices == old(db.memberDevices) &&
                exists id :: id in deviceIds && DeviceProblem(db.devices, userId, id) == Some(r.error)
      ensures r.Done? ==> SavesRows(db.memberDevices, old(db.memberDevices), conversationId, deviceIds, userId)
    {
      var saved := db.memberDevices;
      var remaining := deviceIds;
      ghost var done: set<Uuid> := {};
      SavesNothing(saved, conversationId, userId);
      while remaining != {}
        invariant remaining <= deviceIds && done == deviceIds - remaining
        invariant forall id :: id in done ==> DeviceProblem(db.devices, userId, id).None?
        invariant SavesRows(db.memberDevices, saved, conversationId, done, userId)
        decreases |remaining|
      {
        var devId :| devId in remaining;
        var problem := DeviceProblem(db.devices, userId, devId);
        if problem.Some? {
          db.memberDevices := saved;   // the transaction rolls back
          return Fail(problem.value);
        }
        SavesOneMore(db.memberDevices, saved, conversationId, done, userId, devId);
        db.memberDevices := db.memberDevices[(conversationId, devId) := userId];
        remaining := remaining - {devId};
        done := done + {devId};
      }
      r := Done;
    }
  }
}
