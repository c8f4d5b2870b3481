/** The relational store the repositories read and write, one field per table. */
module Store {
  import opened Common
  import opened Uuids
  import opened Entities
  import opened UserDeviceRepository

  class Database {
    /** app_user (the core only reads it). */
    var users: seq<AppUser>
    /** user_device, in insertion order. */
    var devices: seq<UserDevice>
    /** user_key, in insertion order. */
    var keys: seq<UserKey>
    /** conversation, by id. */
    var conversations: map<Uuid, Conversation>
    /** conversation_member: (conversation_id, user_id) -> role. */
    var members: map<(Uuid, Uuid), string>
    /** conversation_member_device: (conversation_id, device_id) -> user_id. */
    var memberDevices: map<(Uuid, Uuid), Uuid>
    /** message_core, by id. */
    var cores: map<Uuid, MessageCore>
    /** message_delivery, in insertion order. */
    var deliveries: seq<MessageDelivery>

    /** The keys of the two tables the core joins on are distinct. */
    predicate Keyed()
      reads this`users, this`devices
    {
      DistinctUsers(users) && DistinctDeviceIds(devices)
    }

    constructor (users: seq<AppUser>)
      requires DistinctUsers(users)
      ensures this.users == users
      ensures devices == [] && keys == [] && deliveries == []
      ensures conversations == map[] && members == map[] && memberDevices == map[] && cores == map[]
    {
      this.users := users;
      devices, keys, deliveries := [], [], [];
      conversations, members, memberDevices, cores := map[], map[], map[], map[];
    }
  }
}
