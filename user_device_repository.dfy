/** The queries of UserDeviceRepository, together with the two user lookups of
    AppUserRepository they join with, over the rows of the store. */
module UserDeviceRepository {
  import opened Common
  import opened Uuids
  import opened Entities
  import opened Sorting

  /** AppUserRepository.findByHandle (handles are unique, so the first match is the match). */
  function FindUserByHandle(users: seq<AppUser>, handle: string): (r: Option<AppUser>)
    ensures r.Some? ==> r.value in users && r.value.handle == handle
    ensures r.None? <==> forall u :: u in users ==> u.handle != handle
  {
    if users == [] then None
    else if users[0].handle == handle then Some(users[0])
    else FindUserByHandle(users[1..], handle)
  }

  /** AppUserRepository.findById. */
  function FindUserById(users: seq<AppUser>, id: Uuid): (r: Option<AppUser>)
    ensures r.Some? ==> r.value in users && r.value.id == id
    ensures r.None? <==> forall u :: u in users ==> u.id != id
  {
    if users == [] then None
    else if users[0].id == id then Some(users[0])
    else FindUserById(users[1..], id)
  }

  /** app_user.id is the primary key and app_user.handle is unique. */
  predicate DistinctUsers(users: seq<AppUser>)
  {
    forall i, j :: 0 <= i < j < |users| ==> users[i].id != users[j].id && users[i].handle != users[j].handle
  }

  /** user_device.id is the primary key. */
  predicate DistinctDeviceIds(devices: seq<UserDevice>)
  {
    forall i, j :: 0 <= i < j < |devices| ==> devices[i].id != devices[j].id
  }

  /** The position of the row with primary key `id`. */
  function DeviceIndex(devices: seq<UserDevice>, id: Uuid): (r: Option<nat>)
    ensures r.Some? ==> r.value < |devices| && devices[r.value].id == id
    ensures r.Some? ==> forall j :: 0 <= j < r.value ==> devices[j].id != id
    ensures r.None? <==> forall d :: d in devices ==> d.id != id
  {
    if devices == [] then None
    else if devices[0].id == id then Some(0)
    else match DeviceIndex(devices[1..], id)
      case None => None
      case Some(k) => Some(k + 1)
  }

  /** JpaRepository.findById on user_device. */
  function FindDeviceById(devices: seq<UserDevice>, id: Uuid): (r: Option<UserDevice>)
    ensures r.Some? ==> r.value in devices && r.value.id == id
    ensures r.None? <==> forall d :: d in devices ==> d.id != id
  {
    match DeviceIndex(devices, id)
    case None => None
    case Some(k) => Some(devices[k])
  }

  /** JpaRepository.save of a device: the row with the same id is replaced, a new
      id is appended. */
  function SaveDevice(devices: seq<UserDevice>, d: UserDevice): (r: seq<UserDevice>)
    ensures FindDeviceById(r, d.id) == Some(d)
    ensures forall id :: id != d.id ==> FindDeviceById(r, id) == FindDeviceById(devices, id)
  {
    match DeviceIndex(devices, d.id)
    case None =>
      AppendPreservesOthers(devices, d);
      devices + [d]
    case Some(k) =>
      var r := devices[k := d];
      ReplacePreservesOthers(devices, k, d);
      r
  }

  function DeviceIndexAfterAppend(devices: seq<UserDevice>, d: UserDevice, id: Uuid): Option<nat>
  {
    match DeviceIndex(devices, id)
    case Some(k) => Some(k)
    case None => if d.id == id then Some(|devices|) else None
  }

  lemma AppendPreservesOthers(devices: seq<UserDevice>, d: UserDevice)
    requires DeviceIndex(devices, d.id).None?
    ensures FindDeviceById(devices + [d], d.id) == Some(d)
    ensures forall id :: id != d.id ==> FindDeviceById(devices + [d], id) == FindDeviceById(devices, id)
  {
    forall id ensures DeviceIndex(devices + [d], id) == DeviceIndexAfterAppend(devices, d, id) {
      AppendIndex(devices, d, id);
    }
    assert (devices + [d])[|devices|] == d;
  }

  lemma {:induction false} AppendIndex(devices: seq<UserDevice>, d: UserDevice, id: Uuid)
    ensures DeviceIndex(devices + [d], id) == DeviceIndexAfterAppend(devices, d, id)
  {
    if devices != [] {
      assert (devices + [d])[1..] == devices[1..] + [d];
      AppendIndex(devices[1..], d, id);
    }
  }

  lemma ReplacePreservesOthers(devices: seq<UserDevice>, k: nat, d: UserDevice)
    requires DeviceIndex(devices, d.id) == Some(k)
    ensures FindDeviceById(devices[k := d], d.id) == Some(d)
    ensures forall id :: id != d.id ==> FindDeviceById(devices[k := d], id) == FindDeviceById(devices, id)
  {
    forall id | id != d.id
      ensures FindDeviceById(devices[k := d], id) == FindDeviceById(devices, id)
    {
      ReplaceIndex(devices, k, d, id);
    }
    ReplaceIndex(devices, k, d, d.id);
  }

  lemma {:induction false} ReplaceIndex(devices: seq<UserDevice>, k: nat, d: UserDevice, id: Uuid)
    requires k < |devices| && devices[k].id == d.id
    ensures DeviceIndex(devices[k := d], id) == DeviceIndex(devices, id)
  {
    if k > 0 {
      assert devices[k := d][1..] == devices[1..][k - 1 := d];
      ReplaceIndex(devices[1..], k - 1, d, id);
    }
  }

  /** The handle of the device's owner (the join `d.user.handle`). */
  function OwnerHandle(users: seq<AppUser>, d: UserDevice): Option<string>
  {
    match FindUserById(users, d.userId)
    case None => None
    case Some(u) => Some(u.handle)
  }

  predicate Selected(users: seq<AppUser>, d: UserDevice, handle: string, includeRevoked: bool)
  {
    OwnerHandle(users, d) == Some(handle) && (includeRevoked || d.revokedAt.None?)
  }

  /** The WHERE clause of findByUserHandle, in table order. */
  function SelectByHandle(users: seq<AppUser>, devices: seq<UserDevice>, handle: string, includeRevoked: bool): (r: seq<UserDevice>)
    ensures forall d :: d in r <==> d in devices && Selected(users, d, handle, includeRevoked)
  {
    if devices == [] then []
    else
      (if Selected(users, devices[0], handle, includeRevoked) then [devices[0]] else [])
      + SelectByHandle(users, devices[1..], handle, includeRevoked)
  }

  function CreatedAt(d: UserDevice): int { d.createdAt }

  /** findByUserHandle(handle, includeRevoked): the devices owned by the user with
      that handle, revoked ones only when `includeRevoked`, oldest first. */
  function FindByUserHandle(users: seq<AppUser>, devices: seq<UserDevice>, handle: string, includeRevoked: bool): (r: seq<UserDevice>)
    ensures forall d :: d in r <==> d in devices && OwnerHandle(users, d) == Some(handle) && (includeRevoked || d.IsActive())
    ensures multiset(r) == multiset(SelectByHandle(users, devices, handle, includeRevoked))
    ensures forall i, j :: 0 <= i < j < |r| ==> r[i].createdAt <= r[j].createdAt
  {
    var selected := SelectByHandle(users, devices, handle, includeRevoked);
    var r := SortBy(selected, CreatedAt);
    SameElements(r, selected);
    r
  }

  /** With revoked devices included the result is a superset of the active ones. */
  lemma ActiveIsSubset(users: seq<AppUser>, devices: seq<UserDevice>, handle: string)
    ensures forall d :: d in FindByUserHandle(users, devices, handle, false) ==> d in FindByUserHandle(users, devices, handle, true)
    ensures forall d :: d in FindByUserHandle(users, devices, handle, true) && d.IsActive() ==> d in FindByUserHandle(users, devices, handle, false)
  {
  }

  /** findByIdAndUser_Handle(id, handle): the device with that id whose owner has
      that handle. */
  function FindByIdAndUserHandle(users: seq<AppUser>, devices: seq<UserDevice>, id: Uuid, handle: string): (r: Option<UserDevice>)
    ensures r.Some? ==> r.value in devices && r.value.id == id && OwnerHandle(users, r.value) == Some(handle)
    ensures r.None? <==> forall d :: d in devices && d.id == id ==> OwnerHandle(users, d) != Some(handle)
  {
    if devices == [] then None
    else if devices[0].id == id && OwnerHandle(users, devices[0]) == Some(handle) then Some(devices[0])
    else FindByIdAndUserHandle(users, devices[1..], id, handle)
  }

  /** findByUser_Id: every device of the user, revoked ones included. */
  function FindByUserId(devices: seq<UserDevice>, userId: Uuid): (r: seq<UserDevice>)
    ensures forall d :: d in r <==> d in devices && d.userId == userId
  {
    if devices == [] then []
    else (if devices[0].userId == userId then [devices[0]] else []) + FindByUserId(devices[1..], userId)
  }

  /** Under the primary key, the row findByIdAndUser_Handle finds is the row
      with that id, so an update by id writes the row the owner was checked on. */
  lemma {:induction false} OwnedRowIsIndexed(users: seq<AppUser>, devices: seq<UserDevice>, id: Uuid, handle: string)
    requires DistinctDeviceIds(devices)
    requires FindByIdAndUserHandle(users, devices, id, handle).Some?
    ensures DeviceIndex(devices, id).Some?
    ensures devices[DeviceIndex(devices, id).value] == FindByIdAndUserHandle(users, devices, id, handle).value
  {
    var d := FindByIdAndUserHandle(users, devices, id, handle).value;
    var j :| 0 <= j < |devices| && devices[j] == d;
    var k := DeviceIndex(devices, id).value;
    assert devices[k].id == devices[j].id;
    assert !(k < j) && !(j < k);
  }
}
