/** PrekeyService: the server side of publishing prekeys (a signed prekey that
    replaces the previous one, a batch of one-time prekeys) and of fetching a
    prekey bundle, which claims one one-time prekey. */
module Prekeys {
  import opened Common
  import opened Uuids
  import opened Entities
  import opened Store
  import opened UserDeviceRepository
  import opened UserKeyRepository

  /** PrekeyService.PrekeyItem. */
  datatype PrekeyItem = PrekeyItem(keyId: Int32, publicKey: string)

  /** DTOs.PrekeyBundleResponse.Spk. */
  datatype SpkDto = SpkDto(keyId: Int32, publicKey: string, signature: Option<string>)

  /** DTOs.PrekeyBundleResponse.Opk: both fields null when no key was claimed. */
  datatype OpkDto = OpkDto(keyId: Option<Int32>, publicKey: Option<string>)

  /** DTOs.PrekeyBundleResponse.PqPrekey (buildBundle always leaves it null). */
  datatype PqPrekey = PqPrekey(scheme: string, keyId: Option<Int32>, publicKey: string)

  /** DTOs.DeviceCertificate. */
  datatype DeviceCertificate = DeviceCertificate(payload: string, signature: Option<string>, kid: string)

  /** DTOs.PrekeyBundleResponse. */
  datatype PrekeyBundle = PrekeyBundle(
    ikPub: Option<string>,
    keyCurve: Option<KeyCurve>,
    spk: SpkDto,
    opk: OpkDto,
    pqkemPub: Option<string>,
    pqkemPrekey: Option<PqPrekey>,
    deviceCertificate: Option<DeviceCertificate>)

  /** The key id named in every device certificate of a bundle. */
  const CERT_KID: string := "ed25519:root-2025"

  // ------------------------------------------------------------ uploadSpk

  /** The table without the device's signed prekeys, in table order. */
  function WithoutSpks(keys: seq<UserKey>, device: Uuid): (r: seq<UserKey>)
    ensures forall k :: k in r <==> k in keys && !IsSpkOf(k, device)
  {
    if keys == [] then []
    else
      var last := keys[|keys| - 1];
      assert keys == keys[..|keys| - 1] + [last];
      WithoutSpks(keys[..|keys| - 1], device) + (if IsSpkOf(last, device) then [] else [last])
  }

  /** The row uploadSpk saves; createdAt is set on persist. */
  function SpkRow(device: Uuid, keyId: Int32, publicKey: string, signature: Option<Bytes>,
                  validUntil: Option<Instant>, now: Instant): UserKey
  {
    UserKey(device, SignedPrekey, keyId, publicKey, signature, false, validUntil, None, now)
  }

  /** The signature column uploadSpk writes: null stays null, anything else is
      Base64-decoded (a decode failure is MalformedBase64). */
  function DecodeSignature(signature: Option<string>, codec: Base64Codec): (r: Result<Option<Bytes>>)
    ensures r.Err? <==> signature.Some? && codec.decode(signature.value).None?
    ensures r.Err? ==> r.error == MalformedBase64
    ensures r.Ok? ==> (r.value.None? <==> signature.None?)
    ensures r.Ok? && signature.Some? ==> r.value == codec.decode(signature.value)
  {
    match signature
    case None => Ok(None)
    case Some(text) =>
      match codec.decode(text)
      case None => Err(MalformedBase64)
      case Some(bytes) => Ok(Some(bytes))
  }

  lemma {:induction false} SpksOfAppend(a: seq<UserKey>, b: seq<UserKey>, device: Uuid)
    ensures SpksOf(a + b, device) == SpksOf(a, device) + SpksOf(b, device)
  {
    if a == [] {
      assert a + b == b;
    } else {
      assert (a + b)[0] == a[0];
      assert (a + b)[1..] == a[1..] + b;
      SpksOfAppend(a[1..], b, device);
    }
  }

  lemma {:induction false} NoSpksLeft(keys: seq<UserKey>, device: Uuid)
    requires forall j :: 0 <= j < |keys| ==> !IsSpkOf(keys[j], device)
    ensures SpksOf(keys, device) == []
  {
    if keys != [] {
      NoSpksLeft(keys[1..], device);
    }
  }

  lemma {:induction false} CountWithoutSpks(keys: seq<UserKey>, device: Uuid, other: Uuid)
    ensures CountAvailableOpk(WithoutSpks(keys, device), other) == CountAvailableOpk(keys, other)
  {
    if keys != [] {
      var front, last := keys[..|keys| - 1], keys[|keys| - 1];
      assert keys == front + [last];
      CountWithoutSpks(front, device, other);
      CountAfterAppend(front, last, other);
      if IsSpkOf(last, device) {
        assert WithoutSpks(keys, device) == WithoutSpks(front, device) + [];
        assert WithoutSpks(front, device) + [] == WithoutSpks(front, device);
      } else {
        assert WithoutSpks(keys, device) == WithoutSpks(front, device) + [last];
        CountAfterAppend(WithoutSpks(front, device), last, other);
      }
    }
  }

  /** After uploadSpk the device has exactly one signed prekey, the new one, and
      findSpks returns just it; every other row is kept and no device's count of
      available one-time prekeys moves. */
  lemma UploadSpkReplaces(keys: seq<UserKey>, device: Uuid, row: UserKey)
    requires IsSpkOf(row, device)
    ensures SpksOf(WithoutSpks(keys, device) + [row], device) == [row]
    ensures FindSpks(WithoutSpks(keys, device) + [row], device) == [row]
    ensures forall k :: !IsSpkOf(k, device) ==> (k in WithoutSpks(keys, device) + [row] <==> k in keys)
    ensures forall other :: CountAvailableOpk(WithoutSpks(keys, device) + [row], other) == CountAvailableOpk(keys, other)
  {
    var kept := WithoutSpks(keys, device);
    SpksOfAppend(kept, [row], device);
    NoSpksLeft(kept, device);
    assert SpksOf([row], device) == [row] by {
      assert [row][1..] == [];
    }
    var found := FindSpks(kept + [row], device);
    assert multiset(found) == multiset{row};
    assert |found| == 1;
    assert found[0] in multiset(found);
    forall other ensures CountAvailableOpk(kept + [row], other) == CountAvailableOpk(keys, other) {
      CountAfterAppend(kept, row, other);
      CountWithoutSpks(keys, device, other);
    }
  }

  // ----------------------------------------------------------- uploadOpks

  /** The row uploadOpks saves for one item. */
  function OpkRow(device: Uuid, item: PrekeyItem, now: Instant): UserKey
  {
    UserKey(device, OneTimePrekey, item.keyId, item.publicKey, None, false, None, None, now)
  }

  /** The rows uploadOpks appends, one per item in order. */
  function OpkRows(device: Uuid, items: seq<PrekeyItem>, now: Instant): (r: seq<UserKey>)
    ensures |r| == |items|
    ensures forall j :: 0 <= j < |items| ==> r[j] == OpkRow(device, items[j], now)
  {
    if items == [] then []
    else OpkRows(device, items[..|items| - 1], now) + [OpkRow(device, items[|items| - 1], now)]
  }

  /** Uploading n one-time prekeys raises the device's available count by n and
      leaves every other device's count alone. */
  lemma {:induction false} CountAfterOpks(keys: seq<UserKey>, device: Uuid, items: seq<PrekeyItem>, now: Instant, other: Uuid)
    ensures CountAvailableOpk(keys + OpkRows(device, items, now), other)
            == CountAvailableOpk(keys, other) + (if other == device then |items| else 0)
  {
    if items == [] {
      assert keys + OpkRows(device, items, now) == keys;
    } else {
      var front := items[..|items| - 1];
      var row := OpkRow(device, items[|items| - 1], now);
      assert OpkRows(device, items, now) == OpkRows(device, front, now) + [row];
      assert keys + OpkRows(device, items, now) == (keys + OpkRows(device, front, now)) + [row];
      assert Indicator(IsAvailableOpk(row, other)) == (if other == device then 1 else 0);
      CountAfterOpks(keys, device, front, now, other);
      CountAfterAppend(keys + OpkRows(device, front, now), row, other);
    }
  }

  // ---------------------------------------------------------- buildBundle

  /** Why buildBundle throws, if it does; both checks run before the claim. */
  function BundleRejection(devices: seq<UserDevice>, keys: seq<UserKey>, deviceId: Uuid): Option<Error>
  {
    if FindDeviceById(devices, deviceId).None? then Some(IllegalArgument("device not found"))
    else if FindSpks(keys, deviceId) == [] then Some(IllegalState("no SPK available"))
    else None
  }

  /** The response assembled from the device, its newest signed prekey and the
      row the claim returned. */
  function BundleOf(d: UserDevice, spk: UserKey, claimed: Option<ClaimedRow>, codec: Base64Codec): (r: PrekeyBundle)
    ensures r.opk.keyId.None? <==> claimed.None?
    ensures r.opk.publicKey.None? <==> claimed.None?
    ensures r.deviceCertificate.Some? <==> d.certPayload.Some?
    ensures r.deviceCertificate.Some? ==> r.deviceCertificate.value.kid == CERT_KID
    ensures r.pqkemPrekey.None?
  {
    PrekeyBundle(
      d.publicIdentityKey,
      d.keyCurve,
      SpkDto(spk.keyId, spk.publicKey, EncodeNullable(codec, spk.signature)),
      match claimed { case None => OpkDto(None, None) case Some(row) => OpkDto(Some(row.keyId), Some(row.publicKey)) },
      EncodeNullable(codec, d.pqkemPublicKey),
      None,
      match d.certPayload {
        case None => None
        case Some(payload) => Some(DeviceCertificate(payload, EncodeNullable(codec, d.certSignature), CERT_KID))
      })
  }

  /** What a successful bundle carries: the newest signed prekey with its
      signature in Base64, and a one-time prekey exactly when the device had an
      unused one, namely the oldest, which is then no longer available. */
  lemma BundleContents(devices: seq<UserDevice>, keys: seq<UserKey>, deviceId: Uuid, now: Instant, codec: Base64Codec)
    requires BundleRejection(devices, keys, deviceId).None?
    ensures var b := BundleOf(FindDeviceById(devices, deviceId).value, FindSpks(keys, deviceId)[0],
                              Claim(keys, deviceId, now).row, codec);
            var spk := FindSpks(keys, deviceId)[0];
            spk in keys && IsSpkOf(spk, deviceId) &&
            (forall k :: k in keys && IsSpkOf(k, deviceId) ==> k.createdAt <= spk.createdAt) &&
            b.spk == SpkDto(spk.keyId, spk.publicKey, EncodeNullable(codec, spk.signature)) &&
            (b.opk.keyId.Some? <==> CountAvailableOpk(keys, deviceId) > 0) &&
            (b.opk.keyId.Some? ==>
               exists i :: 0 <= i < |keys| && IsAvailableOpk(keys[i], deviceId) &&
                 b.opk == OpkDto(Some(keys[i].keyId), Some(keys[i].publicKey)) &&
                 (forall j :: 0 <= j < |keys| && IsAvailableOpk(keys[j], deviceId) ==> keys[i].createdAt <= keys[j].createdAt) &&
                 !IsAvailableOpk(Claim(keys, deviceId, now).keys[i], deviceId))
  {
    NewestSpkFirst(keys, deviceId);
    var c := Claim(keys, deviceId, now);
    if c.row.Some? {
      var i := c.row.value.index;
      assert IsAvailableOpk(keys[i], deviceId);
    }
  }

  /** buildBundle never looks at revocation: revoking a device changes neither
      whether a bundle is served nor which one. */
  lemma RevocationIgnored(devices: seq<UserDevice>, keys: seq<UserKey>, deviceId: Uuid, k: nat, at: Instant)
    requires DeviceIndex(devices, deviceId) == Some(k)
    ensures var revoked := devices[k := devices[k].(revokedAt := Some(at))];
            BundleRejection(revoked, keys, deviceId) == BundleRejection(devices, keys, deviceId) &&
            FindDeviceById(revoked, deviceId).value == FindDeviceById(devices, deviceId).value.(revokedAt := Some(at))
  {
    ReplacePreservesOthers(devices, k, devices[k].(revokedAt := Some(at)));
  }

  class PrekeyService {
    const db: Database

    constructor (db: Database)
      ensures this.db == db
    {
      this.db := db;
    }

    /** uploadSpk: deletes the device's signed prekeys, then saves the new one;
        a signature that is not Base64 rolls the deletes back. */
    method UploadSpk(device: UserDevice, keyId: Int32, publicKey: string, signature: Option<string>,
                     validUntil: Option<Instant>, now: Instant, codec: Base64Codec) returns (r: Outcome)
      modifies db`keys
      ensures var sig := DecodeSignature(signature, codec);
              (r.Fail? <==> sig.Err?) &&
              (r.Fail? ==> r.error == MalformedBase64 && db.keys == old(db.keys)) &&
              (r.Done? ==> db.keys == WithoutSpks(old(db.keys), device.id) + [SpkRow(device.id, keyId, publicKey, sig.value, validUntil, now)])
    {
      var snapshot := db.keys;
      DeleteSpks(device.id);
      var sig := DecodeSignature(signature, codec);
      if sig.Err? {
        db.keys := snapshot;
        return Fail(sig.error);
      }
      db.keys := db.keys + [SpkRow(device.id, keyId, publicKey, sig.value, validUntil, now)];
      r := Done;
    }

    /** `findSpks(device).forEach(delete)`. */
    method DeleteSpks(device: Uuid)
      modifies db`keys
      ensures db.keys == WithoutSpks(old(db.keys), device)
    {
      var keys := db.keys;
      var kept: seq<UserKey> := [];
      var i := 0;
      while i < |keys|
        invariant 0 <= i <= |keys|
        invariant kept == WithoutSpks(keys[..i], device)
      {
        assert keys[..i + 1][..i] == keys[..i];
        if !IsSpkOf(keys[i], device) {
          kept := kept + [keys[i]];
        }
        i := i + 1;
      }
      assert keys[..|keys|] == keys;
      db.keys := kept;
    }

    /** uploadOpks: saves one unused one-time prekey per item, in order, and
        returns how many it saved. */
    method UploadOpks(device: UserDevice, items: seq<PrekeyItem>, now: Instant) returns (n: int)
      modifies db`keys
      ensures n == |items|
      ensures db.keys == old(db.keys) + OpkRows(device.id, items, now)
    {
      n := 0;
      while n < |items|
        invariant 0 <= n <= |items|
        invariant db.keys == old(db.keys) + OpkRows(device.id, items[..n], now)
      {
        assert items[..n + 1][..n] == items[..n];
        db.keys := db.keys + [OpkRow(device.id, items[n], now)];
        n := n + 1;
      }
      assert items[..|items|] == items;
    }

    /** countAvailableOpk: the number of the device's unused one-time prekeys. */
    function CountAvailable(device: UserDevice): (r: nat)
      reads db
      ensures r == |AvailableIndices(db.keys, device.id)|
    {
      CountIsAvailableIndices(db.keys, device.id);
      CountAvailableOpk(db.keys, device.id)
    }

    /** buildBundle: looks the device up, takes its newest signed prekey and
        claims one one-time prekey. */
    method BuildBundle(deviceId: Uuid, now: Instant, codec: Base64Codec) returns (r: Result<PrekeyBundle>)
      modifies db`keys
      ensures var rejection := BundleRejection(db.devices, old(db.keys), deviceId);
              (r.Err? <==> rejection.Some?) &&
              (r.Err? ==> r.error == rejection.value && db.keys == old(db.keys))
      ensures r.Ok? ==>
                var c := Claim(old(db.keys), deviceId, now);
                db.keys == c.keys &&
                r.value == BundleOf(FindDeviceById(db.devices, deviceId).value, FindSpks(old(db.keys), deviceId)[0], c.row, codec)
    {
      var d := FindDeviceById(db.devices, deviceId);
      if d.None? {
        return Err(IllegalArgument("device not found"));
      }
      var spks := FindSpks(db.keys, deviceId);
      if spks == [] {
        return Err(IllegalState("no SPK available"));
      }
      var spk := spks[0];
      var rows := ClaimOneOpk(db, deviceId, now);
      var claimed := if rows != [] then Some(rows[0]) else None;
      r := Ok(BundleOf(d.value, spk, claimed, codec));
    }
  }
}
