/** DeviceEnrollmentService: a device is registered with a single-use nonce
    (start), proves possession of its identity key over that nonce (finish), and
    can be revoked by its owner (revoke). */
module Enrollment {
  import opened Common
  import opened JavaText
  import opened Uuids
  import opened Entities
  import opened Store
  import opened UserDeviceRepository

  /** The cryptography the service calls into, left opaque:
      `isEd25519Spki(b)` — KeyFactory("Ed25519") accepts `b` as an X.509 SPKI;
      `sha256(b)` — the SHA-256 digest of `b`;
      `verify(spki, msg, sig)` — Ed25519 verification of `sig` over `msg` with
      the key in `spki`, false where the verifier throws. */
  datatype Crypto = Crypto(
    isEd25519Spki: Bytes -> bool,
    sha256: Bytes -> Bytes,
    verify: (Bytes, Bytes, Bytes) -> bool)

  /** The request the two-argument finish reads. */
  datatype FinishRequest = FinishRequest(
    ikPub: Option<string>,
    kxPub: Option<string>,
    bindingSig: Option<string>,
    proof: Option<string>,
    platform: Option<string>,
    deviceName: Option<string>)

  /** DTOs.EnrollmentStartResponse. */
  datatype StartResponse = StartResponse(deviceId: Uuid, nonce: string, expiresAt: Instant)

  const NONCE_TTL_SECONDS: int := 300

  /** The platforms finish accepts, after lower-casing. */
  const PLATFORMS: set<string> := {"ios", "android", "web", "desktop"}

  // ---------------------------------------------------------------- concat

  /** The in-order concatenation of byte arrays. */
  function Flatten(parts: seq<Bytes>): Bytes
  {
    if parts == [] then [] else Flatten(parts[..|parts| - 1]) + parts[|parts| - 1]
  }

  function TotalLength(parts: seq<Bytes>): nat
  {
    if parts == [] then 0 else TotalLength(parts[..|parts| - 1]) + |parts[|parts| - 1]|
  }

  lemma {:induction false} FlattenLength(parts: seq<Bytes>)
    ensures |Flatten(parts)| == TotalLength(parts)
  {
    if parts != [] {
      FlattenLength(parts[..|parts| - 1]);
    }
  }

  /** The bytes of a prefix of the parts never outnumber those of all parts. */
  lemma {:induction false} FlattenPrefixLength(parts: seq<Bytes>, j: nat)
    requires j <= |parts|
    ensures |Flatten(parts[..j])| <= |Flatten(parts)|
    decreases |parts|
  {
    assert parts[..|parts|] == parts;
    if j < |parts| {
      var front := parts[..|parts| - 1];
      assert parts[..j] == front[..j];
      FlattenPrefixLength(front, j);
    }
  }

  /** concat: sums the lengths, allocates the array, then copies every part at a
      running offset. */
  method Concat(parts: seq<Bytes>) returns (out: array<byte>)
    ensures fresh(out)
    ensures out.Length == TotalLength(parts)
    ensures out[..] == Flatten(parts)
  {
    var len := 0;
    var i := 0;
    while i < |parts|
      invariant 0 <= i <= |parts|
      invariant len == |Flatten(parts[..i])|
    {
      assert parts[..i + 1][..i] == parts[..i];
      len := len + |parts[i]|;
      i := i + 1;
    }
    assert parts[..|parts|] == parts;
    FlattenLength(parts);
    out := new byte[len];
    var p := 0;
    i := 0;
    while i < |parts|
      invariant 0 <= i <= |parts|
      invariant p == |Flatten(parts[..i])| <= out.Length
      invariant out[..p] == Flatten(parts[..i])
    {
      assert parts[..i + 1][..i] == parts[..i];
      FlattenPrefixLength(parts, i + 1);
      CopyAt(out, p, parts[i]);
      p := p + |parts[i]|;
      i := i + 1;
    }
  }

  /** System.arraycopy(a, 0, out, p, a.length). */
  method CopyAt(out: array<byte>, p: nat, a: Bytes)
    requires p + |a| <= out.Length
    modifies out
    ensures out[..p + |a|] == old(out[..p]) + a
    ensures out[p + |a|..] == old(out[p + |a|..])
  {
    var k := 0;
    while k < |a|
      invariant 0 <= k <= |a|
      invariant out[..p] == old(out[..p])
      invariant out[p..p + k] == a[..k]
      invariant out[p + |a|..] == old(out[p + |a|..])
    {
      out[p + k] := a[k];
      k := k + 1;
    }
    assert out[..p + |a|] == out[..p] + out[p..p + |a|];
  }

  // -------------------------------------------------- the signed messages

  /** The UTF-8 bytes of "bind:" and "enroll:", the domain tags of the two
      signed messages. */
  const BIND_TAG: Bytes := [0x62, 0x69, 0x6E, 0x64, 0x3A]
  const ENROLL_TAG: Bytes := [0x65, 0x6E, 0x72, 0x6F, 0x6C, 0x6C, 0x3A]

  lemma TagsAreUtf8()
    ensures Utf8("bind:") == BIND_TAG
    ensures Utf8("enroll:") == ENROLL_TAG
  {
    AsciiTag("bind:", BIND_TAG);
    AsciiTag("enroll:", ENROLL_TAG);
  }

  /** An ASCII string that spells `tag` byte for byte is encoded as `tag`. */
  lemma AsciiTag(s: string, tag: Bytes)
    requires |s| == |tag|
    requires forall m :: 0 <= m < |s| ==> s[m] < '\U{0080}' && tag[m] == s[m] as int as byte
    ensures Utf8(s) == tag
  {
  }

  /** SHA-256("bind:" || kxSpki), the message of the binding signature. */
  function BindMessage(crypto: Crypto, kx: Bytes): Bytes
  {
    crypto.sha256(Flatten([BIND_TAG, kx]))
  }

  /** SHA-256("enroll:" || deviceId || nonce || ikSpki || kxSpki), the message of
      the proof of possession; the device id in its canonical text form. */
  function EnrollMessage(crypto: Crypto, deviceId: Uuid, nonce: string, ik: Bytes, kx: Bytes): Bytes
  {
    crypto.sha256(Flatten([ENROLL_TAG, Utf8(ToString(deviceId)), Utf8(nonce), ik, kx]))
  }

  // --------------------------------------------------------------- finish

  /** The four fields finish demands, decoded, when all of them are Base64. */
  datatype Decoded = Decoded(ik: Bytes, kx: Bytes, bindSig: Bytes, proof: Bytes)

  function DecodeFields(req: FinishRequest, codec: Base64Codec): Option<Decoded>
    requires req.ikPub.Some? && req.kxPub.Some? && req.bindingSig.Some? && req.proof.Some?
  {
    match (codec.decode(req.ikPub.value), codec.decode(req.kxPub.value), codec.decode(req.bindingSig.value), codec.decode(req.proof.value))
    case (Some(ik), Some(kx), Some(bind), Some(proof)) => Some(Decoded(ik, kx, bind, proof))
    case _ => None
  }

  predicate MissingField(req: FinishRequest)
  {
    IsBlank(req.ikPub) || IsBlank(req.kxPub) || IsBlank(req.bindingSig) || IsBlank(req.proof)
  }

  /** Why the checks before decoding reject, in the order they run: the missing
      arguments, a blank field, an unknown device, a missing nonce, an expired
      one (strictly after its expiry). */
  function PrecheckRejection(devices: seq<UserDevice>, nonces: map<Uuid, string>, nonceExpiry: map<Uuid, Instant>,
                             deviceId: Option<Uuid>, req: Option<FinishRequest>, now: Instant): (r: Option<Error>)
    ensures r.None? ==> deviceId.Some? && req.Some? && !MissingField(req.value) &&
                        FindDeviceById(devices, deviceId.value).Some? &&
                        deviceId.value in nonces && deviceId.value in nonceExpiry && now <= nonceExpiry[deviceId.value]
  {
    if deviceId.None? then Some(IllegalArgument("deviceId missing"))
    else if req.None? then Some(IllegalArgument("request missing"))
    else if MissingField(req.value) then Some(IllegalArgument("ikPub/kxPub/bindingSig/proof missing"))
    else if FindDeviceById(devices, deviceId.value).None? then Some(IllegalArgument("device not found"))
    else if deviceId.value !in nonces || deviceId.value !in nonceExpiry then Some(IllegalArgument("nonce not found"))
    else if now > nonceExpiry[deviceId.value] then Some(IllegalArgument("nonce expired"))
    else None
  }

  /** Why the checks on the decoded keys reject, in the order they run: an
      identity key that is not Ed25519 SPKI, a binding signature or a proof that
      does not verify, a platform outside the accepted set. */
  function ProofRejection(d: Decoded, deviceId: Uuid, nonce: string, platform: Option<string>, crypto: Crypto): (r: Option<Error>)
    ensures r.None? <==>
              crypto.isEd25519Spki(d.ik) &&
              crypto.verify(d.ik, BindMessage(crypto, d.kx), d.bindSig) &&
              crypto.verify(d.ik, EnrollMessage(crypto, deviceId, nonce, d.ik, d.kx), d.proof) &&
              (IsBlank(platform) || ToLowerCase(platform.value) in PLATFORMS)
    ensures !crypto.isEd25519Spki(d.ik) ==> r == Some(IllegalArgument("invalid ikPub (not Ed25519 SPKI)"))
    ensures r.Some? ==> r.value.IllegalArgument?
  {
    if !crypto.isEd25519Spki(d.ik) then Some(IllegalArgument("invalid ikPub (not Ed25519 SPKI)"))
    else if !crypto.verify(d.ik, BindMessage(crypto, d.kx), d.bindSig) then Some(IllegalArgument("invalid bindingSig"))
    else if !crypto.verify(d.ik, EnrollMessage(crypto, deviceId, nonce, d.ik, d.kx), d.proof) then Some(IllegalArgument("invalid proof"))
    else if !IsBlank(platform) && ToLowerCase(platform.value) !in PLATFORMS then Some(IllegalArgument("invalid platform"))
    else None
  }

  /** Why finish throws, if it does. */
  function FinishRejection(devices: seq<UserDevice>, nonces: map<Uuid, string>, nonceExpiry: map<Uuid, Instant>,
                           deviceId: Option<Uuid>, req: Option<FinishRequest>, now: Instant,
                           codec: Base64Codec, crypto: Crypto): (r: Option<Error>)
    ensures var pre := PrecheckRejection(devices, nonces, nonceExpiry, deviceId, req, now);
            pre.Some? ==> r == pre
    ensures var pre := PrecheckRejection(devices, nonces, nonceExpiry, deviceId, req, now);
            pre.None? ==> (r == Some(MalformedBase64) <==> DecodeFields(req.value, codec).None?)
    ensures r.None? ==>
              PrecheckRejection(devices, nonces, nonceExpiry, deviceId, req, now).None? &&
              DecodeFields(req.value, codec).Some? &&
              ProofRejection(DecodeFields(req.value, codec).value, deviceId.value, nonces[deviceId.value],
                             req.value.platform, crypto).None?
  {
    var pre := PrecheckRejection(devices, nonces, nonceExpiry, deviceId, req, now);
    if pre.Some? then pre
    else match DecodeFields(req.value, codec)
      case None => Some(MalformedBase64)
      case Some(d) => ProofRejection(d, deviceId.value, nonces[deviceId.value], req.value.platform, crypto)
  }

  /** The device row as finish leaves it. */
  function Enrolled(dev: UserDevice, req: FinishRequest, bindSig: Bytes, now: Instant): UserDevice
  {
    dev.(platform := if IsBlank(req.platform) then dev.platform else Some(ToLowerCase(req.platform.value)),
         deviceName := if IsBlank(req.deviceName) then dev.deviceName else req.deviceName,
         publicIdentityKey := req.ikPub,
         publicKxKey := req.kxPub,
         identityBindingSig := Some(bindSig),
         lastSeenAt := Some(now))
  }

  /** The checks run in a fixed order: a request that passes every check up to
      the nonce but whose nonce is gone is refused for the nonce, whatever its
      keys and signatures. */
  lemma MissingNonceWinsOverSignatures(devices: seq<UserDevice>, nonces: map<Uuid, string>, nonceExpiry: map<Uuid, Instant>,
                                       deviceId: Uuid, req: FinishRequest, now: Instant, codec: Base64Codec, crypto: Crypto)
    requires !MissingField(req) && FindDeviceById(devices, deviceId).Some?
    requires deviceId !in nonces
    ensures FinishRejection(devices, nonces, nonceExpiry, Some(deviceId), Some(req), now, codec, crypto)
            == Some(IllegalArgument("nonce not found"))
  {
  }

  /** Expiry is inclusive: at exactly the expiry instant the nonce is still good,
      one nanosecond later it is not. */
  lemma ExpiryIsInclusive(devices: seq<UserDevice>, nonces: map<Uuid, string>, nonceExpiry: map<Uuid, Instant>,
                          deviceId: Uuid, req: FinishRequest, codec: Base64Codec, crypto: Crypto)
    requires !MissingField(req) && FindDeviceById(devices, deviceId).Some?
    requires deviceId in nonces && deviceId in nonceExpiry
    ensures FinishRejection(devices, nonces, nonceExpiry, Some(deviceId), Some(req), nonceExpiry[deviceId], codec, crypto)
            != Some(IllegalArgument("nonce expired"))
    ensures FinishRejection(devices, nonces, nonceExpiry, Some(deviceId), Some(req), nonceExpiry[deviceId] + 1, codec, crypto)
            == Some(IllegalArgument("nonce expired"))
  {
  }

  /** Acceptance needs both signatures to verify: the binding signature over
      SHA-256("bind:" || kx) and the proof over the enrollment message. */
  lemma AcceptedMeansBothSignaturesVerify(devices: seq<UserDevice>, nonces: map<Uuid, string>, nonceExpiry: map<Uuid, Instant>,
                                          deviceId: Uuid, req: FinishRequest, now: Instant, codec: Base64Codec, crypto: Crypto)
    requires FinishRejection(devices, nonces, nonceExpiry, Some(deviceId), Some(req), now, codec, crypto).None?
    ensures !MissingField(req) && DecodeFields(req, codec).Some?
    ensures var d := DecodeFields(req, codec).value;
            crypto.isEd25519Spki(d.ik) &&
            crypto.verify(d.ik, BindMessage(crypto, d.kx), d.bindSig) &&
            crypto.verify(d.ik, EnrollMessage(crypto, deviceId, nonces[deviceId], d.ik, d.kx), d.proof)
    ensures deviceId in nonceExpiry && now <= nonceExpiry[deviceId]
    ensures IsBlank(req.platform) || ToLowerCase(req.platform.value) in PLATFORMS
  {
  }

  /** Steps 2 to 5 of finish: the key check, both signatures over the messages
      assembled with concat, and the platform. */
  method CheckProofs(d: Decoded, deviceId: Uuid, nonce: string, platform: Option<string>, crypto: Crypto)
    returns (r: Option<Error>)
    ensures r == ProofRejection(d, deviceId, nonce, platform, crypto)
  {
    if !crypto.isEd25519Spki(d.ik) {
      return Some(IllegalArgument("invalid ikPub (not Ed25519 SPKI)"));
    }
    var bindBytes := Concat([BIND_TAG, d.kx]);
    if !crypto.verify(d.ik, crypto.sha256(bindBytes[..]), d.bindSig) {
      return Some(IllegalArgument("invalid bindingSig"));
    }
    var enrollBytes := Concat([ENROLL_TAG, Utf8(ToString(deviceId)), Utf8(nonce), d.ik, d.kx]);
    if !crypto.verify(d.ik, crypto.sha256(enrollBytes[..]), d.proof) {
      return Some(IllegalArgument("invalid proof"));
    }
    if !IsBlank(platform) && ToLowerCase(platform.value) !in PLATFORMS {
      return Some(IllegalArgument("invalid platform"));
    }
    r := None;
  }

  class DeviceEnrollmentService {
    const db: Database
    /** Issued nonces by device id. */
    var nonces: map<Uuid, string>
    /** Expiry of each issued nonce by device id. */
    var nonceExpiry: map<Uuid, Instant>

    /** The two stores describe the same devices. */
    predicate Valid()
      reads this
    {
      nonces.Keys == nonceExpiry.Keys
    }

    constructor (db: Database)
      ensures this.db == db && nonces == map[] && nonceExpiry == map[]
      ensures Valid()
    {
      this.db := db;
      nonces, nonceExpiry := map[], map[];
    }

    /** start: registers a device with platform "unknown" for the user and issues
        the nonce Base64(UUID text), valid for 300 seconds. `newDeviceId` is the
        generated id and `nonceSource` the random UUID. */
    method Start(userHandle: string, now: Instant, newDeviceId: Uuid, nonceSource: Uuid, codec: Base64Codec)
      returns (r: Result<StartResponse>)
      requires FindDeviceById(db.devices, newDeviceId).None?
      modifies db`devices, this`nonces, this`nonceExpiry
      ensures FindUserByHandle(db.users, userHandle).None? ==>
                r == Err(IllegalArgument("user not found")) &&
                db.devices == old(db.devices) && nonces == old(nonces) && nonceExpiry == old(nonceExpiry)
      ensures FindUserByHandle(db.users, userHandle).Some? ==>
                var nonce := codec.encode(Utf8(ToString(nonceSource)));
                var expiry := PlusSeconds(now, NONCE_TTL_SECONDS);
                db.devices == old(db.devices) + [NewDevice(newDeviceId, FindUserByHandle(db.users, userHandle).value.id, now)] &&
                nonces == old(nonces)[newDeviceId := nonce] &&
                nonceExpiry == old(nonceExpiry)[newDeviceId := expiry] &&
                r == Ok(StartResponse(newDeviceId, nonce, nonceExpiry[newDeviceId]))
      ensures old(Valid()) ==> Valid()
      ensures old(db.Keyed()) ==> db.Keyed()
    {
      var user := FindUserByHandle(db.users, userHandle);
      if user.None? {
        return Err(IllegalArgument("user not found"));
      }
      db.devices := db.devices + [NewDevice(newDeviceId, user.value.id, now)];
      var nonce := codec.encode(Utf8(ToString(nonceSource)));
      nonces := nonces[newDeviceId := nonce];
      nonceExpiry := nonceExpiry[newDeviceId := PlusSeconds(now, NONCE_TTL_SECONDS)];
      r := Ok(StartResponse(newDeviceId, nonce, nonceExpiry[newDeviceId]));
    }

    /** finish: runs the checks of FinishRejection; on success stores the keys,
        the binding signature and lastSeenAt on the device and consumes the
        nonce. On any failure nothing changes. */
    method Finish(deviceId: Option<Uuid>, req: Option<FinishRequest>, now: Instant, codec: Base64Codec, crypto: Crypto)
      returns (r: Outcome)
      modifies db`devices, this`nonces, this`nonceExpiry
      ensures var rejection := FinishRejection(old(db.devices), old(nonces), old(nonceExpiry), deviceId, req, now, codec, crypto);
              (r.Fail? <==> rejection.Some?) && (r.Fail? ==> r.error == rejection.value)
      ensures r.Fail? ==> db.devices == old(db.devices) && nonces == old(nonces) && nonceExpiry == old(nonceExpiry)
      ensures r.Done? ==>
                var k := DeviceIndex(old(db.devices), deviceId.value).value;
                var bindSig := codec.decode(req.value.bindingSig.value).value;
                db.devices == old(db.devices)[k := Enrolled(old(db.devices)[k], req.value, bindSig, now)] &&
                nonces == old(nonces) - {deviceId.value} &&
                nonceExpiry == old(nonceExpiry) - {deviceId.value}
      ensures old(Valid()) ==> Valid()
      ensures old(db.Keyed()) ==> db.Keyed()
    {
      var pre := Precheck(deviceId, req, now);
      if pre.Some? {
        return Fail(pre.value);
      }
      var id, q := deviceId.value, req.value;
      var decoded := DecodeFields(q, codec);
      if decoded.None? {
        return Fail(MalformedBase64);
      }
      var proofRejection := CheckProofs(decoded.value, id, nonces[id], q.platform, crypto);
      if proofRejection.Some? {
        return Fail(proofRejection.value);
      }
      var k := DeviceIndex(db.devices, id).value;
      db.devices := db.devices[k := Enrolled(db.devices[k], q, decoded.value.bindSig, now)];
      nonces := nonces - {id};
      nonceExpiry := nonceExpiry - {id};
      r := Done;
    }

    /** Steps 0 and 1 of finish: the argument checks, the device lookup and the
        nonce checks, in the source's order. */
    method Precheck(deviceId: Option<Uuid>, req: Option<FinishRequest>, now: Instant) returns (r: Option<Error>)
      ensures r == PrecheckRejection(db.devices, nonces, nonceExpiry, deviceId, req, now)
    {
      if deviceId.None? {
        return Some(IllegalArgument("deviceId missing"));
      }
      if req.None? {
        return Some(IllegalArgument("request missing"));
      }
      var id, q := deviceId.value, req.value;
      if IsBlank(q.ikPub) || IsBlank(q.kxPub) || IsBlank(q.bindingSig) || IsBlank(q.proof) {
        return Some(IllegalArgument("ikPub/kxPub/bindingSig/proof missing"));
      }
      if FindDeviceById(db.devices, id).None? {
        return Some(IllegalArgument("device not found"));
      }
      if id !in nonces || id !in nonceExpiry {
        return Some(IllegalArgument("nonce not found"));
      }
      if now > nonceExpiry[id] {
        return Some(IllegalArgument("nonce expired"));
      }
      r := None;
    }

    /** revoke: only the owner's handle finds the device; its revokedAt becomes
        `now`. */
    method Revoke(handle: string, deviceId: Uuid, now: Instant) returns (r: Outcome)
      modifies db`devices
      ensures FindByIdAndUserHandle(db.users, old(db.devices), deviceId, handle).None? ==>
                r == Fail(IllegalArgument("device not found")) && db.devices == old(db.devices)
      ensures FindByIdAndUserHandle(db.users, old(db.devices), deviceId, handle).Some? ==>
                var k := DeviceIndex(old(db.devices), deviceId).value;
                r == Done &&
                db.devices == old(db.devices)[k := old(db.devices)[k].(revokedAt := Some(now))] &&
                !db.devices[k].IsActive()
      ensures old(db.Keyed()) && FindByIdAndUserHandle(db.users, old(db.devices), deviceId, handle).Some? ==>
                var k := DeviceIndex(old(db.devices), deviceId).value;
                db.devices[k] == FindByIdAndUserHandle(db.users, old(db.devices), deviceId, handle).value.(revokedAt := Some(now))
      ensures old(db.Keyed()) ==> db.Keyed()
    {
      var dev := FindByIdAndUserHandle(db.users, db.devices, deviceId, handle);
      if dev.None? {
        return Fail(IllegalArgument("device not found"));
      }
      var k := DeviceIndex(db.devices, deviceId).value;
      if db.Keyed() {
        OwnedRowIsIndexed(db.users, db.devices, deviceId, handle);
      }
      db.devices := db.devices[k := db.devices[k].(revokedAt := Some(now))];
      r := Done;
    }
  }

  /** The row start saves: owner, platform "unknown", createdAt set on persist. */
  function NewDevice(id: Uuid, userId: Uuid, now: Instant): UserDevice
  {
    UserDevice(id, userId, None, Some("unknown"), None, None, None, None, None, None, None, None, now, None)
  }

  /** A nonce is single-use: once finish has consumed it, the same call is
      refused with "nonce not found" (every earlier check still passes, since
      the device still exists and the request is unchanged). */
  lemma ReplayIsRefused(devices: seq<UserDevice>, nonces: map<Uuid, string>, nonceExpiry: map<Uuid, Instant>,
                        deviceId: Uuid, req: FinishRequest, now: Instant, later: Instant, codec: Base64Codec, crypto: Crypto)
    requires FinishRejection(devices, nonces, nonceExpiry, Some(deviceId), Some(req), now, codec, crypto).None?
    ensures var k := DeviceIndex(devices, deviceId).value;
            var after := devices[k := Enrolled(devices[k], req, DecodeFields(req, codec).value.bindSig, now)];
            FinishRejection(after, nonces - {deviceId}, nonceExpiry - {deviceId}, Some(deviceId), Some(req), later, codec, crypto)
            == Some(IllegalArgument("nonce not found"))
  {
    var k := DeviceIndex(devices, deviceId).value;
    var after := devices[k := Enrolled(devices[k], req, DecodeFields(req, codec).value.bindSig, now)];
    ReplacePreservesOthers(devices, k, Enrolled(devices[k], req, DecodeFields(req, codec).value.bindSig, now));
  }

  /** Revocation is gated on ownership: a handle other than the owner's never
      finds the device. */
  lemma RevokeNeedsOwner(users: seq<AppUser>, devices: seq<UserDevice>, deviceId: Uuid, handle: string)
    requires forall d :: d in devices && d.id == deviceId ==> OwnerHandle(users, d) != Some(handle)
    ensures FindByIdAndUserHandle(users, devices, deviceId, handle).None?
  {
  }
}
