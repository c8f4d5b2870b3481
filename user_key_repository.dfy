/** The queries of UserKeyRepository over the user_key table: the signed prekeys
    of a device, the count of its unused one-time prekeys, and the claim of the
    oldest unused one. */
module UserKeyRepository {
  import opened Common
  import opened Uuids
  import opened Entities
  import opened Sorting
  import opened Store

  predicate IsSpkOf(k: UserKey, device: Uuid)
  {
    k.deviceId == device && k.keyType == SignedPrekey
  }

  predicate IsAvailableOpk(k: UserKey, device: Uuid)
  {
    k.deviceId == device && k.keyType == OneTimePrekey && !k.used
  }

  /** The WHERE clause of findSpks, in table order. */
  function SpksOf(keys: seq<UserKey>, device: Uuid): (r: seq<UserKey>)
    ensures forall k :: k in r <==> k in keys && IsSpkOf(k, device)
  {
    if keys == [] then []
    else (if IsSpkOf(keys[0], device) then [keys[0]] else []) + SpksOf(keys[1..], device)
  }

  function Age(k: UserKey): int { -k.createdAt }

  /** findSpks(device): the device's signed prekeys, newest first. */
  function FindSpks(keys: seq<UserKey>, device: Uuid): (r: seq<UserKey>)
    ensures forall k :: k in r <==> k in keys && IsSpkOf(k, device)
    ensures multiset(r) == multiset(SpksOf(keys, device))
    ensures forall i, j :: 0 <= i < j < |r| ==> r[i].createdAt >= r[j].createdAt
  {
    var spks := SpksOf(keys, device);
    var r := SortBy(spks, Age);
    SameElements(r, spks);
    r
  }

  /** The first result of findSpks is a signed prekey of the device with the
      greatest createdAt. */
  lemma NewestSpkFirst(keys: seq<UserKey>, device: Uuid)
    requires FindSpks(keys, device) != []
    ensures IsSpkOf(FindSpks(keys, device)[0], device)
    ensures forall k :: k in keys && IsSpkOf(k, device) ==> k.createdAt <= FindSpks(keys, device)[0].createdAt
  {
    var r := FindSpks(keys, device);
    assert r[0] in r;
    forall k | k in keys && IsSpkOf(k, device)
      ensures k.createdAt <= r[0].createdAt
    {
      var j :| 0 <= j < |r| && r[j] == k;
      if j > 0 {
        assert r[0].createdAt >= r[j].createdAt;
      }
    }
  }

  function Indicator(b: bool): nat { if b then 1 else 0 }

  /** countAvailableOpk(device): the device's one-time prekeys with used = false. */
  function CountAvailableOpk(keys: seq<UserKey>, device: Uuid): (r: nat)
    ensures r <= |keys|
    ensures r == 0 <==> forall j :: 0 <= j < |keys| ==> !IsAvailableOpk(keys[j], device)
  {
    if keys == [] then 0
    else
      var rest := CountAvailableOpk(keys[1..], device);
      assert forall j :: 1 <= j < |keys| ==> keys[j] == keys[1..][j - 1];
      Indicator(IsAvailableOpk(keys[0], device)) + rest
  }

  /** Replacing one row changes the count by the difference of the two rows'
      contributions. */
  lemma {:induction false} CountAfterUpdate(keys: seq<UserKey>, i: nat, k: UserKey, device: Uuid)
    requires i < |keys|
    ensures CountAvailableOpk(keys[i := k], device)
            == CountAvailableOpk(keys, device) - Indicator(IsAvailableOpk(keys[i], device)) + Indicator(IsAvailableOpk(k, device))
  {
    if i > 0 {
      assert keys[i := k][1..] == keys[1..][i - 1 := k];
      CountAfterUpdate(keys[1..], i - 1, k, device);
    }
  }

  /** Appending a row adds its contribution. */
  lemma {:induction false} CountAfterAppend(keys: seq<UserKey>, k: UserKey, device: Uuid)
    ensures CountAvailableOpk(keys + [k], device) == CountAvailableOpk(keys, device) + Indicator(IsAvailableOpk(k, device))
  {
    if keys != [] {
      assert (keys + [k])[1..] == keys[1..] + [k];
      CountAfterAppend(keys[1..], k, device);
    }
  }

  /** The positions of the device's unused one-time prekeys. */
  function AvailableIndices(keys: seq<UserKey>, device: Uuid): set<nat>
  {
    set j: nat | j < |keys| && IsAvailableOpk(keys[j], device)
  }

  /** The count is the size of the set of available rows. */
  lemma {:induction false} CountIsAvailableIndices(keys: seq<UserKey>, device: Uuid)
    ensures CountAvailableOpk(keys, device) == |AvailableIndices(keys, device)|
  {
    if keys != [] {
      var front, last := keys[..|keys| - 1], keys[|keys| - 1];
      assert keys == front + [last];
      CountIsAvailableIndices(front, device);
      CountAfterAppend(front, last, device);
      var n := |front|;
      if IsAvailableOpk(last, device) {
        assert AvailableIndices(keys, device) == AvailableIndices(front, device) + {n};
        assert n !in AvailableIndices(front, device);
      } else {
        assert AvailableIndices(keys, device) == AvailableIndices(front, device);
      }
    }
  }

  /** Among keys[..n], the index of an available one-time prekey of the device
      with the least createdAt (the first such index on a tie). */
  function OldestAvailableBefore(keys: seq<UserKey>, device: Uuid, n: nat): (r: Option<nat>)
    requires n <= |keys|
    ensures r.Some? ==> r.value < n && IsAvailableOpk(keys[r.value], device)
    ensures r.Some? ==> forall j :: 0 <= j < n && IsAvailableOpk(keys[j], device) ==> keys[r.value].createdAt <= keys[j].createdAt
    ensures r.None? <==> forall j :: 0 <= j < n ==> !IsAvailableOpk(keys[j], device)
  {
    if n == 0 then None
    else
      var best := OldestAvailableBefore(keys, device, n - 1);
      if !IsAvailableOpk(keys[n - 1], device) then best
      else if best.None? || keys[n - 1].createdAt < keys[best.value].createdAt then Some(n - 1)
      else best
  }

  /** The row the claim's CTE selects: ORDER BY created_at LIMIT 1 over the
      device's unused one-time prekeys. */
  function OldestAvailableOpk(keys: seq<UserKey>, device: Uuid): (r: Option<nat>)
    ensures r.Some? ==> r.value < |keys| && IsAvailableOpk(keys[r.value], device)
    ensures r.Some? ==> forall j :: 0 <= j < |keys| && IsAvailableOpk(keys[j], device) ==> keys[r.value].createdAt <= keys[j].createdAt
    ensures r.None? <==> CountAvailableOpk(keys, device) == 0
  {
    OldestAvailableBefore(keys, device, |keys|)
  }

  /** One row of RETURNING u.id, u.key_id, u.public_key; the row's position in
      the table stands for its id. */
  datatype ClaimedRow = ClaimedRow(index: nat, keyId: Int32, publicKey: string)

  datatype ClaimResult = ClaimResult(keys: seq<UserKey>, row: Option<ClaimedRow>)

  /** The row after `UPDATE ... SET is_used = TRUE, claimed_at = now()`. */
  function MarkClaimed(k: UserKey, now: Instant): UserKey
  {
    k.(used := true, claimedAt := Some(now))
  }

  /** claimOneOpk(device) at time `now`: the new table and the returned row, if any. */
  function Claim(keys: seq<UserKey>, device: Uuid, now: Instant): (r: ClaimResult)
    ensures |r.keys| == |keys|
    ensures r.row.None? <==> CountAvailableOpk(keys, device) == 0
    ensures r.row.None? ==> r.keys == keys
    ensures r.row.Some? ==>
              var i := r.row.value.index;
              i < |keys| && IsAvailableOpk(keys[i], device) &&
              (forall j :: 0 <= j < |keys| && IsAvailableOpk(keys[j], device) ==> keys[i].createdAt <= keys[j].createdAt) &&
              r.row.value.keyId == keys[i].keyId && r.row.value.publicKey == keys[i].publicKey &&
              r.keys[i].used && r.keys[i].claimedAt == Some(now) &&
              r.keys[i] == keys[i].(used := true, claimedAt := Some(now)) &&
              (forall j :: 0 <= j < |keys| && j != i ==> r.keys[j] == keys[j])
  {
    match OldestAvailableOpk(keys, device)
    case None => ClaimResult(keys, None)
    case Some(i) =>
      ClaimResult(keys[i := MarkClaimed(keys[i], now)], Some(ClaimedRow(i, keys[i].keyId, keys[i].publicKey)))
  }

  /** A claim lowers the device's available count by exactly one when it returns
      a row, and touches nothing that belongs to another device, no signed
      prekey and no used key; it never sets used back to false. */
  lemma ClaimEffect(keys: seq<UserKey>, device: Uuid, now: Instant)
    ensures CountAvailableOpk(Claim(keys, device, now).keys, device)
            == CountAvailableOpk(keys, device) - (if Claim(keys, device, now).row.Some? then 1 else 0)
    ensures forall j :: 0 <= j < |keys| && (keys[j].deviceId != device || keys[j].keyType == SignedPrekey || keys[j].used) ==>
              Claim(keys, device, now).keys[j] == keys[j]
    ensures forall j :: 0 <= j < |keys| && keys[j].used ==> Claim(keys, device, now).keys[j].used
    ensures forall other :: other != device ==>
              CountAvailableOpk(Claim(keys, device, now).keys, other) == CountAvailableOpk(keys, other)
  {
    var c := Claim(keys, device, now);
    if c.row.Some? {
      var i := c.row.value.index;
      CountAfterUpdate(keys, i, c.keys[i], device);
      assert c.keys == keys[i := c.keys[i]];
      forall other | other != device
        ensures CountAvailableOpk(c.keys, other) == CountAvailableOpk(keys, other)
      {
        CountAfterUpdate(keys, i, c.keys[i], other);
      }
    }
  }

  /** A claim keeps every row's identity columns and only ever removes rows from
      the available set. */
  lemma ClaimKeepsColumns(keys: seq<UserKey>, device: Uuid, now: Instant)
    ensures forall j :: 0 <= j < |keys| ==> SameIdentity(Claim(keys, device, now).keys[j], keys[j])
    ensures forall j :: 0 <= j < |keys| && IsAvailableOpk(Claim(keys, device, now).keys[j], device) ==>
              IsAvailableOpk(keys[j], device)
    ensures Claim(keys, device, now).row.Some? ==>
              !IsAvailableOpk(Claim(keys, device, now).keys[Claim(keys, device, now).row.value.index], device)
  {
  }

  /** The columns a claim never writes. */
  predicate SameIdentity(a: UserKey, b: UserKey)
  {
    a.deviceId == b.deviceId && a.keyType == b.keyType && a.keyId == b.keyId && a.publicKey == b.publicKey
  }

  datatype RunResult = RunResult(keys: seq<UserKey>, rows: seq<Option<ClaimedRow>>)

  /** Successive claims for the same device, one per entry of `nows`. */
  function ClaimRun(keys: seq<UserKey>, device: Uuid, nows: seq<Instant>): (r: RunResult)
    ensures |r.rows| == |nows|
    ensures |r.keys| == |keys|
    decreases |nows|
  {
    if nows == [] then RunResult(keys, [])
    else
      var c := Claim(keys, device, nows[0]);
      var rest := ClaimRun(c.keys, device, nows[1..]);
      RunResult(rest.keys, [c.row] + rest.rows)
  }

  function Min(a: int, b: int): int { if a <= b then a else b }

  /** The returned row is an available key of the device in `keys`, with that
      key's own id and public key. */
  predicate ClaimedFrom(row: ClaimedRow, keys: seq<UserKey>, device: Uuid)
  {
    row.index < |keys| && IsAvailableOpk(keys[row.index], device) &&
    row.keyId == keys[row.index].keyId && row.publicKey == keys[row.index].publicKey
  }

  /** With K available one-time prekeys, the first K of successive claims return
      a row and every later one returns none; the count falls by one per
      successful claim. */
  lemma {:induction false} ClaimRunCount(keys: seq<UserKey>, device: Uuid, nows: seq<Instant>)
    ensures forall i :: 0 <= i < |nows| ==> (ClaimRun(keys, device, nows).rows[i].Some? <==> i < CountAvailableOpk(keys, device))
    ensures CountAvailableOpk(ClaimRun(keys, device, nows).keys, device)
            == CountAvailableOpk(keys, device) - Min(|nows|, CountAvailableOpk(keys, device))
    decreases |nows|
  {
    if nows != [] {
      var c := Claim(keys, device, nows[0]);
      var rest := ClaimRun(c.keys, device, nows[1..]);
      assert ClaimRun(keys, device, nows).rows == [c.row] + rest.rows;
      ClaimEffect(keys, device, nows[0]);
      ClaimRunCount(c.keys, device, nows[1..]);
    }
  }

  /** Every row a run of claims returns was an available key at the start of the
      run, returned with its own key id and public key. */
  lemma {:induction false} ClaimRunRows(keys: seq<UserKey>, device: Uuid, nows: seq<Instant>)
    ensures forall i :: 0 <= i < |nows| && ClaimRun(keys, device, nows).rows[i].Some? ==>
              ClaimedFrom(ClaimRun(keys, device, nows).rows[i].value, keys, device)
    decreases |nows|
  {
    if nows != [] {
      var c := Claim(keys, device, nows[0]);
      var rest := ClaimRun(c.keys, device, nows[1..]);
      var r := ClaimRun(keys, device, nows);
      assert r.rows == [c.row] + rest.rows;
      ClaimKeepsColumns(keys, device, nows[0]);
      ClaimRunRows(c.keys, device, nows[1..]);
      forall i | 0 <= i < |nows| && r.rows[i].Some?
        ensures ClaimedFrom(r.rows[i].value, keys, device)
      {
        if i > 0 {
          assert r.rows[i] == rest.rows[i - 1];
          assert ClaimedFrom(rest.rows[i - 1].value, c.keys, device);
        }
      }
    }
  }

  /** No key is handed out twice by a run of claims. */
  lemma {:induction false} ClaimRunDistinct(keys: seq<UserKey>, device: Uuid, nows: seq<Instant>)
    ensures forall i, j ::
              0 <= i < j < |nows| && ClaimRun(keys, device, nows).rows[i].Some? && ClaimRun(keys, device, nows).rows[j].Some? ==>
              ClaimRun(keys, device, nows).rows[i].value.index != ClaimRun(keys, device, nows).rows[j].value.index
    decreases |nows|
  {
    if nows != [] {
      var c := Claim(keys, device, nows[0]);
      var rest := ClaimRun(c.keys, device, nows[1..]);
      var r := ClaimRun(keys, device, nows);
      assert r.rows == [c.row] + rest.rows;
      ClaimKeepsColumns(keys, device, nows[0]);
      ClaimRunRows(c.keys, device, nows[1..]);
      ClaimRunDistinct(c.keys, device, nows[1..]);
      forall i, j | 0 <= i < j < |nows| && r.rows[i].Some? && r.rows[j].Some?
        ensures r.rows[i].value.index != r.rows[j].value.index
      {
        assert r.rows[j] == rest.rows[j - 1];
        assert ClaimedFrom(rest.rows[j - 1].value, c.keys, device);
        if i > 0 {
          assert r.rows[i] == rest.rows[i - 1];
        }
      }
    }
  }

  /** claimOneOpk as the single-row UPDATE ... RETURNING on the key table. */
  method ClaimOneOpk(db: Database, deviceId: Uuid, now: Instant) returns (rows: seq<ClaimedRow>)
    modifies db`keys
    ensures var c := Claim(old(db.keys), deviceId, now);
            db.keys == c.keys && rows == (if c.row.Some? then [c.row.value] else [])
  {
    var pick := OldestAvailableOpk(db.keys, deviceId);
    if pick.None? {
      rows := [];
    } else {
      var i := pick.value;
      var row := ClaimedRow(i, db.keys[i].keyId, db.keys[i].publicKey);
      db.keys := db.keys[i := MarkClaimed(db.keys[i], now)];
      rows := [row];
    }
  }
}
