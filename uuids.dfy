/** java.util.UUID as its 128-bit value, with the canonical text form produced by
    UUID.toString and read back by UUID.fromString. */
module Uuids {
  import opened Common

  /** The 128 bits of a UUID (most significant bits first). */
  type Uuid = n: int | 0 <= n < 0x1_0000_0000_0000_0000_0000_0000_0000_0000

  function Pow16(w: nat): (p: nat)
    ensures p >= 1
  {
    if w == 0 then 1 else 16 * Pow16(w - 1)
  }

  lemma {:induction false} Pow16Add(a: nat, b: nat)
    ensures Pow16(a + b) == Pow16(a) * Pow16(b)
  {
    if a > 0 {
      Pow16Add(a - 1, b);
    }
  }

  /** Thirty-two hex digits span exactly the 128 bits of a UUID. */
  lemma Pow16Of32()
    ensures Pow16(32) == 0x1_0000_0000_0000_0000_0000_0000_0000_0000
  {
    Pow16Add(2, 2);
    Pow16Add(4, 4);
    Pow16Add(8, 8);
    Pow16Add(16, 16);
  }

  predicate IsLowerHexChar(c: char)
  {
    ('0' <= c <= '9') || ('a' <= c <= 'f')
  }

  predicate IsHexChar(c: char)
  {
    IsLowerHexChar(c) || ('A' <= c <= 'F')
  }

  function HexDigit(d: nat): (c: char)
    requires d < 16
    ensures IsLowerHexChar(c) && c != '-' && c != ':'
  {
    if d < 10 then ('0' as int + d) as char else ('a' as int + d - 10) as char
  }

  function HexValue(c: char): (v: nat)
    requires IsHexChar(c)
    ensures v < 16
  {
    if '0' <= c <= '9' then c as int - '0' as int
    else if 'a' <= c <= 'f' then c as int - 'a' as int + 10
    else c as int - 'A' as int + 10
  }

  /** The last `w` hexadecimal digits of `n`, lower case, most significant first. */
  function Hex(n: nat, w: nat): (r: string)
    ensures |r| == w
    ensures forall m :: 0 <= m < w ==> IsLowerHexChar(r[m]) && r[m] != '-' && r[m] != ':'
  {
    if w == 0 then [] else Hex(n / 16, w - 1) + [HexDigit(n % 16)]
  }

  /** The value of a string of hexadecimal digits of either case. */
  function HexNumber(s: string): (v: nat)
    requires forall m :: 0 <= m < |s| ==> IsHexChar(s[m])
    ensures v < Pow16(|s|)
  {
    if s == [] then 0 else HexNumber(s[..|s| - 1]) * 16 + HexValue(s[|s| - 1])
  }

  lemma {:induction false} HexRoundTrip(n: nat, w: nat)
    requires n < Pow16(w)
    ensures HexNumber(Hex(n, w)) == n
  {
    if w > 0 {
      HexRoundTrip(n / 16, w - 1);
      var h := Hex(n, w);
      assert h[..w - 1] == Hex(n / 16, w - 1);
      assert HexValue(HexDigit(n % 16)) == n % 16;
    }
  }

  predicate DashesAt(s: string)
    requires |s| == 36
  {
    s[8] == '-' && s[13] == '-' && s[18] == '-' && s[23] == '-'
  }

  /** The positions of a 36-character UUID text that hold digits. */
  predicate DigitPosition(m: int)
  {
    0 <= m < 36 && m != 8 && m != 13 && m != 18 && m != 23
  }

  /** UUID.toString: 32 lower-case hex digits grouped 8-4-4-4-12 by dashes. */
  function ToString(u: Uuid): (r: string)
    ensures |r| == 36 && DashesAt(r)
    ensures forall m :: DigitPosition(m) ==> IsLowerHexChar(r[m])
    ensures ':' !in r
  {
    var h := Hex(u, 32);
    var r := h[0..8] + "-" + h[8..12] + "-" + h[12..16] + "-" + h[16..20] + "-" + h[20..32];
    assert forall m :: DigitPosition(m) ==> r[m] == h[UndashedIndex(m)];
    r
  }

  /** Where digit position `m` of the text lands once the dashes are removed. */
  function UndashedIndex(m: int): (k: int)
    requires DigitPosition(m)
    ensures 0 <= k < 32
  {
    if m < 8 then m else if m < 13 then m - 1 else if m < 18 then m - 2 else if m < 23 then m - 3 else m - 4
  }

  /** The 32 digit positions of a 36-character UUID text. */
  function Undash(s: string): (r: string)
    requires |s| == 36
    ensures |r| == 32
  {
    s[0..8] + s[9..13] + s[14..18] + s[19..23] + s[24..36]
  }

  /** The text position of digit `k` of the undashed form. */
  function DashedIndex(k: int): (m: int)
    requires 0 <= k < 32
    ensures DigitPosition(m)
  {
    if k < 8 then k else if k < 12 then k + 1 else if k < 16 then k + 2 else if k < 20 then k + 3 else k + 4
  }

  /** Dashes at 8, 13, 18 and 23 of 36 characters, hex digits of either case elsewhere. */
  ghost predicate UuidText(s: string)
  {
    |s| == 36 && DashesAt(s) && forall m :: DigitPosition(m) ==> IsHexChar(s[m])
  }

  /** Undash(s) holds the digit positions of `s` in order. */
  lemma UndashAt(s: string)
    requires |s| == 36
    ensures forall k :: 0 <= k < 32 ==> Undash(s)[k] == s[DashedIndex(k)]
    ensures forall m :: DigitPosition(m) ==> Undash(s)[UndashedIndex(m)] == s[m]
  {
  }

  /** UUID.fromString on its 36-character path: dashes at 8, 13, 18 and 23 and a
      hex digit of either case everywhere else; anything else is rejected. The
      value is the 32 digits read as one hexadecimal number. */
  function Parse(s: string): (r: Option<Uuid>)
    ensures r.Some? <==> UuidText(s)
    ensures r.Some? ==> r.value == HexNumber(Undash(s))
  {
    if |s| == 36 then UndashAt(s); Parse36(s) else None
  }

  function Parse36(s: string): (r: Option<Uuid>)
    requires |s| == 36
    ensures r.Some? <==> DashesAt(s) && forall k :: 0 <= k < 32 ==> IsHexChar(Undash(s)[k])
    ensures r.Some? ==> r.value == HexNumber(Undash(s))
  {
    if DashesAt(s) && forall k :: 0 <= k < 32 ==> IsHexChar(Undash(s)[k]) then
      var v := HexNumber(Undash(s));
      Pow16Of32();
      Some(v)
    else None
  }

  /** UUID.fromString(u.toString()) gives `u` back. */
  lemma ParseToString(u: Uuid)
    ensures Parse(ToString(u)) == Some(u)
  {
    var h := Hex(u, 32);
    var s := ToString(u);
    assert s[8] == '-' && s[13] == '-' && s[18] == '-' && s[23] == '-';
    assert s[0..8] == h[0..8] && s[9..13] == h[8..12] && s[14..18] == h[12..16] &&
           s[19..23] == h[16..20] && s[24..36] == h[20..32];
    assert h == h[0..8] + h[8..12] + h[12..16] + h[16..20] + h[20..32];
    assert Undash(s) == h;
    Pow16Of32();
    HexRoundTrip(u, 32);
  }

  /** Distinct UUIDs have distinct texts. */
  lemma ToStringInjective(u: Uuid, v: Uuid)
    requires ToString(u) == ToString(v)
    ensures u == v
  {
    ParseToString(u);
    ParseToString(v);
  }
}
