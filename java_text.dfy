/** The few java.lang.String and java.lang.Long behaviours the core depends on:
    trim, the two blankness tests, lower-casing, prefix test, split(":"),
    UTF-8 encoding, and Long.toString / Long.parseLong in base 10. */
module JavaText {
  import opened Common

  // ---------------------------------------------------------------- trim

  /** The first index at or after `i` whose character is above U+0020, or |s|. */
  function TrimStartIndex(s: string, i: nat): (k: nat)
    requires i <= |s|
    ensures i <= k <= |s|
    ensures forall m :: i <= m < k ==> s[m] <= ' '
    ensures k < |s| ==> s[k] > ' '
    decreases |s| - i
  {
    if i == |s| || s[i] > ' ' then i else TrimStartIndex(s, i + 1)
  }

  /** The end of `s[lo..j]` once its trailing characters up to U+0020 are cut off. */
  function TrimEndIndex(s: string, lo: nat, j: nat): (k: nat)
    requires lo <= j <= |s|
    ensures lo <= k <= j
    ensures forall m :: k <= m < j ==> s[m] <= ' '
    ensures k > lo ==> s[k - 1] > ' '
    decreases j
  {
    if j == lo || s[j - 1] > ' ' then j else TrimEndIndex(s, lo, j - 1)
  }

  /** String.trim: drops every leading and trailing character whose code is at
      most U+0020; what remains is the middle of `s`, starting and ending with a
      character above U+0020. */
  function Trim(s: string): (r: string)
    ensures |r| <= |s|
    ensures r != [] ==> r[0] > ' ' && r[|r| - 1] > ' '
    ensures (forall m :: 0 <= m < |s| ==> s[m] <= ' ') ==> r == []
    ensures r == [] ==> forall m :: 0 <= m < |s| ==> s[m] <= ' '
    ensures exists b, e :: 0 <= b <= e <= |s| && r == s[b..e] &&
              (forall m :: 0 <= m < b ==> s[m] <= ' ') && (forall m :: e <= m < |s| ==> s[m] <= ' ')
  {
    var b := TrimStartIndex(s, 0);
    var e := TrimEndIndex(s, b, |s|);
    assert b < |s| ==> e > b;
    s[b..e]
  }

  /** `s == null || s.trim().isEmpty()`, the helper of DeviceEnrollmentService:
      true exactly for null and for strings made only of characters up to U+0020. */
  function IsBlank(s: Option<string>): (r: bool)
    ensures r <==> s.None? || forall m :: 0 <= m < |s.value| ==> s.value[m] <= ' '
  {
    s.None? || |Trim(s.value)| == 0
  }

  /** Character.isWhitespace: Unicode space, line and paragraph separators other
      than the three no-break spaces, plus U+0009..U+000D and U+001C..U+001F. */
  predicate IsJavaWhitespace(c: char)
  {
    || ('\U{0009}' <= c <= '\U{000D}')
    || ('\U{001C}' <= c <= '\U{001F}')
    || c == ' '
    || c == '\U{1680}'
    || ('\U{2000}' <= c <= '\U{2006}')
    || ('\U{2008}' <= c <= '\U{200A}')
    || c == '\U{2028}' || c == '\U{2029}'
    || c == '\U{205F}' || c == '\U{3000}'
  }

  /** String.isBlank (Java 11): empty or only Character.isWhitespace characters. */
  /** String.indexOfNonWhitespace from `i`: the first index not holding
      whitespace, or |s|. */
  function IndexOfNonWhitespace(s: string, i: nat): (k: nat)
    requires i <= |s|
    ensures i <= k <= |s|
    ensures forall m :: i <= m < k ==> IsJavaWhitespace(s[m])
    ensures k < |s| ==> !IsJavaWhitespace(s[k])
    decreases |s| - i
  {
    if i == |s| || !IsJavaWhitespace(s[i]) then i else IndexOfNonWhitespace(s, i + 1)
  }

  /** String.isBlank: indexOfNonWhitespace() == length(). */
  function IsBlankJava11(s: string): (r: bool)
    ensures r <==> forall m :: 0 <= m < |s| ==> IsJavaWhitespace(s[m])
  {
    IndexOfNonWhitespace(s, 0) == |s|
  }

  // ------------------------------------------------------- case and prefix

  function LowerAscii(c: char): char
  {
    if 'A' <= c <= 'Z' then (c as int + 32) as char else c
  }

  /** String.toLowerCase restricted to the ASCII letters. */
  function ToLowerCase(s: string): (r: string)
    ensures |r| == |s|
    ensures forall m :: 0 <= m < |s| ==> r[m] == LowerAscii(s[m])
  {
    seq(|s|, m requires 0 <= m < |s| => LowerAscii(s[m]))
  }

  predicate StartsWith(s: string, prefix: string)
  {
    |prefix| <= |s| && s[..|prefix|] == prefix
  }

  // ------------------------------------------------------------ split(":")

  /** The index of the first ':' at or after `i`, or |s|. */
  function ColonIndex(s: string, i: nat): (k: nat)
    requires i <= |s|
    ensures i <= k <= |s|
    ensures forall m :: i <= m < k ==> s[m] != ':'
    ensures k < |s| ==> s[k] == ':'
    decreases |s| - i
  {
    if i == |s| || s[i] == ':' then i else ColonIndex(s, i + 1)
  }

  /** The fields joined back together with ':' between them. */
  function JoinColon(p: seq<string>): string
  {
    if p == [] then "" else if |p| == 1 then p[0] else p[0] + ":" + JoinColon(p[1..])
  }

  /** The first two fields and the colon between them sit inside the join. */
  lemma JoinHeadLength(p: seq<string>)
    ensures |p| >= 2 ==> |JoinColon(p)| >= |p[0]| + 1 + |p[1]|
  {
    if |p| > 2 {
      assert p[1..][0] == p[1];
    }
  }

  function Colons(n: nat): (r: string)
    ensures |r| == n && forall m :: 0 <= m < n ==> r[m] == ':'
  {
    seq(n, _ => ':')
  }

  predicate NoColons(p: seq<string>)
  {
    forall i :: 0 <= i < |p| ==> ':' !in p[i]
  }

  /** The pieces of `s` between its colons, empty pieces included. */
  function Fields(s: string): (r: seq<string>)
    ensures |r| >= 1
    ensures NoColons(r) && JoinColon(r) == s
    decreases |s|
  {
    var k := ColonIndex(s, 0);
    if k == |s| then [s]
    else
      assert s == s[..k] + ":" + s[k + 1..];
      [s[..k]] + Fields(s[k + 1..])
  }

  /** Joining a trailing empty field adds one colon, unless it is the only field. */
  lemma {:induction false} JoinSnocEmpty(q: seq<string>)
    ensures JoinColon(q + [""]) == JoinColon(q) + (if q == [] then "" else ":")
  {
    if |q| > 1 {
      assert (q + [""])[1..] == q[1..] + [""];
      JoinSnocEmpty(q[1..]);
    }
  }

  function DropTrailingEmpty(p: seq<string>): (r: seq<string>)
    ensures |r| <= |p| && r == p[..|r|]
    ensures r != [] ==> r[|r| - 1] != ""
    ensures NoColons(p) ==> NoColons(r)
    ensures |JoinColon(r)| <= |JoinColon(p)| && JoinColon(p) == JoinColon(r) + Colons(|JoinColon(p)| - |JoinColon(r)|)
  {
    if p != [] && p[|p| - 1] == "" then
      var q := p[..|p| - 1];
      assert p == q + [""];
      JoinSnocEmpty(q);
      DropTrailingEmpty(q)
    else p
  }

  /** String.split(":") with limit 0: the whole string when it holds no colon,
      otherwise the fields with the trailing empty ones removed. The fields hold
      no colon, and the last one is not empty unless it is all of `s`. */
  function SplitColon(s: string): (r: seq<string>)
    ensures NoColons(r)
    ensures ':' !in s ==> r == [s]
    ensures ':' in s && r != [] ==> r[|r| - 1] != ""
  {
    if ':' !in s then [s] else DropTrailingEmpty(Fields(s))
  }

  /** Joined with ':', the fields of split(":") give `s` back up to the trailing
      colons that split drops. */
  lemma SplitColonRejoins(s: string)
    ensures |JoinColon(SplitColon(s))| <= |s|
    ensures s == JoinColon(SplitColon(s)) + Colons(|s| - |JoinColon(SplitColon(s))|)
  {
    var r := SplitColon(s);
    if ':' !in s {
      assert r == [s] && JoinColon(r) == s;
      assert s == s + Colons(0);
    } else {
      var p := Fields(s);
      assert r == DropTrailingEmpty(p);
      assert JoinColon(p) == s;
    }
  }

  lemma {:induction false} SplitTwoFields(a: string, b: string)
    requires ':' !in a && ':' !in b && b != ""
    ensures SplitColon(a + ":" + b) == [a, b]
  {
    var s := a + ":" + b;
    assert s[|a|] == ':';
    assert forall m :: 0 <= m < |a| ==> s[m] == a[m];
    var k := ColonIndex(s, 0);
    assert k == |a|;
    assert s[..k] == a;
    assert s[k + 1..] == b;
    assert ColonIndex(b, 0) == |b|;
    assert Fields(b) == [b];
    assert Fields(s) == [a, b];
  }

  // ------------------------------------------------------------------ UTF-8

  /** The UTF-8 encoding of one Unicode scalar value. */
  function Utf8Char(c: char): (r: Bytes)
    ensures 1 <= |r| <= 4
    ensures c < '\U{0080}' ==> r == [c as int as byte]
  {
    var n := c as int;
    if n < 0x80 then [n as byte]
    else if n < 0x800 then [(0xC0 + n / 64) as byte, (0x80 + n % 64) as byte]
    else if n < 0x1_0000 then
      [(0xE0 + n / 4096) as byte, (0x80 + (n / 64) % 64) as byte, (0x80 + n % 64) as byte]
    else
      [(0xF0 + n / 262144) as byte, (0x80 + (n / 4096) % 64) as byte,
       (0x80 + (n / 64) % 64) as byte, (0x80 + n % 64) as byte]
  }

  /** String.getBytes(UTF_8). */
  function Utf8(s: string): (r: Bytes)
    ensures |r| >= |s|
    ensures (forall m :: 0 <= m < |s| ==> s[m] < '\U{0080}') ==>
              |r| == |s| && forall m :: 0 <= m < |s| ==> r[m] == s[m] as int as byte
  {
    if s == [] then [] else Utf8Char(s[0]) + Utf8(s[1..])
  }

  // ------------------------------------------------------- Long in base 10

  const LONG_MIN: int := -0x8000_0000_0000_0000
  const LONG_MAX: int := 0x7FFF_FFFF_FFFF_FFFF

  predicate IsDigit(c: char) { '0' <= c <= '9' }

  function DigitChar(d: nat): (c: char)
    requires d < 10
    ensures IsDigit(c)
  {
    ('0' as int + d) as char
  }

  /** The decimal value of a string of ASCII digits. */
  function DecimalValue(s: string): nat
    requires forall m :: 0 <= m < |s| ==> IsDigit(s[m])
  {
    if s == [] then 0
    else
      assert IsDigit(s[|s| - 1]);
      DecimalValue(s[..|s| - 1]) * 10 + (s[|s| - 1] as int - '0' as int)
  }

  /** The shortest decimal spelling of `n`. */
  function Digits(n: nat): (r: string)
    ensures r != []
    ensures forall m :: 0 <= m < |r| ==> IsDigit(r[m])
  {
    if n < 10 then [DigitChar(n)] else Digits(n / 10) + [DigitChar(n % 10)]
  }

  /** Long.toString: an optional '-' and the decimal digits. */
  function LongToString(n: int): (r: string)
    ensures r != [] && ':' !in r
  {
    if n < 0 then "-" + Digits(-n) else Digits(n)
  }

  predicate AllDigits(t: string)
  {
    forall m :: 0 <= m < |t| ==> IsDigit(t[m])
  }

  /** What follows an optional leading sign. */
  function Unsigned(s: string): string
  {
    if s != [] && (s[0] == '-' || s[0] == '+') then s[1..] else s
  }

  /** The syntax Long.parseLong accepts: an optional sign, then at least one digit. */
  predicate LongSyntax(s: string)
  {
    Unsigned(s) != [] && AllDigits(Unsigned(s))
  }

  /** The value of a string in that syntax, negated after a leading '-'. */
  function SignedValue(s: string): int
    requires LongSyntax(s)
  {
    var magnitude: int := DecimalValue(Unsigned(s));
    if s[0] == '-' then -magnitude else magnitude
  }

  /** Long.parseLong over ASCII digits: one optional '+' or '-', then at least one
      digit, and the value must lie in the range of a Java `long`. */
  function ParseLong(s: string): (r: Option<int>)
    ensures r.Some? <==> LongSyntax(s) && LONG_MIN <= SignedValue(s) <= LONG_MAX
    ensures r.Some? ==> r.value == SignedValue(s)
    ensures r.Some? ==> LONG_MIN <= r.value <= LONG_MAX
  {
    if s == [] then None
    else
      var negative := s[0] == '-';
      var body := if s[0] == '-' || s[0] == '+' then s[1..] else s;
      if body == [] || exists m :: 0 <= m < |body| && !IsDigit(body[m]) then None
      else
        var magnitude: int := DecimalValue(body);
        var v: int := if negative then -magnitude else magnitude;
        if LONG_MIN <= v <= LONG_MAX then Some(v) else None
  }

  /** A '+' sign and leading zeros are accepted; a lone sign, an empty string
      and a non-digit are not. */
  lemma ParseLongExamples()
    ensures ParseLong("+5") == Some(5)
    ensures ParseLong("007") == Some(7)
    ensures ParseLong("-12") == Some(-12)
    ensures ParseLong("-") == None && ParseLong("") == None && ParseLong("x") == None && ParseLong("1x") == None
  {
    assert DecimalValue("5") == 5;
    assert DecimalValue("007") == 7 by {
      assert "007"[..2] == "00" && "00"[..1] == "0";
    }
    assert DecimalValue("12") == 12 by {
      assert "12"[..1] == "1";
    }
    assert !IsDigit("1x"[1]);
  }

  lemma {:induction false} DigitsRoundTrip(n: nat)
    ensures DecimalValue(Digits(n)) == n
  {
    if n >= 10 {
      DigitsRoundTrip(n / 10);
      var d := Digits(n / 10) + [DigitChar(n % 10)];
      assert d[..|d| - 1] == Digits(n / 10);
    }
  }

  /** Long.parseLong(Long.toString(n)) == n for every Java long. */
  lemma LongRoundTrip(n: int)
    requires LONG_MIN <= n <= LONG_MAX
    ensures ParseLong(LongToString(n)) == Some(n)
  {
    var s := LongToString(n);
    if n < 0 {
      DigitsRoundTrip(-n);
      assert s[1..] == Digits(-n);
    } else {
      DigitsRoundTrip(n);
    }
  }
}
