/** MessageService.Cursor: the inbox pagination token "<epochSecond>:<uuid>". */
module MessageCursor {
  import opened Common
  import opened JavaText
  import opened Uuids

  /** Instant.MIN.getEpochSecond() and Instant.MAX.getEpochSecond(). */
  const INSTANT_MIN_SECOND: int := -31557014167219200
  const INSTANT_MAX_SECOND: int := 31556889864403199

  /** A decoded cursor; the `(null, null)` cursor means "from the beginning". */
  datatype Cursor = Cursor(createdAt: Option<Instant>, messageId: Option<Uuid>)

  const EMPTY: Cursor := Cursor(None, None)

  /** The strings Cursor.decode accepts: not blank, with a first ':'-separated
      field that parses as a long inside Instant's range of epoch seconds and a
      second field that parses as a UUID. */
  predicate WellFormed(s: Option<string>)
    ensures WellFormed(s) ==> s.Some? && ':' in s.value && |s.value| >= 38
  {
    s.Some? && !IsBlankJava11(s.value) &&
    var p := SplitColon(s.value);
    SplitColonRejoins(s.value);
    JoinHeadLength(p);
    |p| >= 2 && ParseLong(p[0]).Some? &&
    INSTANT_MIN_SECOND <= ParseLong(p[0]).value <= INSTANT_MAX_SECOND &&
    Parse(p[1]).Some?
  }

  /** Cursor.decode: null, blank and every malformed string give the empty cursor;
      otherwise the first ':'-separated field is the epoch second (a Java long
      inside Instant's range) and the second field the UUID. Fields after the
      second are ignored, as String.split leaves them unread. */
  function Decode(s: Option<string>): (c: Cursor)
    ensures c.createdAt.Some? <==> c.messageId.Some?
    ensures s.None? || IsBlankJava11(s.value) ==> c == EMPTY
    ensures c.createdAt.Some? ==>
              c.createdAt.value % NANOS_PER_SECOND == 0 &&
              INSTANT_MIN_SECOND <= EpochSecond(c.createdAt.value) <= INSTANT_MAX_SECOND
    ensures c != EMPTY <==> WellFormed(s)
    ensures WellFormed(s) ==>
              var p := SplitColon(s.value);
              c.createdAt.Some? && EpochSecond(c.createdAt.value) == ParseLong(p[0]).value &&
              c.messageId == Parse(p[1])
  {
    if s.None? || IsBlankJava11(s.value) then EMPTY
    else
      var p := SplitColon(s.value);
      if |p| == 0 then EMPTY                                   // p[0] out of bounds
      else match ParseLong(p[0])
        case None => EMPTY                                     // NumberFormatException
        case Some(sec) =>
          if sec < INSTANT_MIN_SECOND || sec > INSTANT_MAX_SECOND then EMPTY  // DateTimeException
          else if |p| < 2 then EMPTY                           // p[1] out of bounds
          else match Parse(p[1])
            case None => EMPTY                                 // IllegalArgumentException
            case Some(id) => Cursor(Some(OfEpochSecond(sec)), Some(id))
  }

  /** Cursor.encode: null when either part is null, otherwise the epoch second,
      a colon and the UUID text. */
  function Encode(ts: Option<Instant>, id: Option<Uuid>): (r: Option<string>)
    ensures r.None? <==> ts.None? || id.None?
    ensures r.Some? ==> SplitColon(r.value) == [LongToString(EpochSecond(ts.value)), ToString(id.value)]
    ensures r.Some? ==> JoinColon(SplitColon(r.value)) == r.value
    ensures r.Some? ==> r.value != [] && r.value[|r.value| - 1] != ':'
  {
    if ts.None? || id.None? then None
    else
      var sec, uuid := LongToString(EpochSecond(ts.value)), ToString(id.value);
      var text := sec + ":" + uuid;
      SplitTwoFields(sec, uuid);
      assert [sec, uuid][1..] == [uuid];
      assert text[|text| - 1] == uuid[35];
      Some(text)
  }

  lemma LongTextStartsVisibly(n: int)
    ensures !IsJavaWhitespace(LongToString(n)[0])
  {
    if n >= 0 {
      assert IsDigit(Digits(n)[0]);
    }
  }

  /** decode(encode(t, id)) is `t` truncated to whole seconds, and `id`. */
  lemma {:induction false} DecodeEncode(t: Instant, id: Uuid)
    requires INSTANT_MIN_SECOND <= EpochSecond(t) <= INSTANT_MAX_SECOND
    ensures Decode(Encode(Some(t), Some(id))) == Cursor(Some(OfEpochSecond(EpochSecond(t))), Some(id))
  {
    var e := Encode(Some(t), Some(id));
    var sec := LongToString(EpochSecond(t));
    LongTextStartsVisibly(EpochSecond(t));
    assert e.value[0] == sec[0];
    assert !IsBlankJava11(e.value);
    LongRoundTrip(EpochSecond(t));
    ParseToString(id);
  }

  /** The truncated instant is the start of the second that holds `t`. */
  lemma TruncationBounds(t: Instant)
    ensures OfEpochSecond(EpochSecond(t)) <= t < OfEpochSecond(EpochSecond(t)) + NANOS_PER_SECOND
  {
  }

  /** The round trip loses the sub-second part: at 1.5 s past the epoch the decoded
      cursor says 1 s. */
  lemma {:induction false} RoundTripDropsNanos(id: Uuid)
    ensures Decode(Encode(Some(1_500_000_000), Some(id))).createdAt == Some(1_000_000_000)
  {
    DecodeEncode(1_500_000_000, id);
  }
}
