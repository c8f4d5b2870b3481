/** Shared vocabulary of the model: optional values (Java's nullable references),
    results that stand for a thrown exception, bytes, instants and the opaque
    codecs the backend calls into (Base64, Ed25519, SHA-256). */
module Common {

  /** A nullable Java reference: None is `null`. */
  datatype Option<+T> = None | Some(value: T)

  /** The exceptions the core throws. */
  datatype Error =
    | IllegalArgument(message: string)   // java.lang.IllegalArgumentException(message)
    | IllegalState(message: string)      // java.lang.IllegalStateException(message)
    | MalformedBase64                    // thrown by java.util.Base64.Decoder.decode
    | Foreign(message: string)           // thrown by a collaborator outside the model (JWT verifier)

  /** The value of a call that either returns or throws. */
  datatype Result<+T> = Ok(value: T) | Err(error: Error)

  /** The value of a void call that either returns or throws. */
  datatype Outcome = Done | Fail(error: Error)

  newtype byte = x: int | 0 <= x < 256
  type Bytes = seq<byte>

  /** java.time.Instant as nanoseconds since 1970-01-01T00:00:00Z. */
  type Instant = int

  const NANOS_PER_SECOND: int := 1_000_000_000

  /** Instant.getEpochSecond: the instant truncated towards minus infinity to whole
      seconds (Dafny's `/` by a positive divisor is floor division). */
  function EpochSecond(t: Instant): int
  {
    t / NANOS_PER_SECOND
  }

  /** Instant.plusSeconds. */
  function PlusSeconds(t: Instant, s: int): Instant
  {
    t + s * NANOS_PER_SECOND
  }

  /** Instant.ofEpochSecond(s) (without the range check, see Cursor). */
  function OfEpochSecond(s: int): (t: Instant)
    ensures EpochSecond(t) == s && t % NANOS_PER_SECOND == 0
  {
    s * NANOS_PER_SECOND
  }

  /** Java `int`. */
  type Int32 = x: int | -0x8000_0000 <= x < 0x8000_0000

  /** java.util.Base64's basic decoder and encoder (section 4 of RFC 4648), left
      opaque: `decode` is None exactly where the decoder throws. */
  datatype Base64Codec = Base64Codec(decode: string -> Option<Bytes>, encode: Bytes -> string)

  /** Base64-encode a nullable byte array the way the services do:
      `b == null ? null : encoder.encodeToString(b)`. */
  function EncodeNullable(codec: Base64Codec, b: Option<Bytes>): (r: Option<string>)
    ensures r.Some? <==> b.Some?
    ensures b.Some? ==> r.value == codec.encode(b.value)
  {
    match b
    case None => None
    case Some(bytes) => Some(codec.encode(bytes))
  }

  /** No element occurs twice. */
  predicate Distinct<T(==)>(s: seq<T>)
  {
    forall i, j :: 0 <= i < j < |s| ==> s[i] != s[j]
  }

  /** `order` lists the elements of the set `s`, each once: the order in which a
      loop over a Java HashSet or HashMap happened to visit them. */
  predicate Enumerates<T(==)>(order: seq<T>, s: set<T>)
  {
    Distinct(order) && (forall x :: x in order ==> x in s) && (forall x :: x in s ==> x in order)
  }

  /** Visiting each element once takes as many steps as the set has elements. */
  lemma {:induction false} EnumerationSize<T>(order: seq<T>, s: set<T>)
    requires Enumerates(order, s)
    ensures |order| == |s|
  {
    if order == [] {
      assert s == {};
    } else {
      var x := order[|order| - 1];
      var front := order[..|order| - 1];
      assert x !in front;
      assert forall y :: y in front <==> y in s - {x};
      EnumerationSize(front, s - {x});
    }
  }
}
