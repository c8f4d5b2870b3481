/** AuthChannelInterceptor: on a STOMP CONNECT frame, reads the bearer token
    from the Authorization native header, has it verified, and sets the frame's
    user to the principal built from the claims. Every other frame passes. */
module Realtime {
  import opened Common
  import opened JavaText
  import opened Uuids

  /** The STOMP frame commands. */
  datatype StompCommand =
    | Connect | Stomp | Connected | Send | Subscribe | Unsubscribe | Ack | Nack
    | Begin | Commit | Abort | Disconnect | MessageFrame | Receipt | ErrorFrame

  /** DTOs.JwtClaims. */
  datatype JwtClaims = JwtClaims(userId: Uuid, deviceId: Uuid)

  /** UserDevicePrincipal, as PrincipalFactory.fromClaims builds it. */
  datatype UserDevicePrincipal = UserDevicePrincipal(userId: Uuid, deviceId: Uuid)
  {
    /** Principal.getName: the user id in its canonical text form. */
    function Name(): string { ToString(userId) }
  }

  /** JwtVerifier.verify, left opaque: the claims, or the exception it throws. */
  type JwtVerifier = string -> Result<JwtClaims>

  const BEARER_PREFIX: string := "bearer "
  const MISSING_BEARER: Error := IllegalArgument("Missing Authorization: Bearer <jwt> in STOMP CONNECT")

  /** firstNonNull(a, b). */
  function FirstNonNull(a: Option<string>, b: Option<string>): (r: Option<string>)
    ensures a.Some? ==> r == a
    ensures a.None? ==> r == b
  {
    if a.Some? then a else b
  }

  /** getFirstNativeHeader(name): the first value of that header, if any. */
  function FirstNativeHeader(headers: map<string, seq<string>>, name: string): (r: Option<string>)
    ensures r.Some? <==> name in headers && headers[name] != []
    ensures r.Some? ==> r.value == headers[name][0]
  {
    if name in headers && headers[name] != [] then Some(headers[name][0]) else None
  }

  /** The Authorization header, the capitalised name winning over the lower-case one. */
  function AuthorizationHeader(headers: map<string, seq<string>>): Option<string>
  {
    FirstNonNull(FirstNativeHeader(headers, "Authorization"), FirstNativeHeader(headers, "authorization"))
  }

  /** The token of a CONNECT frame's header: it must start with "bearer " in any
      case, and the token is the rest, trimmed. */
  function ExtractBearer(auth: Option<string>): (r: Result<string>)
    ensures r.Err? <==> auth.None? || !StartsWith(ToLowerCase(auth.value), BEARER_PREFIX)
    ensures r.Err? ==> r.error == MISSING_BEARER
    ensures r.Ok? ==> |auth.value| >= |BEARER_PREFIX| && r.value == Trim(auth.value[|BEARER_PREFIX|..])
  {
    if auth.None? || !StartsWith(ToLowerCase(auth.value), BEARER_PREFIX) then Err(MISSING_BEARER)
    else Ok(Trim(auth.value[7..]))
  }

  /** The prefix is matched on ASCII case alone: whatever the case of its seven
      characters, a header "bearer " + t yields the trimmed t. */
  lemma {:induction false} AnyCaseBearer(scheme: string, t: string)
    requires |scheme| == |BEARER_PREFIX|
    requires forall m :: 0 <= m < |scheme| ==> LowerAscii(scheme[m]) == BEARER_PREFIX[m]
    ensures ExtractBearer(Some(scheme + t)) == Ok(Trim(t))
  {
    var auth := scheme + t;
    assert ToLowerCase(auth)[..7] == BEARER_PREFIX by {
      forall m | 0 <= m < 7 ensures ToLowerCase(auth)[m] == BEARER_PREFIX[m] {
        assert auth[m] == scheme[m];
      }
    }
    assert auth[7..] == t;
  }

  /** A token without surrounding blanks reaches the verifier unchanged. */
  lemma TokenRoundTrip(t: string)
    requires t != [] ==> t[0] > ' ' && t[|t| - 1] > ' '
    ensures ExtractBearer(Some("Bearer " + t)) == Ok(t)
  {
    AnyCaseBearer("Bearer ", t);
    TrimKeepsClean(t);
  }

  lemma TrimKeepsClean(t: string)
    requires t != [] ==> t[0] > ' ' && t[|t| - 1] > ' '
    ensures Trim(t) == t
  {
    if t != [] {
      assert TrimStartIndex(t, 0) == 0;
      assert TrimEndIndex(t, 0, |t|) == |t|;
      assert t[0..|t|] == t;
    }
  }

  /** What a CONNECT frame ends with: the principal, or the exception. */
  function ConnectOutcome(headers: map<string, seq<string>>, verifier: JwtVerifier): (r: Result<UserDevicePrincipal>)
    ensures AuthorizationHeader(headers).None? ==> r == Err(MISSING_BEARER)
    ensures r.Ok? ==>
              var token := ExtractBearer(AuthorizationHeader(headers));
              token.Ok? && verifier(token.value).Ok? &&
              r.value.userId == verifier(token.value).value.userId &&
              r.value.deviceId == verifier(token.value).value.deviceId &&
              r.value.Name() == ToString(verifier(token.value).value.userId)
    ensures var token := ExtractBearer(AuthorizationHeader(headers));
            token.Err? ==> r == Err(MISSING_BEARER)
    ensures var token := ExtractBearer(AuthorizationHeader(headers));
            token.Ok? && verifier(token.value).Err? ==> r == Err(verifier(token.value).error)
    ensures var token := ExtractBearer(AuthorizationHeader(headers));
            token.Ok? && verifier(token.value).Ok? ==>
              r == Ok(UserDevicePrincipal(verifier(token.value).value.userId, verifier(token.value).value.deviceId))
  {
    match ExtractBearer(AuthorizationHeader(headers))
    case Err(e) => Err(e)
    case Ok(token) =>
      match verifier(token)
      case Err(e) => Err(e)
      case Ok(claims) => Ok(UserDevicePrincipal(claims.userId, claims.deviceId))
  }

  /** StompHeaderAccessor: the parts of a frame's headers the interceptor reads
      and writes. */
  class StompHeaderAccessor {
    var command: Option<StompCommand>
    var nativeHeaders: map<string, seq<string>>
    var user: Option<UserDevicePrincipal>
    var leaveMutable: bool

    constructor (command: Option<StompCommand>, nativeHeaders: map<string, seq<string>>)
      ensures this.command == command && this.nativeHeaders == nativeHeaders
      ensures user.None? && !leaveMutable
    {
      this.command := command;
      this.nativeHeaders := nativeHeaders;
      user := None;
      leaveMutable := false;
    }
  }

  /** A message on the inbound channel; `accessor` is what
      MessageHeaderAccessor.getAccessor finds on it (null for non-STOMP messages). */
  class InboundMessage {
    const accessor: StompHeaderAccessor?

    constructor (accessor: StompHeaderAccessor?)
      ensures this.accessor == accessor
    {
      this.accessor := accessor;
    }
  }

  class AuthChannelInterceptor {
    const verifier: JwtVerifier

    constructor (verifier: JwtVerifier)
      ensures this.verifier == verifier
    {
      this.verifier := verifier;
    }

    /** preSend: returns the same message; a CONNECT frame gets its user set, or
        the call throws and nothing changes. */
    method PreSend(message: InboundMessage) returns (r: Result<InboundMessage>)
      modifies message.accessor
      ensures message.accessor == null || message.accessor.command != Some(Connect) ==>
                r == Ok(message) && (message.accessor != null ==> unchanged(message.accessor))
      ensures message.accessor != null && message.accessor.command == Some(Connect) ==>
                var acc := message.accessor;
                var outcome := ConnectOutcome(acc.nativeHeaders, verifier);
                acc.command == old(acc.command) && acc.nativeHeaders == old(acc.nativeHeaders) &&
                (outcome.Err? ==> r == Err(outcome.error) && unchanged(acc)) &&
                (outcome.Ok? ==> r == Ok(message) && acc.user == Some(outcome.value) && acc.leaveMutable)
    {
      var acc := message.accessor;
      if acc == null {
        return Ok(message);
      }
      if acc.command == Some(Connect) {
        var auth := FirstNonNull(FirstNativeHeader(acc.nativeHeaders, "Authorization"),
                                 FirstNativeHeader(acc.nativeHeaders, "authorization"));
        if auth.None? || !StartsWith(ToLowerCase(auth.value), BEARER_PREFIX) {
          return Err(MISSING_BEARER);
        }
        var token := Trim(auth.value[7..]);
        var claims := verifier(token);
        if claims.Err? {
          return Err(claims.error);
        }
        acc.user := Some(UserDevicePrincipal(claims.value.userId, claims.value.deviceId));
        acc.leaveMutable := true;
      }
      r := Ok(message);
    }
  }
}
