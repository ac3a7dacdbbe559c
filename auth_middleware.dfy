/** The bearer-token authentication middleware (middlewares/authMiddleware.js):
    a decision over the `Authorization` header and the result of verifying
    the token it carries. Signature checking itself (`jwt.verify`) is a
    parameter. */
module AuthMiddleware {
  import opened Common
  import opened JsText

  /** The claims of a verified token; an absent or falsy claim is None. */
  datatype Payload = Payload(userId: Option<Id>, email: Option<string>, role: Option<string>)

  /** What `jwt.verify(token, secret)` does: return the decoded payload, or throw
      a TokenExpiredError, a JsonWebTokenError, or any other error (for
      instance a NotBeforeError). */
  datatype VerifyResult = Decoded(payload: Payload) | TokenExpired | TokenInvalid | OtherError

  /** The normalised caller identity stored in `req.user`. */
  datatype Identity = Identity(id: Id, email: string, role: string)

  /** Either `next()` runs with `req.user` set, or a status is sent and `next`
      is never reached. */
  datatype AuthOutcome = Next(user: Identity) | Reject(status: Status)

  const DefaultRole: string := "user"
  const Scheme: string := "Bearer"

  /** The first name destructured from `authHeader.split(" ")`, the scheme:
      the header up to its first space, or all of it when it has none. */
  function SchemeOf(header: string): (r: string)
    ensures |r| <= |header| && ' ' !in r && r == header[..|r|]
    ensures |r| < |header| ==> header[|r|] == ' '
  {
    if ' ' in header then
      var i := IndexOf(header, ' ');
      assert Split(header, ' ')[0] == header[..i];
      Split(header, ' ')[0]
    else Split(header, ' ')[0]
  }

  /** The second name, the token: when the header has a space, the text after
      the first space up to the next one; without a space it is undefined. */
  function TokenOf(header: string): (r: Option<string>)
    ensures r.Some? <==> ' ' in header
    ensures r.Some? ==>
      var rest := header[|SchemeOf(header)| + 1..];
      ' ' !in r.value && r.value == SchemeOf(rest)
  {
    var pieces := Split(header, ' ');
    if |pieces| >= 2 then
      var i := IndexOf(header, ' ');
      assert |SchemeOf(header)| == i;
      assert pieces[1] == Split(header[i + 1..], ' ')[0];
      Some(pieces[1])
    else None
  }

  /** The catch block: expired and invalid tokens are 401, every other failure
      (including a payload without `userId` or `email`) is 400. */
  function Classify(result: VerifyResult): (r: AuthOutcome)
    ensures result.TokenExpired? || result.TokenInvalid? ==> r == Reject(Unauthorized)
    ensures result.OtherError? ==> r == Reject(BadRequest)
    ensures result.Decoded? && (result.payload.userId.None? || !Present(result.payload.email)) ==>
      r == Reject(BadRequest)
    ensures r.Next? <==> result.Decoded? && result.payload.userId.Some? && Present(result.payload.email)
    ensures r.Next? ==>
      && r.user.id == result.payload.userId.value && r.user.email == result.payload.email.value
      && (Present(result.payload.role) ==> r.user.role == result.payload.role.value)
      && (!Present(result.payload.role) ==> r.user.role == DefaultRole)
  {
    match result
    case TokenExpired => Reject(Unauthorized)
    case TokenInvalid => Reject(Unauthorized)
    case OtherError => Reject(BadRequest)
    case Decoded(p) =>
      if p.userId.None? || !Present(p.email) then Reject(BadRequest)
      else Next(Identity(p.userId.value, p.email.value, if Present(p.role) then p.role.value else DefaultRole))
  }

  /** The middleware. */
  function Authenticate(header: Option<string>, verify: string -> VerifyResult): (r: AuthOutcome)
    ensures !Present(header) ==> r == Reject(Unauthorized)
    ensures r.Reject? ==> r.status == Unauthorized || r.status == BadRequest
    ensures r.Next? ==> r.user.email != "" && r.user.role != ""
  {
    if !Present(header) then Reject(Unauthorized)
    else
      var token := TokenOf(header.value);
      if SchemeOf(header.value) != Scheme || !Present(token) then Reject(Unauthorized)
      else Classify(verify(token.value))
  }

  /** The first two pieces of `a + " " + b + tail`, when neither a nor b holds
      a space and the tail is empty or starts a new piece. */
  lemma SplitFirstTwo(a: string, b: string, tail: string)
    requires ' ' !in a && ' ' !in b && (tail == "" || tail[0] == ' ')
    ensures var pieces := Split(a + [' '] + b + tail, ' ');
      |pieces| >= 2 && pieces[0] == a && pieces[1] == b
  {
    var h := a + [' '] + b + tail;
    assert h == a + [' '] + (b + tail);
    SplitCons(a, ' ', b + tail);
    if tail == "" {
      assert b + tail == b;
    } else {
      assert b + tail == b + [' '] + tail[1..];
      SplitCons(b, ' ', tail[1..]);
    }
  }

  lemma SchemeHasNoSpace()
    ensures ' ' !in Scheme && |Scheme| == 6
  {
  }

  /** The scheme, a space and the token, followed by nothing or by a new
      piece: the token is what gets verified. */
  lemma BearerHeader(token: string, tail: string, verify: string -> VerifyResult)
    requires token != "" && ' ' !in token && (tail == "" || tail[0] == ' ')
    ensures Authenticate(Some(Scheme + [' '] + token + tail), verify) == Classify(verify(token))
  {
    SchemeHasNoSpace();
    SplitFirstTwo(Scheme, token, tail);
  }

  /** A well-formed header hands exactly its token to `jwt.verify`, and the
      outcome is the classification of that verification alone; anything
      after a further space is ignored. */
  lemma BearerTokenIsVerified(token: string, rest: string, verify: string -> VerifyResult)
    requires token != "" && ' ' !in token
    ensures Authenticate(Some(Scheme + " " + token), verify) == Classify(verify(token))
    ensures Authenticate(Some(Scheme + " " + token + " " + rest), verify) == Classify(verify(token))
  {
    BearerHeader(token, "", verify);
    assert Scheme + [' '] + token + "" == Scheme + " " + token;
    BearerHeader(token, " " + rest, verify);
    assert Scheme + [' '] + token + (" " + rest) == Scheme + " " + token + " " + rest;
  }

  /** A double space after the scheme, or nothing after its single space,
      yields an empty token: 401. */
  lemma DoubleSpaceRejected(rest: string, verify: string -> VerifyResult)
    ensures Authenticate(Some(Scheme + "  " + rest), verify) == Reject(Unauthorized)
    ensures Authenticate(Some(Scheme + " "), verify) == Reject(Unauthorized)
  {
    SchemeHasNoSpace();
    SplitFirstTwo(Scheme, "", " " + rest);
    assert Scheme + [' '] + "" + (" " + rest) == Scheme + "  " + rest;
    SplitFirstTwo(Scheme, "", "");
    assert Scheme + [' '] + "" + "" == Scheme + " ";
  }

  /** A header without a space, or with another scheme, is 401 whatever the
      token verifier would say. */
  lemma SchemeRequired(header: string, verify: string -> VerifyResult)
    requires ' ' !in header || SchemeOf(header) != Scheme
    ensures Authenticate(Some(header), verify) == Reject(Unauthorized)
  {
    if ' ' !in header {
      assert Split(header, ' ') == [header];
    }
  }

  /** When `next` runs, the header was `"Bearer " + token` optionally followed
      by a space and more, and the identity is the verified payload's userId
      and email with the role defaulting to "user". */
  lemma AuthenticatedHeaderShape(header: string, verify: string -> VerifyResult)
    requires Authenticate(Some(header), verify).Next?
    ensures var token := TokenOf(header).value;
      && |Scheme| + 1 + |token| <= |header|
      && header[..|Scheme| + 1] == Scheme + " "
      && header[|Scheme| + 1..|Scheme| + 1 + |token|] == token
      && (|header| == |Scheme| + 1 + |token| || header[|Scheme| + 1 + |token|] == ' ')
    ensures var token := TokenOf(header).value;
      var user := Authenticate(Some(header), verify).user;
      && verify(token).Decoded?
      && verify(token).payload.userId == Some(user.id)
      && verify(token).payload.email == Some(user.email)
      && user.role == (if Present(verify(token).payload.role) then verify(token).payload.role.value else DefaultRole)
  {
    var pieces := Split(header, ' ');
    JoinSplit(header, ' ');
    var token := pieces[1];
    assert pieces[0] == Scheme;
    var n := |Scheme| + 1 + |token|;
    if |pieces| == 2 {
      assert Join(pieces, ' ') == Scheme + [' '] + token;
    } else {
      assert Join(pieces[1..], ' ') == token + [' '] + Join(pieces[2..], ' ');
      assert Join(pieces, ' ') == Scheme + [' '] + (token + [' '] + Join(pieces[2..], ' '));
      assert header[n] == ' ';
    }
  }
}
