/**
 The two request gates of the server (index.js): `verifyFirebasToken`, which
 checks an identity-provider token, and `verifyJWTToken`, which checks a
 self-issued token. Both read the bearer token out of the `Authorization`
 header by the same rule, hand it to their verifier, and either answer
 401 "unauthorized access" or attach the verified email to the request as
 `token_email` and pass it on. The verifiers themselves are parameters.
 */
module Auth {
  import opened Wrappers
  import opened Js

  /** The `authorization` request header as the HTTP layer delivers it:
      `undefined` when absent, otherwise a string (possibly empty). */
  type Header = v: Value | v.Undefined? || v.Str? witness Undefined

  /** A response with a status code and a JSON `{message}` body. */
  datatype Response = Response(status: nat, message: string)

  /** The one answer every gate rejection gives. */
  const Unauthorized := Response(401, "unauthorized access")

  /** What a verifier says of a token: it failed for a reason of kind `F`, or
      it accepted the token and decoded its `email` claim (any JSON value,
      `undefined` when the claim is missing). */
  datatype Verdict<F> = Invalid(failure: F) | Valid(email: Value)

  /** Ways the identity provider's `verifyIdToken` can throw. */
  datatype IdpFailure = InvalidIdToken | ServiceUnavailable

  /** Ways `jwt.verify` can report an error to its callback. */
  datatype JwtFailure = BadSignature | Malformed | Expired

  /** A gate either answers the request itself or lets it through carrying
      the verified `token_email`; never both. */
  datatype GateResult = Reject(response: Response) | Continue(tokenEmail: Value)

  /** The token the gates hand to their verifier: `authorization.split(" ")[1]`,
      present only when the header is truthy and that field is truthy. */
  function ExtractToken(authorization: Header): (token: Option<string>)
    ensures !Truthy(authorization) ==> token == None
    ensures token.Some? ==> token.value != [] && ' ' !in token.value
    ensures token.Some? ==> authorization.Str? && ' ' in authorization.s
  {
    if !Truthy(authorization) then None
    else
      var token := Field(Split(authorization.s), 1);
      if Truthy(token) then Some(token.s)
      else None
  }

  /** `verifyFirebasToken`: a missing or empty header, or no token after the
      first space, is refused before the verifier is asked; a token the
      verifier rejects, whatever the reason, is refused the same way; an
      accepted token lets the request through with the token's email. */
  function FirebaseGate(authorization: Header, verifyIdToken: string -> Verdict<IdpFailure>): (r: GateResult)
    ensures r.Reject? ==> r.response == Unauthorized
    ensures ExtractToken(authorization) == None ==> r == Reject(Unauthorized)
    ensures r.Continue? <==>
              ExtractToken(authorization).Some? && verifyIdToken(ExtractToken(authorization).value).Valid?
    ensures r.Continue? ==> r.tokenEmail == verifyIdToken(ExtractToken(authorization).value).email
  {
    match ExtractToken(authorization)
    case None => Reject(Unauthorized)
    case Some(token) =>
      match verifyIdToken(token)
      case Invalid(_) => Reject(Unauthorized)
      case Valid(email) => Continue(email)
  }

  /** `verifyJWTToken`: the same header and token rule, with `jwt.verify` as
      the verifier; any error it reports is a 401 like any other. */
  function JwtGate(authorization: Header, verifyJwt: string -> Verdict<JwtFailure>): (r: GateResult)
    ensures r.Reject? ==> r.response == Unauthorized
    ensures ExtractToken(authorization) == None ==> r == Reject(Unauthorized)
    ensures r.Continue? <==>
              ExtractToken(authorization).Some? && verifyJwt(ExtractToken(authorization).value).Valid?
    ensures r.Continue? ==> r.tokenEmail == verifyJwt(ExtractToken(authorization).value).email
  {
    match ExtractToken(authorization)
    case None => Reject(Unauthorized)
    case Some(token) =>
      match verifyJwt(token)
      case Invalid(_) => Reject(Unauthorized)
      case Valid(email) => Continue(email)
  }

  /** The token is exactly the non-empty text between the first space of the
      header and the next space or the end of the header. */
  lemma ExtractTokenIsSecondField(authorization: Header, t: string)
    ensures ExtractToken(authorization) == Some(t) <==>
              authorization.Str? && t != [] && IsSecondField(authorization.s, t)
  {
    if authorization.Str? {
      SecondFieldIsBetweenSpaces(authorization.s, t);
    }
  }

  /** The scheme word in front of the token is never looked at: any
      space-free first word followed by a space-free non-empty token yields
      that token. */
  lemma AnySchemeWordIsAccepted(scheme: string, t: string)
    requires ' ' !in scheme && ' ' !in t && t != []
    ensures ExtractToken(Str(scheme + " " + t)) == Some(t)
  {
    assert SplitsAround(scheme + " " + t, scheme, t, []);
    ExtractTokenIsSecondField(Str(scheme + " " + t), t);
  }

  /** A header with no space, or whose second field is empty because the
      first space is followed by another space or ends the header, carries
      no token. */
  lemma NoTokenWithoutSecondField(authorization: Header)
    requires authorization.Str?
    requires ' ' !in authorization.s || IsSecondField(authorization.s, [])
    ensures ExtractToken(authorization) == None
  {
    var s := authorization.s;
    if ExtractToken(authorization).Some? {
      var t := ExtractToken(authorization).value;
      ExtractTokenIsSecondField(authorization, t);
      SecondFieldIsBetweenSpaces(s, t);
      SecondFieldIsBetweenSpaces(s, []);
    }
  }

  /** An absent or empty header carries no token. */
  lemma NoTokenInEmptyHeader()
    ensures ExtractToken(Undefined) == None
    ensures ExtractToken(Str("")) == None
  {
  }

  /** A bare scheme word carries no token. */
  lemma NoTokenInBareScheme()
    ensures ExtractToken(Str("Bearer")) == None
  {
    NoTokenWithoutSecondField(Str("Bearer"));
  }

  /** A scheme word and a trailing space carry no token. */
  lemma NoTokenAfterTrailingSpace()
    ensures ExtractToken(Str("Bearer ")) == None
  {
    assert SplitsAround("Bearer ", "Bearer", [], []);
    NoTokenWithoutSecondField(Str("Bearer "));
  }

  /** A doubled space leaves the second field empty, so there is no token. */
  lemma NoTokenAfterDoubledSpace()
    ensures ExtractToken(Str("Bearer  abc")) == None
  {
    assert SplitsAround("Bearer  abc", "Bearer", [], " abc");
    NoTokenWithoutSecondField(Str("Bearer  abc"));
  }

  /** Fields after the token are ignored: whatever follows the space after
      the token, the token is the same. */
  lemma TokenBeforeExtraFields(scheme: string, t: string, rest: string)
    requires ' ' !in scheme && ' ' !in t && t != []
    ensures ExtractToken(Str(scheme + " " + t + " " + rest)) == Some(t)
  {
    var s := scheme + " " + t + " " + rest;
    assert s == scheme + " " + t + (" " + rest);
    assert SplitsAround(s, scheme, t, " " + rest);
    ExtractTokenIsSecondField(Str(s), t);
  }

  /** Without a token neither gate consults its verifier: the answer is the
      same 401 whatever the verifier would have said. */
  lemma NoTokenIgnoresVerifier(authorization: Header,
                               idp1: string -> Verdict<IdpFailure>, idp2: string -> Verdict<IdpFailure>,
                               jwt1: string -> Verdict<JwtFailure>, jwt2: string -> Verdict<JwtFailure>)
    requires ExtractToken(authorization) == None
    ensures FirebaseGate(authorization, idp1) == FirebaseGate(authorization, idp2) == Reject(Unauthorized)
    ensures JwtGate(authorization, jwt1) == JwtGate(authorization, jwt2) == Reject(Unauthorized)
  {
  }

  /** A gate asks its verifier about the extracted token and nothing else:
      two verifiers that agree on that token give the same outcome. */
  lemma GatesConsultOnlyTheToken(authorization: Header,
                                 idp1: string -> Verdict<IdpFailure>, idp2: string -> Verdict<IdpFailure>,
                                 jwt1: string -> Verdict<JwtFailure>, jwt2: string -> Verdict<JwtFailure>)
    requires ExtractToken(authorization).Some? ==>
               var t := ExtractToken(authorization).value; idp1(t) == idp2(t) && jwt1(t) == jwt2(t)
    ensures FirebaseGate(authorization, idp1) == FirebaseGate(authorization, idp2)
    ensures JwtGate(authorization, jwt1) == JwtGate(authorization, jwt2)
  {
  }

  /** The kind of verifier failure never reaches the client: a token rejected
      for any reason gets the same answer as one rejected for any other. */
  lemma FailureKindsIndistinguishable(authorization: Header,
                                      idp1: string -> Verdict<IdpFailure>, idp2: string -> Verdict<IdpFailure>,
                                      jwt: string -> Verdict<JwtFailure>)
    requires ExtractToken(authorization).Some?
    requires idp1(ExtractToken(authorization).value).Invalid?
    requires idp2(ExtractToken(authorization).value).Invalid?
    requires jwt(ExtractToken(authorization).value).Invalid?
    ensures FirebaseGate(authorization, idp1) == FirebaseGate(authorization, idp2) == Reject(Unauthorized)
    ensures JwtGate(authorization, jwt) == Reject(Unauthorized)
  {
  }

  /** The two gates make the same decision: given verifiers that accept the
      same tokens with the same emails, they reject and continue alike and
      attach the same identity. */
  lemma GatesAgree(authorization: Header, idp: string -> Verdict<IdpFailure>, jwt: string -> Verdict<JwtFailure>)
    requires forall t :: idp(t).Valid? == jwt(t).Valid?
    requires forall t :: idp(t).Valid? ==> idp(t).email == jwt(t).email
    ensures FirebaseGate(authorization, idp) == JwtGate(authorization, jwt)
  {
  }
}
