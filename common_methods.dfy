/** The email-claim check and the bearer-token authorizer.
    The token codec (PyJWT, HS256 under the process-wide secret) and Django's
    email-syntax validator are foreign code; both are taken as parameters and
    left uninterpreted. */
module CommonMethods {
  import opened Wrappers
  import opened Models

  /** The payload of a decoded token. */
  type Claims = map<string, string>

  /** The token codec under the configured secret key: `decode` is None for
      every token that fails verification (bad signature, bad structure,
      wrong algorithm). */
  datatype Jwt = Jwt(encode: Claims -> string, decode: string -> Option<Claims>)

  /** The single, cause-free authorization failure. */
  datatype AuthorizeError = AuthorizeError

  const EmptyReason: string := "email cannot be empty"
  const IncorrectReason: string := "email is incorrect"

  /** Number of leading characters dropped from the header ("Bearer "). */
  const SchemeLength: nat := 7

  /** The property PyJWT promises for tokens it signed itself; used only as a hypothesis. */
  predicate RoundTrips(jwt: Jwt, claims: Claims) {
    jwt.decode(jwt.encode(claims)) == Some(claims)
  }

  /** The token issued to a user: the codec's encoding of the one-claim payload {'email': email}. */
  function CreateJwt(jwt: Jwt, email: string): (token: string)
    ensures RoundTrips(jwt, map["email" := email]) ==> jwt.decode(token) == Some(map["email" := email])
  {
    jwt.encode(map["email" := email])
  }

  /** Returns (is_error, reason). */
  function ValidEmail(email: Option<string>, syntaxOk: string -> bool): (r: (bool, Option<string>))
    ensures r.0 <==> r.1.Some?
    ensures r.1.Some? ==> r.1.value == EmptyReason || r.1.value == IncorrectReason
    ensures !r.0 <==> email.Some? && email.value != "" && syntaxOk(email.value)
    ensures email.None? || email == Some("") ==> r == (true, Some(EmptyReason))
    ensures email.Some? && email.value != "" && !syntaxOk(email.value) ==> r == (true, Some(IncorrectReason))
  {
    if email.None? || email.value == "" then (true, Some(EmptyReason))
    else if syntaxOk(email.value) then (false, None)
    else (true, Some(IncorrectReason))
  }

  /** The header with its first seven characters dropped by position (a Python slice `[7:]`). */
  function TokenBody(header: string): (body: string)
    ensures |header| >= SchemeLength ==> header == header[..SchemeLength] + body
    ensures |header| < SchemeLength ==> body == ""
  {
    if |header| >= SchemeLength then header[SchemeLength..] else ""
  }

  /** Whatever the seven scheme characters are, the token behind them is what gets decoded. */
  lemma TokenBodyAfterAnyScheme(scheme: string, token: string)
    requires |scheme| == SchemeLength
    ensures TokenBody(scheme + token) == token
  {
  }

  /** Index of the first user, in storage order, whose email equals `email`. */
  function FirstWithEmail(users: seq<User>, email: string): (r: Option<nat>)
    ensures r.Some? ==> r.value < |users| && users[r.value].email == email
    ensures r.Some? ==> forall j :: 0 <= j < r.value ==> users[j].email != email
    ensures r.None? <==> forall j :: 0 <= j < |users| ==> users[j].email != email
  {
    if |users| == 0 then None
    else if users[0].email == email then Some(0)
    else match FirstWithEmail(users[1..], email)
      case None => None
      case Some(i) => Some(i + 1)
  }

  /** The email claim a header carries, if the header is present, decodes, and has one. */
  function ClaimedEmail(header: Option<string>, jwt: Jwt): Option<string> {
    if header.None? then None
    else match jwt.decode(TokenBody(header.value))
      case None => None
      case Some(claims) => Get(claims, "email")
  }

  /** Resolves a raw `Authorization` header to a stored user. */
  function Authorization(header: Option<string>, jwt: Jwt, syntaxOk: string -> bool, users: seq<User>)
    : (r: Result<User, AuthorizeError>)
    // a missing header is rejected before anything is decoded or looked up
    ensures header.None? ==> r == Err(AuthorizeError)
    // a token that fails to decode is rejected
    ensures header.Some? && jwt.decode(TokenBody(header.value)).None? ==> r == Err(AuthorizeError)
    // a claim that is missing, empty or malformed is rejected
    ensures header.Some? && jwt.decode(TokenBody(header.value)).Some? ==>
              var claims := jwt.decode(TokenBody(header.value)).value;
              ("email" !in claims || ValidEmail(Some(claims["email"]), syntaxOk).0) ==> r == Err(AuthorizeError)
    // success exactly when the claim passes the email check and some stored user has it
    ensures r.Ok? <==>
              ClaimedEmail(header, jwt).Some? &&
              !ValidEmail(ClaimedEmail(header, jwt), syntaxOk).0 &&
              exists i :: 0 <= i < |users| && users[i].email == ClaimedEmail(header, jwt).value
    // the user returned carries the claimed email and is the first one that does
    ensures r.Ok? ==> ClaimedEmail(header, jwt) == Some(r.value.email)
    ensures r.Ok? ==> exists i :: 0 <= i < |users| && users[i] == r.value &&
                        forall j :: 0 <= j < i ==> users[j].email != r.value.email
  {
    if header.None? then Err(AuthorizeError)
    else match jwt.decode(TokenBody(header.value))
      case None => Err(AuthorizeError)
      case Some(loadData) =>
        var email := Get(loadData, "email");
        if ValidEmail(email, syntaxOk).0 then Err(AuthorizeError)
        else match FirstWithEmail(users, email.value)
          case None => Err(AuthorizeError)
          case Some(i) => Ok(users[i])
  }
}
