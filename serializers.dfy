/** The user serializer: which fields a client may write, what a user looks
    like on the wire, and creation, which stamps a server-issued token. */
module Serializers {
  import opened Wrappers
  import opened Models
  import opened CommonMethods

  /** The serialized fields, and the one the client cannot write. */
  const Fields: seq<string> := ["email", "json_web_token"]
  const ReadOnlyFields: set<string> := {"json_web_token"}

  /** The part of a submitted body that reaches `create`: only fields that are
      declared and not read-only; a client-supplied token is dropped. */
  function WritableInput(input: map<string, string>): (data: map<string, string>)
    ensures "json_web_token" !in data
    ensures forall f :: f in data <==> f in input && f == "email"
    ensures forall f :: f in data ==> data[f] == input[f]
  {
    map f | f in input && f in Fields && f !in ReadOnlyFields :: input[f]
  }

  /** A user as the API shows it: exactly its email and its token. */
  function Representation(u: User): (r: map<string, string>)
    ensures r.Keys == {"email", "json_web_token"}
    ensures r["email"] == u.email && r["json_web_token"] == u.token
  {
    map["email" := u.email, "json_web_token" := u.token]
  }

  /** The users table as the serializer writes to it. `jwt` is the codec under
      the process-wide secret, fixed for the life of the process. */
  class UserStore {
    const jwt: Jwt
    var users: seq<User>
    var nextId: nat

    /** Ids are assigned in increasing order, and every stored token is the one
        issued for the stored email. */
    ghost predicate Valid()
      reads this
    {
      0 < nextId &&
      IncreasingIds(users) &&
      (forall i :: 0 <= i < |users| ==> 0 < users[i].id < nextId) &&
      (forall i :: 0 <= i < |users| ==> users[i].token == CreateJwt(jwt, users[i].email))
    }

    constructor (jwt: Jwt)
      ensures Valid()
      ensures this.jwt == jwt && users == [] && nextId == 1
    {
      this.jwt := jwt;
      users := [];
      nextId := 1;
    }

    /** `UserSerializer.create`: writes the issued token into the validated data,
        then inserts one row. Any token already in the data is overwritten. */
    method Create(validatedData: map<string, string>) returns (user: User)
      requires Valid()
      requires "email" in validatedData
      modifies this
      ensures Valid()
      ensures users == old(users) + [user]
      ensures user.email == validatedData["email"]
      ensures user.token == CreateJwt(jwt, validatedData["email"])
      ensures user.id == old(nextId) && nextId == old(nextId) + 1
    {
      var data := validatedData["json_web_token" := CreateJwt(jwt, validatedData["email"])];
      user := User(nextId, data["email"], data["json_web_token"]);
      users := users + [user];
      nextId := nextId + 1;
    }
  }

  /** A user whose token was issued at creation can authenticate with it: given
      the codec's round trip and a syntactically valid email, the header
      "Bearer " + token resolves to a user with that email, and to that very
      user when no earlier user shares the email. */
  lemma IssuedTokenAuthorizes(jwt: Jwt, syntaxOk: string -> bool, users: seq<User>, i: nat, scheme: string)
    requires i < |users|
    requires users[i].token == CreateJwt(jwt, users[i].email)
    requires RoundTrips(jwt, map["email" := users[i].email])
    requires users[i].email != "" && syntaxOk(users[i].email)
    requires |scheme| == SchemeLength
    ensures Authorization(Some(scheme + users[i].token), jwt, syntaxOk, users).Ok?
    ensures Authorization(Some(scheme + users[i].token), jwt, syntaxOk, users).value.email == users[i].email
    ensures (forall j :: 0 <= j < i ==> users[j].email != users[i].email) ==>
              Authorization(Some(scheme + users[i].token), jwt, syntaxOk, users) == Ok(users[i])
  {
  }
}
