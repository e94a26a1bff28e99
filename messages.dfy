/** The message endpoints: bearer authentication of each request, scoping of
    every message query to the requester's own rows, search over title and
    body, and limit/offset pagination. */
module Messages {
  import opened Wrappers
  import opened Models
  import opened CommonMethods
  import Users

  /** The one message every rejected credential gets. */
  const InvalidJwt: string := "invalid jwt."

  datatype AuthenticationFailed = AuthenticationFailed(detail: string)

  /** The (user, auth) pair an authentication class returns; this one never supplies an auth object. */
  datatype Authenticated = Authenticated(user: User, auth: Option<string>)

  /** `JWTAuthentication.authenticate`: the `Authorization` header goes to the
      authorizer unchanged; every authorizer failure becomes the same rejection. */
  function Authenticate(authorizationHeader: Option<string>, jwt: Jwt, syntaxOk: string -> bool, users: seq<User>)
    : (r: Result<Authenticated, AuthenticationFailed>)
    ensures Authorization(authorizationHeader, jwt, syntaxOk, users).Ok? ==>
              r == Ok(Authenticated(Authorization(authorizationHeader, jwt, syntaxOk, users).value, None))
    ensures Authorization(authorizationHeader, jwt, syntaxOk, users).Err? ==>
              r == Err(AuthenticationFailed(InvalidJwt))
  {
    match Authorization(authorizationHeader, jwt, syntaxOk, users)
    case Ok(user) => Ok(Authenticated(user, None))
    case Err(_) => Err(AuthenticationFailed(InvalidJwt))
  }

  /** Two rejected requests cannot be told apart, whatever made each of them fail. */
  lemma RejectionsAreIndistinguishable(h1: Option<string>, h2: Option<string>, jwt: Jwt, syntaxOk: string -> bool,
                                       users1: seq<User>, users2: seq<User>)
    requires Authenticate(h1, jwt, syntaxOk, users1).Err?
    requires Authenticate(h2, jwt, syntaxOk, users2).Err?
    ensures Authenticate(h1, jwt, syntaxOk, users1) == Authenticate(h2, jwt, syntaxOk, users2)
  {
  }

  /** A queryset `.filter(...)`: the rows that satisfy `keep`, each kept as often as it occurs. */
  function Where(messages: seq<Message>, keep: Message -> bool): (r: seq<Message>)
    ensures forall m :: multiset(r)[m] == if keep(m) then multiset(messages)[m] else 0
    ensures forall m :: m in r <==> m in messages && keep(m)
    ensures |r| <= |messages|
  {
    if messages == [] then []
    else
      var rest := Where(messages[1..], keep);
      assert messages == [messages[0]] + messages[1..];
      if keep(messages[0]) then [messages[0]] + rest else rest
  }

  /** Filtering by a condition every row meets changes nothing. */
  lemma {:induction false} WhereKeepsAll(messages: seq<Message>, keep: Message -> bool)
    requires forall m :: m in messages ==> keep(m)
    ensures Where(messages, keep) == messages
  {
    if messages != [] {
      assert forall m :: m in messages[1..] ==> m in messages;
      WhereKeepsAll(messages[1..], keep);
    }
  }

  /** Filtering keeps input order: filtering a concatenation is concatenating the filtered parts. */
  lemma {:induction false} WhereAppend(a: seq<Message>, b: seq<Message>, keep: Message -> bool)
    ensures Where(a + b, keep) == Where(a, keep) + Where(b, keep)
  {
    if a == [] {
      assert a + b == b;
    } else {
      assert (a + b)[0] == a[0];
      assert (a + b)[1..] == a[1..] + b;
      WhereAppend(a[1..], b, keep);
    }
  }

  /** `MessageViewSet.get_queryset`: the requester's messages, and only those. */
  function GetQueryset(messages: seq<Message>, user: User): (r: seq<Message>)
    ensures forall m :: m in r <==> m in messages && m.owner == user.id
    ensures forall m :: multiset(r)[m] == if m.owner == user.id then multiset(messages)[m] else 0
  {
    Where(messages, (m: Message) => m.owner == user.id)
  }

  /** ASCII case folding, as the database applies it in a case-insensitive match. */
  function Lower(c: char): char {
    if 'A' <= c <= 'Z' then (c as int + 32) as char else c
  }

  function Fold(s: string): (r: string)
    ensures |r| == |s| && forall i :: 0 <= i < |s| ==> r[i] == Lower(s[i])
  {
    seq(|s|, i requires 0 <= i < |s| => Lower(s[i]))
  }

  /** `needle` occurs in `hay` starting at position `i`. */
  predicate OccursAt(hay: string, needle: string, i: nat) {
    i + |needle| <= |hay| && hay[i..i + |needle|] == needle
  }

  predicate Contains(hay: string, needle: string) {
    exists i: nat :: i <= |hay| && OccursAt(hay, needle, i)
  }

  /** The `icontains` lookup. */
  predicate IContains(hay: string, needle: string) {
    Contains(Fold(hay), Fold(needle))
  }

  /** The searched fields. */
  const SearchFields: seq<string> := ["title", "body"]

  /** The value of a searched field of a message. */
  function FieldValue(m: Message, field: string): string {
    if field == "title" then m.title else if field == "body" then m.body else ""
  }

  /** Every search term occurs in one of the searched fields. */
  predicate MatchesTerms(m: Message, terms: seq<string>) {
    forall t :: t in terms ==> exists f :: f in SearchFields && IContains(FieldValue(m, f), t)
  }

  /** The search filter: the rows matching every term; no terms, no filtering. */
  function Search(messages: seq<Message>, terms: seq<string>): (r: seq<Message>)
    ensures terms == [] ==> r == messages
    ensures forall m :: m in r <==> m in messages && MatchesTerms(m, terms)
    ensures forall m :: multiset(r)[m] == if MatchesTerms(m, terms) then multiset(messages)[m] else 0
  {
    var keep := (m: Message) => MatchesTerms(m, terms);
    if terms == [] then WhereKeepsAll(messages, keep); Where(messages, keep)
    else Where(messages, keep)
  }

  /** The first row with primary key `id`, if any. */
  function Lookup(messages: seq<Message>, id: nat): (r: Option<Message>)
    ensures r.Some? ==> r.value in messages && r.value.id == id
    ensures r.None? <==> forall m :: m in messages ==> m.id != id
  {
    if messages == [] then None
    else if messages[0].id == id then Some(messages[0])
    else
      assert forall m :: m in messages ==> m == messages[0] || m in messages[1..];
      Lookup(messages[1..], id)
  }

  datatype ApiError = Unauthenticated(failure: AuthenticationFailed) | NotFound

  /** GET on the message list: authenticate, scope to the requester, search, paginate. */
  function ListMessages(authorizationHeader: Option<string>, jwt: Jwt, syntaxOk: string -> bool, users: seq<User>,
                        messages: seq<Message>, terms: seq<string>,
                        query: map<string, string>)
    : (r: Result<seq<Message>, AuthenticationFailed>)
    ensures Authorization(authorizationHeader, jwt, syntaxOk, users).Err? ==>
              r == Err(AuthenticationFailed(InvalidJwt))
    ensures Authorization(authorizationHeader, jwt, syntaxOk, users).Ok? ==>
              var user := Authorization(authorizationHeader, jwt, syntaxOk, users).value;
              r.Ok? && |r.value| <= Users.MaxLimit &&
              forall m :: m in r.value ==> m in messages && m.owner == user.id && MatchesTerms(m, terms)
    // the rows are the requested page of the requester's searched rows
    ensures Authorization(authorizationHeader, jwt, syntaxOk, users).Ok? ==>
              var user := Authorization(authorizationHeader, jwt, syntaxOk, users).value;
              var s := Search(GetQueryset(messages, user), terms);
              var limit := Users.EffectiveLimit(Get(query, Users.LimitQueryParam));
              var offset := Users.EffectiveOffset(Get(query, Users.OffsetQueryParam));
              r == Ok(Users.Page(s, query)) &&
              |r.value| == (if offset >= |s| then 0 else Users.Min(limit, |s| - offset)) &&
              forall k :: 0 <= k < |r.value| ==> r.value[k] == s[offset + k]
  {
    match Authenticate(authorizationHeader, jwt, syntaxOk, users)
    case Err(failure) => Err(failure)
    case Ok(auth) => Ok(Users.Page(Search(GetQueryset(messages, auth.user), terms), query))
  }

  /** The object lookup behind GET, PUT and DELETE on one message: the row with that
      id among the requester's searched rows, or not-found. */
  function GetObject(authorizationHeader: Option<string>, jwt: Jwt, syntaxOk: string -> bool, users: seq<User>,
                     messages: seq<Message>, terms: seq<string>, id: nat)
    : (r: Result<Message, ApiError>)
    ensures Authorization(authorizationHeader, jwt, syntaxOk, users).Err? ==>
              r == Err(Unauthenticated(AuthenticationFailed(InvalidJwt)))
    ensures Authorization(authorizationHeader, jwt, syntaxOk, users).Ok? ==>
              var user := Authorization(authorizationHeader, jwt, syntaxOk, users).value;
              (r.Ok? ==> r.value in messages && r.value.id == id && r.value.owner == user.id &&
                         MatchesTerms(r.value, terms)) &&
              (r == Err(NotFound) <==>
                 forall m :: m in messages && m.id == id && m.owner == user.id ==> !MatchesTerms(m, terms))
    // an authenticated request is never rejected as unauthenticated: it gets the row or not-found
    ensures Authorization(authorizationHeader, jwt, syntaxOk, users).Ok? ==> r.Ok? || r == Err(NotFound)
    ensures r.Err? ==> r == Err(NotFound) || r == Err(Unauthenticated(AuthenticationFailed(InvalidJwt)))
  {
    match Authenticate(authorizationHeader, jwt, syntaxOk, users)
    case Err(failure) => Err(Unauthenticated(failure))
    case Ok(auth) =>
      match Lookup(Search(GetQueryset(messages, auth.user), terms), id)
      case None => Err(NotFound)
      case Some(m) => Ok(m)
  }

  /** No two messages share an id. */
  predicate UniqueIds(messages: seq<Message>) {
    forall i, j :: 0 <= i < j < |messages| ==> messages[i].id != messages[j].id
  }

  /** Another user's message is invisible: it is never listed, and looking it up
      by its id gives not-found rather than a distinct forbidden answer. */
  lemma ForeignMessageIsAbsent(authorizationHeader: Option<string>, jwt: Jwt, syntaxOk: string -> bool,
                                 users: seq<User>, messages: seq<Message>, terms: seq<string>,
                                 query: map<string, string>, k: nat)
    requires Authorization(authorizationHeader, jwt, syntaxOk, users).Ok?
    requires k < |messages| && UniqueIds(messages)
    requires messages[k].owner != Authorization(authorizationHeader, jwt, syntaxOk, users).value.id
    ensures messages[k] !in ListMessages(authorizationHeader, jwt, syntaxOk, users, messages, terms,
                                         query).value
    ensures GetObject(authorizationHeader, jwt, syntaxOk, users, messages, terms, messages[k].id) == Err(NotFound)
  {
    var user := Authorization(authorizationHeader, jwt, syntaxOk, users).value;
    assert messages[k] !in GetQueryset(messages, user);
    assert forall m :: m in messages && m.id == messages[k].id ==> m == messages[k];
  }

  /** A requester who owns a message and lists with `limit=1` and no search gets exactly one row. */
  lemma ListWithLimitOne(authorizationHeader: Option<string>, jwt: Jwt, syntaxOk: string -> bool,
                         users: seq<User>, messages: seq<Message>, m: Message)
    requires Authorization(authorizationHeader, jwt, syntaxOk, users).Ok?
    requires m in messages && m.owner == Authorization(authorizationHeader, jwt, syntaxOk, users).value.id
    ensures |ListMessages(authorizationHeader, jwt, syntaxOk, users, messages, [], map["limit" := "1"]).value| == 1
  {
  }
}
