# Bearer-token authorization for a small Django REST backend, in Dafny

This project models the authorization core of a REST backend with two
resources, Users and Messages. A user is created with just an email. At
creation the server issues a JWT that carries `{'email': email}`. Every
message request then authenticates by sending `Authorization: Bearer <token>`.
The model covers:

- `valid_email`, the email-claim check, and its two-reason taxonomy.
- `authorization`, the linear decision procedure. It rejects a missing
  header. It drops the first seven characters by position, decodes the rest
  and re-checks the `email` claim. It then returns the first stored user
  with that email. Every failure is the single `AuthorizeError`.
- `JWTAuthentication.authenticate`. It turns every authorizer failure into
  the one message `invalid jwt.`.
- Owner scoping of messages (`get_queryset`). It is followed by the search
  filter over title and body, and then by limit/offset pagination. A foreign
  message is absent, not forbidden.
- The user registry. `UserSerializer.create` stamps the token
  `create_jwt(email)` and ignores any token the client sends. Listing is
  paginated (default 5, offset 0, at most 50, silent fallback on bad
  values). Retrieve-by-id answers not-found for unknown ids. The user view
  set exposes only create, list and retrieve.

Modules follow the source files:
- `CommonMethods` is `drf/common_methods.py`.
- `Messages` is `drf/messages.py`.
- `Serializers` is `drf/serializers.py`.
- `Users` is `drf/users.py`.
- `Models` holds the two records. `Wrappers` holds `Option` and `Result`.

Three collaborators are foreign code, so they are parameters and stay
uninterpreted:
- `Jwt(encode, decode)` is PyJWT HS256 under the configured secret. `decode`
  gives `None` for every token that fails verification.
- `syntaxOk` is Django's `validate_email`.
- The users table is a `seq<User>`, and the messages table is a
  `seq<Message>`, both in storage order.

The round trip `decode(encode(c)) == Some(c)` is a PyJWT guarantee. The model
never proves it; it is the predicate `RoundTrips`, used only as a hypothesis:
the antecedent of `CommonMethods.CreateJwt`'s postcondition and a
precondition of the end-to-end lemma `Serializers.IssuedTokenAuthorizes`.

Object creation is the one place where the source changes state in place.
`Serializers.UserStore` is a class whose `Create` appends a row to its
`users` field. Its `Valid()` invariant says that ids increase with position.
It also says that each stored token is the one issued for the stored email.

Two facts about the source shape the model:

- `authorization` returns `objects[0]` of the email filter, so the model
  returns the first match in storage order; emails are not required to be
  unique.
- `MessageViewSet` sets no `search_param`, so the search filter's default
  `search` parameter applies; the model takes the terms as already split.

## Model

| member | source | states |
|---|---|---|
| CommonMethods.ValidEmail | drf/common_methods.py:19-26 | None and "" give (True, 'email cannot be empty'). A non-empty email gives (False, None) exactly when the syntax check passes, and (True, 'email is incorrect') otherwise. The flag is set iff a reason is present, and only the two fixed reasons occur. |
| CommonMethods.TokenBody | drf/common_methods.py:33-36 | The decoded string is the header minus a 7-character prefix. A header shorter than 7 characters gives "". |
| CommonMethods.TokenBodyAfterAnyScheme | drf/common_methods.py:35 | For any 7 characters in front of a token, whatever they are, the decoded string is exactly the token. |
| CommonMethods.FirstWithEmail | drf/common_methods.py:43-46 | It returns the index of a user with the email and no earlier user has that email. It returns None iff no stored user has the email. |
| CommonMethods.Authorization | drf/common_methods.py:29-46 | A missing header, a decode failure, or a missing, empty or malformed email claim each give AuthorizeError. Success holds iff the claim passes the email check and some stored user has it. The user returned carries the claimed email and is the first such user in storage order. |
| CommonMethods.CreateJwt | drf/common_methods.py:14-16 | Under the codec's round trip, the issued token decodes to exactly the one-claim payload {email}. |
| Wrappers.Get | drf/common_methods.py:40 | `dict.get`: Some(value) iff the key is present, and None otherwise. It reads the `email` claim, and the `limit` and `offset` query parameters. |
| Messages.Authenticate | drf/messages.py:15-21 | If the authorizer returns user u, the result is (u, None), with the header passed through unchanged. Every authorizer failure becomes AuthenticationFailed('invalid jwt.'). |
| Messages.RejectionsAreIndistinguishable | drf/messages.py:20-21 | Any two rejected requests get the identical error, whatever caused each. |
| Messages.Where | drf/messages.py:31 | A queryset filter keeps each row that meets the condition as often as it occurs and drops every other row. A row is in the result iff it is in the input and meets the condition. |
| Messages.WhereAppend | drf/messages.py:31 | Filtering keeps input order: the filter of a concatenation is the concatenation of the filtered parts. |
| Messages.WhereKeepsAll | drf/messages.py:37-38 | Filtering by a condition that every row meets returns the input unchanged. |
| Messages.GetQueryset | drf/messages.py:29-31 | A message is in the scoped set iff it is stored and owned by the requester. Multiplicities are kept, so none of the requester's own messages is dropped. |
| Messages.Search | drf/messages.py:37-38 | It keeps exactly the rows in which every term occurs, case-insensitively, in one of the search fields (title, body), each as often as it occurs. It never adds a row. With no terms it changes nothing. |
| Messages.Lookup | drf/messages.py:24-31 | It returns a row with the given primary key, or None iff no row has that key. |
| Messages.ListMessages | drf/messages.py:29-38 | An unauthenticated request gets 'invalid jwt.' and no data. An authenticated one gets exactly the limit/offset page of the requester's searched rows: its length is min(limit, n - offset), or 0 past the end, its k-th row is the (offset + k)-th searched row, and it has at most 50 rows, each stored, owned by the requester and matching the search. |
| Messages.GetObject | drf/messages.py:24-38 | An unauthenticated request is rejected before any lookup with 'invalid jwt.'. An authenticated request gets either a row or not-found, never a rejection. A row returned is a stored message with that id, owned by the requester and matching the search. Not-found is given iff no such message exists, so a visible message is always found. |
| Messages.ForeignMessageIsAbsent | drf/messages.py:29-31 | Another user's message never appears in the requester's list. With unique ids, looking it up gives not-found. |
| Messages.ListWithLimitOne | drf/messages.py:35 | A requester who owns a message and lists with limit=1 and no search gets exactly one row. |
| Users.ParseDecimal | drf/users.py:12-13 | A number written in decimal in a query parameter, within the 4300-digit cap of `int()`, reads back as that number. |
| Users.EffectiveLimit | drf/users.py:10-14 | The effective limit is always between 1 and 50. An absent or non-numeric limit falls back to 5. A positive number n gives min(n, 50). |
| Users.EffectiveOffset | drf/users.py:11-13 | An absent or non-numeric offset falls back to 0. A number n gives n. |
| Users.LimitOfNumber | drf/users.py:10-14 | `limit=n` with n > 0 (at most 4300 digits) gives min(n, 50). |
| Users.OffsetOfNumber | drf/users.py:11-13 | `offset=n` (at most 4300 digits) gives n. |
| Users.Page | drf/users.py:9-14 | The page is the contiguous run of rows in result-set order that starts at the offset. Its length is min(limit, n - offset), or 0 past the end, and never more than 50. |
| Users.ListLimitTwo | drf/tests/test_view.py:80-96 | Three users listed with limit=2 and offset=0 give the first two. |
| Users.ListInvalidParameters | drf/tests/test_view.py:98-114 | Three users listed with a non-numeric limit and offset all come back. |
| Users.RetrieveUser | drf/users.py:17-22 | A successful retrieve returns a stored user with that id. Not-found is given iff no stored user has the id. |
| Users.RetrieveStored | drf/tests/test_view.py:116-124 | With ids assigned in increasing order, retrieving a stored user's id returns that user. |
| Users.UsersAreNeverUpdatedOrDeleted | drf/users.py:17-19 | The user view set exposes create, list and retrieve, and no update, partial update or destroy. |
| Serializers.WritableInput | drf/serializers.py:9-10 | Of a submitted body only the `email` field reaches create, with the value as submitted (field normalisation is left out). A client-supplied `json_web_token` is dropped. |
| Serializers.Representation | drf/serializers.py:9 | A serialized user has exactly the keys `email` and `json_web_token`, holding the user's email and token. |
| Serializers.UserStore.Create | drf/serializers.py:12-15 | Exactly one row is appended and the existing rows are unchanged. The new row has the submitted email and the token create_jwt(email), whatever token the data held. It gets the next id, and the store invariant is kept. |
| Serializers.IssuedTokenAuthorizes | drf/tests/test_view.py:13-17 | Suppose a user's token was issued at creation, the codec round-trips, and the email passes the syntax check. Then "Bearer " + token authorizes as a user with that email. When no earlier user shares the email, it is that very user. |

## Left out

- PyJWT internals (HS256, base64url, the JSON payload) are not modelled. `Jwt.encode`/`Jwt.decode` are uninterpreted parameters, and the round trip is only ever a hypothesis.
- Django's `validate_email` regular expression is not modelled. It is the uninterpreted `syntaxOk` parameter.
- The secret key and its `decouple` configuration are implicit in the `Jwt` value.
- The ORM is replaced by sequences in storage order. Query execution, HTTP status codes, routing, JSON body parsing and the 405 for unsupported methods are framework code and are not modelled.
- Field validation of the signup body happens before `create` and lives in the model class, which is not part of this model. That covers "may not be null", "may not be blank", "Enter a valid email address." and the column length. `UserStore.Create` takes the already validated data.
- `MessageSerializer` is not part of this model. That covers message creation and update, including any owner stamping. Message deletion is not modelled either.
- Decoded claims are modelled as a map from strings to strings. A token whose `email` claim holds a number, a list or JSON null is not modelled. Missing `email` keys are modelled.
- Django's case-insensitive lookup of the `Authorization` header is not modelled. The model receives the header value already extracted, or None.
- Users.EffectiveLimit: reads a parameter as a number only when it is a non-empty string of at most 4300 ASCII digits, so it does not model Python `int()` accepting a sign, surrounding whitespace, underscores or non-ASCII digits. The 4300-digit cap is CPython's default since the September 2022 security releases (3.11, 3.10.7, 3.9.14, 3.8.14 and 3.7.14); on interpreters without that cap a longer numeral would be read rather than fall back to 5. A zero limit falls back to 5, as the pagination library's strict positive-integer rule does.
- Users.EffectiveOffset: the same ASCII-digits restriction and 4300-digit cap apply. A negative offset falls back to 0, as it does in the library.
- Serializers.WritableInput: field normalisation is not modelled; the email field's `to_internal_value` strips surrounding whitespace (`trim_whitespace`), so " a@b.com " is stored as "a@b.com", while the model passes the value unchanged.
- Messages.Search: splitting the `search` parameter into terms, including quoted phrases, is not modelled, and the terms are given. Case folding covers ASCII letters only. Whether the database folds wider characters is a storage concern.
- Messages.ListMessages: the response envelope (count, next and previous links) is not modelled. Only the rows of the page are.
- The migration's timestamps and column lengths are storage concerns and are not modelled.
