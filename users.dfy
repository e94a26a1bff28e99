/** The user endpoints: limit/offset pagination settings, retrieve-by-id,
    and which actions the user view set exposes. */
module Users {
  import opened Wrappers
  import opened Models

  const DefaultLimit: nat := 5
  const DefaultOffset: nat := 0
  const MaxLimit: nat := 50
  const LimitQueryParam: string := "limit"
  const OffsetQueryParam: string := "offset"

  /** CPython's default cap on the digits `int()` converts from a decimal string;
      a longer string raises ValueError. */
  const MaxStrDigits: nat := 4300

  function Min(a: nat, b: nat): nat { if a <= b then a else b }

  predicate IsDigit(c: char) { '0' <= c <= '9' }

  predicate AllDigits(s: string) { forall i :: 0 <= i < |s| ==> IsDigit(s[i]) }

  /** The value of a string of decimal digits, most significant first. */
  function DigitsValue(s: string): nat
    requires AllDigits(s)
  {
    if s == [] then 0
    else 10 * DigitsValue(s[..|s| - 1]) + (s[|s| - 1] as int - '0' as int)
  }

  /** Reading a query parameter as a whole number; None stands for the ValueError
      that Python's `int` raises on anything that is not a number, and on a
      number longer than the digit cap. */
  function ParseNat(s: string): Option<nat> {
    if s != [] && |s| <= MaxStrDigits && AllDigits(s) then Some(DigitsValue(s)) else None
  }

  function DigitChar(d: nat): (c: char)
    requires d < 10
    ensures IsDigit(c) && c as int - '0' as int == d
  {
    ('0' as int + d) as char
  }

  /** How a client writes the number `n` in a query string. */
  function DecimalString(n: nat): (s: string)
    ensures s != [] && AllDigits(s)
  {
    if n < 10 then [DigitChar(n)] else DecimalString(n / 10) + [DigitChar(n % 10)]
  }

  /** A number written in decimal reads back as itself. */
  lemma {:induction false} ParseDecimal(n: nat)
    requires |DecimalString(n)| <= MaxStrDigits
    ensures ParseNat(DecimalString(n)) == Some(n)
  {
    var s := DecimalString(n);
    if n >= 10 {
      ParseDecimal(n / 10);
      assert s[..|s| - 1] == DecimalString(n / 10);
      assert s[|s| - 1] == DigitChar(n % 10);
      assert DigitsValue(s) == 10 * (n / 10) + n % 10;
    } else {
      assert s[..|s| - 1] == [];
      assert DigitsValue(s) == n;
    }
  }

  /** The page size a `limit` parameter gives: a positive number, cut off at 50;
      an absent, non-numeric or zero value silently falls back to 5. */
  function EffectiveLimit(limitParam: Option<string>): (limit: nat)
    ensures 1 <= limit <= MaxLimit
    ensures limitParam.None? || ParseNat(limitParam.value).None? ==> limit == DefaultLimit
    ensures limitParam.Some? && ParseNat(limitParam.value).Some? && ParseNat(limitParam.value).value > 0 ==>
              limit == Min(ParseNat(limitParam.value).value, MaxLimit)
  {
    if limitParam.None? then DefaultLimit
    else match ParseNat(limitParam.value)
      case None => DefaultLimit
      case Some(n) => if n == 0 then DefaultLimit else Min(n, MaxLimit)
  }

  /** The start position an `offset` parameter gives; absent or non-numeric falls back to 0. */
  function EffectiveOffset(offsetParam: Option<string>): (offset: nat)
    ensures offsetParam.None? || ParseNat(offsetParam.value).None? ==> offset == DefaultOffset
    ensures offsetParam.Some? && ParseNat(offsetParam.value).Some? ==> offset == ParseNat(offsetParam.value).value
  {
    if offsetParam.None? then DefaultOffset
    else match ParseNat(offsetParam.value)
      case None => DefaultOffset
      case Some(n) => n
  }

  /** `limit=n` for a positive n asks for min(n, 50) rows. */
  lemma LimitOfNumber(n: nat)
    requires n > 0 && |DecimalString(n)| <= MaxStrDigits
    ensures EffectiveLimit(Some(DecimalString(n))) == Min(n, MaxLimit)
  {
    ParseDecimal(n);
  }

  /** `offset=n` starts at row n. */
  lemma OffsetOfNumber(n: nat)
    requires |DecimalString(n)| <= MaxStrDigits
    ensures EffectiveOffset(Some(DecimalString(n))) == n
  {
    ParseDecimal(n);
  }

  /** One page of a result set: the contiguous run starting at the offset,
      at most `limit` long, in result-set order. */
  function Page<T>(items: seq<T>, query: map<string, string>): (r: seq<T>)
    ensures var limit := EffectiveLimit(Get(query, LimitQueryParam));
            var offset := EffectiveOffset(Get(query, OffsetQueryParam));
            |r| == (if offset >= |items| then 0 else Min(limit, |items| - offset)) &&
            forall k :: 0 <= k < |r| ==> r[k] == items[offset + k]
    ensures |r| <= MaxLimit
    ensures forall x :: x in r ==> x in items
  {
    var limit := EffectiveLimit(Get(query, LimitQueryParam));
    var offset := EffectiveOffset(Get(query, OffsetQueryParam));
    if |items| == 0 || offset > |items| then []
    else items[offset .. Min(offset + limit, |items|)]
  }

  /** Three users listed with `limit=2&offset=0` give the first two. */
  lemma ListLimitTwo(users: seq<User>)
    requires |users| == 3
    ensures Page(users, map["limit" := "2", "offset" := "0"]) == users[..2]
  {
  }

  /** Three users listed with non-numeric `limit` and `offset` all come back. */
  lemma ListInvalidParameters(users: seq<User>)
    requires |users| == 3
    ensures Page(users, map["limit" := "sfsafa", "offset" := "sdsd"]) == users
  {
  }

  datatype NotFound = NotFound

  /** Retrieve by primary key: the stored user with that id, or not-found. */
  function RetrieveUser(users: seq<User>, id: nat): (r: Result<User, NotFound>)
    ensures r.Ok? ==> r.value in users && r.value.id == id
    ensures r.Err? <==> forall u :: u in users ==> u.id != id
  {
    if |users| == 0 then Err(NotFound)
    else if users[0].id == id then Ok(users[0])
    else
      assert forall u :: u in users ==> u == users[0] || u in users[1..];
      RetrieveUser(users[1..], id)
  }

  /** With ids unique, retrieving a stored user's id gives back that user. */
  lemma RetrieveStored(users: seq<User>, i: nat)
    requires IncreasingIds(users)
    requires i < |users|
    ensures RetrieveUser(users, users[i].id) == Ok(users[i])
  {
  }

  /** The actions a model view set can route to. */
  datatype Action = Create | List | Retrieve | Update | PartialUpdate | Destroy

  /** The user view set mixes in create, list and retrieve only. */
  const UserViewSetActions: set<Action> := {Action.Create, Action.List, Action.Retrieve}

  /** Users can be created, listed and read, never updated or deleted. */
  lemma UsersAreNeverUpdatedOrDeleted(a: Action)
    ensures a in UserViewSetActions <==> a.Create? || a.List? || a.Retrieve?
    ensures a.Update? || a.PartialUpdate? || a.Destroy? ==> a !in UserViewSetActions
  {
  }
}
