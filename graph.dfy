/** The graph surface of backend/src/graphql/server.js: the resolvers built
    by `buildResolvers` (`me`, `items`, `createItem`, `updateItem`,
    `deleteItem`) over the shared table and their own `gql:items:list` cache
    key, and the Bearer-prefix gate plus context verification of
    `initGraphQL`. Resolver exceptions become `Failed` answers. */
module Graph {
  import opened Js
  import opened Store
  import Auth

  const CacheKey: string := "gql:items:list"
  const MaxNameLength: nat := 100

  /** The errors the resolvers throw: "name required", "item not found",
      "id required", and the "invalid input syntax for type integer" error
      Postgres raises for an id that is not an integer literal. */
  datatype GraphError = NameRequired | ItemNotFound | IdRequired | BadIdSyntax

  datatype Answer<+T> = Value(value: T) | Failed(error: GraphError)

  /** `me`: the caller's `sub`, or "unknown" when it is absent or empty. */
  function Me(user: Claims): (r: string)
    ensures r != ""
    ensures user.sub.Some? && user.sub.value != "" ==> r == user.sub.value
    ensures user.sub.None? || user.sub.value == "" ==> r == "unknown"
  {
    if user.sub.Some? && user.sub.value != "" then user.sub.value else "unknown"
  }

  /** `String(args.name || "").slice(0, 100)`: overlong names are cut to
      their first 100 characters, never rejected; the result is empty only
      for an empty name. */
  function NormalizeName(name: string): (r: string)
    ensures |r| == Min(|name|, MaxNameLength) && r == name[..|r|]
    ensures |name| <= MaxNameLength ==> r == name
    ensures |name| > MaxNameLength ==> r == name[..MaxNameLength]
    ensures r == "" <==> name == ""
  {
    Take(name, MaxNameLength)
  }

  predicate IsDigit(c: char) {
    '0' <= c <= '9'
  }

  function DigitsValue(d: string): (n: nat)
    requires forall i :: 0 <= i < |d| ==> IsDigit(d[i])
  {
    if d == [] then 0
    else
      var c := d[|d| - 1];
      assert IsDigit(c);
      DigitsValue(d[..|d| - 1]) * 10 + (c as int - '0' as int)
  }

  /** An integer literal: an optional sign and one or more decimal digits. */
  function SignedDigits(t: string): (r: Option<int>)
    ensures t == [] ==> r.None?
    ensures t != [] && t[0] != '-' && t[0] != '+' && !IsDigit(t[0]) ==> r.None?
  {
    var digits := if t != [] && (t[0] == '-' || t[0] == '+') then t[1..] else t;
    if digits != [] && forall i :: 0 <= i < |digits| ==> IsDigit(digits[i]) then
      var v: int := DigitsValue(digits);
      Some(if t[0] == '-' then -v else v)
    else None
  }

  /** The white space Postgres skips around an integer literal: C
      `isspace` in the C locale, which is ASCII only. */
  predicate PgSpace(c: char) {
    c == ' ' || c == '\t' || c == '\n' || c == '\r' || c == '\U{B}' || c == '\U{C}'
  }

  /** How Postgres reads the text of an `id=$1` parameter as an integer:
      ASCII white space around an optional sign and one or more decimal
      digits; anything else is a syntax error (None). */
  function PgInteger(text: string): (r: Option<int>)
    ensures (forall i :: 0 <= i < |text| ==> PgSpace(text[i])) ==> r.None?
  {
    SignedDigits(TrimBy(text, PgSpace))
  }

  /** The decimal text GraphQL clients send for a non-negative id. */
  function DecimalText(n: nat): (d: string)
    ensures d != [] && forall i :: 0 <= i < |d| ==> IsDigit(d[i])
  {
    var last := ['0' + (n % 10) as char];
    if n < 10 then last else DecimalText(n / 10) + last
  }

  lemma {:induction false} DecimalTextValue(n: nat)
    ensures DigitsValue(DecimalText(n)) == n
  {
    var d := DecimalText(n);
    if n >= 10 {
      DecimalTextValue(n / 10);
      assert d[..|d| - 1] == DecimalText(n / 10);
    }
  }

  /** The id text of any item round-trips through Postgres' reading. */
  lemma IdTextRoundTrip(n: nat)
    ensures PgInteger(DecimalText(n)) == Some(n)
  {
    var d := DecimalText(n);
    DecimalTextValue(n);
    assert IsDigit(d[0]) && IsDigit(d[|d| - 1]);
    TrimKeepsUnpadded(d, PgSpace);
    assert SignedDigits(d) == Some(DigitsValue(d));
  }

  /** `trim()` leaves the id text of any item alone. */
  lemma IdTextTrimmed(n: nat)
    ensures Trim(DecimalText(n)) == DecimalText(n)
  {
    var d := DecimalText(n);
    assert IsDigit(d[0]) && IsDigit(d[|d| - 1]);
    TrimKeepsUnpadded(d, IsSpace);
  }

  /** An id padded with a no-break space is not an integer to Postgres, so
      `updateItem` fails on it, while `deleteItem` trims the space away
      first and reads the id. */
  lemma NoBreakSpacePaddedId(n: nat)
    ensures PgInteger(['\U{A0}'] + DecimalText(n)).None?
    ensures PgInteger(Trim(['\U{A0}'] + DecimalText(n))) == Some(n)
  {
    var d := DecimalText(n);
    PaddedIsNotPgInteger(d);
    PaddedTrims(d);
    IdTextTrimmed(n);
    IdTextRoundTrip(n);
  }

  lemma PaddedIsNotPgInteger(d: string)
    requires d != [] && IsDigit(d[|d| - 1])
    ensures PgInteger(['\U{A0}'] + d).None?
  {
    var padded := ['\U{A0}'] + d;
    assert padded[|padded| - 1] == d[|d| - 1];
    TrimKeepsUnpadded(padded, PgSpace);
    assert padded[0] != '-' && padded[0] != '+' && !IsDigit(padded[0]);
    assert SignedDigits(padded).None?;
  }

  lemma PaddedTrims(d: string)
    ensures Trim(['\U{A0}'] + d) == Trim(d)
  {
    var padded := ['\U{A0}'] + d;
    assert padded[1..] == d;
    assert TrimStart(padded, IsSpace) == TrimStart(d, IsSpace);
  }

  /** How a request to /graphql is authenticated: the gate answers 401
      "Missing token" unless the header starts with "Bearer "; otherwise the
      context verifies the header minus its first 7 characters, and a
      failure there fails the whole request. */
  datatype GraphAuth = GateRejected | ContextFailed | Authorized(user: Claims)

  function GraphRequestAuth(header: Option<string>, verify: Verifier): (r: GraphAuth)
    ensures r.GateRejected? <==> !Auth.StartsWithBearer(Auth.HeaderText(header))
    ensures r.Authorized? ==> verify(Auth.HeaderText(header)[7..]) == Some(r.user)
    ensures r.ContextFailed? ==> verify(Auth.HeaderText(header)[7..]).None?
  {
    var h := Auth.HeaderText(header);
    if !Auth.StartsWithBearer(h) then GateRejected
    else
      match verify(h[7..])
      case None => ContextFailed
      case Some(user) => Authorized(user)
  }

  class GraphApi {
    const db: Database
    const redis: Redis

    ghost predicate Valid()
      reads this, db
    {
      db.Valid()
    }

    /** The `gql:items:list` slot, when present, holds the current listing. */
    ghost predicate SlotFresh()
      reads this, db, redis
    {
      CacheKey in redis.entries ==> IsNewestFirst(db.rows, ListLimit, redis.entries[CacheKey].items)
    }

    constructor (db: Database, redis: Redis)
      requires db.Valid()
      ensures Valid() && this.db == db && this.redis == redis
    {
      this.db := db;
      this.redis := redis;
    }

    /** `items`: read-through on `gql:items:list`, as the REST GET but on
        its own key. */
    method Items() returns (items: seq<Item>)
      requires Valid()
      modifies redis
      ensures CacheKey in old(redis.entries) ==>
                items == old(redis.entries)[CacheKey].items && redis.entries == old(redis.entries)
      ensures CacheKey !in old(redis.entries) ==>
                IsNewestFirst(db.rows, ListLimit, items)
                && redis.entries == old(redis.entries)[CacheKey := CacheEntry(items, ListTtlSeconds)]
      ensures old(SlotFresh()) ==> SlotFresh()
    {
      var cached := redis.Get(CacheKey);
      if cached.Some? {
        return cached.value;
      }
      items := db.SelectNewest(ListLimit);
      redis.SetEx(CacheKey, ListTtlSeconds, items);
    }

    /** `createItem(name)`: an empty name fails "name required" and changes
        nothing; otherwise one row with the normalised name and a fresh id
        is inserted, `gql:items:list` is deleted and the row answered. */
    method CreateItem(name: string, now: Timestamp) returns (ans: Answer<Item>)
      requires Valid()
      modifies db, redis
      ensures Valid()
      ensures name == "" ==>
                ans == Failed(NameRequired) && db.rows == old(db.rows) && db.lastId == old(db.lastId)
                && redis.entries == old(redis.entries)
      ensures name != "" ==>
                && ans == Value(Item(old(db.lastId) + 1, NormalizeName(name), now))
                && db.lastId == ans.value.id
                && (forall id :: id in old(db.rows) ==> id < ans.value.id)
                && db.rows == old(db.rows)[ans.value.id := ans.value]
                && redis.entries == old(redis.entries) - {CacheKey}
      ensures old(SlotFresh()) ==> SlotFresh()
    {
      var n := NormalizeName(name);
      if n == "" {
        return Failed(NameRequired);
      }
      var row := db.Insert(n, now);
      redis.Del(CacheKey);
      return Value(row);
    }

    /** `updateItem(id, name)`: an empty name fails "name required" and an id
        Postgres cannot read fails in the query, both before any change.
        Otherwise the row's name is set (when the row exists) and
        `gql:items:list` is deleted in either case; a missing row then fails
        "item not found". */
    method UpdateItem(id: string, name: string) returns (ans: Answer<Item>)
      requires Valid()
      modifies db, redis
      ensures Valid() && db.lastId == old(db.lastId)
      ensures name == "" ==> ans == Failed(NameRequired)
      ensures name != "" && PgInteger(id).None? ==> ans == Failed(BadIdSyntax)
      ensures ans == Failed(NameRequired) || ans == Failed(BadIdSyntax) ==>
                db.rows == old(db.rows) && redis.entries == old(redis.entries)
      ensures name != "" && PgInteger(id).Some? ==>
                var n := PgInteger(id).value;
                && redis.entries == old(redis.entries) - {CacheKey}
                && if n in old(db.rows) then
                     && ans == Value(old(db.rows)[n].(name := NormalizeName(name)))
                     && ans.value.id == n && ans.value.createdAt == old(db.rows)[n].createdAt
                     && db.rows == old(db.rows)[n := ans.value]
                   else ans == Failed(ItemNotFound) && db.rows == old(db.rows)
      ensures old(SlotFresh()) ==> SlotFresh()
    {
      var n := NormalizeName(name);
      if n == "" {
        return Failed(NameRequired);
      }
      var key := PgInteger(id);
      if key.None? {
        return Failed(BadIdSyntax);
      }
      var updated := db.UpdateName(key.value, n);
      redis.Del(CacheKey);
      if updated.None? {
        return Failed(ItemNotFound);
      }
      return Value(updated.value);
    }

    /** `deleteItem(id)`: an id that is empty after trimming fails
        "id required" and an unreadable one fails in the query, both before
        any change. Otherwise the row (if any) is removed, `gql:items:list`
        is deleted in either case, and the answer is whether a row went. */
    method DeleteItem(id: string) returns (ans: Answer<bool>)
      requires Valid()
      modifies db, redis
      ensures Valid() && db.lastId == old(db.lastId)
      ensures Trim(id) == "" ==> ans == Failed(IdRequired)
      ensures Trim(id) != "" && PgInteger(Trim(id)).None? ==> ans == Failed(BadIdSyntax)
      ensures ans.Failed? ==> db.rows == old(db.rows) && redis.entries == old(redis.entries)
      ensures Trim(id) != "" && PgInteger(Trim(id)).Some? ==>
                && ans == Value(PgInteger(Trim(id)).value in old(db.rows))
                && db.rows == old(db.rows) - {PgInteger(Trim(id)).value}
                && redis.entries == old(redis.entries) - {CacheKey}
      ensures old(SlotFresh()) ==> SlotFresh()
    {
      var t := Trim(id);
      if t == "" {
        return Failed(IdRequired);
      }
      var key := PgInteger(t);
      if key.None? {
        return Failed(BadIdSyntax);
      }
      var removed := db.DeleteById(key.value);
      redis.Del(CacheKey);
      return Value(removed);
    }
  }

  /** Deleting the same id twice answers true then false when the row
      existed, and false both times otherwise; never an error. */
  method DeleteTwice(api: GraphApi, id: nat) returns (first: Answer<bool>, second: Answer<bool>)
    requires api.Valid()
    modifies api.db, api.redis
    ensures first == Value(id in old(api.db.rows))
    ensures second == Value(false)
  {
    IdTextRoundTrip(id);
    IdTextTrimmed(id);
    first := api.DeleteItem(DecimalText(id));
    second := api.DeleteItem(DecimalText(id));
  }
}
