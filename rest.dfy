/** The REST surface of backend/src/rest/routes.js: `ItemSchema` validation
    and the GET/POST/PUT/DELETE `/items` handlers over the shared table, the
    `items:list` cache key and the two brokers. Each handler validates, then
    queries, then invalidates, and returns early on the first failure. */
module Rest {
  import opened Js
  import opened Store

  const CacheKey: string := "items:list"
  const MaxNameLength: nat := 100

  /** Why `ItemSchema.safeParse` rejected a body's `name`. */
  datatype NameProblem = Required | NotAString | TooShort | TooLong

  datatype Problem = InvalidId | InvalidName(name: NameProblem)

  /** `ItemSchema = z.object({ name: z.string().min(1).max(100) })`:
      the accepted name is exactly the given one; anything that is not a
      string of 1 to 100 characters is rejected, never shortened. */
  function ValidateName(name: Arg): (r: Result<string, NameProblem>)
    ensures r.Ok? <==> name.Str? && 1 <= |name.s| <= MaxNameLength
    ensures r.Ok? ==> r.value == name.s
    ensures r == Err(TooLong) <==> name.Str? && |name.s| > MaxNameLength
    ensures r == Err(TooShort) <==> name == Str("")
  {
    match name
    case Undefined => Err(Required)
    case Null => Err(NotAString)
    case Str(s) =>
      if |s| < 1 then Err(TooShort)
      else if |s| > MaxNameLength then Err(TooLong)
      else Ok(s)
  }

  /** Where a listing came from: the `source` field of the GET reply. */
  datatype Source = FromRedis | FromPostgres

  /** What a handler answers. */
  datatype Response =
    | Listing(source: Source, items: seq<Item>)
    | Created(item: Item)
    | Updated(item: Item)
    | NoContent
    | BadRequest(problem: Problem)
    | NotFound
  {
    function Status(): int {
      match this
      case Listing(_, _) => 200
      case Created(_) => 201
      case Updated(_) => 200
      case NoContent => 204
      case BadRequest(_) => 400
      case NotFound => 404
    }
  }

  /** The change event published after a create. */
  datatype Event = ItemCreated(item: Item)

  class RestApi {
    const db: Database
    const redis: Redis
    /** What the work-queue broker and the log broker have accepted. */
    var rabbitQueue: seq<Event>
    var kafkaTopic: seq<Event>

    ghost predicate Valid()
      reads this, db
    {
      db.Valid()
    }

    /** The `items:list` slot, when present, holds the current listing. */
    ghost predicate SlotFresh()
      reads this, db, redis
    {
      CacheKey in redis.entries ==> IsNewestFirst(db.rows, ListLimit, redis.entries[CacheKey].items)
    }

    constructor (db: Database, redis: Redis)
      requires db.Valid()
      ensures Valid() && this.db == db && this.redis == redis
      ensures rabbitQueue == [] && kafkaTopic == []
    {
      this.db := db;
      this.redis := redis;
      rabbitQueue := [];
      kafkaTopic := [];
    }

    /** GET /items: read-through on `items:list`. A hit answers the cached
        snapshot untouched and changes nothing; a miss answers the newest 50
        rows, newest first, and caches exactly that list for 10 seconds. */
    method GetItems() returns (resp: Response)
      requires Valid()
      modifies redis
      ensures resp.Listing? && resp.Status() == 200
      ensures CacheKey in old(redis.entries) ==>
                resp == Listing(FromRedis, old(redis.entries)[CacheKey].items)
                && redis.entries == old(redis.entries)
      ensures CacheKey !in old(redis.entries) ==>
                resp.source == FromPostgres
                && IsNewestFirst(db.rows, ListLimit, resp.items)
                && redis.entries == old(redis.entries)[CacheKey := CacheEntry(resp.items, ListTtlSeconds)]
      ensures old(SlotFresh()) ==> SlotFresh()
    {
      var cached := redis.Get(CacheKey);
      if cached.Some? {
        return Listing(FromRedis, cached.value);
      }
      var rows := db.SelectNewest(ListLimit);
      redis.SetEx(CacheKey, ListTtlSeconds, rows);
      return Listing(FromPostgres, rows);
    }

    /** POST /items. An invalid name answers 400 and changes nothing. A valid
        one inserts exactly one row with a fresh id above every existing id,
        deletes `items:list` (and no other key), publishes ITEM_CREATED to
        the brokers that accept it, and answers 201 with the row whatever
        the brokers did. */
    method PostItem(name: Arg, now: Timestamp, rabbitUp: bool, kafkaUp: bool) returns (resp: Response)
      requires Valid()
      modifies db, redis, this
      ensures Valid()
      ensures ValidateName(name).Err? ==>
                resp == BadRequest(InvalidName(ValidateName(name).error))
                && db.rows == old(db.rows) && db.lastId == old(db.lastId)
                && redis.entries == old(redis.entries)
                && rabbitQueue == old(rabbitQueue) && kafkaTopic == old(kafkaTopic)
      ensures ValidateName(name).Ok? ==>
                && resp == Created(Item(old(db.lastId) + 1, name.s, now))
                && db.lastId == resp.item.id
                && (forall id :: id in old(db.rows) ==> id < resp.item.id)
                && db.rows == old(db.rows)[resp.item.id := resp.item]
                && redis.entries == old(redis.entries) - {CacheKey}
                && rabbitQueue == old(rabbitQueue) + (if rabbitUp then [ItemCreated(resp.item)] else [])
                && kafkaTopic == old(kafkaTopic) + (if kafkaUp then [ItemCreated(resp.item)] else [])
      ensures old(SlotFresh()) ==> SlotFresh()
    {
      var parsed := ValidateName(name);
      if parsed.Err? {
        return BadRequest(InvalidName(parsed.error));
      }
      var row := db.Insert(parsed.value, now);
      redis.Del(CacheKey);
      // publish failures are caught and dropped
      if rabbitUp { rabbitQueue := rabbitQueue + [ItemCreated(row)]; }
      if kafkaUp { kafkaTopic := kafkaTopic + [ItemCreated(row)]; }
      return Created(row);
    }

    /** PUT /items/:id, with `id` the result of `Number(req.params.id)`
        (None when it is not finite). A bad id or name answers 400 before
        the table is touched; a missing row answers 404 and leaves the cache
        alone; otherwise only the row's name changes, `items:list` is
        deleted and the updated row is answered. */
    method PutItem(id: Option<int>, name: Arg) returns (resp: Response)
      requires Valid()
      modifies db, redis
      ensures Valid() && db.lastId == old(db.lastId)
      ensures id.None? ==> resp == BadRequest(InvalidId)
      ensures id.Some? && ValidateName(name).Err? ==> resp == BadRequest(InvalidName(ValidateName(name).error))
      ensures resp.BadRequest? || resp == NotFound ==>
                db.rows == old(db.rows) && redis.entries == old(redis.entries)
      ensures id.Some? && ValidateName(name).Ok? ==>
                if id.value in old(db.rows) then
                  && resp == Updated(old(db.rows)[id.value].(name := name.s))
                  && resp.item.id == id.value && resp.item.createdAt == old(db.rows)[id.value].createdAt
                  && db.rows == old(db.rows)[id.value := resp.item]
                  && redis.entries == old(redis.entries) - {CacheKey}
                else resp == NotFound
      ensures old(SlotFresh()) ==> SlotFresh()
    {
      if id.None? {
        return BadRequest(InvalidId);
      }
      var parsed := ValidateName(name);
      if parsed.Err? {
        return BadRequest(InvalidName(parsed.error));
      }
      var updated := db.UpdateName(id.value, parsed.value);
      if updated.None? {
        return NotFound;
      }
      redis.Del(CacheKey);
      return Updated(updated.value);
    }

    /** DELETE /items/:id. A bad id answers 400; a missing row answers 404
        and leaves the cache alone; otherwise exactly that row is removed,
        `items:list` is deleted and 204 is answered. */
    method DeleteItem(id: Option<int>) returns (resp: Response)
      requires Valid()
      modifies db, redis
      ensures Valid() && db.lastId == old(db.lastId)
      ensures id.None? ==> resp == BadRequest(InvalidId)
      ensures resp.BadRequest? || resp == NotFound ==>
                db.rows == old(db.rows) && redis.entries == old(redis.entries)
      ensures id.Some? ==>
                if id.value in old(db.rows) then
                  resp == NoContent && db.rows == old(db.rows) - {id.value}
                  && redis.entries == old(redis.entries) - {CacheKey}
                else resp == NotFound
      ensures old(SlotFresh()) ==> SlotFresh()
    {
      if id.None? {
        return BadRequest(InvalidId);
      }
      var removed := db.DeleteById(id.value);
      if !removed {
        return NotFound;
      }
      redis.Del(CacheKey);
      return NoContent;
    }
  }

  /** Deleting the same id twice: the second DELETE is always a 404. */
  method DeleteTwice(api: RestApi, id: int) returns (first: Response, second: Response)
    requires api.Valid()
    modifies api.db, api.redis
    ensures first == (if id in old(api.db.rows) then NoContent else NotFound)
    ensures second == NotFound
  {
    first := api.DeleteItem(Some(id));
    second := api.DeleteItem(Some(id));
  }
}
