/** The collaborators both CRUD surfaces share: the `items` table of
    backend/src/lib/db.js (an `id SERIAL PRIMARY KEY` column, a `name` and a
    `created_at` defaulting to now) and the Redis key/value cache. The SQL
    statements the handlers issue become methods of Database; `get`,
    `setEx` and `del` become methods of Redis, and TTL expiry is an explicit
    `Expire` event. */
module Store {
  import opened Js

  datatype Item = Item(id: int, name: string, createdAt: Timestamp)

  /** `LIMIT 50` of the list query and the TTL `setEx` is given. */
  const ListLimit: nat := 50
  const ListTtlSeconds: nat := 10

  /** The ids listed in a result. */
  ghost function Ids(r: seq<Item>): set<int> {
    set i | 0 <= i < |r| :: r[i].id
  }

  /** `r` is what `SELECT id, name, created_at FROM items ORDER BY id DESC
      LIMIT limit` returns on table `t`: rows of the table, strictly newest
      (highest id) first, no more than `limit` of them, all rows when there
      are fewer, and no unlisted row newer than a listed one. */
  ghost predicate IsNewestFirst(t: map<int, Item>, limit: nat, r: seq<Item>) {
    && |r| <= limit
    && (forall i :: 0 <= i < |r| ==> r[i].id in t && t[r[i].id] == r[i])
    && (forall i, j :: 0 <= i < j < |r| ==> r[i].id > r[j].id)
    && (|r| < limit ==> forall id :: id in t ==> id in Ids(r))
    && (forall id, i :: id in t && id !in Ids(r) && 0 <= i < |r| ==> id < r[i].id)
  }

  lemma IdsSnoc(r: seq<Item>, x: Item)
    ensures Ids(r + [x]) == Ids(r) + {x.id}
  {
    var r' := r + [x];
    assert forall i :: 0 <= i < |r| ==> r'[i] == r[i];
    assert r'[|r|] == x;
  }

  /** The listing is determined by the table: two listings of the same
      table agree element by element up to position k. */
  lemma {:induction false} NewestFirstAgreeUpTo(t: map<int, Item>, limit: nat, r1: seq<Item>, r2: seq<Item>, k: nat)
    requires IsNewestFirst(t, limit, r1) && IsNewestFirst(t, limit, r2)
    requires k <= |r1|
    ensures k <= |r2| && r1[..k] == r2[..k]
  {
    if k > 0 {
      NewestFirstAgreeUpTo(t, limit, r1, r2, k - 1);
      var a := r1[k - 1].id;
      assert r1[k - 1] == t[a] == r2[k - 1];
      assert r1[..k] == r1[..k - 1] + [r1[k - 1]];
      assert r2[..k] == r2[..k - 1] + [r2[k - 1]];
    }
  }

  /** Two cache misses on the same table return the same listing, whichever
      surface asks. */
  lemma NewestFirstUnique(t: map<int, Item>, limit: nat, r1: seq<Item>, r2: seq<Item>)
    requires IsNewestFirst(t, limit, r1) && IsNewestFirst(t, limit, r2)
    ensures r1 == r2
  {
    NewestFirstAgreeUpTo(t, limit, r1, r2, |r1|);
    NewestFirstAgreeUpTo(t, limit, r2, r1, |r2|);
    assert r1 == r1[..|r1|] && r2 == r2[..|r2|];
  }

  /** An insert with a fresh, larger id makes every earlier listing stale:
      the new row must head the new listing. */
  lemma InsertMakesListingStale(t: map<int, Item>, limit: nat, r: seq<Item>, row: Item)
    requires IsNewestFirst(t, limit, r)
    requires limit > 0
    requires forall id :: id in t ==> id < row.id
    ensures !IsNewestFirst(t[row.id := row], limit, r)
  {
    var t' := t[row.id := row];
    assert row.id !in Ids(r);
    if |r| < limit {
      assert row.id in t';
    } else {
      assert r[0].id < row.id;
    }
  }

  /** The `items` table. `lastId` is the SERIAL sequence's last value:
      ids are handed out as lastId + 1 and never reused. */
  class Database {
    var rows: map<int, Item>
    var lastId: nat

    ghost predicate Valid()
      reads this
    {
      forall id :: id in rows ==> 1 <= id <= lastId && rows[id].id == id
    }

    constructor ()
      ensures Valid() && rows == map[] && lastId == 0
    {
      rows := map[];
      lastId := 0;
    }

    /** `INSERT INTO items(name) VALUES($1) RETURNING id, name, created_at`. */
    method Insert(name: string, now: Timestamp) returns (row: Item)
      requires Valid()
      modifies this
      ensures Valid()
      ensures row == Item(old(lastId) + 1, name, now) && lastId == row.id
      ensures forall id :: id in old(rows) ==> id < row.id
      ensures rows == old(rows)[row.id := row]
    {
      lastId := lastId + 1;
      row := Item(lastId, name, now);
      rows := rows[row.id := row];
    }

    /** `UPDATE items SET name=$1 WHERE id=$2 RETURNING id, name, created_at`. */
    method UpdateName(id: int, name: string) returns (updated: Option<Item>)
      requires Valid()
      modifies this
      ensures Valid() && lastId == old(lastId)
      ensures updated.Some? <==> id in old(rows)
      ensures updated.Some? ==> updated.value == old(rows)[id].(name := name)
      ensures rows == if updated.Some? then old(rows)[id := updated.value] else old(rows)
    {
      if id in rows {
        var row := rows[id].(name := name);
        rows := rows[id := row];
        updated := Some(row);
      } else {
        updated := None;
      }
    }

    /** `DELETE FROM items WHERE id=$1`; the result is whether a row went. */
    method DeleteById(id: int) returns (removed: bool)
      requires Valid()
      modifies this
      ensures Valid() && lastId == old(lastId)
      ensures removed <==> id in old(rows)
      ensures rows == old(rows) - {id}
    {
      removed := id in rows;
      rows := rows - {id};
    }

    /** `SELECT id, name, created_at FROM items ORDER BY id DESC LIMIT limit`,
        as a scan of the id range from the newest id down. */
    method SelectNewest(limit: nat) returns (r: seq<Item>)
      requires Valid()
      ensures IsNewestFirst(rows, limit, r)
    {
      r := [];
      var id := lastId;
      while id >= 1 && |r| < limit
        invariant 0 <= id <= lastId
        invariant |r| <= limit
        invariant forall i :: 0 <= i < |r| ==> r[i].id in rows && rows[r[i].id] == r[i] && id < r[i].id
        invariant forall i, j :: 0 <= i < j < |r| ==> r[i].id > r[j].id
        invariant forall k :: k in rows && id < k ==> k in Ids(r)
        decreases id
      {
        if id in rows {
          IdsSnoc(r, rows[id]);
          r := r + [rows[id]];
        }
        id := id - 1;
      }
    }
  }

  /** One cache entry: the JSON snapshot stored under a key and its TTL. */
  datatype CacheEntry = CacheEntry(items: seq<Item>, ttlSeconds: nat)

  /** The Redis client: a key/value map. Distinct keys are independent. */
  class Redis {
    var entries: map<string, CacheEntry>

    constructor ()
      ensures entries == map[]
    {
      entries := map[];
    }

    /** `get(key)` followed by `JSON.parse`: the stored snapshot, if any. */
    method Get(key: string) returns (cached: Option<seq<Item>>)
      ensures cached.Some? <==> key in entries
      ensures cached.Some? ==> cached.value == entries[key].items
    {
      cached := if key in entries then Some(entries[key].items) else None;
    }

    /** `setEx(key, ttl, JSON.stringify(items))`. */
    method SetEx(key: string, ttl: nat, items: seq<Item>)
      modifies this
      ensures entries == old(entries)[key := CacheEntry(items, ttl)]
    {
      entries := entries[key := CacheEntry(items, ttl)];
    }

    /** `del(key)`. */
    method Del(key: string)
      modifies this
      ensures entries == old(entries) - {key}
    {
      entries := entries - {key};
    }

    /** The TTL of `key` runs out. */
    method Expire(key: string)
      modifies this
      ensures entries == old(entries) - {key}
    {
      entries := entries - {key};
    }
  }
}
