/** The in-memory `id_name_map` of the attendance system: filled from the
    `users` table at start-up (main.py:60-63), extended on enrollment
    (main.py:80) and read with an "Unknown" default while scanning
    (main.py:146). */
module IdentityCache {
  import opened Store

  type Cache = map<int, string>

  /** The name shown for an id the map does not hold. */
  const Unknown: string := "Unknown"

  /** `id_name_map.get(id, "Unknown")`. */
  function Lookup(cache: Cache, id: int): string {
    if id in cache then cache[id] else Unknown
  }

  /** No two rows share an id (the primary key of `users`). */
  predicate DistinctIds(rows: seq<UserRow>) {
    forall i, j :: 0 <= i < j < |rows| ==> rows[i].id != rows[j].id
  }

  /** The loop of `load_id_name_map`: every row in order writes
      `cache[row.id] := row.name`, so a later row wins. */
  function Hydrate(cache: Cache, rows: seq<UserRow>): (r: Cache)
    ensures r.Keys == cache.Keys + Ids(rows)
    ensures forall k :: k in cache && k !in Ids(rows) ==> r[k] == cache[k]
    ensures DistinctIds(rows) ==>
      forall i :: 0 <= i < |rows| ==> r[rows[i].id] == rows[i].name
    decreases |rows|
  {
    if rows == [] then cache
    else
      var rest := rows[1..];
      assert Ids(rows) == {rows[0].id} + Ids(rest) by {
        forall k | k in Ids(rows) ensures k in {rows[0].id} + Ids(rest) {
          var i :| 0 <= i < |rows| && rows[i].id == k;
          if i > 0 { assert rest[i - 1].id == k; }
        }
        forall k | k in Ids(rest) ensures k in Ids(rows) {
          var i :| 0 <= i < |rest| && rest[i].id == k;
          assert rows[i + 1].id == k;
        }
      }
      var r := Hydrate(cache[rows[0].id := rows[0].name], rest);
      assert DistinctIds(rows) ==> rows[0].id !in Ids(rest) by {
        if DistinctIds(rows) {
          forall i | 0 <= i < |rest| ensures rest[i].id != rows[0].id {
            assert rows[i + 1].id != rows[0].id;
          }
        }
      }
      assert DistinctIds(rows) ==> DistinctIds(rest) by {
        if DistinctIds(rows) {
          forall i, j | 0 <= i < j < |rest| ensures rest[i].id != rest[j].id {
            assert rows[i + 1].id != rows[j + 1].id;
          }
        }
      }
      r
  }

  /** The cache mirrors the `users` table exactly: the same ids, and each id
      mapped to the name stored with it. */
  predicate Consistent(db: Db, cache: Cache) {
    && cache.Keys == UserIds(db)
    && forall i :: 0 <= i < |db.users| ==> cache[db.users[i].id] == db.users[i].name
  }

  /** `load_id_name_map` run on the empty map of `__init__` (main.py:36-37,
      60-63): a valid table yields a cache consistent with it. */
  function LoadIdNameMap(db: Db): (cache: Cache)
    ensures cache.Keys == UserIds(db)
    ensures Valid(db) ==> Consistent(db, cache)
  {
    assert Valid(db) ==> DistinctIds(db.users) by {
      if Valid(db) {
        forall i, j | 0 <= i < j < |db.users| ensures db.users[i].id != db.users[j].id {
          assert db.users[i].id < db.users[j].id;
        }
      }
    }
    Hydrate(map[], db.users)
  }

  /** `id_name_map[user_id] = name` (main.py:80): the new id resolves to the
      new name at once, and every other id resolves as before. */
  function Insert(cache: Cache, id: int, name: string): (r: Cache)
    ensures r.Keys == cache.Keys + {id}
    ensures Lookup(r, id) == name
    ensures forall k :: k != id ==> Lookup(r, k) == Lookup(cache, k)
  {
    cache[id := name]
  }

  /** Registering a user in the table and in the cache together keeps the
      two consistent (main.py:73-80). */
  lemma InsertKeepsConsistent(db: Db, cache: Cache, name: string, now: Time)
    requires Valid(db) && Consistent(db, cache)
    ensures Consistent(InsertUser(db, name, now).0, Insert(cache, InsertUser(db, name, now).1, name))
  {
  }

  /** The table determines a consistent cache completely: two caches that
      both mirror it are the same map. */
  lemma {:induction false} ConsistentCacheUnique(db: Db, c1: Cache, c2: Cache)
    requires Consistent(db, c1) && Consistent(db, c2)
    ensures c1 == c2
  {
    forall k | k in c1 ensures c1[k] == c2[k] {
      var i :| 0 <= i < |db.users| && db.users[i].id == k;
    }
  }
}
