/**
 * The in-memory user store of api/server-vercel.ts: a module-level `Map`
 * from user id to record, read by get-or-create and changed by an upsert
 * that first gets (and so creates) the record and then replaces it.
 */
module MemoryUsers {
  import opened Js
  import opened Users
  import SqliteUsers

  /**
   * The map after `updateMemorySubscription(id, isSubscribed, subscriptionId)`:
   * the entry for `id` exists afterwards whether or not it did before, carries
   * the new flag and the subscription id exactly as given, and no other entry
   * changes.
   */
  function Upsert(rows: Table, id: string, isSubscribed: bool, subscriptionId: Option<string>): (r: Table)
    ensures r.Keys == rows.Keys + {id}
    ensures forall k :: k in rows && k != id ==> r[k] == rows[k]
    ensures r[id].id == (if id in rows then rows[id].id else id)
    ensures (r[id].isSubscribed == 1 <==> isSubscribed) && r[id].subscriptionId == subscriptionId
    ensures Keyed(rows) ==> Keyed(r)
  {
    var (seen, user) := GetOrCreate(rows, id);
    seen[id := user.(isSubscribed := BitOf(isSubscribed), subscriptionId := subscriptionId)]
  }

  /** Applying the same upsert twice gives the state of applying it once. */
  lemma UpsertIdempotent(rows: Table, id: string, b: bool, sid: Option<string>)
    ensures Upsert(Upsert(rows, id, b, sid), id, b, sid) == Upsert(rows, id, b, sid)
  {
  }

  /** A lookup after an upsert sees it, also for an id that was never looked up. */
  lemma GetAfterUpsert(rows: Table, id: string, b: bool, sid: Option<string>)
    requires Keyed(rows)
    ensures GetOrCreate(Upsert(rows, id, b, sid), id).1 == UserRecord(id, BitOf(b), sid)
  {
  }

  /**
   * On a user that exists and a non-empty subscription id, the upsert and the
   * SQL update of server/db.ts leave the same table; they differ when the user
   * is missing (only the upsert inserts) and when the id is empty (db.ts stores
   * NULL, the map keeps "").
   */
  lemma UpsertAgreesWithUpdateWhere(rows: Table, id: string, b: bool, sid: Option<string>)
    requires id in rows && Truthy(sid)
    ensures Upsert(rows, id, b, sid) == SqliteUsers.UpdateWhere(rows, id, b, sid)
  {
  }

  lemma UpsertDiffersFromUpdateWhere(rows: Table, id: string, b: bool, sid: Option<string>)
    requires id !in rows
    ensures id in Upsert(rows, id, b, sid) && id !in SqliteUsers.UpdateWhere(rows, id, b, sid)
  {
  }

  /** The module-level `memoryStore`. */
  class MemoryStore {
    var entries: Table

    ghost predicate Valid()
      reads this
    {
      Keyed(entries)
    }

    /** `new Map<string, any>()` */
    constructor ()
      ensures Valid() && entries == map[]
    {
      entries := map[];
    }

    /** `getMemoryUser(id)`: the stored record, or a fresh default one stored under `id`. */
    method GetMemoryUser(id: string) returns (user: UserRecord)
      requires Valid()
      modifies this
      ensures Valid()
      ensures (entries, user) == GetOrCreate(old(entries), id)
    {
      if id !in entries {
        user := DefaultUser(id);
        entries := entries[id := user];
      } else {
        user := entries[id];
      }
    }

    /** `updateMemorySubscription(id, isSubscribed, subscriptionId)` */
    method UpdateMemorySubscription(id: string, isSubscribed: bool, subscriptionId: Option<string>)
      requires Valid()
      modifies this
      ensures Valid()
      ensures entries == Upsert(old(entries), id, isSubscribed, subscriptionId)
    {
      var user := GetMemoryUser(id);
      entries := entries[id := UserRecord(user.id, BitOf(isSubscribed), subscriptionId)];
    }
  }
}
