/**
 * The user record shared by both stores, and get-or-create: the lookup that
 * both `getUser` (server/db.ts) and `getMemoryUser` (api/server-vercel.ts)
 * perform on a table keyed by the user id.
 */
module Users {
  import opened Js

  /** The stored `is_subscribed` column: 0 or 1. */
  type Bit = x: int | 0 <= x <= 1

  datatype UserRecord = UserRecord(id: string, isSubscribed: Bit, subscriptionId: Option<string>)

  /** `isSubscribed ? 1 : 0` */
  function BitOf(b: bool): (r: Bit)
    ensures (r == 1) == b
  {
    if b then 1 else 0
  }

  /** The row a first lookup creates: not subscribed, no subscription id. */
  function DefaultUser(id: string): (r: UserRecord)
    ensures r.id == id && r.isSubscribed == BitOf(false) && r.subscriptionId.None?
  {
    UserRecord(id, 0, None)
  }

  /** The user table: one row per id (the primary key). */
  type Table = map<string, UserRecord>

  /** Every row is stored under its own id. */
  predicate Keyed(rows: Table) {
    forall id :: id in rows ==> rows[id].id == id
  }

  /**
   * Get-or-create: the row for `id`, inserted with the defaults when it is
   * missing. Returns the new table and the row.
   */
  function GetOrCreate(rows: Table, id: string): (r: (Table, UserRecord))
    ensures id in r.0 && r.1 == r.0[id]
    ensures r.0.Keys == rows.Keys + {id}
    ensures forall k :: k in rows ==> r.0[k] == rows[k]
    ensures id in rows ==> r == (rows, rows[id])
    ensures id !in rows ==> r.1 == DefaultUser(id)
    ensures Keyed(rows) ==> Keyed(r.0) && r.1.id == id
  {
    if id in rows then (rows, rows[id]) else (rows[id := DefaultUser(id)], DefaultUser(id))
  }

  /** A miss inserts exactly one row. */
  lemma GetOrCreateAddsOneRow(rows: Table, id: string)
    ensures |GetOrCreate(rows, id).0| == if id in rows then |rows| else |rows| + 1
  {
  }

  /** A second lookup of the same id returns the same row and changes nothing. */
  lemma GetOrCreateTwice(rows: Table, id: string)
    ensures var (rows', user) := GetOrCreate(rows, id);
      GetOrCreate(rows', id) == (rows', user)
  {
  }
}
