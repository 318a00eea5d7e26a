/**
 * The SQLite-backed user store of server/db.ts: a `users` table with primary
 * key `id`, read by get-or-create and changed by an `UPDATE ... WHERE id = ?`
 * that touches only a row that already exists. The database engine is
 * modelled as the map it maintains.
 */
module SqliteUsers {
  import opened Js
  import opened Users

  /** `subscriptionId || null`: a missing or empty id is stored as NULL. */
  function StoredSubscriptionId(subscriptionId: Option<string>): (r: Option<string>)
    ensures Truthy(subscriptionId) ==> r == subscriptionId
    ensures !Truthy(subscriptionId) ==> r == None
  {
    if Truthy(subscriptionId) then subscriptionId else None
  }

  /**
   * The table after `UPDATE users SET is_subscribed = ?, subscription_id = ?
   * WHERE id = ?`: no row is inserted or removed, only the row for `id` changes,
   * and a missing `id` leaves the table as it was.
   */
  function UpdateWhere(rows: Table, id: string, isSubscribed: bool, subscriptionId: Option<string>): (r: Table)
    ensures r.Keys == rows.Keys
    ensures forall k :: k in rows && k != id ==> r[k] == rows[k]
    ensures id in rows ==>
      r[id].id == rows[id].id
      && (r[id].isSubscribed == 1 <==> isSubscribed)
      && r[id].subscriptionId == StoredSubscriptionId(subscriptionId)
    ensures id !in rows ==> r == rows
    ensures Keyed(rows) ==> Keyed(r)
  {
    if id in rows then
      rows[id := rows[id].(isSubscribed := BitOf(isSubscribed),
                           subscriptionId := StoredSubscriptionId(subscriptionId))]
    else
      rows
  }

  /** Applying the same update twice gives the state of applying it once. */
  lemma UpdateWhereIdempotent(rows: Table, id: string, b: bool, sid: Option<string>)
    ensures UpdateWhere(UpdateWhere(rows, id, b, sid), id, b, sid) == UpdateWhere(rows, id, b, sid)
  {
  }

  /** The later of two updates to the same id wins. */
  lemma UpdateWhereLastWins(rows: Table, id: string, b1: bool, s1: Option<string>, b2: bool, s2: Option<string>)
    ensures UpdateWhere(UpdateWhere(rows, id, b1, s1), id, b2, s2) == UpdateWhere(rows, id, b2, s2)
  {
  }

  /** Updates to different ids do not interfere. */
  lemma UpdateWhereCommutes(rows: Table, id1: string, b1: bool, s1: Option<string>,
                            id2: string, b2: bool, s2: Option<string>)
    requires id1 != id2
    ensures UpdateWhere(UpdateWhere(rows, id1, b1, s1), id2, b2, s2)
         == UpdateWhere(UpdateWhere(rows, id2, b2, s2), id1, b1, s1)
  {
  }

  /**
   * A lookup after an update of a known user sees the update; an update of
   * an id that was never looked up is lost, and the lookup then creates the
   * default row.
   */
  lemma GetUserAfterUpdate(rows: Table, id: string, b: bool, sid: Option<string>)
    requires Keyed(rows)
    ensures var user := GetOrCreate(UpdateWhere(rows, id, b, sid), id).1;
      if id in rows then user == UserRecord(id, BitOf(b), StoredSubscriptionId(sid))
      else user == DefaultUser(id)
  {
  }

  /** The `users` table. */
  class UserTable {
    var rows: Table

    ghost predicate Valid()
      reads this
    {
      Keyed(rows)
    }

    /** `CREATE TABLE IF NOT EXISTS users (...)` on a fresh database. */
    constructor ()
      ensures Valid() && rows == map[]
    {
      rows := map[];
    }

    /** `getUser(id)`: select the row, inserting `(id)` with the column defaults when there is none. */
    method GetUser(id: string) returns (user: UserRecord)
      requires Valid()
      modifies this
      ensures Valid()
      ensures (rows, user) == GetOrCreate(old(rows), id)
    {
      if id !in rows {
        rows := rows[id := DefaultUser(id)];
      }
      user := rows[id];
    }

    /** `updateUserSubscription(id, isSubscribed, subscriptionId)` */
    method UpdateUserSubscription(id: string, isSubscribed: bool, subscriptionId: Option<string>)
      requires Valid()
      modifies this
      ensures Valid()
      ensures rows == UpdateWhere(old(rows), id, isSubscribed, subscriptionId)
    {
      if id in rows {
        var row := rows[id];
        rows := rows[id := UserRecord(row.id, BitOf(isSubscribed), StoredSubscriptionId(subscriptionId))];
      }
    }
  }
}
