/**
 * The `user` table both services write to through raw SQL: a map from row id to row,
 * the next id the database hands out, and the server clock read by `timezone.now()`.
 * Both API versions share the one table, so a row carries the columns of both.
 */
module Storage {
  import opened Wrappers
  import opened Values

  /** One row of the `user` table. */
  datatype Row = Row(
    login: Value,
    password: Value,
    passwordSha256: Value,
    firstName: Value,
    lastName: Value,
    createdAt: Time,
    changedAt: Option<Time>,
    createdFrom: Value,
    changedFrom: Value,
    isActive: bool,
    testBool: Value,
    strBool: Value)

  /**
   * What the database stores in the columns an INSERT leaves out; for `changed_at` this is
   * either the time of the insertion (`changedAtOnInsert`) or NULL.
   */
  datatype ColumnDefaults = ColumnDefaults(
    password: Value,
    passwordSha256: Value,
    changedAtOnInsert: bool,
    createdFrom: Value,
    changedFrom: Value,
    isActive: bool,
    testBool: Value,
    strBool: Value)

  /**
   * The exceptions the services raise: a missing key of the input, a failed field check, a
   * database error, and the `TypeError` of subscripting the `None` that `fetchone()` gives when
   * no row comes back.
   */
  datatype Error = KeyError(key: string) | MissingFields(required: set<string>) | DatabaseError(message: string) | TypeError

  /** How an INSERT ... RETURNING ends: a row comes back, no row comes back, or the database raises. */
  datatype InsertOutcome = Inserted | NoRowReturned | Failed(message: string)

  /** A row dated no later than `clock`, and changed, if at all, no earlier than it was created. */
  predicate Dated(row: Row, clock: Time)
  {
    row.createdAt <= clock && (row.changedAt.Some? ==> row.createdAt <= row.changedAt.value <= clock)
  }

  class UserTable {
    var rows: map<int, Row>
    var nextId: int
    var clock: Time
    const defaults: ColumnDefaults

    /** Ids are positive and below the next id; every row is dated by the clock, changed no earlier than created. */
    ghost predicate Valid()
      reads this
      ensures Valid() ==> 0 < nextId && nextId !in rows
      ensures Valid() ==> forall id :: id in rows ==> Dated(rows[id], clock)
    {
      0 < nextId &&
      forall id :: id in rows ==> 0 < id < nextId && Dated(rows[id], clock)
    }

    /** An empty table whose clock starts at `start`. */
    constructor (start: Time, defaults: ColumnDefaults)
      ensures Valid()
      ensures rows == map[] && nextId == 1 && clock == start && this.defaults == defaults
    {
      rows := map[];
      nextId := 1;
      clock := start;
      this.defaults := defaults;
    }

    /** `timezone.now()`: the clock has moved on by `elapsed` since the last read, and its new value is returned. */
    method Now(elapsed: nat) returns (t: Time)
      requires Valid()
      modifies this
      ensures Valid()
      ensures t == old(clock) + elapsed && clock == t
      ensures rows == old(rows) && nextId == old(nextId)
    {
      clock := clock + elapsed;
      t := clock;
    }

    /** `INSERT`: the row is stored under a fresh id, the next id after every id in use. */
    method Insert(row: Row) returns (id: int)
      requires Valid()
      requires Dated(row, clock)
      modifies this
      ensures Valid()
      ensures id == old(nextId) && id !in old(rows) && 0 < id
      ensures rows == old(rows)[id := row]
      ensures nextId == old(nextId) + 1 && clock == old(clock)
    {
      id := nextId;
      rows := rows[id := row];
      nextId := nextId + 1;
    }

    /** `UPDATE ... WHERE id = %s`: the row with that id is replaced, every other row is kept. */
    method Put(id: int, row: Row)
      requires Valid()
      requires id in rows && Dated(row, clock)
      modifies this
      ensures Valid()
      ensures rows == old(rows)[id := row]
      ensures nextId == old(nextId) && clock == old(clock)
    {
      rows := rows[id := row];
    }

    /** `DELETE ... WHERE id = %s`: whether a row was deleted; every other row is kept. */
    method Delete(id: int) returns (deleted: bool)
      requires Valid()
      modifies this
      ensures Valid()
      ensures deleted <==> id in old(rows)
      ensures rows == old(rows) - {id}
      ensures nextId == old(nextId) && clock == old(clock)
    {
      deleted := id in rows;
      rows := rows - {id};
    }

    /** `SELECT ... FROM user` with `fetchall()`: every row exactly once, with its id, in no particular order. */
    method Scan() returns (result: seq<(int, Row)>)
      ensures |result| == |rows|
      ensures forall i :: 0 <= i < |result| ==> result[i].0 in rows && rows[result[i].0] == result[i].1
      ensures forall id :: id in rows ==> exists i :: 0 <= i < |result| && result[i].0 == id
      ensures forall i, j :: 0 <= i < j < |result| ==> result[i].0 != result[j].0
    {
      result := [];
      var remaining := rows.Keys;
      while remaining != {}
        invariant remaining <= rows.Keys
        invariant |result| + |remaining| == |rows.Keys|
        invariant forall i :: 0 <= i < |result| ==> result[i].0 in rows && rows[result[i].0] == result[i].1
        invariant forall i :: 0 <= i < |result| ==> result[i].0 !in remaining
        invariant forall k :: k in rows && k !in remaining ==> exists i :: 0 <= i < |result| && result[i].0 == k
        invariant forall i, j :: 0 <= i < j < |result| ==> result[i].0 != result[j].0
        decreases remaining
      {
        NonEmptyHasElement(remaining);
        var id :| id in remaining;
        var before := result;
        result := result + [(id, rows[id])];
        forall k | k in rows && k !in remaining - {id}
          ensures exists i :: 0 <= i < |result| && result[i].0 == k
        {
          if k == id {
            assert result[|before|].0 == k;
          } else {
            var i :| 0 <= i < |before| && before[i].0 == k;
            assert result[i].0 == k;
          }
        }
        remaining := remaining - {id};
      }
    }
  }

  /** A non-empty set of ids has an element. */
  lemma NonEmptyHasElement(s: set<int>)
    requires s != {}
    ensures exists x :: x in s
  {
    if forall x :: x !in s {
      assert false;
    }
  }
}
