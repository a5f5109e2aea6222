/**
 * `UserV2Service` of api/user_v2/services.py: create, get, update and delete over the
 * `user` table. A missing key of the input raises `KeyError` while the statement's
 * parameters are evaluated, so nothing is executed; a failing statement is re-raised.
 */
module UserV2Services {
  import opened Wrappers
  import opened Values
  import opened Storage

  /** The keys the INSERT reads with `data[...]`, in the order it reads them; the clock is read after the fourth. */
  const CreateKeys: seq<string> := ["login", "password_sha256", "first_name", "last_name", "created_from"]

  /** The keys the UPDATE reads with `data[...]`, in the order it reads them; the clock is read after the fourth. */
  const UpdateKeys: seq<string> := ["login", "password_sha256", "first_name", "last_name", "changed_from"]

  /** The first of `keys` that `data` lacks, which is the key of the `KeyError` raised. */
  function FirstMissing(data: Dict, keys: seq<string>): (r: Option<string>)
    ensures r.None? <==> forall i :: 0 <= i < |keys| ==> keys[i] in data
    ensures r.Some? ==> exists i :: 0 <= i < |keys| && keys[i] == r.value && r.value !in data &&
                                   (forall j :: 0 <= j < i ==> keys[j] in data)
  {
    if keys == [] then None
    else if keys[0] !in data then Some(keys[0])
    else FirstMissing(data, keys[1..])
  }

  /** The `RETURNING id, login, first_name, last_name, created_at, isActive, strBool` dictionary of a row. */
  function Returned(id: int, row: Row): (d: Dict)
    ensures d.Keys == {"id", "login", "first_name", "last_name", "created_at", "is_active", "str_bool"}
    ensures d["id"] == Int(id) && d["login"] == row.login
    ensures d["first_name"] == row.firstName && d["last_name"] == row.lastName
    ensures d["created_at"] == DateTime(row.createdAt) && d["is_active"] == Bool(row.isActive)
    ensures d["str_bool"] == row.strBool
  {
    map[
      "id" := Int(id),
      "login" := row.login,
      "first_name" := row.firstName,
      "last_name" := row.lastName,
      "created_at" := DateTime(row.createdAt),
      "is_active" := Bool(row.isActive),
      "str_bool" := row.strBool]
  }

  /** The row the INSERT stores; the plaintext password and the test flag are left to the database. */
  function NewRow(defaults: ColumnDefaults, data: Dict, createdAt: Time, changedAt: Time): (row: Row)
    requires FirstMissing(data, CreateKeys).None?
    ensures row.password == defaults.password && row.testBool == defaults.testBool
    ensures row.createdAt == createdAt && row.changedAt == Some(changedAt)
    ensures row.login == Get(data, "login") && row.passwordSha256 == Get(data, "password_sha256")
    ensures row.firstName == Get(data, "first_name") && row.lastName == Get(data, "last_name")
    ensures row.isActive && row.strBool == Get(data, "str_bool")
    ensures row.createdFrom == Get(data, "created_from") && row.changedFrom == Get(data, "created_from")
  {
    assert CreateKeys[0] == "login" && CreateKeys[1] == "password_sha256" && CreateKeys[2] == "first_name";
    assert CreateKeys[3] == "last_name" && CreateKeys[4] == "created_from";
    Row(
      login := data["login"],
      password := defaults.password,
      passwordSha256 := data["password_sha256"],
      firstName := data["first_name"],
      lastName := data["last_name"],
      createdAt := createdAt,
      changedAt := Some(changedAt),
      createdFrom := data["created_from"],
      changedFrom := data["created_from"],
      isActive := true,
      testBool := defaults.testBool,
      strBool := Get(data, "str_bool"))
  }

  /** What the create call returns: the id, the login, the names, the creation time, the active flag and `str_bool`; never a password or a provenance tag. */
  lemma ReturnedHidesSecrets(id: int, row: Row)
    ensures "password_sha256" !in Returned(id, row) && "password" !in Returned(id, row)
    ensures "created_from" !in Returned(id, row) && "changed_from" !in Returned(id, row)
    ensures "changed_at" !in Returned(id, row)
    ensures Returned(id, row)["id"] == Int(id) && Returned(id, row)["is_active"] == Bool(row.isActive)
  {
  }

  /** The `SELECT ... WHERE id = %s AND isActive = 1` of `get_user`. */
  function Lookup(rows: map<int, Row>, id: int): (r: Option<Dict>)
    ensures r.Some? <==> id in rows && rows[id].isActive
    ensures r.Some? ==> "id" in r.value && r.value["id"] == Int(id)
    ensures r.Some? ==> "is_active" in r.value && r.value["is_active"] == Bool(true)
  {
    if id in rows && rows[id].isActive then Some(Returned(id, rows[id])) else None
  }

  /** The row the UPDATE leaves: login, hashed password, names, `str_bool`, change time and change origin are overwritten. */
  function UpdatedRow(row: Row, data: Dict, changedAt: Time): (updated: Row)
    requires FirstMissing(data, UpdateKeys).None?
    ensures updated.createdAt == row.createdAt && updated.createdFrom == row.createdFrom
    ensures updated.isActive == row.isActive
    ensures updated.password == row.password && updated.testBool == row.testBool
    ensures updated.login == Get(data, "login") && updated.passwordSha256 == Get(data, "password_sha256")
    ensures updated.firstName == Get(data, "first_name") && updated.lastName == Get(data, "last_name")
    ensures updated.changedFrom == Get(data, "changed_from") && updated.changedAt == Some(changedAt)
    ensures updated.strBool == Get(data, "str_bool")
  {
    assert UpdateKeys[0] == "login" && UpdateKeys[1] == "password_sha256" && UpdateKeys[2] == "first_name";
    assert UpdateKeys[3] == "last_name" && UpdateKeys[4] == "changed_from";
    row.(
      login := data["login"],
      passwordSha256 := data["password_sha256"],
      firstName := data["first_name"],
      lastName := data["last_name"],
      strBool := Get(data, "str_bool"),
      changedAt := Some(changedAt),
      changedFrom := data["changed_from"])
  }

  /** An update overwrites every column it writes: a later update erases all trace of an earlier one. */
  lemma LastUpdateWins(row: Row, first: Dict, second: Dict, t1: Time, t2: Time)
    requires FirstMissing(first, UpdateKeys).None? && FirstMissing(second, UpdateKeys).None?
    ensures UpdatedRow(UpdatedRow(row, first, t1), second, t2) == UpdatedRow(row, second, t2)
  {
  }

  /** An absent `str_bool` clears the stored flag, since every column of the UPDATE is written. */
  lemma UpdateClearsAbsentStrBool(row: Row, data: Dict, t: Time)
    requires FirstMissing(data, UpdateKeys).None?
    requires "str_bool" !in data
    ensures UpdatedRow(row, data, t).strBool == Null
  {
  }

  /** A created row is found by a later lookup, which returns what the create returned. */
  lemma CreateThenLookup(rows: map<int, Row>, id: int, row: Row)
    requires row.isActive
    ensures Lookup(rows[id := row], id) == Some(Returned(id, row))
  {
  }

  /** Writing one row does not change what a lookup of any other id returns. */
  lemma LookupOtherRows(rows: map<int, Row>, id: int, row: Row, other: int)
    requires other != id
    ensures Lookup(rows[id := row], other) == Lookup(rows, other)
    ensures Lookup(rows - {id}, other) == Lookup(rows, other)
  {
  }

  /** An updated row stays visible and reads back the new values; a deleted row is not found. */
  lemma UpdateThenLookup(rows: map<int, Row>, id: int, data: Dict, t: Time)
    requires FirstMissing(data, UpdateKeys).None?
    requires id in rows && rows[id].isActive
    ensures Lookup(rows[id := UpdatedRow(rows[id], data, t)], id) == Some(Returned(id, UpdatedRow(rows[id], data, t)))
    ensures Lookup(rows - {id}, id) == None
  {
  }

  /** `create_user`. */
  method CreateUser(table: UserTable, data: Dict, elapsed1: nat, elapsed2: nat, outcome: InsertOutcome)
    returns (r: Result<Option<Dict>, Error>)
    requires table.Valid()
    modifies table
    ensures table.Valid()
    ensures table.clock ==
      (if FirstMissing(data, CreateKeys[..4]).None? then old(table.clock) + elapsed1 + elapsed2 else old(table.clock))
    ensures FirstMissing(data, CreateKeys).Some? ==>
      r == Err(KeyError(FirstMissing(data, CreateKeys).value)) &&
      table.rows == old(table.rows) && table.nextId == old(table.nextId)
    ensures FirstMissing(data, CreateKeys).None? && outcome.Failed? ==>
      r == Err(DatabaseError(outcome.message)) &&
      table.rows == old(table.rows) && table.nextId == old(table.nextId)
    ensures FirstMissing(data, CreateKeys).None? && outcome.NoRowReturned? ==>
      r == Ok(None) && table.rows == old(table.rows) && table.nextId == old(table.nextId)
    ensures FirstMissing(data, CreateKeys).None? && outcome.Inserted? ==>
      var row := NewRow(table.defaults, data, old(table.clock) + elapsed1, old(table.clock) + elapsed1 + elapsed2);
      old(table.nextId) !in old(table.rows) &&
      table.rows == old(table.rows)[old(table.nextId) := row] &&
      table.nextId == old(table.nextId) + 1 &&
      r == Ok(Some(Returned(old(table.nextId), row)))
  {
    var missing := FirstMissing(data, CreateKeys[..4]);
    if missing.Some? {
      FirstMissingPrefix(data, CreateKeys);
      return Err(KeyError(missing.value));
    }
    var createdAt := table.Now(elapsed1);
    var changedAt := table.Now(elapsed2);
    FirstMissingPrefix(data, CreateKeys);
    if "created_from" !in data {
      return Err(KeyError("created_from"));
    }
    match outcome
    case Failed(message) =>
      return Err(DatabaseError(message));
    case NoRowReturned =>
      return Ok(None);
    case Inserted =>
      var row := NewRow(table.defaults, data, createdAt, changedAt);
      var id := table.Insert(row);
      return Ok(Some(Returned(id, row)));
  }

  /** `get_user`: the active row with that id, if there is one; the table is only read. */
  method GetUser(table: UserTable, id: int, failure: Option<string>) returns (r: Result<Option<Dict>, Error>)
    ensures failure.Some? ==> r == Err(DatabaseError(failure.value))
    ensures failure.None? ==> r == Ok(Lookup(table.rows, id))
  {
    if failure.Some? {
      return Err(DatabaseError(failure.value));
    }
    if id in table.rows && table.rows[id].isActive {
      return Ok(Some(Returned(id, table.rows[id])));
    }
    return Ok(None);
  }

  /** `update_user`: an active row with that id is overwritten; a missing or inactive one is left alone and `None` returned. */
  method UpdateUser(table: UserTable, id: int, data: Dict, elapsed: nat, failure: Option<string>)
    returns (r: Result<Option<Dict>, Error>)
    requires table.Valid()
    modifies table
    ensures table.Valid()
    ensures table.nextId == old(table.nextId)
    ensures table.clock == (if FirstMissing(data, UpdateKeys[..4]).None? then old(table.clock) + elapsed else old(table.clock))
    ensures FirstMissing(data, UpdateKeys).Some? ==>
      r == Err(KeyError(FirstMissing(data, UpdateKeys).value)) && table.rows == old(table.rows)
    ensures FirstMissing(data, UpdateKeys).None? && failure.Some? ==>
      r == Err(DatabaseError(failure.value)) && table.rows == old(table.rows)
    ensures FirstMissing(data, UpdateKeys).None? && failure.None? && !(id in old(table.rows) && old(table.rows)[id].isActive) ==>
      r == Ok(None) && table.rows == old(table.rows)
    ensures FirstMissing(data, UpdateKeys).None? && failure.None? && id in old(table.rows) && old(table.rows)[id].isActive ==>
      var row := UpdatedRow(old(table.rows)[id], data, old(table.clock) + elapsed);
      table.rows == old(table.rows)[id := row] && r == Ok(Some(Returned(id, row))) &&
      row.createdAt <= row.changedAt.value &&
      (old(table.rows)[id].changedAt.Some? ==> old(table.rows)[id].changedAt.value <= row.changedAt.value)
  {
    var missing := FirstMissing(data, UpdateKeys[..4]);
    if missing.Some? {
      FirstMissingPrefix(data, UpdateKeys);
      return Err(KeyError(missing.value));
    }
    var changedAt := table.Now(elapsed);
    FirstMissingPrefix(data, UpdateKeys);
    if "changed_from" !in data {
      return Err(KeyError("changed_from"));
    }
    if failure.Some? {
      return Err(DatabaseError(failure.value));
    }
    if id in table.rows && table.rows[id].isActive {
      var row := UpdatedRow(table.rows[id], data, changedAt);
      table.Put(id, row);
      return Ok(Some(Returned(id, row)));
    }
    return Ok(None);
  }

  /** `delete_user`: the row with that id is removed whether or not it is active; the result says whether there was one. */
  method DeleteUser(table: UserTable, id: int, failure: Option<string>) returns (r: Result<bool, Error>)
    requires table.Valid()
    modifies table
    ensures table.Valid()
    ensures table.nextId == old(table.nextId) && table.clock == old(table.clock)
    ensures failure.Some? ==> r == Err(DatabaseError(failure.value)) && table.rows == old(table.rows)
    ensures failure.None? ==> r == Ok(id in old(table.rows)) && table.rows == old(table.rows) - {id}
  {
    if failure.Some? {
      return Err(DatabaseError(failure.value));
    }
    var deleted := table.Delete(id);
    return Ok(deleted);
  }

  /**
   * Reading the keys in order: the first missing key of the whole list is the first missing
   * key of its first four when there is one, and otherwise the fifth key when it is missing.
   */
  lemma FirstMissingPrefix(data: Dict, keys: seq<string>)
    requires |keys| == 5
    ensures FirstMissing(data, keys[..4]).Some? ==> FirstMissing(data, keys) == FirstMissing(data, keys[..4])
    ensures FirstMissing(data, keys[..4]).None? ==>
      FirstMissing(data, keys) == (if keys[4] in data then None else Some(keys[4]))
  {
    assert keys[..4][1..] == keys[1..][..3];
    assert keys[1..][..3][1..] == keys[2..][..2];
    assert keys[2..][..2][1..] == keys[3..][..1];
    assert keys[3..][..1][1..] == [];
    assert keys[4..][1..] == [];
    assert keys[1..][1..] == keys[2..] && keys[2..][1..] == keys[3..] && keys[3..][1..] == keys[4..];
  }
}
