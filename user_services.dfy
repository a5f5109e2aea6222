/**
 * `UserService` of api/user/services.py: the required-field check and hashed INSERT of
 * `create_user`, and the unfiltered listing of `get_all_users`. Users are model
 * instances, that is attribute dictionaries built by `UserModel.Instantiate`.
 */
module UserServices {
  import opened Wrappers
  import opened Values
  import opened Storage
  import UserModel

  /** The row the INSERT stores: login, hashed password, names and creation time; every other column is the database's. */
  function InsertedRow(defaults: ColumnDefaults, user: Dict, hashed: string, createdAt: Time): (row: Row)
    requires UserModel.RequiredFields() <= user.Keys
    ensures row.password == Str(hashed) && row.createdAt == createdAt
    ensures row.login == Get(user, "login")
    ensures row.firstName == Get(user, "first_name") && row.lastName == Get(user, "last_name")
    ensures row.isActive == defaults.isActive && row.testBool == defaults.testBool
    ensures row.changedAt == (if defaults.changedAtOnInsert then Some(createdAt) else None)
    ensures row.passwordSha256 == defaults.passwordSha256
    ensures row.createdFrom == defaults.createdFrom && row.changedFrom == defaults.changedFrom
    ensures row.strBool == defaults.strBool
  {
    UserModel.RequiredFieldsAre();
    Row(
      login := user["login"],
      password := Str(hashed),
      passwordSha256 := defaults.passwordSha256,
      firstName := user["first_name"],
      lastName := user["last_name"],
      createdAt := createdAt,
      changedAt := if defaults.changedAtOnInsert then Some(createdAt) else None,
      createdFrom := defaults.createdFrom,
      changedFrom := defaults.changedFrom,
      isActive := defaults.isActive,
      testBool := defaults.testBool,
      strBool := defaults.strBool)
  }

  /** The `User(id=..., login=..., first_name=..., last_name=..., created_at=...)` built from a returned row. */
  function UserOf(id: int, row: Row): (user: Dict)
    ensures user.Keys == UserModel.Defaults().Keys
  {
    UserModel.Instantiate(map[
      "id" := Int(id),
      "login" := row.login,
      "first_name" := row.firstName,
      "last_name" := row.lastName,
      "created_at" := DateTime(row.createdAt)])
  }

  /**
   * A user built from a row carries the row's id, login, names and creation time, and never
   * its password; its activity and test flags are the model defaults, not the stored ones.
   */
  lemma UserOfFacts(id: int, row: Row)
    ensures UserOf(id, row)["id"] == Int(id) && UserOf(id, row)["login"] == row.login
    ensures UserOf(id, row)["first_name"] == row.firstName && UserOf(id, row)["last_name"] == row.lastName
    ensures UserOf(id, row)["created_at"] == DateTime(row.createdAt)
    ensures UserOf(id, row)["password"] == Str("")
    ensures UserOf(id, row)["is_active"] == Bool(true) && UserOf(id, row)["test_bool"] == Null
  {
    UserModel.InstantiateDefaults(map[
      "id" := Int(id),
      "login" := row.login,
      "first_name" := row.firstName,
      "last_name" := row.lastName,
      "created_at" := DateTime(row.createdAt)]);
  }

  /** Every model instance has every model attribute, so the required-field check passes for any instance. */
  lemma InstancesPassCheck(kwargs: Dict)
    requires kwargs.Keys <= UserModel.Defaults().Keys
    ensures UserModel.RequiredFields() <= UserModel.Instantiate(kwargs).Keys
  {
    UserModel.RequiredFieldsAre();
    UserModel.DefaultsCoverFields();
    assert UserModel.LoginColumn in UserModel.Fields && UserModel.PasswordColumn in UserModel.Fields;
    assert UserModel.FirstNameColumn in UserModel.Fields && UserModel.LastNameColumn in UserModel.Fields;
    assert UserModel.IsActiveColumn in UserModel.Fields && UserModel.TestBoolColumn in UserModel.Fields;
  }

  /**
   * `create_user`: hash the password with `makePassword`, insert, and return the new user.
   * Nothing catches a failing statement, and a missing returned row fails at `row[0]`.
   */
  method CreateUser(table: UserTable, user: Dict, makePassword: Value -> string, elapsed: nat, outcome: InsertOutcome)
    returns (r: Result<Dict, Error>)
    requires table.Valid()
    modifies table
    ensures table.Valid()
    ensures !(UserModel.RequiredFields() <= user.Keys) ==>
      r == Err(MissingFields(UserModel.RequiredFields())) &&
      table.rows == old(table.rows) && table.nextId == old(table.nextId) && table.clock == old(table.clock)
    ensures UserModel.RequiredFields() <= user.Keys ==>
      table.clock == old(table.clock) + elapsed &&
      (outcome.Failed? ==>
        r == Err(DatabaseError(outcome.message)) && table.rows == old(table.rows) && table.nextId == old(table.nextId)) &&
      (outcome.NoRowReturned? ==>
        r == Err(TypeError) && table.rows == old(table.rows) && table.nextId == old(table.nextId)) &&
      (outcome.Inserted? ==>
        "password" in user &&
        var row := InsertedRow(table.defaults, user, makePassword(user["password"]), table.clock);
        old(table.nextId) !in old(table.rows) &&
        table.rows == old(table.rows)[old(table.nextId) := row] && table.nextId == old(table.nextId) + 1 &&
        r == Ok(UserOf(old(table.nextId), row)))
  {
    if !(UserModel.RequiredFields() <= user.Keys) {
      return Err(MissingFields(UserModel.RequiredFields()));
    }
    UserModel.RequiredFieldsAre();
    var hashed := makePassword(user["password"]);
    var createdAt := table.Now(elapsed);
    match outcome
    case Failed(message) =>
      return Err(DatabaseError(message));
    case NoRowReturned =>
      return Err(TypeError);
    case Inserted =>
      var row := InsertedRow(table.defaults, user, hashed, createdAt);
      var id := table.Insert(row);
      return Ok(UserOf(id, row));
  }

  /** The list comprehension of `get_all_users`: one user per fetched row, in the order fetched. */
  function UsersFrom(fetched: seq<(int, Row)>): (users: seq<Dict>)
    ensures |users| == |fetched|
    ensures forall i :: 0 <= i < |users| ==> users[i] == UserOf(fetched[i].0, fetched[i].1)
  {
    seq(|fetched|, i requires 0 <= i < |fetched| => UserOf(fetched[i].0, fetched[i].1))
  }

  /** Listed users carry their row's id and never a password. */
  lemma UsersFromHideSecrets(fetched: seq<(int, Row)>, i: int)
    requires 0 <= i < |fetched|
    ensures UsersFrom(fetched)[i]["id"] == Int(fetched[i].0)
    ensures UsersFrom(fetched)[i]["password"] == Str("")
  {
    UserOfFacts(fetched[i].0, fetched[i].1);
  }

  /** `user` is the user built from some row of the table. */
  ghost predicate FromSomeRow(rows: map<int, Row>, user: Dict)
  {
    exists id :: id in rows && user == UserOf(id, rows[id])
  }

  /** Fetching every row exactly once and converting each gives one user per row and no other. */
  lemma UsersFromCover(rows: map<int, Row>, fetched: seq<(int, Row)>)
    requires forall i :: 0 <= i < |fetched| ==> fetched[i].0 in rows && rows[fetched[i].0] == fetched[i].1
    requires forall id :: id in rows ==> exists i :: 0 <= i < |fetched| && fetched[i].0 == id
    ensures forall id :: id in rows ==> exists i :: 0 <= i < |UsersFrom(fetched)| && UsersFrom(fetched)[i] == UserOf(id, rows[id])
    ensures forall i :: 0 <= i < |UsersFrom(fetched)| ==> FromSomeRow(rows, UsersFrom(fetched)[i])
  {
    var users := UsersFrom(fetched);
    forall id | id in rows
      ensures exists i :: 0 <= i < |users| && users[i] == UserOf(id, rows[id])
    {
      var i :| 0 <= i < |fetched| && fetched[i].0 == id;
      assert users[i] == UserOf(id, rows[id]);
    }
    forall i | 0 <= i < |UsersFrom(fetched)|
      ensures FromSomeRow(rows, UsersFrom(fetched)[i])
    {
      var id := fetched[i].0;
      assert id in rows && UsersFrom(fetched)[i] == UserOf(id, rows[id]);
    }
  }

  /** Rows fetched under distinct ids become users with distinct ids. */
  lemma DistinctUsers(fetched: seq<(int, Row)>)
    requires forall i, j :: 0 <= i < j < |fetched| ==> fetched[i].0 != fetched[j].0
    ensures forall i, j :: 0 <= i < j < |fetched| ==> UsersFrom(fetched)[i] != UsersFrom(fetched)[j]
  {
    forall i, j | 0 <= i < j < |fetched|
      ensures UsersFrom(fetched)[i] != UsersFrom(fetched)[j]
    {
      UserOfFacts(fetched[i].0, fetched[i].1);
      UserOfFacts(fetched[j].0, fetched[j].1);
    }
  }

  /** `get_all_users`: one user per row of the table, inactive rows included; the table is only read. */
  method GetAllUsers(table: UserTable, failure: Option<string>) returns (r: Result<seq<Dict>, Error>)
    ensures failure.Some? ==> r == Err(DatabaseError(failure.value))
    ensures failure.None? ==> r.Ok? && |r.value| == |table.rows|
    ensures failure.None? ==> forall id :: id in table.rows ==>
      exists i :: 0 <= i < |r.value| && r.value[i] == UserOf(id, table.rows[id])
    ensures failure.None? ==> forall i :: 0 <= i < |r.value| ==> FromSomeRow(table.rows, r.value[i])
    ensures failure.None? ==> forall i, j :: 0 <= i < j < |r.value| ==> r.value[i] != r.value[j]
  {
    if failure.Some? {
      return Err(DatabaseError(failure.value));
    }
    var fetched := table.Scan();
    UsersFromCover(table.rows, fetched);
    DistinctUsers(fetched);
    return Ok(UsersFrom(fetched));
  }
}
