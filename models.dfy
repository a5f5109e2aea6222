/**
 * The `User` model of api/user/models.py: an unmanaged mapping of the `user` table.
 * Its field list drives the required-field check of the v1 service, and instantiating
 * the model fills every field that is not given with that field's default.
 */
module UserModel {
  import opened Wrappers
  import opened Values

  datatype ColumnKind = AutoColumn | EmailColumn | CharColumn | DateTimeColumn | BooleanColumn

  /** One model field: its attribute name, database column, type and declared options. */
  datatype Column = Column(
    name: string,
    dbColumn: string,
    kind: ColumnKind,
    maxLength: Option<nat>,
    nullable: bool,
    default: Option<Value>,
    autoNowAdd: bool,
    autoCreated: bool)

  const DbTable := "user"
  const Managed := false

  const IdColumn := Column("id", "id", AutoColumn, None, false, None, false, true)
  const LoginColumn := Column("login", "login", EmailColumn, Some(100), false, None, false, false)
  const PasswordColumn := Column("password", "password", CharColumn, Some(64), false, None, false, false)
  const FirstNameColumn := Column("first_name", "first_name", CharColumn, Some(100), false, None, false, false)
  const LastNameColumn := Column("last_name", "last_name", CharColumn, Some(100), false, None, false, false)
  const CreatedAtColumn := Column("created_at", "createdAt", DateTimeColumn, None, false, None, true, false)
  const IsActiveColumn := Column("is_active", "isActive", BooleanColumn, None, false, Some(Bool(true)), false, false)
  const TestBoolColumn := Column("test_bool", "testBool", BooleanColumn, None, true, None, false, false)

  /** The fields in declaration order, with the implicit primary key `id` first. */
  const Fields: seq<Column> := [
    IdColumn, LoginColumn, PasswordColumn, FirstNameColumn, LastNameColumn,
    CreatedAtColumn, IsActiveColumn, TestBoolColumn]

  /** The field names a v1 create needs: every field that is not auto-created, apart from `created_at`. */
  function RequiredFields(): (names: set<string>)
    ensures forall c :: c in Fields && !c.autoCreated && c.name != "created_at" ==> c.name in names
    ensures forall n :: n in names ==> exists c :: c in Fields && !c.autoCreated && c.name == n && n != "created_at"
  {
    set c | c in Fields && !c.autoCreated && c.name != "created_at" :: c.name
  }

  /** The required-field set, written out: it includes `is_active` and `test_bool`, and excludes `id` and `created_at`. */
  lemma RequiredFieldsAre()
    ensures RequiredFields() == {"login", "password", "first_name", "last_name", "is_active", "test_bool"}
  {
    var expected := {"login", "password", "first_name", "last_name", "is_active", "test_bool"};
    forall n | n in RequiredFields() ensures n in expected {
      var c :| c in Fields && !c.autoCreated && c.name == n && n != "created_at";
      assert c == IdColumn || c == LoginColumn || c == PasswordColumn || c == FirstNameColumn
        || c == LastNameColumn || c == CreatedAtColumn || c == IsActiveColumn || c == TestBoolColumn;
    }
    assert LoginColumn.name in RequiredFields() by { assert LoginColumn in Fields; }
    assert PasswordColumn.name in RequiredFields() by { assert PasswordColumn in Fields; }
    assert FirstNameColumn.name in RequiredFields() by { assert FirstNameColumn in Fields; }
    assert LastNameColumn.name in RequiredFields() by { assert LastNameColumn in Fields; }
    assert IsActiveColumn.name in RequiredFields() by { assert IsActiveColumn in Fields; }
    assert TestBoolColumn.name in RequiredFields() by { assert TestBoolColumn in Fields; }
  }

  /** `test_bool` is the only nullable field; every text field has a maximum length. */
  lemma Nullability()
    ensures forall c :: c in Fields && c.nullable ==> c.name == "test_bool"
    ensures forall c :: c in Fields && (c.kind == EmailColumn || c.kind == CharColumn) ==> c.maxLength.Some?
  {
  }

  /** The declared limits: login, first and last name 100 characters, password 64; `created_at` is stamped on insertion; `is_active` defaults to true. */
  lemma DeclaredOptions()
    ensures LoginColumn.maxLength == Some(100) && PasswordColumn.maxLength == Some(64)
    ensures FirstNameColumn.maxLength == Some(100) && LastNameColumn.maxLength == Some(100)
    ensures CreatedAtColumn.autoNowAdd && !CreatedAtColumn.nullable
    ensures IsActiveColumn.default == Some(Bool(true)) && !IsActiveColumn.nullable
    ensures DbTable == "user" && !Managed
  {
  }

  /**
   * Django's field default: the declared default, else `None` for fields that do not
   * store empty strings or that are nullable, else the empty string.
   */
  function DefaultOf(c: Column): (v: Value)
    ensures c.default.Some? ==> v == c.default.value
    ensures c.default.None? && (c.kind == EmailColumn || c.kind == CharColumn) && !c.nullable ==> v == Str("")
  {
    match c.default
    case Some(d) => d
    case None =>
      if (c.kind == EmailColumn || c.kind == CharColumn) && !c.nullable then Str("") else Null
  }

  /** The attributes of every model field, each set to its default. */
  function Defaults(): (d: Dict)
    ensures d.Keys == {"id", "login", "password", "first_name", "last_name", "created_at", "is_active", "test_bool"}
    ensures d["id"] == Null && d["created_at"] == Null && d["test_bool"] == Null
    ensures d["login"] == Str("") && d["password"] == Str("") && d["first_name"] == Str("") && d["last_name"] == Str("")
    ensures d["is_active"] == Bool(true)
  {
    map[
      IdColumn.name := DefaultOf(IdColumn),
      LoginColumn.name := DefaultOf(LoginColumn),
      PasswordColumn.name := DefaultOf(PasswordColumn),
      FirstNameColumn.name := DefaultOf(FirstNameColumn),
      LastNameColumn.name := DefaultOf(LastNameColumn),
      CreatedAtColumn.name := DefaultOf(CreatedAtColumn),
      IsActiveColumn.name := DefaultOf(IsActiveColumn),
      TestBoolColumn.name := DefaultOf(TestBoolColumn)]
  }

  /** Every field has its default attribute, and there is no other attribute. */
  lemma DefaultsCoverFields()
    ensures forall c :: c in Fields ==> c.name in Defaults() && Defaults()[c.name] == DefaultOf(c)
    ensures forall n :: n in Defaults() ==> exists c :: c in Fields && c.name == n
  {
    forall c | c in Fields ensures c.name in Defaults() && Defaults()[c.name] == DefaultOf(c) {
      assert c == IdColumn || c == LoginColumn || c == PasswordColumn || c == FirstNameColumn
        || c == LastNameColumn || c == CreatedAtColumn || c == IsActiveColumn || c == TestBoolColumn;
    }
    forall n | n in Defaults() ensures exists c :: c in Fields && c.name == n {
      assert n in {IdColumn.name, LoginColumn.name, PasswordColumn.name, FirstNameColumn.name,
                   LastNameColumn.name, CreatedAtColumn.name, IsActiveColumn.name, TestBoolColumn.name};
      if n == IdColumn.name { assert IdColumn in Fields; }
      else if n == LoginColumn.name { assert LoginColumn in Fields; }
      else if n == PasswordColumn.name { assert PasswordColumn in Fields; }
      else if n == FirstNameColumn.name { assert FirstNameColumn in Fields; }
      else if n == LastNameColumn.name { assert LastNameColumn in Fields; }
      else if n == CreatedAtColumn.name { assert CreatedAtColumn in Fields; }
      else if n == IsActiveColumn.name { assert IsActiveColumn in Fields; }
      else { assert TestBoolColumn in Fields; }
    }
  }

  /** `User(**kwargs)`: the given attributes, and the default of every model field not given. */
  function Instantiate(kwargs: Dict): (user: Dict)
    requires kwargs.Keys <= Defaults().Keys
    ensures forall n :: n in kwargs ==> n in user && user[n] == kwargs[n]
    ensures forall n :: n in user && n !in kwargs ==> n in Defaults() && user[n] == Defaults()[n]
    ensures user.Keys == kwargs.Keys + Defaults().Keys
  {
    Defaults() + kwargs
  }

  /** An instance made without a password, activity flag or test flag has an empty password, is active, and has no test flag. */
  lemma InstantiateDefaults(kwargs: Dict)
    requires kwargs.Keys <= Defaults().Keys
    requires "password" !in kwargs && "is_active" !in kwargs && "test_bool" !in kwargs
    ensures Instantiate(kwargs)["password"] == Str("")
    ensures Instantiate(kwargs)["is_active"] == Bool(true)
    ensures Instantiate(kwargs)["test_bool"] == Null
  {
    assert PasswordColumn in Fields && IsActiveColumn in Fields && TestBoolColumn in Fields;
  }
}
