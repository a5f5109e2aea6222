/**
 * The v1 user serializers of api/user/serializers.py: three field schemas derived from one
 * base (create, update, read), the ja/nein validator of `test_bool`, and the read-side
 * rewrite of `test_bool` back to 'ja' / 'nein'.
 */
module UserSerializers {
  import opened Wrappers
  import opened Text
  import opened Values
  import opened BooleanCodec
  import opened Schema

  const TestBoolMessage := "test_bool must be 'ja' or 'nein'"

  /** `UserBaseSerializer`: everything optional; `test_bool` is nullable text without a length limit. */
  const BaseFields: FieldMap := map[
    "id" := ReadOnlyField(IntegerField),
    "login" := CharField(100, false, false),
    "first_name" := CharField(100, false, false),
    "last_name" := CharField(100, false, false),
    "created_at" := ReadOnlyField(DateTimeField),
    "is_active" := ReadOnlyDefault(BooleanField, Bool(true)),
    "test_bool" := NullableField(TextField)]

  /** `UserCreateSerializer`: login, a write-only password of at most 64 characters, and both names are required. */
  const CreateFields: FieldMap := BaseFields + map[
    "login" := CharField(100, true, false),
    "password" := CharField(64, true, true),
    "first_name" := CharField(100, true, false),
    "last_name" := CharField(100, true, false)]

  /** `UserUpdateSerializer`: password and names optional, and no login field at all (`login = None`). */
  const UpdateFields: FieldMap := (BaseFields + map[
    "password" := CharField(64, false, true),
    "first_name" := CharField(100, false, false),
    "last_name" := CharField(100, false, false)]) - {"login"}

  /** `UserReadSerializer`: the base fields, with no password. */
  const ReadFields: FieldMap := BaseFields

  /** `validate_test_bool`: `None` stays `None`; 'ja' in any case is true, 'nein' in any case false; anything else is an error. */
  function ValidateTestBool(value: Option<string>): (r: Result<Option<bool>, string>)
    ensures value.None? ==> r == Ok(None)
    ensures value.Some? ==> (r == Ok(Some(true)) <==> Lower(value.value) == "ja")
    ensures value.Some? ==> (r == Ok(Some(false)) <==> Lower(value.value) == "nein")
    ensures r.Err? <==> value.Some? && Lower(value.value) !in {"ja", "nein"}
    ensures r.Err? ==> r.error == TestBoolMessage
  {
    match value
    case None => Ok(None)
    case Some(s) =>
      match Decode(JaNein, s)
      case Some(b) => Ok(Some(b))
      case None => Err(TestBoolMessage)
  }

  /**
   * The field-validator hook: once `test_bool` has passed its text field, `validate_test_bool`
   * replaces it by its truth value or turns it into an error on `test_bool`.
   */
  function ApplyTestBoolValidator(c: Checked): (r: Checked)
    ensures r.validated - {"test_bool"} == c.validated - {"test_bool"}
    ensures r.errors - {"test_bool"} == c.errors - {"test_bool"}
    ensures "test_bool" !in c.validated || !c.validated["test_bool"].Str? ==> r == c
    ensures "test_bool" in c.validated && c.validated["test_bool"].Str? && Lower(c.validated["test_bool"].s) in {"ja", "nein"} ==>
      r.errors == c.errors && "test_bool" in r.validated &&
      r.validated["test_bool"] == Bool(Lower(c.validated["test_bool"].s) == "ja")
    ensures "test_bool" in c.validated && c.validated["test_bool"].Str? && Lower(c.validated["test_bool"].s) !in {"ja", "nein"} ==>
      "test_bool" !in r.validated && "test_bool" in r.errors && r.errors["test_bool"] == Invalid(TestBoolMessage)
  {
    if "test_bool" !in c.validated then c
    else
      match c.validated["test_bool"]
      case Str(s) =>
        (match ValidateTestBool(Some(s))
         case Ok(b) => c.(validated := c.validated["test_bool" := if b.Some? then Bool(b.value) else Null])
         case Err(m) => Checked(c.validated - {"test_bool"}, c.errors["test_bool" := Invalid(m)]))
      case _ => c
  }

  /** A `test_bool` that passed its text field as a string is 'ja' or 'nein' in some case. */
  predicate TestBoolAccepted(validated: Dict)
  {
    "test_bool" in validated && validated["test_bool"].Str? ==> Lower(validated["test_bool"].s) in {"ja", "nein"}
  }

  /**
   * `is_valid()` of a v1 serializer: the fields, then the `test_bool` validator; there is no
   * object-level rule. It succeeds exactly when every field does and `test_bool` is 'ja' or
   * 'nein'; the errors are the fields' and the validator's.
   */
  function Validate(schema: FieldMap, data: Dict, partial: bool): (r: Result<Dict, Errors>)
    ensures r.Ok? <==> Schema.Validate(schema, data, partial).Ok? && TestBoolAccepted(Run(schema, data, partial).validated)
    ensures r.Ok? ==> r.value == ApplyTestBoolValidator(Run(schema, data, partial)).validated
    ensures r.Err? ==> r.error == ApplyTestBoolValidator(Run(schema, data, partial)).errors && r.error != map[]
    ensures r.Ok? ==> r.value.Keys <= schema.Keys * data.Keys
    ensures r.Ok? ==> Schema.Validate(schema, data, partial).Ok?
    ensures r.Ok? ==> forall n :: n in r.value && n != "test_bool" ==>
                        n in Run(schema, data, partial).validated && r.value[n] == Run(schema, data, partial).validated[n]
  {
    var c := ApplyTestBoolValidator(Run(schema, data, partial));
    if c.errors == map[] then Ok(c.validated) else Err(c.errors)
  }

  /** The declared flags of the create schema. */
  lemma CreateFieldsFacts()
    ensures CreateFields.Keys == {"id", "login", "password", "first_name", "last_name", "created_at", "is_active", "test_bool"}
    ensures CreateFields["login"] == CharField(100, true, false)
    ensures CreateFields["password"] == CharField(64, true, true)
    ensures CreateFields["first_name"] == CharField(100, true, false)
    ensures CreateFields["last_name"] == CharField(100, true, false)
    ensures CreateFields["test_bool"] == NullableField(TextField)
    ensures CreateFields["id"].readOnly && CreateFields["created_at"].readOnly && CreateFields["is_active"].readOnly
  {
  }

  /** The create schema's `test_bool` is the base's nullable text field. */
  lemma CreateTestBoolField()
    ensures "test_bool" in CreateFields && CreateFields["test_bool"] == NullableField(TextField)
  {
  }

  /** The declared flags of the update schema: nothing is required. */
  lemma UpdateFieldsFacts()
    ensures UpdateFields.Keys == {"id", "password", "first_name", "last_name", "created_at", "is_active", "test_bool"}
    ensures UpdateFields["password"] == CharField(64, false, true)
    ensures UpdateFields["first_name"] == CharField(100, false, false)
    ensures UpdateFields["last_name"] == CharField(100, false, false)
    ensures UpdateFields["test_bool"] == NullableField(TextField)
    ensures forall n :: n in UpdateFields ==> !UpdateFields[n].required
  {
    assert UpdateFields["id"].readOnly && UpdateFields["created_at"].readOnly && UpdateFields["is_active"].readOnly;
  }

  /** The text fields of the create schema. */
  lemma CreateTextFields()
    ensures "login" in CreateFields && CreateFields["login"] == CharField(100, true, false)
    ensures "password" in CreateFields && CreateFields["password"] == CharField(64, true, true)
    ensures "first_name" in CreateFields && CreateFields["first_name"] == CharField(100, true, false)
    ensures "last_name" in CreateFields && CreateFields["last_name"] == CharField(100, true, false)
  {
    CreateFieldsFacts();
  }

  /** The text fields of the update schema. */
  lemma UpdateTextFields()
    ensures "password" in UpdateFields && UpdateFields["password"] == CharField(64, false, true)
    ensures "first_name" in UpdateFields && UpdateFields["first_name"] == CharField(100, false, false)
    ensures "last_name" in UpdateFields && UpdateFields["last_name"] == CharField(100, false, false)
  {
    UpdateFieldsFacts();
  }

  /** On a schema whose `test_bool` is nullable text, a validated `test_bool` is `None` or a bool. */
  lemma TestBoolDecoded(schema: FieldMap, data: Dict, partial: bool)
    requires "test_bool" in schema && schema["test_bool"] == NullableField(TextField)
    requires Validate(schema, data, partial).Ok? && "test_bool" in Validate(schema, data, partial).value
    ensures Validate(schema, data, partial).value["test_bool"] in {Null, Bool(true), Bool(false)}
  {
    var c := Run(schema, data, partial);
    assert "test_bool" in c.validated;
    var v := c.validated["test_bool"];
    assert v.Str? || v == Null;
  }

  /**
   * On a schema whose `test_bool` is nullable text, a string given for `test_bool` that is
   * not blank is stripped by its text field and then validated: when it is 'ja' or 'nein' in
   * any case, the validation succeeds exactly when every field does, and gives true or false;
   * any other string makes the validation fail on `test_bool` with the validator's message.
   */
  lemma TestBoolValidated(schema: FieldMap, data: Dict, partial: bool)
    requires "test_bool" in schema && schema["test_bool"] == NullableField(TextField)
    requires "test_bool" in data && data["test_bool"].Str? && Strip(data["test_bool"].s) != ""
    ensures Lower(Strip(data["test_bool"].s)) in {"ja", "nein"} ==>
      (Validate(schema, data, partial).Ok? <==> Schema.Validate(schema, data, partial).Ok?)
    ensures Lower(Strip(data["test_bool"].s)) in {"ja", "nein"} && Validate(schema, data, partial).Ok? ==>
      "test_bool" in Validate(schema, data, partial).value &&
      Validate(schema, data, partial).value["test_bool"] == Bool(Lower(Strip(data["test_bool"].s)) == "ja")
    ensures Lower(Strip(data["test_bool"].s)) !in {"ja", "nein"} ==>
      Validate(schema, data, partial).Err? && "test_bool" in Validate(schema, data, partial).error &&
      Validate(schema, data, partial).error["test_bool"] == Invalid(TestBoolMessage)
  {
    var t := Str(Strip(data["test_bool"].s));
    var f := schema["test_bool"];
    assert ToInternal(f, data["test_bool"]) == Accepted(t);
    assert RunField(f, "test_bool", data, partial) == Accepted(t);
    var c := Run(schema, data, partial);
    assert "test_bool" in c.validated && c.validated["test_bool"] == t;
    var r := ApplyTestBoolValidator(c);
    if Lower(t.s) !in {"ja", "nein"} {
      assert "test_bool" in r.errors && r.errors["test_bool"] == Invalid(TestBoolMessage);
      assert r.errors != map[];
    }
  }

  /**
   * A create giving `' ja '` succeeds exactly when every field does, and then validates
   * `test_bool` to true: the text field strips it first.
   */
  lemma CreateDecodesPaddedJa(data: Dict)
    requires "test_bool" in data && data["test_bool"] == Str(" ja ")
    ensures Validate(CreateFields, data, false).Ok? <==> Schema.Validate(CreateFields, data, false).Ok?
    ensures Validate(CreateFields, data, false).Ok? ==>
      "test_bool" in Validate(CreateFields, data, false).value &&
      Validate(CreateFields, data, false).value["test_bool"] == Bool(true)
  {
    CreateTestBoolField();
    Text.PaddedJaStrips();
    TestBoolValidated(CreateFields, data, false);
  }


  /** A create giving `'NEIN'` succeeds exactly when every field does, and then validates `test_bool` to false. */
  lemma CreateDecodesNein(data: Dict)
    requires "test_bool" in data && data["test_bool"] == Str("NEIN")
    ensures Validate(CreateFields, data, false).Ok? <==> Schema.Validate(CreateFields, data, false).Ok?
    ensures Validate(CreateFields, data, false).Ok? ==>
      "test_bool" in Validate(CreateFields, data, false).value &&
      Validate(CreateFields, data, false).value["test_bool"] == Bool(false)
  {
    CreateTestBoolField();
    Text.UnpaddedTokens();
    TestBoolValidated(CreateFields, data, false);
  }

  /** A create giving `'maybe'` fails on `test_bool` with the validator's message. */
  lemma CreateRejectsMaybe(data: Dict)
    requires "test_bool" in data && data["test_bool"] == Str("maybe")
    ensures Validate(CreateFields, data, false).Err?
    ensures "test_bool" in Validate(CreateFields, data, false).error
    ensures Validate(CreateFields, data, false).error["test_bool"] == Invalid(TestBoolMessage)
  {
    CreateTestBoolField();
    Text.UnpaddedTokens();
    TestBoolValidated(CreateFields, data, false);
  }

  /** A create without login, password, first or last name fails on that field. */
  lemma CreateRequires(data: Dict, name: string)
    requires name in {"login", "password", "first_name", "last_name"}
    requires name !in data
    ensures Validate(CreateFields, data, false).Err?
    ensures name in Validate(CreateFields, data, false).error
    ensures Validate(CreateFields, data, false).error[name] == Required
  {
    CreateTextFields();
    var c := Run(CreateFields, data, false);
    assert RunField(CreateFields[name], name, data, false) == Rejected(Required);
    assert name in c.errors && c.errors[name] == Required;
    var r := ApplyTestBoolValidator(c);
    assert name in r.errors - {"test_bool"};
  }

  /** `data` gives `name` as a string that is not blank and, once stripped, within `limit` characters. */
  predicate GivenText(data: Dict, name: string, limit: nat)
  {
    name in data && data[name].Str? && Strip(data[name].s) != "" && |Strip(data[name].s)| <= limit
  }

  /** A non-null text field given such a string accepts it, stripped. */
  lemma GivenTextAccepted(f: Field, name: string, data: Dict, partial: bool, limit: nat)
    requires !f.readOnly && f.kind == TextField && f.maxLength == Some(limit)
    requires GivenText(data, name, limit)
    ensures RunField(f, name, data, partial) == Accepted(Str(Strip(data[name].s)))
  {
  }

  /** The data of `CreateAccepts`: login, password and names given, and `test_bool` absent, `None`, or 'ja' / 'nein'. */
  predicate GoodCreate(data: Dict)
  {
    (forall n :: n in CreateTexts ==> GivenText(data, n, LengthLimit(n))) &&
    ("test_bool" in data ==>
      data["test_bool"] == Null || (data["test_bool"].Str? && Lower(Strip(data["test_bool"].s)) in {"ja", "nein"}))
  }

  /** The v1 text fields a create gives. */
  const CreateTexts: set<string> := {"login", "password", "first_name", "last_name"}

  /** A schema laid out like the create schema: the limited text fields, nullable text `test_bool`, and read-only others. */
  predicate CreateShaped(schema: FieldMap)
  {
    (forall n :: n in CreateTexts ==>
      n in schema && !schema[n].readOnly && schema[n].kind == TextField && schema[n].maxLength == Some(LengthLimit(n))) &&
    "test_bool" in schema && schema["test_bool"] == NullableField(TextField) &&
    (forall n :: n in schema && n !in CreateTexts && n != "test_bool" ==> schema[n].readOnly)
  }

  /** The create schema is laid out so. */
  lemma CreateIsShaped()
    ensures CreateShaped(CreateFields)
  {
    CreateTextFields();
    forall n | n in CreateFields && n !in CreateTexts && n != "test_bool"
      ensures CreateFields[n].readOnly
    {
      CreateOthersReadOnly(n);
    }
  }

  /** The create fields other than the text fields and `test_bool` are read-only. */
  lemma CreateOthersReadOnly(n: string)
    requires n in CreateFields && n !in {"login", "password", "first_name", "last_name", "test_bool"}
    ensures CreateFields[n].readOnly
  {
    CreateFieldsFacts();
  }

  /** On such a schema and such data, the outcome of the field `n`. */
  lemma GoodField(schema: FieldMap, data: Dict, n: string)
    requires CreateShaped(schema) && GoodCreate(data) && n in schema
    ensures !RunField(schema[n], n, data, false).Rejected?
    ensures RunField(schema[n], n, data, false).Accepted? <==> n in CreateTexts || (n == "test_bool" && n in data)
    ensures n in CreateTexts ==> RunField(schema[n], n, data, false) == Accepted(Str(Strip(data[n].s)))
    ensures n == "test_bool" && n in data && data[n] == Null ==> RunField(schema[n], n, data, false) == Accepted(Null)
  {
    if n in CreateTexts {
      GivenTextAccepted(schema[n], n, data, false, LengthLimit(n));
    } else if n == "test_bool" {
      GoodTestBool(schema[n], data);
    } else {
      assert RunField(schema[n], n, data, false) == Skipped;
    }
  }

  /** A `test_bool` absent, `None`, or 'ja' / 'nein' passes its text field, as `None` or stripped text. */
  lemma GoodTestBool(f: Field, data: Dict)
    requires f == NullableField(TextField)
    requires "test_bool" in data ==>
      data["test_bool"] == Null || (data["test_bool"].Str? && Lower(Strip(data["test_bool"].s)) in {"ja", "nein"})
    ensures "test_bool" !in data ==> RunField(f, "test_bool", data, false) == Skipped
    ensures "test_bool" in data && data["test_bool"] == Null ==> RunField(f, "test_bool", data, false) == Accepted(Null)
    ensures "test_bool" in data && data["test_bool"] != Null ==>
      data["test_bool"].Str? && RunField(f, "test_bool", data, false) == Accepted(Str(Strip(data["test_bool"].s)))
  {
    if "test_bool" in data && data["test_bool"] != Null {
      var v := data["test_bool"];
      assert Strip(v.s) != "";
      assert ToInternal(f, v) == Accepted(Str(Strip(v.s)));
    }
  }

  /** On such a schema and such data, no field fails, and exactly the given text fields and `test_bool` are validated. */
  lemma GoodRun(schema: FieldMap, data: Dict)
    requires CreateShaped(schema) && GoodCreate(data)
    ensures Run(schema, data, false).errors == map[]
    ensures Run(schema, data, false).validated.Keys == CreateTexts + (if "test_bool" in data then {"test_bool"} else {})
    ensures forall n :: n in CreateTexts ==> Run(schema, data, false).validated[n] == Str(Strip(data[n].s))
    ensures "test_bool" in data && data["test_bool"] == Null ==> Run(schema, data, false).validated["test_bool"] == Null
  {
    GoodRunErrors(schema, data);
    GoodRunKeys(schema, data);
    GoodRunTexts(schema, data);
    if "test_bool" in data && data["test_bool"] == Null {
      GoodTestBool(schema["test_bool"], data);
    }
  }

  /** On such a schema and such data, no field fails. */
  lemma GoodRunErrors(schema: FieldMap, data: Dict)
    requires CreateShaped(schema) && GoodCreate(data)
    ensures Run(schema, data, false).errors == map[]
  {
    var c := Run(schema, data, false);
    if c.errors != map[] {
      var n :| n in c.errors;
      GoodField(schema, data, n);
      assert false;
    }
  }

  /** On such a schema and such data, exactly the given text fields and `test_bool` are validated. */
  lemma GoodRunKeys(schema: FieldMap, data: Dict)
    requires CreateShaped(schema) && GoodCreate(data)
    ensures Run(schema, data, false).validated.Keys == CreateTexts + (if "test_bool" in data then {"test_bool"} else {})
  {
    GoodRunValidatesOnly(schema, data);
    GoodRunValidatesAll(schema, data);
  }

  /** On such a schema and such data, only the given text fields and `test_bool` are validated. */
  lemma GoodRunValidatesOnly(schema: FieldMap, data: Dict)
    requires CreateShaped(schema) && GoodCreate(data)
    ensures forall n :: n in Run(schema, data, false).validated ==> n in CreateTexts || n == "test_bool"
  {
    forall n | n in Run(schema, data, false).validated
      ensures n in CreateTexts || n == "test_bool"
    {
      GoodField(schema, data, n);
    }
  }

  /** On such a schema and such data, the given text fields and `test_bool` are all validated. */
  lemma GoodRunValidatesAll(schema: FieldMap, data: Dict)
    requires CreateShaped(schema) && GoodCreate(data)
    ensures CreateTexts <= Run(schema, data, false).validated.Keys
    ensures "test_bool" in data <==> "test_bool" in Run(schema, data, false).validated
  {
    forall n | n in CreateTexts
      ensures n in Run(schema, data, false).validated
    {
      GoodField(schema, data, n);
    }
    GoodField(schema, data, "test_bool");
  }

  /** On such a schema and such data, the text fields are validated as the stripped strings. */
  lemma GoodRunTexts(schema: FieldMap, data: Dict)
    requires CreateShaped(schema) && GoodCreate(data)
    ensures forall n :: n in CreateTexts ==> n in Run(schema, data, false).validated && Run(schema, data, false).validated[n] == Str(Strip(data[n].s))
  {
    forall n | n in CreateTexts
      ensures n in Run(schema, data, false).validated && Run(schema, data, false).validated[n] == Str(Strip(data[n].s))
    {
      GoodField(schema, data, n);
    }
  }

  /**
   * A create that gives login, password and both names as non-blank strings within their
   * limits, and `test_bool` absent, `None`, or 'ja' / 'nein' in any case and padding, is
   * accepted: the text fields are stripped and `test_bool` becomes its truth value.
   */
  lemma CreateAccepts(data: Dict)
    requires GoodCreate(data)
    ensures Validate(CreateFields, data, false).Ok?
    ensures Validate(CreateFields, data, false).value.Keys ==
      {"login", "password", "first_name", "last_name"} + (if "test_bool" in data then {"test_bool"} else {})
    ensures Validate(CreateFields, data, false).value["login"] == Str(Strip(data["login"].s))
    ensures Validate(CreateFields, data, false).value["password"] == Str(Strip(data["password"].s))
    ensures Validate(CreateFields, data, false).value["first_name"] == Str(Strip(data["first_name"].s))
    ensures Validate(CreateFields, data, false).value["last_name"] == Str(Strip(data["last_name"].s))
    ensures "test_bool" in data && data["test_bool"] != Null ==>
      Validate(CreateFields, data, false).value["test_bool"] == Bool(Lower(Strip(data["test_bool"].s)) == "ja")
  {
    CreateIsShaped();
    ShapedAccepts(CreateFields, data);
  }

  /** `CreateAccepts` on any schema laid out like the create schema. */
  lemma ShapedAccepts(schema: FieldMap, data: Dict)
    requires CreateShaped(schema) && GoodCreate(data)
    ensures Validate(schema, data, false).Ok?
    ensures Validate(schema, data, false).value.Keys == CreateTexts + (if "test_bool" in data then {"test_bool"} else {})
    ensures forall n :: n in CreateTexts ==> Validate(schema, data, false).value[n] == Str(Strip(data[n].s))
    ensures "test_bool" in data && data["test_bool"] != Null ==>
      Validate(schema, data, false).value["test_bool"] == Bool(Lower(Strip(data["test_bool"].s)) == "ja")
  {
    var c := Run(schema, data, false);
    GoodRun(schema, data);
    if "test_bool" in data && data["test_bool"] != Null {
      GoodTestBool(schema["test_bool"], data);
      assert c.validated["test_bool"] == Str(Strip(data["test_bool"].s));
    }
    assert TestBoolAccepted(c.validated);
    ValidatorOnClean(c);
  }

  /** The validator keeps a clean pass clean when `test_bool` is 'ja' or 'nein', changing only `test_bool`. */
  lemma ValidatorOnClean(c: Checked)
    requires c.errors == map[] && TestBoolAccepted(c.validated)
    ensures ApplyTestBoolValidator(c).errors == map[]
    ensures ApplyTestBoolValidator(c).validated.Keys == c.validated.Keys
    ensures forall n :: n in c.validated && n != "test_bool" ==> ApplyTestBoolValidator(c).validated[n] == c.validated[n]
    ensures "test_bool" in c.validated && c.validated["test_bool"].Str? ==>
      ApplyTestBoolValidator(c).validated["test_bool"] == Bool(Lower(c.validated["test_bool"].s) == "ja")
  {
    var r := ApplyTestBoolValidator(c);
    SameKeysApart(r.validated, c.validated, "test_bool");
    forall n | n in c.validated && n != "test_bool"
      ensures r.validated[n] == c.validated[n]
    {
      assert n in r.validated - {"test_bool"};
    }
  }

  /** Two dictionaries that agree once `k` is removed, and both have `k` or both lack it, have the same keys. */
  lemma SameKeysApart(a: Dict, b: Dict, k: string)
    requires a - {k} == b - {k}
    requires k in a <==> k in b
    ensures a.Keys == b.Keys
  {
    forall x
      ensures x in a <==> x in b
    {
      if x != k {
        assert x in a <==> x in a - {k};
        assert x in b <==> x in b - {k};
      }
    }
  }

  /** An update never reports a missing field, and never carries a login. */
  lemma UpdateOptional(data: Dict, partial: bool, name: string)
    ensures "login" !in UpdateFields
    ensures Validate(UpdateFields, data, partial).Ok? ==> "login" !in Validate(UpdateFields, data, partial).value
    ensures Validate(UpdateFields, data, partial).Err? && name in Validate(UpdateFields, data, partial).error ==>
      Validate(UpdateFields, data, partial).error[name] != Required
  {
    UpdateFieldsFacts();
    var c := Run(UpdateFields, data, partial);
    if name in c.errors {
      assert !UpdateFields[name].required;
    }
  }

  /** A validated value of a non-null text field other than `test_bool` is a string within the field's limit. */
  lemma TextLimit(schema: FieldMap, data: Dict, partial: bool, name: string, limit: nat)
    requires name != "test_bool" && name in schema
    requires schema[name].kind == TextField && !schema[name].allowNull && schema[name].maxLength == Some(limit)
    requires Validate(schema, data, partial).Ok? && name in Validate(schema, data, partial).value
    ensures Validate(schema, data, partial).value[name].Str?
    ensures |Validate(schema, data, partial).value[name].s| <= limit
  {
    var c := Run(schema, data, partial);
    var r := ApplyTestBoolValidator(c);
    assert name in r.validated - {"test_bool"};
    assert r.validated[name] == (c.validated - {"test_bool"})[name];
    TextWithinLimit(schema, data, partial, name);
  }

  /** A v1 text field of the given limit: non-null text with that maximum length. */
  predicate LimitedText(schema: FieldMap, name: string, limit: nat)
  {
    name in schema ==>
      schema[name].kind == TextField && !schema[name].allowNull && schema[name].maxLength == Some(limit)
  }

  /** The declared maximum length of the v1 text fields: 64 for the password, 100 for login and the names. */
  function LengthLimit(name: string): nat
  {
    if name == "password" then 64 else 100
  }

  /** Validated login and names are at most 100 characters and the password at most 64, on any schema declaring them so. */
  lemma LengthLimits(schema: FieldMap, data: Dict, partial: bool)
    requires forall n :: n in {"login", "password", "first_name", "last_name"} ==> LimitedText(schema, n, LengthLimit(n))
    requires Validate(schema, data, partial).Ok?
    ensures forall n :: n in {"login", "password", "first_name", "last_name"} && n in Validate(schema, data, partial).value ==>
      Validate(schema, data, partial).value[n].Str? && |Validate(schema, data, partial).value[n].s| <= LengthLimit(n)
  {
    var v := Validate(schema, data, partial).value;
    forall n | n in {"login", "password", "first_name", "last_name"} && n in v
      ensures v[n].Str? && |v[n].s| <= LengthLimit(n)
    {
      TextLimit(schema, data, partial, n, LengthLimit(n));
    }
  }

  /** The create and update schemas declare login and names of at most 100 characters and a password of at most 64. */
  lemma V1SchemasLimited()
    ensures forall n :: n in {"login", "password", "first_name", "last_name"} ==> LimitedText(CreateFields, n, LengthLimit(n))
    ensures forall n :: n in {"login", "password", "first_name", "last_name"} ==> LimitedText(UpdateFields, n, LengthLimit(n))
  {
    CreateTextFields();
    UpdateTextFields();
    UpdateFieldsFacts();
  }

  /** The password is write-only: it never appears in an output, and the read schema has no password field. */
  lemma PasswordHidden(instance: Dict)
    ensures "password" !in ReadFields
    ensures "password" !in Represent(CreateFields, instance)
    ensures "password" !in Represent(UpdateFields, instance)
    ensures "password" !in ToRepresentation(instance)
  {
  }

  /** Lines 43-44 on a bool or `None`: `None` stays `None`, a truthy value reads 'ja', a falsy one 'nein'. */
  function ReadTestBool(v: Value): (r: Value)
    ensures v == Null <==> r == Null
    ensures v != Null ==> r == Str(if Truthy(v) then "ja" else "nein")
  {
    if v == Null then Null else Str(Encode(JaNein, Truthy(v)))
  }

  /** `UserReadSerializer.to_representation`: the read fields, with a non-null `test_bool` rewritten to 'ja' / 'nein'. */
  function ToRepresentation(instance: Dict): (out: Dict)
    ensures out.Keys == Represent(ReadFields, instance).Keys
    ensures forall n :: n in out && n != "test_bool" ==> out[n] == Represent(ReadFields, instance)[n]
    ensures "test_bool" in out ==> out["test_bool"] == ReadTestBool(Get(instance, "test_bool"))
  {
    var data := Represent(ReadFields, instance);
    if "test_bool" in data && data["test_bool"] != Null then data["test_bool" := ReadTestBool(data["test_bool"])]
    else data
  }

  /** Decoding a ja/nein token in any case and reading it back gives the lower-case token. */
  lemma TestBoolRoundTrip(s: string)
    requires Lower(s) in {"ja", "nein"}
    ensures ValidateTestBool(Some(s)).Ok?
    ensures ReadTestBool(Bool(ValidateTestBool(Some(s)).value.value)) == Str(Lower(s))
  {
  }

  /** A stored bool is read back as its token, and the token validates to the same bool. */
  lemma ReadThenValidate(b: bool)
    ensures ReadTestBool(Bool(b)) == Str(if b then "ja" else "nein")
    ensures ValidateTestBool(Some(ReadTestBool(Bool(b)).s)) == Ok(Some(b))
  {
    VocabulariesWellFormed();
    DecodeEncode(JaNein, b);
  }

  /**
   * Lines 43-44 as they run on a stored bool: the `test_bool` field is declared as text, so
   * the base representation has already turned the bool into its `str()` form, 'True' or
   * 'False' — and both are non-empty, hence truthy.
   */
  function ReadTestBoolAsWritten(stored: Option<bool>): (r: Value)
    ensures stored.None? <==> r == Null
  {
    match stored
    case None => Null
    case Some(b) =>
      var shown := Str(if b then "True" else "False");
      Str(if Truthy(shown) then "ja" else "nein")
  }

  /** As written, a stored false reads 'ja', exactly like a stored true. */
  lemma StoredFalseReadsJa()
    ensures ReadTestBoolAsWritten(Some(false)) == Str("ja")
    ensures ReadTestBoolAsWritten(Some(true)) == ReadTestBoolAsWritten(Some(false))
    ensures ReadTestBool(Bool(false)) == Str("nein")
  {
  }
}
