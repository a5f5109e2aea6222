# User record service: serializers, boolean codec and table services

This project models the core of a small Django REST service (`ckuerz/onboarding`) that keeps
one `user` table and exposes it through two API versions. What is modelled:

- **The yes/no field** (`YesNoToBooleanField`). API booleans and their textual aliases
  (`yes/true/1`, `no/false/0`, compared after lower-casing) are stored as the tokens
  `'yes'`/`'no'`. Stored tokens read back as `true` exactly when they lower-case to `'yes'`.
  The same codec, with the `ja`/`nein` vocabulary, models the v1 `validate_test_bool` and its
  read-side rewrite (`BooleanCodec`).
- **Declarative serializers** (`Schema`). A serializer is a name-keyed map of fields with their
  flags: read-only, write-only, required, allow-null, max length and default.
  - Validation checks every field in DRF's order: read-only, absent, null, then conversion.
    Text input is stripped of surrounding whitespace before the blank and length checks.
    It collects all field errors.
  - Only an error-free result goes on to the object-level rule.
  - The output drops write-only fields. A readable field the instance lacks is output as its default, or as `None` when it allows null.
- **The provenance rule** (`BaseSerializer.validate`, `CoreSerializer`).
  - Under PUT or PATCH, a missing or falsy `changed_from` is an error.
  - Under POST, the mere presence of `changed_from` is an error.
  - Every error is keyed `changed_from`. Data that passes comes back unchanged.
- **The v1 and v2 user serializers** (`UserSerializers`, `UserV2Serializers`). These are the
  create, update and read schemas of v1 and the single v2 schema, which inherits the four
  audit fields.
- **The `User` model** (`UserModel`): its columns, the derived set of required fields, and its
  attribute defaults.
- **The `user` table** (`Storage.UserTable`).
  - It is a class holding a map from id to row, the next id, and the server clock.
  - Its methods model INSERT, UPDATE, DELETE and a full SELECT, the last as a loop over the
    ids.
  - Both API versions write the same table, so a row carries the columns of both.
- **The services** (`UserV2Services`, `UserServices`). They are methods over the table.
  - A missing input key raises `KeyError` in the order the source reads the keys.
  - A failing statement is re-raised as `DatabaseError`, never turned into a return value.
  - `timezone.now()` reads the table's clock, which moves forward by a caller-supplied amount.
  - `make_password` is a function parameter.

Behaviour of the code worth noting:

- v2 `update_user` overwrites every column it names and clears `str_bool` when it is absent.
  It does not build a partial statement from the keys supplied.
- v2 `delete_user` is a hard delete with no active filter. No service does a soft delete.
- v1 `get_all_users` lists inactive rows too.
- v2 `create_user` reads the clock twice. So `created_at <= changed_at`, not equality.
- The v2 views build `UserV2Serializer(data=...)` without a request in the serializer context (api/user_v2/views.py:42, :134). So in the running service the provenance rule never fires: that is the no-request case of `CoreSerializer.OtherMethodsPass`. The model takes the request as a parameter and also states the rule for PUT, PATCH and POST.

## Model

| member | source | states |
|---|---|---|
| Values.Truthy | api/core/serializer.py:14 | Python truthiness: falsy exactly for `None`, `False`, `0` and `''` |
| Values.Get | api/core/serializer.py:14 | `dict.get`: an absent key reads `None`, a present one its value |
| Text.Lower | api/core/serializer_fields.py:21 | `str.lower()`: same length, each upper-case ASCII letter replaced by its lower-case form and every other character kept |
| Text.LowerIsLowerCase | api/core/serializer_fields.py:33 | a lower-cased string has no upper-case letter |
| Text.TrimStart | api/core/serializer.py:6 | `lstrip()`: a suffix of the input, with only whitespace removed and no whitespace at its start |
| Text.TrimEnd | api/core/serializer.py:6 | `rstrip()`: a prefix of the input, with only whitespace removed and no whitespace at its end |
| Text.Strip | api/core/serializer.py:6 | `strip()`: the input with only whitespace removed before and after it; empty iff the input is all whitespace; otherwise it neither starts nor ends with whitespace, and an input that already does not is kept |
| Text.StripIdempotent | api/core/serializer.py:6 | stripping twice is stripping once |
| BooleanCodec.Decode | api/core/serializer_fields.py:33-37 | true iff the lower-cased token is an affirmative alias; false iff it is a negative alias and not an affirmative one; no result iff it is neither |
| BooleanCodec.Encode | api/core/serializer_fields.py:30 | true gives the affirmative token, false the negative one |
| BooleanCodec.DecodeEncode | api/core/serializer_fields.py:30-37 | on a well-formed vocabulary, decoding an encoded value gives the value back |
| BooleanCodec.DecodeIgnoresCase | api/core/serializer_fields.py:33 | two tokens equal after lower-casing decode alike |
| BooleanCodec.DecodeWithoutAliases | api/user/serializers.py:16-19 | with no aliases, a decoded token re-encodes to its own lower-case form |
| BooleanCodec.VocabulariesWellFormed | api/core/serializer_fields.py:34-37 | yes/no and ja/nein: canonical tokens are lower-case aliases of their own value, and no alias is shared |
| CoreSerializerFields.ToInternalValue | api/core/serializer_fields.py:23-39 | accepted iff `None`, a bool, or a string that lower-cases to an alias; the result is `None`, `'yes'` or `'no'`; a rejection carries the source's message |
| CoreSerializerFields.ToRepresentation | api/core/serializer_fields.py:17-21 | `None` stays `None`; a stored string reads true iff it lower-cases to `'yes'` |
| CoreSerializerFields.BoolEncodes | api/core/serializer_fields.py:29-30 | a bool is stored as `'yes'`/`'no'` |
| CoreSerializerFields.AliasesEncode | api/core/serializer_fields.py:32-37 | each alias in any case is stored as its canonical token |
| CoreSerializerFields.RejectsUnknown | api/core/serializer_fields.py:32-39 | `TRUE` and `No` are accepted; `maybe` and every int are rejected with the message |
| CoreSerializerFields.ToInternalValueIdempotent | api/core/serializer_fields.py:23-39 | a stored value fed back in is returned unchanged |
| CoreSerializerFields.RoundTrip | api/core/serializer_fields.py:17-30 | reading back what a bool was stored as gives the bool |
| CoreSerializerFields.AliasRoundTrip | api/core/serializer_fields.py:17-37 | an accepted alias reads back as the value it decodes to |
| CoreSerializerFields.OnlyYesReadsTrue | api/core/serializer_fields.py:21 | `'YES'` reads true; `'no'`, `'true'` and unknown strings read false |
| Schema.ToInternal | api/core/serializer.py:6-8 | text: blank iff a string that is empty once stripped; a bool or date-time is not a string; a string is accepted as its stripped form iff that is within the max length, an int as its `str()` on the same condition; yes/no: accepted iff the yes/no field accepts the value, as the token the field returns, else rejected with the field's message; the other kinds accept the value as given |
| Schema.RunField | api/core/serializer.py:5-8 | a read-only field is skipped; `Required` is reported iff a writable required field is absent outside a partial validation, and any other absent field is skipped; a null is accepted where the field allows null and is `NotNull` otherwise; any other given value gets its field's conversion |
| Schema.Run | api/user_v2/serializers.py:5-12 | every field's outcome lands in the validated map or the error map, never both; skipped fields are in neither |
| Schema.Validate | api/user_v2/serializers.py:5-12 | success iff no field failed; on success the validated map, otherwise the non-empty error map |
| Schema.MissingRequiredRejected | api/core/serializer.py:6 | an absent required writable field fails a non-partial validation, keyed by that field |
| Schema.PartialRequiresNothing | api/core/serializer.py:8 | a partial validation never reports a field as missing |
| Schema.ReadOnlyIgnored | api/core/serializer.py:5 | read-only fields never reach the validated data or the errors |
| Schema.TextWithinLimit | api/core/serializer.py:6 | a validated non-null text value is a non-empty string within the declared max length |
| Schema.YesNoValidatedIsToken | api/user_v2/serializers.py:12 | a validated yes/no value is `None`, `'yes'` or `'no'` |
| Schema.WritablePresence | api/core/serializer.py:8 | after a successful validation a writable field is validated iff the input has it |
| Schema.NatDigits | api/core/serializer.py:6-8 | the decimal digits of a natural number, with no leading zero, denoting that number |
| Schema.DecimalString | api/core/serializer.py:6-8 | `str(int)`: the digits denoting the number's magnitude, after a minus sign exactly for negative numbers |
| Schema.RepresentField | api/core/serializer_fields.py:17-21 | a `None` value is output as `None`; a yes/no string is output as the yes/no field reads it back; every other value is output as it is |
| Schema.Attribute | api/user_v2/serializers.py:11-12 | `get_attribute`: the instance's value; for one the instance lacks, the declared default, else `None` for a nullable field, else nothing |
| Schema.Represent | api/core/serializer.py:6 | the output has exactly the non-write-only declared fields that have an attribute, each converted by its field |
| Schema.AbsentRepresented | api/user_v2/serializers.py:11-12 | a readable field the instance lacks is output as its default if it declares one, else as `None` iff it allows null |
| Schema.WriteOnlyHidden | api/core/serializer.py:6 | a write-only field never appears in the output |
| Schema.YesNoRepresented | api/core/serializer_fields.py:17-21 | a readable yes/no field holding a string is output as whether it lower-cases to `'yes'` |
| CoreSerializer.Validate | api/core/serializer.py:10-20 | data that passes is returned unchanged; an error is keyed `changed_from` alone and arises only under PUT, PATCH or POST |
| CoreSerializer.ReplaceNeedsChangedFrom | api/core/serializer.py:13-15 | under PUT or PATCH, failure iff `changed_from` is absent or falsy |
| CoreSerializer.CreateForbidsChangedFrom | api/core/serializer.py:16-19 | under POST, failure iff `changed_from` is present, even when empty |
| CoreSerializer.OtherMethodsPass | api/core/serializer.py:13-20 | without a request, or under another method, the data passes unchanged |
| CoreSerializer.CreatedFromNotInspected | api/core/serializer.py:10-20 | adding, changing or removing `created_from` never changes whether the rule passes |
| CoreSerializer.BaseFieldFlags | api/core/serializer.py:5-8 | timestamps read-only; `created_from` required and `changed_from` optional, both write-only text of at most 255 |
| UserModel.RequiredFields | api/user/services.py:24-27 | exactly the names of the non-auto-created model fields other than `created_at` |
| UserModel.RequiredFieldsAre | api/user/services.py:24-27 | the required fields are login, password, first and last name, is_active and test_bool |
| UserModel.Nullability | api/user/models.py:7-15 | only `test_bool` is nullable; every text column has a max length |
| UserModel.DeclaredOptions | api/user/models.py:7-19 | the declared lengths, `auto_now_add`, the `True` default of `is_active`, table `user`, unmanaged |
| UserModel.DefaultOf | api/user/models.py:8-12 | a declared default is used; a non-null text column without one defaults to the empty string |
| UserModel.DefaultsCoverFields | api/user/models.py:5-15 | the default attributes are exactly the model fields, each with its default |
| UserModel.Defaults | api/user/models.py:7-15 | one attribute per model field: empty strings for the text fields, `None` for `id`, `created_at` and `test_bool`, true for `is_active` |
| UserModel.Instantiate | api/user/services.py:50-56 | `User(**kwargs)` over model field names keeps every given attribute and sets every other field to its default |
| UserModel.InstantiateDefaults | api/user/services.py:50-56 | an instance built without them has an empty password, is active and has no test flag |
| UserSerializers.ValidateTestBool | api/user/serializers.py:13-20 | `None` stays `None`; true iff the value lower-cases to `'ja'`, false iff to `'nein'`; any other value is an error with the source's message |
| UserSerializers.ApplyTestBoolValidator | api/user/serializers.py:13-20 | only `test_bool` is touched; a validated string that lower-cases to `'ja'` or `'nein'` becomes true or false, any other string becomes the validator's error on `test_bool`; a missing or `None` value is left alone |
| UserSerializers.Validate | api/user/serializers.py:3-34 | succeeds iff every field passes and a string `test_bool` is `'ja'` or `'nein'` in some case; on success the validated data is the fields' values after the validator, so only declared fields the input has, each field other than `test_bool` keeping its field-validated value; on failure the errors are the fields' and the validator's |
| UserSerializers.CreateFieldsFacts | api/user/serializers.py:22-27 | the create schema's fields and flags |
| UserSerializers.UpdateFieldsFacts | api/user/serializers.py:29-34 | the update schema's fields; none is required |
| UserSerializers.CreateTextFields | api/user/serializers.py:24-27 | the create schema's text fields and limits |
| UserSerializers.UpdateTextFields | api/user/serializers.py:31-33 | the update schema's text fields and limits |
| UserSerializers.TestBoolDecoded | api/user/serializers.py:11-20 | a validated `test_bool` is `None`, true or false |
| UserSerializers.TestBoolValidated | api/user/serializers.py:11-20 | a `test_bool` string that is not blank is stripped and then validates, for `'ja'` or `'nein'` in any case, exactly when every field passes, to true or false; any other string fails on `test_bool` with the validator's message |
| UserSerializers.CreateDecodesPaddedJa | api/user/serializers.py:11-17 | a create with `' ja '` succeeds exactly when every field passes, and then validates `test_bool` to true, since the text field strips it first |
| UserSerializers.CreateTestBoolField | api/user/serializers.py:11 | the create schema's `test_bool` is the base's optional, nullable text field |
| UserSerializers.CreateDecodesNein | api/user/serializers.py:16-19 | a create with `'NEIN'` succeeds exactly when every field passes, and then validates `test_bool` to false |
| UserSerializers.CreateAccepts | api/user/serializers.py:3-27 | a create giving login, password and names as non-blank strings within 100/64/100/100 characters once stripped, and `test_bool` absent, `None` or `'ja'`/`'nein'`, succeeds with exactly those fields, the text stripped and `test_bool` as its truth value |
| UserSerializers.CreateRejectsMaybe | api/user/serializers.py:20 | a create with `'maybe'` fails on `test_bool` with the validator's message |
| UserSerializers.CreateRequires | api/user/serializers.py:24-27 | a create without login, password or a name fails on that field |
| UserSerializers.UpdateOptional | api/user/serializers.py:29-34 | an update has no login field and never reports a missing field |
| UserSerializers.TextLimit | api/user/serializers.py:6-8 | a validated non-null text field other than `test_bool` is a string within its limit |
| UserSerializers.LengthLimits | api/user/serializers.py:6-8 | validated login and names are at most 100 characters and the password at most 64 |
| UserSerializers.V1SchemasLimited | api/user/serializers.py:22-34 | the create and update schemas declare those limits |
| UserSerializers.PasswordHidden | api/user/serializers.py:25-38 | the read schema has no password, and no output carries one |
| UserSerializers.ReadTestBool | api/user/serializers.py:43-44 | `None` stays `None`; a truthy value reads `'ja'`, a falsy one `'nein'` |
| UserSerializers.ToRepresentation | api/user/serializers.py:40-45 | the read output, with `test_bool` rewritten by the corrected rule from the stored value and every other key unchanged |
| UserSerializers.TestBoolRoundTrip | api/user/serializers.py:13-44 | a ja/nein token in any case validates and reads back as its lower-case form |
| UserSerializers.ReadThenValidate | api/user/serializers.py:13-44 | a stored bool reads back as its token, which validates to the same bool |
| UserSerializers.ReadTestBoolAsWritten | api/user/serializers.py:43-44 | as written, `None` stays `None` and a stored bool yields a token |
| UserSerializers.StoredFalseReadsJa | api/user/serializers.py:43-44 | as written, a stored false reads `'ja'` like a stored true; the corrected rule reads `'nein'` |
| UserV2Serializers.Validate | api/user_v2/serializers.py:5-12 | field errors are returned as they are; error-free data goes on to the provenance rule |
| UserV2Serializers.Represent | api/user_v2/serializers.py:5-12 | the output holds id, login, names and both timestamps exactly when the instance does, as it holds them; `is_active` always, true when the instance lacks it; `str_bool` always, a stored string read back as whether it is `'yes'`, `None` when absent; never the hash or the tags |
| UserV2Serializers.WriteOnlyFacts | api/user_v2/serializers.py:8 | the hashed password and both provenance tags are write-only |
| UserV2Serializers.StrBoolFacts | api/user_v2/serializers.py:12 | `str_bool` is an optional nullable yes/no field |
| UserV2Serializers.RepresentHidesWriteOnly | api/user_v2/serializers.py:8 | the output never carries the hashed password or a provenance tag |
| UserV2Serializers.RepresentStrBool | api/user_v2/serializers.py:12 | a stored `str_bool` reads true iff it lower-cases to `'yes'` |
| UserV2Serializers.RequiredDeclared | api/user_v2/serializers.py:7-10 | login, hashed password, names and `created_from` are required writable fields |
| UserV2Serializers.RequiredOnFullValidation | api/user_v2/serializers.py:7-10 | a non-partial validation lacking one of them fails on that field |
| UserV2Serializers.ReadOnlyDeclared | api/user_v2/serializers.py:6-11 | id, is_active and both timestamps are read-only; `is_active` defaults to true and no other field declares a default |
| UserV2Serializers.RepresentDefaults | api/user_v2/serializers.py:11-12 | an instance without `is_active` is output as active, one without `str_bool` with `str_bool` as `None` |
| UserV2Serializers.StrBoolEncoded | api/user_v2/serializers.py:12 | a given `str_bool` the yes/no field accepts is validated to the field's token, also in a successful validation; one it refuses fails the validation on `str_bool` with the field's message |
| UserV2Serializers.StrBoolTrueStoredYes | api/user_v2/serializers.py:12 | a `str_bool` of true or `'TRUE'` is stored as `'yes'` whenever the validation succeeds |
| UserV2Serializers.StrBoolIsToken | api/user_v2/serializers.py:12 | a validated `str_bool` is `None`, `'yes'` or `'no'` |
| UserV2Serializers.ReadOnlyNotValidated | api/user_v2/serializers.py:6-11 | read-only fields never reach the validated data |
| UserV2Serializers.TextDeclared | api/user_v2/serializers.py:7-10 | the text fields and limits: 100, 64 for the hashed password, 255 for the tags |
| UserV2Serializers.LengthLimits | api/user_v2/serializers.py:7-10 | validated text fields are strings within those limits |
| UserV2Serializers.ChangedFromWritable | api/user_v2/serializers.py:5 | `changed_from` is a writable field |
| UserV2Serializers.PostRefusesChangedFrom | api/core/serializer.py:16-19 | a POST whose fields are valid and include `changed_from` is refused on `changed_from` |
| UserV2Serializers.ReplaceRequiresChangedFrom | api/core/serializer.py:13-15 | a PUT or PATCH whose fields are valid and lack `changed_from` is refused on `changed_from` |
| Storage.UserTable.Valid | api/user_v2/services.py:14-34 | the table invariant: ids are positive and below the next id, which is therefore unused; every row was created no later than the clock and changed, if at all, between its creation and the clock |
| Storage.UserTable.constructor | api/user_v2/services.py:13-15 | an empty table with ids starting at 1 |
| Storage.UserTable.Now | api/user_v2/services.py:28 | the clock moves forward by the elapsed time, and no row changes |
| Storage.UserTable.Insert | api/user_v2/services.py:14-22 | the row is stored under a fresh id; nothing else changes |
| Storage.UserTable.Put | api/user_v2/services.py:94-104 | the row under that id is replaced; nothing else changes |
| Storage.UserTable.Delete | api/user_v2/services.py:142-146 | the row is removed; the result says whether there was one |
| Storage.UserTable.Scan | api/user/services.py:66-71 | every row exactly once, with its id |
| UserV2Services.FirstMissing | api/user_v2/services.py:24-31 | none iff every key is present; otherwise a missing key all of whose predecessors are present |
| UserV2Services.FirstMissingPrefix | api/user_v2/services.py:24-31 | the first missing key among the first four takes precedence over the fifth |
| UserV2Services.Returned | api/user_v2/services.py:41-49 | the returned dictionary has exactly the seven returned columns, each holding the stored row's value: the id, login, names, creation time, active flag and `str_bool` |
| UserV2Services.ReturnedHidesSecrets | api/user_v2/services.py:41-49 | it never carries a password, a provenance tag or `changed_at`, and carries the id and active flag |
| UserV2Services.NewRow | api/user_v2/services.py:14-34 | the INSERT's row: login, hash and names from the input, both provenance tags from `created_from`, `str_bool` as given (`None` when absent), active, the two clock reads as creation and change times, and the plaintext password and test flag left to the database |
| UserV2Services.Lookup | api/user_v2/services.py:62-66 | a row is found iff the id exists and the row is active |
| UserV2Services.UpdatedRow | api/user_v2/services.py:94-112 | login, hash, names, `str_bool` and `changed_from` come from the input and `changed_at` is the given time; creation time, `created_from`, the active flag, the plaintext password and the test flag are kept |
| UserV2Services.LastUpdateWins | api/user_v2/services.py:94-112 | a second update erases every trace of the first |
| UserV2Services.UpdateClearsAbsentStrBool | api/user_v2/services.py:100-110 | an update without `str_bool` clears the stored flag |
| UserV2Services.CreateThenLookup | api/user_v2/services.py:63-65 | a created row is found, and the lookup returns what the create returned |
| UserV2Services.LookupOtherRows | api/user_v2/services.py:103-144 | writing or deleting one row leaves every other lookup unchanged |
| UserV2Services.UpdateThenLookup | api/user_v2/services.py:103-145 | an updated row reads back its new values; a deleted row is not found |
| UserV2Services.CreateUser | api/user_v2/services.py:8-53 | a missing key raises its `KeyError` and nothing is stored; a failure is re-raised; no returned row gives `None`; otherwise the new row is stored under a fresh id and returned |
| UserV2Services.GetUser | api/user_v2/services.py:56-85 | a failure is re-raised; otherwise the active row with that id, if any; the table is only read |
| UserV2Services.UpdateUser | api/user_v2/services.py:88-133 | a missing key raises its `KeyError`; a failure is re-raised; a missing or inactive row gives `None` and no change; otherwise only that row is overwritten, and its `changed_at` moves forward from the previous one, never before its creation |
| UserV2Services.DeleteUser | api/user_v2/services.py:136-150 | a failure is re-raised; otherwise the row is removed whatever its flag, and the result says whether it existed; other rows are kept |
| UserServices.InsertedRow | api/user/services.py:32-45 | login and names from the user, the hash as password, the clock as creation time; `changed_at` is the database's default (the insertion time or NULL); the flags, the hashed-password column, both provenance tags and `str_bool` are the database's defaults |
| UserServices.UserOf | api/user/services.py:50-56 | the user built from a returned row has exactly the model's attributes |
| UserServices.UserOfFacts | api/user/services.py:50-56 | it carries the row's id, login, names and creation time, an empty password, and the default flags |
| UserServices.InstancesPassCheck | api/user/services.py:24-30 | every model instance passes the required-field check |
| UserServices.CreateUser | api/user/services.py:9-56 | a missing field raises the error naming the required fields, with no change; a failure is re-raised; no returned row fails with `TypeError` at `row[0]`; otherwise the hashed row is stored under a fresh id and its user returned |
| UserServices.UsersFrom | api/user/services.py:73-80 | one user per fetched row, in order |
| UserServices.UsersFromHideSecrets | api/user/services.py:73-80 | a listed user carries its row's id and no password |
| UserServices.UsersFromCover | api/user/services.py:71-80 | every row yields a listed user, and every listed user comes from a row |
| UserServices.DistinctUsers | api/user/services.py:71-80 | rows fetched under distinct ids give distinct users |
| UserServices.GetAllUsers | api/user/services.py:59-80 | one distinct user per row, inactive rows included; the table is only read |

## Left out

- HTTP views, URL routing, settings and the swagger hooks (`swagger_schema_fields`, `get_schema_fields`). These are transport and documentation plumbing.
- The v2 PATCH merge in the view. It is a plain dictionary override done in the view, not in the core.
- The v1 view passes a plain dictionary to `UserService.create_user`. The `hasattr` check would then fail for every field. That is view glue, so the model passes users as attribute dictionaries.
- The v1 view calls `get_user`, `update_user` and `delete_user`, but the v1 service does not define them. They are not modelled.
- Logging and the `print` calls. They have no effect on results.
- Connections, cursors and the SQL engine itself. Their outcomes come in as parameters: the `failure` message, and `InsertOutcome` for an INSERT that fails or returns no row. These model a failing statement only. A failing `connection.cursor()` is not modelled: it raises before the statement's arguments are read, so with an unreachable database and a missing key the source raises the database error where the model reports the `KeyError`.
- Storage.ColumnDefaults: the database schema is not part of the source, so the default of `changed_at` for a v1 INSERT is taken to be either the insertion time or NULL. A fixed timestamp default, which could lie after the clock or before later updates, is not modelled.
- Column types, NOT NULL constraints and the uniqueness of `login`. These are not enforced by the code and are left to the database.
- The passage of time. `timezone.now()` reads the table's clock, which advances by a caller-supplied `elapsed`. When a `KeyError` aborts a statement, its clock reads are not counted unless they come before the missing key.
- `make_password` is an uninterpreted function parameter.
- The `MissingFields` error carries the set of required fields rather than the rendered message text.
- Schema.ToInternal: does not model `EmailField`'s address check on `login`. A login that is not an e-mail address is accepted where DRF rejects it with "Enter a valid email address.". For a bool or date-time login the model reports `NotAString`, whose message DRF's `EmailField` replaces by the same e-mail text.
- Parsing of integer, boolean and date-time input. Every field of those kinds here is read-only.
- `str.lower()` is modelled as ASCII lower-casing. The tokens involved are ASCII, so no comparison in the model changes by it.
- Schema.Represent: drops a declared field the instance lacks when the field has no default and does not allow null. DRF drops it only when the field is optional, and raises for a required one. No instance the services return lacks such a field.
- UserSerializers.CreateAccepts: its login need only be a non-blank string within 100 characters. DRF's `EmailField` also requires an e-mail address (see the `Schema.ToInternal` line above), so a create with any other login is accepted here and rejected by the source.
- Schema.RunField: a writable field's `default=` filling an absent input is not modelled. In this core only the read-only `is_active` declares a default, and read-only fields are never validated.
- Schema.ToInternal: does not model `ProhibitNullCharactersValidator`, which DRF adds to every text field. A string holding a NUL character is accepted where DRF rejects it with "Null characters are not allowed.".
- Schema.RepresentField: passes a non-string yes/no value through unchanged. The source's `to_representation` would raise on it.
- Schema.RepresentField: outputs values unformatted. DRF gives a date-time as an ISO 8601 string, a boolean field `bool(value)`, an integer field `int(value)`, and a text field `str()` of a non-string value.
- UserSerializers.ToRepresentation: applies the corrected rule of lines 43-44 to the stored value. As written, a stored false reads `'ja'` (see Findings and `ReadTestBoolAsWritten`).
- UserSerializers.ReadTestBool: states the rule of lines 43-44 on a bool or `None`. The text field's own conversion before it is modelled only in `ReadTestBoolAsWritten`.
- UserV2Services.CreateUser: `InsertOutcome.NoRowReturned` is modelled as storing nothing, and so is it for `UserServices.CreateUser`.

## Findings

| source | as written | input that shows it | evidently intended | confidence | as-written member | corrected member |
|---|---|---|---|---|---|---|
| api/user/serializers.py:43-44 | `test_bool` is declared as a text field, so the base representation turns a stored bool into `'True'`/`'False'`; both strings are truthy, so line 44 always yields `'ja'` | a user whose stored `test_bool` is `False` | a stored false reads `'nein'`, the token `validate_test_bool` decodes back to false | not executed | UserSerializers.ReadTestBoolAsWritten (with UserSerializers.StoredFalseReadsJa) | UserSerializers.ReadTestBool (with UserSerializers.ReadThenValidate) |
