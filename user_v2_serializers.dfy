/**
 * The v2 user serializer of api/user_v2/serializers.py: the base serializer's audit fields
 * and provenance rule, the v2 record fields, and the yes/no field `str_bool`.
 */
module UserV2Serializers {
  import opened Wrappers
  import opened Values
  import opened Schema
  import CoreSerializer
  import CoreSerializerFields
  import Text

  /** `UserV2Serializer`: the audit fields, plus required login, write-only hashed password and names, and an optional nullable `str_bool`. */
  const Fields: FieldMap := CoreSerializer.BaseFields + map[
    "id" := ReadOnlyField(IntegerField),
    "login" := CharField(100, true, false),
    "password_sha256" := CharField(64, true, true),
    "first_name" := CharField(100, true, false),
    "last_name" := CharField(100, true, false),
    "is_active" := ReadOnlyDefault(BooleanField, Bool(true)),
    "str_bool" := NullableField(YesNoField)]

  /** `is_valid()`: every field is validated, and only when none has an error is the provenance rule applied. */
  function Validate(request: Option<CoreSerializer.Request>, data: Dict, partial: bool): (r: Result<Dict, Errors>)
    ensures Schema.Validate(Fields, data, partial).Err? ==> r == Schema.Validate(Fields, data, partial)
    ensures Schema.Validate(Fields, data, partial).Ok? ==>
      r == CoreSerializer.Validate(request, Schema.Validate(Fields, data, partial).value)
  {
    var fields := Schema.Validate(Fields, data, partial);
    if fields.Err? then fields else CoreSerializer.Validate(request, fields.value)
  }

  /** The readable fields output exactly as the instance holds them, and only when it holds them. */
  const Shown: set<string> := {"id", "login", "first_name", "last_name", "created_at", "changed_at"}

  /** The fields of the serializer. */
  lemma FieldsKeys()
    ensures Fields.Keys == Shown + {"is_active", "str_bool", "password_sha256", "created_from", "changed_from"}
  {
  }

  /** The shown fields: read-only id and timestamps, and the required login and names. */
  lemma ShownDeclared()
    ensures "id" in Fields && Fields["id"] == ReadOnlyField(IntegerField)
    ensures "login" in Fields && Fields["login"] == CharField(100, true, false)
    ensures "first_name" in Fields && Fields["first_name"] == CharField(100, true, false)
    ensures "last_name" in Fields && Fields["last_name"] == CharField(100, true, false)
    ensures "created_at" in Fields && Fields["created_at"] == ReadOnlyField(DateTimeField)
    ensures "changed_at" in Fields && Fields["changed_at"] == ReadOnlyField(DateTimeField)
  {
  }

  /** A shown field is readable, not yes/no, not nullable and has no default. */
  lemma ShownPlain(n: string)
    requires n in Shown
    ensures n in Fields && !Fields[n].writeOnly && Fields[n].kind != YesNoField && !Fields[n].allowNull && Fields[n].default.None?
  {
    ShownDeclared();
  }

  /**
   * The output dictionary: the shown fields the instance holds, as it holds them; `is_active`,
   * true when the instance lacks it; and `str_bool`, a stored string read back as whether it
   * is 'yes' in any case, `None` when the instance lacks it. Write-only fields are dropped.
   */
  function Represent(instance: Dict): (out: Dict)
    ensures out.Keys == (Shown * instance.Keys) + {"is_active", "str_bool"}
    ensures forall n :: n in Shown && n in instance ==> out[n] == instance[n]
    ensures out["is_active"] == (if "is_active" in instance then instance["is_active"] else Bool(true))
    ensures "str_bool" in instance && instance["str_bool"].Str? ==>
      out["str_bool"] == Bool(Text.Lower(instance["str_bool"].s) == "yes")
    ensures !("str_bool" in instance && instance["str_bool"].Str?) ==> out["str_bool"] == Get(instance, "str_bool")
  {
    RepresentedKeys(instance);
    RepresentedShown(instance);
    StrBoolFacts();
    ReadOnlyDeclared();
    Schema.Represent(Fields, instance)
  }

  /** Which fields the output holds. */
  lemma RepresentedKeys(instance: Dict)
    ensures Schema.Represent(Fields, instance).Keys == (Shown * instance.Keys) + {"is_active", "str_bool"}
  {
    forall n {
      RepresentedKey(instance, n);
    }
  }

  /** Whether the output holds the field `n`. */
  lemma RepresentedKey(instance: Dict, n: string)
    ensures n in Schema.Represent(Fields, instance) <==> n in (Shown * instance.Keys) + {"is_active", "str_bool"}
  {
    if n in Shown {
      ShownPlain(n);
    } else if n == "is_active" || n == "str_bool" {
      StrBoolFacts();
      ReadOnlyDeclared();
    } else {
      FieldsKeys();
      WriteOnlyFacts();
      assert n !in Fields || Fields[n].writeOnly;
    }
  }

  /** The shown fields are output as the instance holds them. */
  lemma RepresentedShown(instance: Dict)
    ensures forall n :: n in Shown && n in instance ==>
      n in Schema.Represent(Fields, instance) && Schema.Represent(Fields, instance)[n] == instance[n]
  {
    forall n | n in Shown && n in instance
      ensures n in Schema.Represent(Fields, instance) && Schema.Represent(Fields, instance)[n] == instance[n]
    {
      ShownPlain(n);
    }
  }

  /** The three write-only fields: the hashed password and both provenance tags. */
  lemma WriteOnlyFacts()
    ensures "password_sha256" in Fields && Fields["password_sha256"].writeOnly
    ensures "created_from" in Fields && Fields["created_from"].writeOnly
    ensures "changed_from" in Fields && Fields["changed_from"].writeOnly
  {
  }

  /** `str_bool` is a readable yes/no field. */
  lemma StrBoolFacts()
    ensures "str_bool" in Fields && Fields["str_bool"] == NullableField(YesNoField)
  {
  }

  /** The output never carries the hashed password or the provenance tags. */
  lemma RepresentHidesWriteOnly(instance: Dict)
    ensures "password_sha256" !in Represent(instance)
    ensures "created_from" !in Represent(instance)
    ensures "changed_from" !in Represent(instance)
  {
    WriteOnlyFacts();
    WriteOnlyHidden(Fields, instance, "password_sha256");
    WriteOnlyHidden(Fields, instance, "created_from");
    WriteOnlyHidden(Fields, instance, "changed_from");
  }

  /** A stored `str_bool` token is read back as true exactly when it is 'yes' in any case. */
  lemma RepresentStrBool(instance: Dict)
    requires "str_bool" in instance && instance["str_bool"].Str?
    ensures "str_bool" in Represent(instance)
    ensures Represent(instance)["str_bool"] == Bool(Text.Lower(instance["str_bool"].s) == "yes")
  {
    StrBoolFacts();
    YesNoRepresented(Fields, instance, "str_bool");
  }

  /** The fields a non-partial validation requires. */
  lemma RequiredDeclared()
    ensures forall n :: n in {"login", "password_sha256", "first_name", "last_name", "created_from"} ==>
      n in Fields && !Fields[n].readOnly && Fields[n].required
  {
  }

  /** A non-partial validation without login, hashed password, names or `created_from` fails on that field. */
  lemma RequiredOnFullValidation(request: Option<CoreSerializer.Request>, data: Dict, name: string)
    requires name in {"login", "password_sha256", "first_name", "last_name", "created_from"}
    requires name !in data
    ensures Validate(request, data, false).Err?
    ensures name in Validate(request, data, false).error
    ensures Validate(request, data, false).error[name] == Required
  {
    RequiredDeclared();
    MissingRequiredRejected(Fields, data, name);
  }

  /** The read-only fields; `is_active` alone declares a default, true. */
  lemma ReadOnlyDeclared()
    ensures forall n :: n in {"id", "is_active", "created_at", "changed_at"} ==> n in Fields && Fields[n].readOnly
    ensures "is_active" in Fields && Fields["is_active"].default == Some(Bool(true))
    ensures forall n :: n in Fields && n != "is_active" ==> Fields[n].default.None?
  {
  }

  /** An instance without `is_active` is output as active, and one without `str_bool` with `str_bool` as `None`. */
  lemma RepresentDefaults(instance: Dict)
    ensures "is_active" !in instance ==> "is_active" in Represent(instance) && Represent(instance)["is_active"] == Bool(true)
    ensures "str_bool" !in instance ==> "str_bool" in Represent(instance) && Represent(instance)["str_bool"] == Null
  {
    ReadOnlyDeclared();
    StrBoolFacts();
    if "is_active" !in instance {
      AbsentRepresented(Fields, instance, "is_active");
    }
    if "str_bool" !in instance {
      AbsentRepresented(Fields, instance, "str_bool");
    }
  }

  /** A validated `str_bool` is `None`, 'yes' or 'no'. */
  lemma StrBoolIsToken(request: Option<CoreSerializer.Request>, data: Dict, partial: bool)
    requires Validate(request, data, partial).Ok?
    requires "str_bool" in Validate(request, data, partial).value
    ensures Validate(request, data, partial).value["str_bool"] in {Null, Str("yes"), Str("no")}
  {
    StrBoolFacts();
    YesNoValidatedIsToken(Fields, data, partial, "str_bool");
  }

  /**
   * A given `str_bool` goes through the yes/no field: what it accepts is the validated value,
   * after the other fields and the provenance rule too; what it refuses fails the validation
   * on `str_bool` with the field's message.
   */
  lemma StrBoolEncoded(request: Option<CoreSerializer.Request>, data: Dict, partial: bool)
    requires "str_bool" in data
    ensures CoreSerializerFields.ToInternalValue(data["str_bool"]).Ok? ==>
      "str_bool" in Run(Fields, data, partial).validated &&
      Run(Fields, data, partial).validated["str_bool"] == CoreSerializerFields.ToInternalValue(data["str_bool"]).value
    ensures Validate(request, data, partial).Ok? ==>
      CoreSerializerFields.ToInternalValue(data["str_bool"]).Ok? && "str_bool" in Validate(request, data, partial).value &&
      Validate(request, data, partial).value["str_bool"] == CoreSerializerFields.ToInternalValue(data["str_bool"]).value
    ensures CoreSerializerFields.ToInternalValue(data["str_bool"]).Err? ==>
      Validate(request, data, partial).Err? && "str_bool" in Validate(request, data, partial).error &&
      Validate(request, data, partial).error["str_bool"] == Invalid(CoreSerializerFields.InvalidMessage)
  {
    StrBoolFacts();
    var outcome := RunField(Fields["str_bool"], "str_bool", data, partial);
    if CoreSerializerFields.ToInternalValue(data["str_bool"]).Ok? {
      assert outcome == Accepted(CoreSerializerFields.ToInternalValue(data["str_bool"]).value);
    } else {
      assert outcome == Rejected(Invalid(CoreSerializerFields.InvalidMessage));
      assert "str_bool" in Run(Fields, data, partial).errors;
    }
  }

  /** A `str_bool` of true, or the alias 'TRUE', is stored as 'yes' whenever the validation succeeds. */
  lemma StrBoolTrueStoredYes(request: Option<CoreSerializer.Request>, data: Dict, partial: bool)
    requires "str_bool" in data && data["str_bool"] in {Bool(true), Str("TRUE")}
    requires Validate(request, data, partial).Ok?
    ensures "str_bool" in Validate(request, data, partial).value
    ensures Validate(request, data, partial).value["str_bool"] == Str("yes")
  {
    CoreSerializerFields.BoolEncodes(true);
    CoreSerializerFields.RejectsUnknown();
    StrBoolEncoded(request, data, partial);
  }

  /** Read-only fields never reach the validated data, even when the input carries them. */
  lemma ReadOnlyNotValidated(request: Option<CoreSerializer.Request>, data: Dict, partial: bool, name: string)
    requires name in {"id", "is_active", "created_at", "changed_at"}
    requires Validate(request, data, partial).Ok?
    ensures name !in Validate(request, data, partial).value
  {
    ReadOnlyDeclared();
    ReadOnlyIgnored(Fields, data, partial, name);
  }

  /** The declared maximum length of the v2 text fields. */
  function LengthLimit(name: string): nat
  {
    if name == "password_sha256" then 64
    else if name == "created_from" || name == "changed_from" then 255
    else 100
  }

  /** The text fields and their declared limits. */
  lemma TextDeclared()
    ensures forall n :: n in {"login", "password_sha256", "first_name", "last_name", "created_from", "changed_from"} ==>
      n in Fields && Fields[n].kind == TextField && !Fields[n].allowNull && Fields[n].maxLength == Some(LengthLimit(n))
  {
  }

  /** Validated text fields are within their limits: login and names 100, hashed password 64, provenance tags 255. */
  lemma LengthLimits(request: Option<CoreSerializer.Request>, data: Dict, partial: bool)
    requires Validate(request, data, partial).Ok?
    ensures forall n ::
      (n in {"login", "password_sha256", "first_name", "last_name", "created_from", "changed_from"}
        && n in Validate(request, data, partial).value) ==>
      Validate(request, data, partial).value[n].Str? && |Validate(request, data, partial).value[n].s| <= LengthLimit(n)
  {
    TextDeclared();
    var v := Validate(request, data, partial).value;
    forall n | n in {"login", "password_sha256", "first_name", "last_name", "created_from", "changed_from"} && n in v
      ensures v[n].Str? && |v[n].s| <= LengthLimit(n)
    {
      TextWithinLimit(Fields, data, partial, n);
    }
  }

  /** `changed_from` is a writable field. */
  lemma ChangedFromWritable()
    ensures "changed_from" in Fields && !Fields["changed_from"].readOnly
  {
  }

  /** The inherited provenance rule on a POST: valid fields including `changed_from` are refused on `changed_from`. */
  lemma PostRefusesChangedFrom(data: Dict, partial: bool)
    requires Schema.Validate(Fields, data, partial).Ok?
    requires "changed_from" in data
    ensures Validate(Some(CoreSerializer.Request("POST")), data, partial).Err?
    ensures Validate(Some(CoreSerializer.Request("POST")), data, partial).error.Keys == {"changed_from"}
  {
    ChangedFromWritable();
    WritablePresence(Fields, data, partial, "changed_from");
    CoreSerializer.CreateForbidsChangedFrom(Schema.Validate(Fields, data, partial).value);
  }

  /** The inherited provenance rule on a PUT or PATCH: valid fields without `changed_from` are refused on `changed_from`. */
  lemma ReplaceRequiresChangedFrom(data: Dict, partial: bool, verb: string)
    requires Schema.Validate(Fields, data, partial).Ok?
    requires CoreSerializer.IsReplace(verb)
    requires "changed_from" !in data
    ensures Validate(Some(CoreSerializer.Request(verb)), data, partial).Err?
    ensures Validate(Some(CoreSerializer.Request(verb)), data, partial).error.Keys == {"changed_from"}
  {
    ChangedFromWritable();
    WritablePresence(Fields, data, partial, "changed_from");
    CoreSerializer.ReplaceNeedsChangedFrom(verb, Schema.Validate(Fields, data, partial).value);
  }
}
