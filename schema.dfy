/**
 * Declarative serializer schemas: a serializer is a dictionary of named fields, each with
 * the flags it is declared with (read-only, write-only, required, allow-null, max length, default).
 * `Run` validates an input dictionary field by field, collecting every field error, and
 * `Represent` builds the output dictionary of an instance.
 */
module Schema {
  import opened Wrappers
  import opened Values
  import CoreSerializerFields
  import Text

  datatype Kind =
    | TextField      // CharField and EmailField
    | YesNoField     // the yes/no field of the core
    | IntegerField
    | BooleanField
    | DateTimeField

  datatype Field = Field(
    kind: Kind,
    readOnly: bool,
    writeOnly: bool,
    required: bool,
    allowNull: bool,
    maxLength: Option<nat>,
    default: Option<Value>)

  type FieldMap = map<string, Field>

  datatype FieldError =
    | Required               // "This field is required."
    | NotNull                // "This field may not be null."
    | NotAString             // "Not a valid string."
    | Blank                  // "This field may not be blank."
    | TooLong(limit: nat)    // "Ensure this field has no more than {limit} characters."
    | Invalid(message: string)

  /** Field errors, keyed by field name. */
  type Errors = map<string, FieldError>

  /** A writable text field: `CharField(max_length=..., required=..., write_only=...)`. */
  function CharField(maxLength: nat, required: bool, writeOnly: bool): (f: Field)
    ensures !f.readOnly && !f.allowNull && f.kind == TextField
  {
    Field(TextField, false, writeOnly, required, false, Some(maxLength), None)
  }

  /** A read-only field: never read from input, and so never required. */
  function ReadOnlyField(kind: Kind): (f: Field)
    ensures f.readOnly && !f.writeOnly && !f.required && f.default.None?
  {
    Field(kind, true, false, false, false, None, None)
  }

  /** A read-only field with `default=...`: the default stands in for a value the instance lacks. */
  function ReadOnlyDefault(kind: Kind, default: Value): (f: Field)
    ensures f.readOnly && !f.writeOnly && !f.required && f.default == Some(default)
  {
    Field(kind, true, false, false, false, None, Some(default))
  }

  /** An optional field that accepts `None`: `required=False, allow_null=True`. */
  function NullableField(kind: Kind): (f: Field)
    ensures !f.readOnly && !f.writeOnly && !f.required && f.allowNull && f.default.None?
  {
    Field(kind, false, false, false, true, None, None)
  }

  /** The number a string of decimal digits denotes, most significant digit first. */
  function DigitsValue(s: string): nat
  {
    if s == "" then 0
    else DigitsValue(s[..|s| - 1]) * 10 + (if '0' <= s[|s| - 1] <= '9' then s[|s| - 1] as int - '0' as int else 0)
  }

  /** The decimal digits of a natural number, without leading zeros. */
  function NatDigits(n: nat): (r: string)
    ensures r != ""
    ensures forall k :: 0 <= k < |r| ==> '0' <= r[k] <= '9'
    ensures r[0] == '0' ==> n == 0
    ensures DigitsValue(r) == n
    decreases n
  {
    var d := ('0' as int + n % 10) as char;
    if n < 10 then [d]
    else
      var r := NatDigits(n / 10) + [d];
      assert r[..|r| - 1] == NatDigits(n / 10);
      r
  }

  /** `str(i)` of an int: its digits, after a minus sign exactly when it is negative. */
  function DecimalString(i: int): (r: string)
    ensures r != ""
    ensures i < 0 <==> r[0] == '-'
    ensures forall k :: 0 <= k < |r| && !(k == 0 && i < 0) ==> '0' <= r[k] <= '9'
    ensures i < 0 ==> |r| > 1 && DigitsValue(r[1..]) == -i
    ensures i >= 0 ==> DigitsValue(r) == i
  {
    if i < 0 then
      var r := "-" + NatDigits(-i);
      assert r[1..] == NatDigits(-i);
      r
    else NatDigits(i)
  }

  /** What validating one field yields: nothing (the field is skipped), a value, or an error. */
  datatype FieldOutcome = Skipped | Accepted(value: Value) | Rejected(error: FieldError)

  /**
   * The conversion of a present, non-null input value by the field's own type. A text field
   * takes a string or an int, as its `str()`, with surrounding whitespace stripped; a value
   * that is empty once stripped is blank, and the length limit applies to the stripped text.
   */
  function ToInternal(f: Field, v: Value): (r: FieldOutcome)
    ensures !r.Skipped?
    ensures f.kind == TextField ==> (r == Rejected(Blank) <==> v.Str? && Text.Strip(v.s) == "")
    ensures f.kind == TextField && (v.Bool? || v.DateTime?) ==> r == Rejected(NotAString)
    ensures f.kind == TextField && r.Accepted? ==>
      r.value.Str? && r.value.s != "" && (f.maxLength.Some? ==> |r.value.s| <= f.maxLength.value)
    ensures f.kind == TextField && v.Str? && Text.Strip(v.s) != "" ==>
      (r.Accepted? <==> f.maxLength.None? || |Text.Strip(v.s)| <= f.maxLength.value) &&
      (r.Accepted? ==> r.value == Str(Text.Strip(v.s)))
    ensures f.kind == TextField && v.Int? ==>
      (r.Accepted? <==> f.maxLength.None? || |DecimalString(v.i)| <= f.maxLength.value) &&
      (r.Accepted? ==> r.value == Str(DecimalString(v.i)))
    ensures f.kind == YesNoField ==> (r.Accepted? <==> CoreSerializerFields.ToInternalValue(v).Ok?)
    ensures f.kind == YesNoField && r.Accepted? ==> r.value == CoreSerializerFields.ToInternalValue(v).value
    ensures f.kind == YesNoField && !r.Accepted? ==> r == Rejected(Invalid(CoreSerializerFields.InvalidMessage))
    ensures f.kind in {IntegerField, BooleanField, DateTimeField} ==> r == Accepted(v)
  {
    match f.kind
    case TextField =>
      if v.Str? && Text.Strip(v.s) == "" then Rejected(Blank)
      else if !(v.Int? || v.Str?) then Rejected(NotAString)
      else
        var s := if v.Int? then DecimalString(v.i) else Text.Strip(v.s);
        if f.maxLength.Some? && |s| > f.maxLength.value then Rejected(TooLong(f.maxLength.value))
        else Accepted(Str(s))
    case YesNoField =>
      (match CoreSerializerFields.ToInternalValue(v)
       case Ok(t) => Accepted(t)
       case Err(m) => Rejected(Invalid(m)))
    case _ => Accepted(v)
  }

  /**
   * Validation of the field `name`: a read-only field is ignored; an absent field is an error
   * only when it is required and the validation is not partial; `None` is accepted only where
   * the field allows null; any other value goes through the field's conversion.
   */
  function RunField(f: Field, name: string, data: Dict, partial: bool): (r: FieldOutcome)
    ensures f.readOnly ==> r == Skipped
    ensures r == Rejected(Required) <==> !f.readOnly && name !in data && f.required && !partial
    ensures r.Accepted? ==> name in data
    ensures r == Accepted(Null) ==> f.allowNull
    ensures !f.readOnly && name in data && data[name] == Null ==>
      r == (if f.allowNull then Accepted(Null) else Rejected(NotNull))
    ensures !f.readOnly && name in data && data[name] != Null ==> r == ToInternal(f, data[name])
    ensures !f.readOnly && name !in data && !(f.required && !partial) ==> r == Skipped
  {
    if f.readOnly then Skipped
    else if name !in data then (if f.required && !partial then Rejected(Required) else Skipped)
    else if data[name] == Null then (if f.allowNull then Accepted(Null) else Rejected(NotNull))
    else ToInternal(f, data[name])
  }

  /** The validated values and the field errors of one pass over all fields. */
  datatype Checked = Checked(validated: Dict, errors: Errors)

  /** Every field is validated on its own; all errors are collected, none stops the others. */
  function Run(schema: FieldMap, data: Dict, partial: bool): (c: Checked)
    ensures c.validated.Keys <= schema.Keys * data.Keys
    ensures c.errors.Keys <= schema.Keys
    ensures c.validated.Keys !! c.errors.Keys
    ensures forall n :: n in schema && RunField(schema[n], n, data, partial).Accepted? ==>
      n in c.validated && c.validated[n] == RunField(schema[n], n, data, partial).value
    ensures forall n :: n in schema && RunField(schema[n], n, data, partial).Rejected? ==>
      n in c.errors && c.errors[n] == RunField(schema[n], n, data, partial).error
    ensures forall n :: n in schema && RunField(schema[n], n, data, partial).Skipped? ==>
      n !in c.validated && n !in c.errors
  {
    Checked(
      map n | n in schema && RunField(schema[n], n, data, partial).Accepted? :: RunField(schema[n], n, data, partial).value,
      map n | n in schema && RunField(schema[n], n, data, partial).Rejected? :: RunField(schema[n], n, data, partial).error)
  }

  /** The field-level part of `is_valid()`: the validated data when no field has an error. */
  function Validate(schema: FieldMap, data: Dict, partial: bool): (r: Result<Dict, Errors>)
    ensures r.Ok? <==> Run(schema, data, partial).errors == map[]
    ensures r.Ok? ==> r.value == Run(schema, data, partial).validated
    ensures r.Err? ==> r.error == Run(schema, data, partial).errors && r.error != map[]
  {
    var c := Run(schema, data, partial);
    if c.errors == map[] then Ok(c.validated) else Err(c.errors)
  }

  /** A required writable field that is absent makes a non-partial validation fail on that field. */
  lemma MissingRequiredRejected(schema: FieldMap, data: Dict, name: string)
    requires name in schema && !schema[name].readOnly && schema[name].required
    requires name !in data
    ensures Validate(schema, data, false).Err?
    ensures Validate(schema, data, false).error[name] == Required
  {
  }

  /** A partial validation never reports a field as missing. */
  lemma PartialRequiresNothing(schema: FieldMap, data: Dict, name: string)
    requires name in Run(schema, data, true).errors
    ensures Run(schema, data, true).errors[name] != Required
  {
  }

  /** Read-only fields are neither read from input nor reported as errors. */
  lemma ReadOnlyIgnored(schema: FieldMap, data: Dict, partial: bool, name: string)
    requires name in schema && schema[name].readOnly
    ensures name !in Run(schema, data, partial).validated
    ensures name !in Run(schema, data, partial).errors
  {
  }

  /** A validated text value is a non-empty string within the field's max length. */
  lemma TextWithinLimit(schema: FieldMap, data: Dict, partial: bool, name: string)
    requires name in Run(schema, data, partial).validated
    requires name in schema && schema[name].kind == TextField && !schema[name].allowNull
    ensures Run(schema, data, partial).validated[name].Str?
    ensures Run(schema, data, partial).validated[name].s != ""
    ensures schema[name].maxLength.Some? ==> |Run(schema, data, partial).validated[name].s| <= schema[name].maxLength.value
  {
  }

  /** A validated yes/no value is one of the stored tokens or `None`. */
  lemma YesNoValidatedIsToken(schema: FieldMap, data: Dict, partial: bool, name: string)
    requires name in Run(schema, data, partial).validated
    requires name in schema && schema[name].kind == YesNoField
    ensures Run(schema, data, partial).validated[name] in {Null, Str("yes"), Str("no")}
  {
  }

  /** After a successful validation a writable field is in the validated data exactly when the input has it. */
  lemma WritablePresence(schema: FieldMap, data: Dict, partial: bool, name: string)
    requires name in schema && !schema[name].readOnly
    requires Validate(schema, data, partial).Ok?
    ensures name in Validate(schema, data, partial).value <==> name in data
  {
    assert name !in Run(schema, data, partial).errors;
  }

  /** The conversion of one field by its type, for the output dictionary. */
  function RepresentField(f: Field, v: Value): (r: Value)
    ensures v == Null ==> r == Null
    ensures f.kind == YesNoField && v.Str? ==> r == Bool(CoreSerializerFields.ToRepresentation(Some(v.s)).value)
    ensures v != Null && !(f.kind == YesNoField && v.Str?) ==> r == v
  {
    if v == Null then Null
    else if f.kind == YesNoField && v.Str? then
      Bool(CoreSerializerFields.ToRepresentation(Some(v.s)).value)
    else v
  }

  /**
   * `get_attribute` of a readable field: the instance's value; for a value the instance lacks,
   * the field's default, else `None` when the field allows null, else nothing.
   */
  function Attribute(f: Field, name: string, instance: Dict): (r: Option<Value>)
    ensures name in instance ==> r == Some(instance[name])
    ensures name !in instance && f.default.Some? ==> r == f.default
    ensures name !in instance && f.default.None? ==> (r.Some? <==> f.allowNull) && (r.Some? ==> r.value == Null)
  {
    if name in instance then Some(instance[name])
    else if f.default.Some? then f.default
    else if f.allowNull then Some(Null)
    else None
  }

  /** `to_representation`: every readable field that has an attribute, converted; write-only fields never appear. */
  function Represent(schema: FieldMap, instance: Dict): (out: Dict)
    ensures out.Keys == set n | n in schema && !schema[n].writeOnly && Attribute(schema[n], n, instance).Some?
    ensures forall n :: n in out ==> out[n] == RepresentField(schema[n], Attribute(schema[n], n, instance).value)
  {
    map n | n in schema && !schema[n].writeOnly && Attribute(schema[n], n, instance).Some? ::
      RepresentField(schema[n], Attribute(schema[n], n, instance).value)
  }

  /** A write-only field never appears in the output. */
  lemma WriteOnlyHidden(schema: FieldMap, instance: Dict, name: string)
    requires name in schema && schema[name].writeOnly
    ensures name !in Represent(schema, instance)
  {
  }

  /** A readable yes/no field holding a stored token is read back as whether that token is 'yes', in any case. */
  lemma YesNoRepresented(schema: FieldMap, instance: Dict, name: string)
    requires name in schema && schema[name].kind == YesNoField && !schema[name].writeOnly
    requires name in instance && instance[name].Str?
    ensures name in Represent(schema, instance)
    ensures Represent(schema, instance)[name] == Bool(Text.Lower(instance[name].s) == "yes")
  {
  }

  /** A readable field the instance lacks is output as its default when it declares one, else as `None` when it allows null. */
  lemma AbsentRepresented(schema: FieldMap, instance: Dict, name: string)
    requires name in schema && !schema[name].writeOnly && name !in instance
    ensures schema[name].default.Some? ==>
      name in Represent(schema, instance) && Represent(schema, instance)[name] == RepresentField(schema[name], schema[name].default.value)
    ensures schema[name].default.None? ==>
      (name in Represent(schema, instance) <==> schema[name].allowNull)
    ensures schema[name].default.None? && name in Represent(schema, instance) ==> Represent(schema, instance)[name] == Null
  {
  }
}
