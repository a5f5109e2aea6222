/**
 * The yes/no field of api/core/serializer_fields.py: API booleans (or their textual
 * aliases) are stored as the tokens 'yes' / 'no', and stored tokens are read back as booleans.
 */
module CoreSerializerFields {
  import opened Wrappers
  import opened Text
  import opened Values
  import opened BooleanCodec

  /** The message of the ValidationError raised for an input that is neither a boolean nor an alias. */
  const InvalidMessage := "Invalid value. Must be a boolean or yes/no string."

  /**
   * `YesNoToBooleanField.to_internal_value`: `None` stays `None`, a bool becomes its token,
   * a string whose lower-case form is a yes/no alias becomes the canonical token; any other
   * value (another string, an int, a datetime) is rejected.
   */
  function ToInternalValue(data: Value): (r: Result<Value, string>)
    ensures r.Ok? ==> r.value in {Null, Str("yes"), Str("no")}
    ensures r.Ok? <==> data.Null? || data.Bool? || (data.Str? && Decode(YesNo, data.s).Some?)
    ensures r.Err? ==> r.error == InvalidMessage
    ensures data == Null ==> r == Ok(Null)
  {
    match data
    case Null => Ok(Null)
    case Bool(b) => Ok(Str(Encode(YesNo, b)))
    case Str(s) =>
      (match Decode(YesNo, s)
       case Some(b) => Ok(Str(Encode(YesNo, b)))
       case None => Err(InvalidMessage))
    case _ => Err(InvalidMessage)
  }

  /** `YesNoToBooleanField.to_representation`: `None` stays `None`; a stored string reads true exactly when it lower-cases to 'yes'. */
  function ToRepresentation(stored: Option<string>): (r: Option<bool>)
    ensures stored.None? <==> r.None?
    ensures stored.Some? ==> (r.value <==> Lower(stored.value) == "yes")
  {
    match stored
    case None => None
    case Some(s) => Some(Lower(s) == "yes")
  }

  /** A native bool is stored as 'yes' or 'no'. */
  lemma BoolEncodes(b: bool)
    ensures ToInternalValue(Bool(b)) == Ok(Str(if b then "yes" else "no"))
  {
  }

  /** The yes-aliases, in any case, are stored as 'yes'; the no-aliases as 'no'. */
  lemma AliasesEncode(s: string)
    ensures Lower(s) in {"yes", "true", "1"} ==> ToInternalValue(Str(s)) == Ok(Str("yes"))
    ensures Lower(s) in {"no", "false", "0"} ==> ToInternalValue(Str(s)) == Ok(Str("no"))
  {
  }

  /** Upper-case aliases are accepted, and a string outside both alias sets or an int is rejected, never defaulted. */
  lemma RejectsUnknown()
    ensures ToInternalValue(Str("TRUE")) == Ok(Str("yes"))
    ensures ToInternalValue(Str("No")) == Ok(Str("no"))
    ensures ToInternalValue(Str("maybe")) == Err(InvalidMessage)
    ensures forall i :: ToInternalValue(Int(i)) == Err(InvalidMessage)
  {
    assert Lower("TRUE") == "true";
    assert Lower("No") == "no";
    assert Lower("maybe") == "maybe";
  }

  /** Feeding a stored value back in returns it unchanged. */
  lemma {:induction false} ToInternalValueIdempotent(data: Value)
    requires ToInternalValue(data).Ok?
    ensures ToInternalValue(ToInternalValue(data).value) == ToInternalValue(data)
  {
    var stored := ToInternalValue(data).value;
    if stored != Null {
      assert Lower(stored.s) == stored.s by { LowerIsLowerCase(stored.s); }
    }
  }

  /** Reading back what a bool was stored as gives the bool: `to_representation(to_internal_value(b)) == b`. */
  lemma RoundTrip(b: bool)
    ensures ToRepresentation(Some(ToInternalValue(Bool(b)).value.s)) == Some(b)
  {
    assert Lower("yes") == "yes";
    assert Lower("no") == "no";
  }

  /** An accepted alias reads back as the truth value it decodes to. */
  lemma AliasRoundTrip(s: string)
    requires ToInternalValue(Str(s)).Ok?
    ensures ToRepresentation(Some(ToInternalValue(Str(s)).value.s)) == Decode(YesNo, s)
  {
    assert Lower("yes") == "yes";
    assert Lower("no") == "no";
  }

  /** Only 'yes' reads as true: a stored 'no', 'true' or any unknown string reads as false. */
  lemma OnlyYesReadsTrue()
    ensures ToRepresentation(Some("YES")) == Some(true)
    ensures ToRepresentation(Some("no")) == Some(false)
    ensures ToRepresentation(Some("true")) == Some(false)
    ensures ToRepresentation(Some("maybe")) == Some(false)
  {
    assert Lower("YES") == "yes";
  }
}
