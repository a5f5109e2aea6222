/**
 * The base serializer of api/core/serializer.py: the four audit fields every v2 serializer
 * inherits, and the object-level rule on the `changed_from` provenance field, which
 * depends on the HTTP method of the request being served.
 */
module CoreSerializer {
  import opened Wrappers
  import opened Values
  import opened Schema

  /** The request in the serializer's context; only its HTTP method (`verb`) is consulted. */
  datatype Request = Request(verb: string)

  const ReplaceMessage := "This field is required for PATCH/PUT."
  const CreateMessage := "This field should not be included for POST requests."

  /** The four audit fields: timestamps are read-only, provenance tags write-only text of at most 255 characters. */
  const BaseFields: FieldMap := map[
    "created_at" := ReadOnlyField(DateTimeField),
    "created_from" := CharField(255, true, true),
    "changed_at" := ReadOnlyField(DateTimeField),
    "changed_from" := CharField(255, false, true)]

  /** The methods that replace or partially update a record. */
  predicate IsReplace(verb: string)
  {
    verb == "PUT" || verb == "PATCH"
  }

  /**
   * `BaseSerializer.validate`: under PUT or PATCH a missing or falsy `changed_from` is an
   * error; under POST the mere presence of `changed_from` is one; otherwise, and when there
   * is no request, the data passes. An error is always keyed `changed_from`, and data that
   * passes comes back unchanged.
   */
  function Validate(request: Option<Request>, data: Dict): (r: Result<Dict, Errors>)
    ensures r.Ok? ==> r.value == data
    ensures r.Err? ==> r.error.Keys == {"changed_from"}
    ensures r.Err? ==> request.Some? && (IsReplace(request.value.verb) || request.value.verb == "POST")
  {
    if request.Some? && IsReplace(request.value.verb) then
      if !Truthy(Get(data, "changed_from")) then Err(map["changed_from" := Invalid(ReplaceMessage)])
      else Ok(data)
    else if request.Some? && request.value.verb == "POST" then
      if "changed_from" in data then Err(map["changed_from" := Invalid(CreateMessage)])
      else Ok(data)
    else Ok(data)
  }

  /** PUT and PATCH fail exactly when `changed_from` is absent or falsy (for example empty). */
  lemma ReplaceNeedsChangedFrom(verb: string, data: Dict)
    requires IsReplace(verb)
    ensures Validate(Some(Request(verb)), data).Err? <==>
      ("changed_from" !in data || !Truthy(data["changed_from"]))
  {
  }

  /** POST fails exactly when the `changed_from` key is present, whatever its value, even an empty one. */
  lemma CreateForbidsChangedFrom(data: Dict)
    ensures Validate(Some(Request("POST")), data).Err? <==> "changed_from" in data
    ensures Validate(Some(Request("POST")), data["changed_from" := Str("")]).Err?
  {
  }

  /** Without a request, or for any other method, no provenance check is made. */
  lemma OtherMethodsPass(request: Option<Request>, data: Dict)
    requires request.None? || (!IsReplace(request.value.verb) && request.value.verb != "POST")
    ensures Validate(request, data) == Ok(data)
  {
  }

  /** `created_from` is never inspected: adding, changing or removing it does not change whether validation passes. */
  lemma CreatedFromNotInspected(request: Option<Request>, data: Dict, v: Value)
    ensures Validate(request, data["created_from" := v]).Ok? == Validate(request, data).Ok?
    ensures Validate(request, data - {"created_from"}).Ok? == Validate(request, data).Ok?
  {
    assert Get(data["created_from" := v], "changed_from") == Get(data, "changed_from");
    assert Get(data - {"created_from"}, "changed_from") == Get(data, "changed_from");
  }

  /** The declared flags of the audit fields. */
  lemma BaseFieldFlags()
    ensures BaseFields["created_from"].writeOnly && BaseFields["created_from"].required
    ensures BaseFields["created_from"].maxLength == Some(255)
    ensures BaseFields["changed_from"].writeOnly && !BaseFields["changed_from"].required
    ensures BaseFields["changed_from"].maxLength == Some(255)
    ensures BaseFields["created_at"].readOnly && BaseFields["changed_at"].readOnly
  {
  }
}
