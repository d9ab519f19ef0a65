/**
 * The success envelope, src/common/interceptors/response.interceptor.ts:
 * the interceptor turns a handler result into `{ success, statusCode,
 * message, data }`, unless it already looks like such an envelope. The
 * application module does not install the interceptor, so this is what it
 * builds wherever it is used, not what every route answers.
 */
module ResponseEnvelope {
  import opened Json

  const EnvelopeKeys: set<string> := {"success", "statusCode", "message", "data"}

  /** An ApiResponse object. */
  function ApiResponse(success: bool, statusCode: int, message: Value, data: Value): (r: Value)
    ensures r.Obj? && r.fields.Keys == EnvelopeKeys
  {
    Obj(map["success" := Bool(success), "statusCode" := Num(statusCode), "message" := message, "data" := data])
  }

  /** `response.statusCode || HttpStatus.OK`. */
  function StatusOf(statusCode: int): (s: int)
    ensures s != 0
    ensures statusCode != 0 ==> s == statusCode
  {
    if statusCode != 0 then statusCode else 200
  }

  /** The first test of the mapping: a truthy object with `success`, `statusCode` and at most four keys. */
  predicate LooksWrapped(data: Value)
  {
    data.Obj? && "success" in data.fields && "statusCode" in data.fields && |data.fields.Keys| <= 4
  }

  /** The mapping applied to a handler's result. */
  function Wrap(data: Value, statusCode: int): (r: Value)
    ensures LooksWrapped(data) ==> r == data
    ensures !LooksWrapped(data) ==>
      r.Obj? && r.fields.Keys == EnvelopeKeys
      && r.fields["success"] == Bool(true) && r.fields["statusCode"] == Num(StatusOf(statusCode))
    ensures data.Null? || data.Undefined? ==> r == ApiResponse(true, StatusOf(statusCode), Str("Success"), Undefined)
    ensures data.Bool? || data.Num? || data.Str? || data.Arr? ==>
      r == ApiResponse(true, StatusOf(statusCode), Str("Success"), data)
    ensures data.Obj? && !LooksWrapped(data) && "message" !in data.fields ==>
      r == ApiResponse(true, StatusOf(statusCode), Str("Success"), data)
    ensures data.Obj? && !LooksWrapped(data) && "message" in data.fields ==>
      var m := data.fields["message"];
      var rest := data.fields - {"message"};
      r.fields["message"] == (if Truthy(m) then m else Str("Success"))
      && r.fields["data"] == (if |rest.Keys| > 0 then Obj(rest) else Undefined)
  {
    var status := StatusOf(statusCode);
    if LooksWrapped(data) then data
    else if data.Null? || data.Undefined? then ApiResponse(true, status, Str("Success"), Undefined)
    else if !IsObjectType(data) || data.Arr? then ApiResponse(true, status, Str("Success"), data)
    else if "message" in data.fields then
      var message := data.fields["message"];
      var rest := data.fields - {"message"};
      ApiResponse(true, status, if Truthy(message) then message else Str("Success"),
                  if |rest.Keys| > 0 then Obj(rest) else Undefined)
    else ApiResponse(true, status, Str("Success"), data)
  }

  /** Wrapping is idempotent: an envelope passes through a second interceptor unchanged. */
  lemma WrapIdempotent(data: Value, statusCode: int, laterStatus: int)
    ensures Wrap(Wrap(data, statusCode), laterStatus) == Wrap(data, statusCode)
  {
    var r := Wrap(data, statusCode);
    if !LooksWrapped(data) {
      assert LooksWrapped(r);
    }
  }

  /** A lifted message never stays inside `data`, and nothing else is lost. */
  lemma MessageLifted(fields: map<string, Value>, statusCode: int)
    requires "message" in fields && !LooksWrapped(Obj(fields))
    ensures var r := Wrap(Obj(fields), statusCode);
      (r.fields["data"].Obj? ==>
        ("message" !in r.fields["data"].fields
         && forall k :: k in fields && k != "message" ==> k in r.fields["data"].fields && r.fields["data"].fields[k] == fields[k]))
      && (r.fields["data"].Undefined? ==> fields.Keys == {"message"})
  {
    var rest := fields - {"message"};
    assert fields.Keys == rest.Keys + {"message"};
  }
}
