/** ParamValidationDecorator of botocore/validate.py in front of the query serializers. */
module ValidatedRequests {
  import opened Results
  import opened Assignments
  import opened Shapes
  import opened Validator
  import opened Conformance
  import opened ParamValidators
  import opened QueryParameters
  import opened Totality
  import QueryKeys
  import X = XmlSerializer
  import Q = QuerySerializer

  datatype RequestError =
    | ParamValidationError(reports: seq<Report>)
    | ValidatorFailed
    | SerializerFailed(error: X.SerError)

  /** Validation decides: a value that does not conform is turned away with its violations, and one that does is
      serialized, which only a file in it can make fail. Without an input shape nothing is validated. */
  method SerializeToRequest(m: ShapeMap, c: X.Codec, p: Q.Protocol, operation: string, version: string, inputShape: Option<Shape>,
                            parameters: Value, ghost names: set<string>) returns (r: Result<map<string, Value>, RequestError>)
    requires Closed(m) && (inputShape.Some? ==> InMap(m, inputShape.value.kind))
    ensures inputShape.None? ==> r == Ok(map["Action" := Str(operation), "Version" := Str(version)])
    ensures inputShape.Some? && r.Ok? ==> Conforms(m, c, inputShape.value, parameters)
    ensures inputShape.Some? && !Conforms(m, c, inputShape.value, parameters) ==>
      var found := Check(m, c, Spot(inputShape.value, parameters, ""));
      r == Err(if found.crashed then ValidatorFailed else ParamValidationError(found.reports))
    ensures inputShape.Some? && Conforms(m, c, inputShape.value, parameters) ==>
      var run := QueryKeys.Request(m, c, p, operation, version, inputShape, parameters);
      r == if run.error.Some? then Err(SerializerFailed(run.error.value)) else Ok(Stored(map[], run.writes))
    ensures inputShape.Some? && Conforms(m, c, inputShape.value, parameters) && Usable(m, p, names, inputShape.value.kind) ==>
      r.Ok? || (r.error == SerializerFailed(X.TypeError) && HasFile(parameters))
  {
    if inputShape.Some? {
      var sh := inputShape.value;
      NoReportsIffConforms(m, c, Spot(sh, parameters, ""));
      if Conforms(m, c, sh, parameters) && Usable(m, p, names, sh.kind) {
        QueryTotal(m, c, p, names, sh, parameters, "");
      }
      hide Check, Conforms, Q.Ser, Stored, HasFile, Usable;
      var errors, crashed := Validate(m, c, parameters, sh);
      assert errors.errors == Check(m, c, Spot(sh, parameters, "")).reports;
      if crashed { return Err(ValidatorFailed); }
      var failed := errors.HasErrors();
      if failed { return Err(ParamValidationError(errors.errors)); }
    } else {
      OnlyHeader(m, c, p, operation, version, parameters);
    }
    hide Check, Conforms, Q.Ser, Stored, HasFile, Usable, QueryKeys.Request;
    var body, error := QueryParameters.SerializeToRequest(m, c, p, operation, version, inputShape, parameters);
    if error.Some? { return Err(SerializerFailed(error.value)); }
    return Ok(body.dict);
  }

  lemma OnlyHeader(m: ShapeMap, c: X.Codec, p: Q.Protocol, operation: string, version: string, parameters: Value)
    requires Closed(m)
    ensures
      var run := QueryKeys.Request(m, c, p, operation, version, None, parameters);
      run.error.None? && Stored(map[], run.writes) == map["Action" := Str(operation), "Version" := Str(version)]
  {
    var a, v := Write("Action", Str(operation)), Write("Version", Str(version));
    assert [a, v] + [] == [a, v] && [a, v][..1] == [a] && [a][..0] == [];
    assert Stored(map[], [a]) == map["Action" := Str(operation)];
  }
}
