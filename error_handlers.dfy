/**
 * The exception handlers: how each kind of exception becomes an error response.
 * The request id, the clock's reading, a fresh uuid for requests without an id,
 * the environment name and the exception's text are inputs.
 */
module ErrorHandlers {
  import opened Wrappers
  import opened Json
  import Text
  import Response
  import Exceptions
  import LoggingMiddleware

  /** The error codes of `http_exception_handler`, by HTTP status. */
  const ErrorCodeMap: map<int, string> := map[
    400 := "BAD_REQUEST",
    401 := "UNAUTHORIZED",
    403 := "FORBIDDEN",
    404 := "NOT_FOUND",
    405 := "METHOD_NOT_ALLOWED",
    409 := "CONFLICT",
    422 := "VALIDATION_ERROR",
    429 := "RATE_LIMIT_EXCEEDED",
    500 := "INTERNAL_SERVER_ERROR",
    502 := "BAD_GATEWAY",
    503 := "SERVICE_UNAVAILABLE",
    504 := "GATEWAY_TIMEOUT"
  ]

  /** `error_code_map.get(status_code, "HTTP_ERROR")`. */
  function ErrorCodeFor(statusCode: int): (code: string)
    ensures statusCode in ErrorCodeMap <==> code != "HTTP_ERROR"
  {
    if statusCode in ErrorCodeMap then ErrorCodeMap[statusCode] else "HTTP_ERROR"
  }

  /** Distinct mapped statuses get distinct codes, so the code identifies the status. */
  lemma ErrorCodeForInjective(s1: int, s2: int)
    requires s1 in ErrorCodeMap && s2 in ErrorCodeMap && s1 != s2
    ensures ErrorCodeFor(s1) != ErrorCodeFor(s2)
  {
  }

  /**
   * The table agrees with the response shortcuts of the same status: a 401,
   * 403, 404 or 422 answered by the HTTP handler carries the code the matching
   * shortcut carries.
   */
  lemma ErrorCodesAgree(now: string)
    ensures Response.Field(Response.Unauthorized(now), "error_code") == Some(Str(ErrorCodeFor(401)))
    ensures Response.Field(Response.Forbidden(now), "error_code") == Some(Str(ErrorCodeFor(403)))
    ensures Response.Field(Response.NotFound(now), "error_code") == Some(Str(ErrorCodeFor(404)))
    ensures Response.Field(Response.ValidationErrorResponse(now, []), "error_code") == Some(Str(ErrorCodeFor(422)))
  {
    assert ErrorCodeFor(401) == "UNAUTHORIZED";
    assert ErrorCodeFor(403) == "FORBIDDEN";
    assert ErrorCodeFor(404) == "NOT_FOUND";
    assert ErrorCodeFor(422) == "VALIDATION_ERROR";
  }

  /**
   * `getattr(request.state, 'request_id', str(uuid.uuid4()))`, as the response
   * takes it: the stored id, None when None was stored, and the fresh uuid's
   * text when no id was stored.
   */
  function RequestIdOf(state: LoggingMiddleware.RequestState, freshUuid: string): (id: Option<string>)
    requires ValidRequestId(state)
    ensures state.requestId.None? ==> id == Some(freshUuid)
    ensures state.requestId.Some? ==> (id.None? <==> state.requestId.value == Null)
    ensures id.Some? && state.requestId.Some? ==> state.requestId.value == Str(id.value)
  {
    match state.requestId
    case None => Some(freshUuid)
    case Some(Str(s)) => Some(s)
    case Some(_) => None
  }

  /** The response model accepts a stored request id only when it is a string or None. */
  predicate ValidRequestId(state: LoggingMiddleware.RequestState)
  {
    state.requestId.None? || state.requestId.value.Str? || state.requestId.value == Null
  }

  /**
   * `nuge_exception_handler`: the exception's message, code, status and
   * details pass through unchanged.
   */
  function NugeExceptionHandler(now: string, state: LoggingMiddleware.RequestState, freshUuid: string,
                                exc: Exceptions.NugeException): (r: Response.JsonResponse)
    requires ValidRequestId(state)
    reads exc, exc.details
    ensures r.statusCode == exc.statusCode
    ensures Response.Field(r, "success") == Some(Bool(false))
    ensures Response.Field(r, "message") == Some(Str(exc.message))
    ensures Response.Field(r, "error_code") == Some(Str(exc.errorCode))
    ensures Response.Field(r, "details") == Some(Response.EncodeDateTime(Dict(exc.details.entries)))
    ensures Response.Field(r, "request_id") == OptionStr(RequestIdOf(state, freshUuid))
  {
    Response.ErrorResponse(now, exc.message, exc.errorCode, exc.statusCode, Some(exc.details.entries), None,
                           RequestIdOf(state, freshUuid))
  }

  /** A present string field of the body, or its absence. */
  function OptionStr(o: Option<string>): Option<Value>
  {
    if o.Some? then Some(Str(o.value)) else None
  }

  /**
   * `http_exception_handler`: the exception's status kept, the code from the
   * table, and the text of `exc.detail` as the message; no details.
   */
  function HttpExceptionHandler(now: string, state: LoggingMiddleware.RequestState, freshUuid: string,
                                statusCode: int, detailText: string): (r: Response.JsonResponse)
    requires ValidRequestId(state)
    ensures r.statusCode == statusCode
    ensures Response.Field(r, "success") == Some(Bool(false))
    ensures Response.Field(r, "message") == Some(Str(detailText))
    ensures Response.Field(r, "error_code") == Some(Str(ErrorCodeFor(statusCode)))
    ensures Response.Field(r, "details") == None
    ensures Response.Field(r, "request_id") == OptionStr(RequestIdOf(state, freshUuid))
  {
    Response.ErrorResponse(now, detailText, ErrorCodeFor(statusCode), statusCode, None, None,
                           RequestIdOf(state, freshUuid))
  }

  // ---------------------------------------------------------------------------
  // Validation errors

  /** One element of an error's `loc`: a field name or a list index. */
  datatype LocPart = Name(name: string) | Index(index: int)

  /** One error reported by the validator: where, what and which kind. */
  datatype Issue = Issue(loc: seq<LocPart>, msg: string, errorType: string)

  /** `str(loc)`. */
  function LocText(p: LocPart): string
  {
    match p
    case Name(n) => n
    case Index(i) => Text.IntToDecimal(i)
  }

  /** `".".join(str(loc) for loc in error["loc"])`. */
  function FieldName(loc: seq<LocPart>): (name: string)
    ensures loc == [] ==> name == ""
    ensures |loc| == 1 ==> name == LocText(loc[0])
  {
    Text.Join(seq(|loc|, i requires 0 <= i < |loc| => LocText(loc[i])), '.')
  }

  /**
   * A field path can be read back: when no name in it holds a dot, splitting it
   * on dots gives the texts of its parts, in order.
   */
  lemma FieldNameSplits(loc: seq<LocPart>)
    requires |loc| >= 1
    requires forall i :: 0 <= i < |loc| && loc[i].Name? ==> '.' !in loc[i].name
    ensures var parts := Text.Split(FieldName(loc), '.');
      |parts| == |loc| && forall i :: 0 <= i < |loc| ==> parts[i] == LocText(loc[i])
  {
    var texts := seq(|loc|, i requires 0 <= i < |loc| => LocText(loc[i]));
    forall i | 0 <= i < |texts| ensures '.' !in texts[i] {
      if loc[i].Index? {
        var t := Text.IntToDecimal(loc[i].index);
        forall k | 0 <= k < |t| ensures t[k] != '.' {
        }
      }
    }
    Text.SplitJoin(texts, '.');
  }

  /** The `ErrorDetail` built for one reported error. */
  function DetailOf(issue: Issue): (d: Response.ErrorDetail)
    ensures var v := Response.ErrorDetailValue(d);
      && v.Dict? && Keys(v.entries) == ["field", "message", "code"]
      && Get(v.entries, "field") == Some(Str(FieldName(issue.loc)))
      && Get(v.entries, "message") == Some(Str(issue.msg))
      && Get(v.entries, "code") == Some(Str(issue.errorType))
  {
    var d := Response.ErrorDetail(Some(FieldName(issue.loc)), issue.msg, Some(issue.errorType));
    var fields := [("field", Str(FieldName(issue.loc))), ("message", Str(issue.msg)), ("code", Str(issue.errorType))];
    assert Response.DropNone(fields[2..]) == fields[2..];
    assert Response.DropNone(fields[1..]) == fields[1..];
    assert Response.DropNone(fields) == fields;
    Response.EncodeStringDict(fields);
    GetAt(fields, 0);
    GetAt(fields, 1);
    GetAt(fields, 2);
    d
  }

  /**
   * The loop shared by both validation handlers: one `ErrorDetail` per reported
   * error, in the order reported.
   */
  method ConvertErrors(issues: seq<Issue>) returns (errors: seq<Response.ErrorDetail>)
    ensures |errors| == |issues|
    ensures forall i :: 0 <= i < |issues| ==> errors[i] == DetailOf(issues[i])
  {
    errors := [];
    for n := 0 to |issues|
      invariant |errors| == n
      invariant forall i :: 0 <= i < n ==> errors[i] == DetailOf(issues[i])
    {
      var fieldName := FieldName(issues[n].loc);
      errors := errors + [Response.ErrorDetail(Some(fieldName), issues[n].msg, Some(issues[n].errorType))];
    }
  }

  /** The `errors` list of a validation response for the reported errors. */
  function ErrorsValue(issues: seq<Issue>): Value
  {
    Response.EncodeDateTime(Response.OptErrors(Some(seq(|issues|, i requires 0 <= i < |issues| => DetailOf(issues[i])))))
  }

  /** `validation_exception_handler`: 422 VALIDATION_ERROR, "Request validation failed", the converted errors. */
  method ValidationExceptionHandler(now: string, state: LoggingMiddleware.RequestState, freshUuid: string,
                                    issues: seq<Issue>) returns (r: Response.JsonResponse)
    requires ValidRequestId(state)
    ensures r.statusCode == 422
    ensures Response.Field(r, "success") == Some(Bool(false))
    ensures Response.Field(r, "error_code") == Some(Str("VALIDATION_ERROR"))
    ensures Response.Field(r, "message") == Some(Str("Request validation failed"))
    ensures Response.Field(r, "errors") == Some(ErrorsValue(issues))
    ensures Response.Field(r, "request_id") == OptionStr(RequestIdOf(state, freshUuid))
  {
    var errors := ConvertErrors(issues);
    assert errors == seq(|issues|, i requires 0 <= i < |issues| => DetailOf(issues[i]));
    r := Response.ErrorResponse(now, "Request validation failed", "VALIDATION_ERROR", 422, None, Some(errors),
                                RequestIdOf(state, freshUuid));
  }

  /** `pydantic_validation_exception_handler`: as above, with the message "Data validation failed". */
  method PydanticValidationExceptionHandler(now: string, state: LoggingMiddleware.RequestState, freshUuid: string,
                                            issues: seq<Issue>) returns (r: Response.JsonResponse)
    requires ValidRequestId(state)
    ensures r.statusCode == 422
    ensures Response.Field(r, "success") == Some(Bool(false))
    ensures Response.Field(r, "error_code") == Some(Str("VALIDATION_ERROR"))
    ensures Response.Field(r, "message") == Some(Str("Data validation failed"))
    ensures Response.Field(r, "errors") == Some(ErrorsValue(issues))
    ensures Response.Field(r, "request_id") == OptionStr(RequestIdOf(state, freshUuid))
  {
    var errors := ConvertErrors(issues);
    assert errors == seq(|issues|, i requires 0 <= i < |issues| => DetailOf(issues[i]));
    r := Response.ErrorResponse(now, "Data validation failed", "VALIDATION_ERROR", 422, None, Some(errors),
                                RequestIdOf(state, freshUuid));
  }

  // ---------------------------------------------------------------------------
  // Unexpected exceptions

  /**
   * `generic_exception_handler`: always 500 INTERNAL_SERVER_ERROR. In
   * production the message is fixed and there are no details; elsewhere the
   * message carries the exception's text and the details its type name and
   * traceback.
   */
  function GenericExceptionHandler(now: string, state: LoggingMiddleware.RequestState, freshUuid: string,
                                   apiEnv: string, excText: string, excType: string, traceback: string)
    : (r: Response.JsonResponse)
    requires ValidRequestId(state)
    ensures r.statusCode == 500
    ensures Response.Field(r, "success") == Some(Bool(false))
    ensures Response.Field(r, "error_code") == Some(Str("INTERNAL_SERVER_ERROR"))
    ensures apiEnv == "production" ==>
      Response.Field(r, "message") == Some(Str("An internal server error occurred")) && Response.Details(r).None?
    ensures apiEnv != "production" ==>
      && Response.Field(r, "message") == Some(Str("Internal server error: " + excText))
      && Response.Details(r).Some?
      && Keys(Response.Details(r).value) == ["error_type", "traceback"]
      && Get(Response.Details(r).value, "error_type") == Some(Str(excType))
      && Get(Response.Details(r).value, "traceback") == Some(Str(traceback))
    ensures Response.Field(r, "request_id") == OptionStr(RequestIdOf(state, freshUuid))
  {
    if apiEnv == "production" then
      Response.ErrorResponse(now, "An internal server error occurred", "INTERNAL_SERVER_ERROR", 500, None, None,
                             RequestIdOf(state, freshUuid))
    else
      var details := [("error_type", Str(excType)), ("traceback", Str(traceback))];
      GetAt(details, 0);
      GetAt(details, 1);
      Response.EncodeStringDict(details);
      Response.ErrorResponse(now, "Internal server error: " + excText, "INTERNAL_SERVER_ERROR", 500, Some(details),
                             None, RequestIdOf(state, freshUuid))
  }

  /** In production nothing about the exception reaches the response. */
  lemma ProductionHidesException(now: string, state: LoggingMiddleware.RequestState, freshUuid: string,
                                 text1: string, type1: string, trace1: string,
                                 text2: string, type2: string, trace2: string)
    requires ValidRequestId(state)
    ensures GenericExceptionHandler(now, state, freshUuid, "production", text1, type1, trace1)
         == GenericExceptionHandler(now, state, freshUuid, "production", text2, type2, trace2)
  {
  }
}
