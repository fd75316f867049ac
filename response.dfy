/**
 * The response serializer: the JSON bodies of success, error and paginated
 * responses, the datetime encoding and `exclude_none` dropping applied to
 * them, the pagination arithmetic, and the fixed status/error-code shortcuts.
 */
module Response {
  import opened Wrappers
  import opened Json

  /** A field-level error, as listed in a validation error response. */
  datatype ErrorDetail = ErrorDetail(field: Option<string>, message: string, code: Option<string>)

  /** The pagination block of a paginated response. */
  datatype PaginationMeta = PaginationMeta(page: int, perPage: int, totalItems: int, totalPages: int,
                                           hasNext: bool, hasPrev: bool)

  /** A `JSONResponse`: the HTTP status and the JSON content. */
  datatype JsonResponse = JsonResponse(statusCode: int, content: Value)

  /** Why `paginated` raises instead of answering. */
  datatype PageError =
    | ZeroDivisionError   // `total_items / per_page` with `per_page == 0`
    | ValidationError     // `PaginationMeta` rejected one of its bounds

  // ---------------------------------------------------------------------------
  // Datetime encoding

  /**
   * `encode_datetime`: every datetime reached through dicts and lists becomes
   * its ISO text; everything else, tuples included, is left as it is.
   */
  function EncodeDateTime(v: Value): (r: Value)
    ensures r == Null <==> v == Null
  {
    match v
    case DateTime(iso) => Str(iso)
    case Dict(es) => Dict(seq(|es|, i requires 0 <= i < |es| => (es[i].0, EncodeDateTime(es[i].1))))
    case List(items) => List(seq(|items|, i requires 0 <= i < |items| => EncodeDateTime(items[i])))
    case _ => v
  }

  /** No datetime can be reached from `v` through dicts and lists. */
  ghost predicate NoDateTime(v: Value)
  {
    match v
    case DateTime(_) => false
    case Dict(es) => forall i :: 0 <= i < |es| ==> NoDateTime(es[i].1)
    case List(items) => forall i :: 0 <= i < |items| ==> NoDateTime(items[i])
    case _ => true
  }

  /**
   * The encoder keeps dict keys and list lengths, encodes every dict value and list
   * element in place, turns a datetime into its ISO text, and leaves tuples and scalars alone.
   */
  lemma EncodeDateTimeShape(v: Value)
    ensures v.Dict? ==> EncodeDateTime(v).Dict? && Keys(EncodeDateTime(v).entries) == Keys(v.entries)
    ensures v.List? ==> EncodeDateTime(v).List? && |EncodeDateTime(v).items| == |v.items|
    ensures v.Dict? ==> forall i :: 0 <= i < |v.entries| ==>
      EncodeDateTime(v).entries[i] == (v.entries[i].0, EncodeDateTime(v.entries[i].1))
    ensures v.List? ==> forall i :: 0 <= i < |v.items| ==> EncodeDateTime(v).items[i] == EncodeDateTime(v.items[i])
    ensures v.DateTime? ==> EncodeDateTime(v) == Str(v.iso)
    ensures !v.DateTime? && !v.Dict? && !v.List? ==> EncodeDateTime(v) == v
  {
  }

  /** After encoding, no datetime is left where the encoder looks. */
  lemma {:induction false} EncodeDateTimeRemoves(v: Value)
    ensures NoDateTime(EncodeDateTime(v))
  {
    match v
    case Dict(es) =>
      forall i | 0 <= i < |es| ensures NoDateTime(EncodeDateTime(es[i].1)) {
        EncodeDateTimeRemoves(es[i].1);
      }
    case List(items) =>
      forall i | 0 <= i < |items| ensures NoDateTime(EncodeDateTime(items[i])) {
        EncodeDateTimeRemoves(items[i]);
      }
    case _ =>
  }

  /** A value without datetimes is encoded as itself. */
  lemma {:induction false} EncodeDateTimeIdentity(v: Value)
    requires NoDateTime(v)
    ensures EncodeDateTime(v) == v
  {
    match v
    case Dict(es) =>
      forall i | 0 <= i < |es| ensures EncodeDateTime(es[i].1) == es[i].1 {
        EncodeDateTimeIdentity(es[i].1);
      }
    case List(items) =>
      forall i | 0 <= i < |items| ensures EncodeDateTime(items[i]) == items[i] {
        EncodeDateTimeIdentity(items[i]);
      }
    case _ =>
  }

  /** Encoding twice is encoding once. */
  lemma EncodeDateTimeIdempotent(v: Value)
    ensures EncodeDateTime(EncodeDateTime(v)) == EncodeDateTime(v)
  {
    EncodeDateTimeRemoves(v);
    EncodeDateTimeIdentity(EncodeDateTime(v));
  }

  lemma {:induction false} EncodeGet(es: Entries, k: string)
    ensures Get(EncodeDateTime(Dict(es)).entries, k)
      == if Get(es, k).Some? then Some(EncodeDateTime(Get(es, k).value)) else None
  {
    if es != [] {
      assert EncodeDateTime(Dict(es[1..])).entries == EncodeDateTime(Dict(es)).entries[1..];
      EncodeGet(es[1..], k);
    }
  }

  // ---------------------------------------------------------------------------
  // Serialization with exclude_none

  /** `exclude_none=True`: the fields whose value is None are left out. */
  function DropNone(es: Entries): (r: Entries)
    ensures forall i :: 0 <= i < |r| ==> r[i].1 != Null
  {
    if es == [] then []
    else (if es[0].1 == Null then [] else [es[0]]) + DropNone(es[1..])
  }

  lemma {:induction false} DropNoneAbsent(es: Entries, k: string)
    requires forall j :: 0 <= j < |es| ==> es[j].0 != k
    ensures Get(DropNone(es), k) == None
  {
    if es != [] {
      DropNoneAbsent(es[1..], k);
      var head := if es[0].1 == Null then [] else [es[0]];
      assert (head + DropNone(es[1..]))[|head|..] == DropNone(es[1..]);
    }
  }

  lemma {:induction false} DropNoneGet(es: Entries, i: nat)
    requires i < |es|
    requires forall j :: 0 <= j < |es| && j != i ==> es[j].0 != es[i].0
    ensures Get(DropNone(es), es[i].0) == if es[i].1 == Null then None else Some(es[i].1)
  {
    var head := if es[0].1 == Null then [] else [es[0]];
    assert DropNone(es) == head + DropNone(es[1..]);
    assert (head + DropNone(es[1..]))[|head|..] == DropNone(es[1..]);
    if i == 0 {
      DropNoneAbsent(es[1..], es[0].0);
    } else {
      assert es[1..][i - 1] == es[i];
      DropNoneGet(es[1..], i - 1);
    }
  }

  /** `dict_with_encoders(exclude_none=True)` over a model's fields. */
  function Serialize(fields: Entries): (body: Value)
    ensures body.Dict?
    ensures forall i :: 0 <= i < |body.entries| ==> body.entries[i].1 != Null
  {
    var kept := DropNone(fields);
    var body := EncodeDateTime(Dict(kept));
    assert forall i :: 0 <= i < |kept| ==> body.entries[i].1 == EncodeDateTime(kept[i].1);
    body
  }

  /** A field holding None is absent from the body; any other field holds its encoded value. */
  lemma SerializeGet(fields: Entries, i: nat)
    requires i < |fields|
    requires forall j :: 0 <= j < |fields| && j != i ==> fields[j].0 != fields[i].0
    ensures Get(Serialize(fields).entries, fields[i].0)
      == if fields[i].1 == Null then None else Some(EncodeDateTime(fields[i].1))
  {
    DropNoneGet(fields, i);
    EncodeGet(DropNone(fields), fields[i].0);
  }

  /** The value of a top-level field of a response's body, if the body has it. */
  function Field(r: JsonResponse, k: string): Option<Value>
  {
    if r.content.Dict? then Get(r.content.entries, k) else None
  }

  /** The `details` dict of an error response's body, if the body has one. */
  function Details(r: JsonResponse): Option<Entries>
  {
    match Field(r, "details")
    case Some(Dict(es)) => Some(es)
    case _ => None
  }

  /** An `ErrorDetail` as serialized with exclude_none. */
  function ErrorDetailValue(e: ErrorDetail): Value
  {
    Serialize([("field", OptStr(e.field)), ("message", Str(e.message)), ("code", OptStr(e.code))])
  }

  /** The `pagination` block as serialized. */
  function PaginationValue(m: PaginationMeta): Value
  {
    Dict([("page", Int(m.page)), ("per_page", Int(m.perPage)), ("total_items", Int(m.totalItems)),
          ("total_pages", Int(m.totalPages)), ("has_next", Bool(m.hasNext)), ("has_prev", Bool(m.hasPrev))])
  }

  function OptDetails(details: Option<Entries>): Value
  {
    if details.Some? then Dict(details.value) else Null
  }

  function OptErrors(errors: Option<seq<ErrorDetail>>): Value
  {
    if errors.Some? then List(seq(|errors.value|, i requires 0 <= i < |errors.value| => ErrorDetailValue(errors.value[i])))
    else Null
  }

  // ---------------------------------------------------------------------------
  // Success and error responses

  /** The body fields of `ResponseSerializer.success`, in the order the source builds them. */
  function SuccessFields(now: string, data: Value, message: string, meta: Value,
                         requestId: Option<string>): Entries
  {
    [("success", Bool(true)), ("message", Str(message)), ("timestamp", DateTime(now)),
     ("request_id", OptStr(requestId)), ("data", data), ("meta", meta)]
  }

  /** The fields every success body carries. */
  lemma SuccessBodyRequired(now: string, data: Value, message: string, meta: Value, requestId: Option<string>)
    ensures var body := Serialize(SuccessFields(now, data, message, meta, requestId)).entries;
      && Get(body, "success") == Some(Bool(true))
      && Get(body, "message") == Some(Str(message))
      && Get(body, "timestamp") == Some(Str(now))
  {
    var fields := SuccessFields(now, data, message, meta, requestId);
    SerializeGet(fields, 0);
    SerializeGet(fields, 1);
    SerializeGet(fields, 2);
  }

  /** The fields a success body carries only when they are not None. */
  lemma SuccessBodyOptional(now: string, data: Value, message: string, meta: Value, requestId: Option<string>)
    ensures var body := Serialize(SuccessFields(now, data, message, meta, requestId)).entries;
      && Get(body, "request_id") == (if requestId.Some? then Some(Str(requestId.value)) else None)
      && Get(body, "data") == (if data == Null then None else Some(EncodeDateTime(data)))
      && Get(body, "meta") == (if meta == Null then None else Some(EncodeDateTime(meta)))
  {
    var fields := SuccessFields(now, data, message, meta, requestId);
    SerializeGet(fields, 3);
    SerializeGet(fields, 4);
    SerializeGet(fields, 5);
  }

  /**
   * `ResponseSerializer.success`: `success` is true, `message` and the
   * timestamp (the clock's reading `now`, in ISO form) are always present, and
   * `request_id`, `data` and `meta` appear only when they are not None.
   */
  function SuccessResponse(now: string, data: Value := Null, message: string := "Success",
                           meta: Value := Null, statusCode: int := 200,
                           requestId: Option<string> := None): (r: JsonResponse)
    ensures r.statusCode == statusCode
    ensures Field(r, "success") == Some(Bool(true))
    ensures Field(r, "message") == Some(Str(message))
    ensures Field(r, "timestamp") == Some(Str(now))
    ensures Field(r, "request_id") == if requestId.Some? then Some(Str(requestId.value)) else None
    ensures Field(r, "data") == if data == Null then None else Some(EncodeDateTime(data))
    ensures Field(r, "meta") == if meta == Null then None else Some(EncodeDateTime(meta))
  {
    SuccessBodyRequired(now, data, message, meta, requestId);
    SuccessBodyOptional(now, data, message, meta, requestId);
    JsonResponse(statusCode, Serialize(SuccessFields(now, data, message, meta, requestId)))
  }

  /** The body fields of `ResponseSerializer.error`, in the order the source builds them. */
  function ErrorFields(now: string, message: string, errorCode: string, details: Option<Entries>,
                       errors: Option<seq<ErrorDetail>>, requestId: Option<string>): Entries
  {
    [("success", Bool(false)), ("message", Str(message)), ("timestamp", DateTime(now)),
     ("request_id", OptStr(requestId)), ("error_code", Str(errorCode)),
     ("details", OptDetails(details)), ("errors", OptErrors(errors))]
  }

  /** The fields every error body carries. */
  lemma ErrorBodyRequired(now: string, message: string, errorCode: string, details: Option<Entries>,
                          errors: Option<seq<ErrorDetail>>, requestId: Option<string>)
    ensures var body := Serialize(ErrorFields(now, message, errorCode, details, errors, requestId)).entries;
      && Get(body, "success") == Some(Bool(false))
      && Get(body, "message") == Some(Str(message))
      && Get(body, "timestamp") == Some(Str(now))
      && Get(body, "error_code") == Some(Str(errorCode))
  {
    var fields := ErrorFields(now, message, errorCode, details, errors, requestId);
    SerializeGet(fields, 0);
    SerializeGet(fields, 1);
    SerializeGet(fields, 2);
    SerializeGet(fields, 4);
  }

  /** The fields an error body carries only when they are supplied. */
  lemma ErrorBodyOptional(now: string, message: string, errorCode: string, details: Option<Entries>,
                          errors: Option<seq<ErrorDetail>>, requestId: Option<string>)
    ensures var body := Serialize(ErrorFields(now, message, errorCode, details, errors, requestId)).entries;
      && Get(body, "request_id") == (if requestId.Some? then Some(Str(requestId.value)) else None)
      && Get(body, "details") == (if details.Some? then Some(EncodeDateTime(Dict(details.value))) else None)
      && Get(body, "errors") == (if errors.Some? then Some(EncodeDateTime(OptErrors(errors))) else None)
  {
    var fields := ErrorFields(now, message, errorCode, details, errors, requestId);
    SerializeGet(fields, 3);
    SerializeGet(fields, 5);
    SerializeGet(fields, 6);
  }

  /**
   * `ResponseSerializer.error`: `success` is false, `error_code` is present,
   * and `details`, `errors` and `request_id` appear only when supplied.
   */
  function ErrorResponse(now: string, message: string, errorCode: string, statusCode: int := 500,
                         details: Option<Entries> := None, errors: Option<seq<ErrorDetail>> := None,
                         requestId: Option<string> := None): (r: JsonResponse)
    ensures r.statusCode == statusCode
    ensures Field(r, "success") == Some(Bool(false))
    ensures Field(r, "message") == Some(Str(message))
    ensures Field(r, "timestamp") == Some(Str(now))
    ensures Field(r, "request_id") == if requestId.Some? then Some(Str(requestId.value)) else None
    ensures Field(r, "error_code") == Some(Str(errorCode))
    ensures Field(r, "details") == if details.Some? then Some(EncodeDateTime(Dict(details.value))) else None
    ensures Field(r, "errors") == if errors.Some? then Some(EncodeDateTime(OptErrors(errors))) else None
  {
    ErrorBodyRequired(now, message, errorCode, details, errors, requestId);
    ErrorBodyOptional(now, message, errorCode, details, errors, requestId);
    JsonResponse(statusCode, Serialize(ErrorFields(now, message, errorCode, details, errors, requestId)))
  }

  /**
   * `math.ceil(a / b)` in exact integer arithmetic, for any non-zero divisor. For b > 0 and
   * 0 < a < 2^53 it equals Python's `math.ceil(a / b)` on the correctly rounded float quotient.
   */
  function CeilDiv(a: int, b: int): (q: int)
    requires b != 0
    ensures b > 0 ==> (q - 1) * b < a <= q * b
    ensures b > 0 && a > 0 ==> q >= 1
  {
    if b > 0 then
      var q := (a + b - 1) / b;
      assert a + b - 1 == q * b + (a + b - 1) % b;
      assert (q - 1) * b == q * b - b;
      q
    else (-a - b - 1) / (-b)
  }

  /** The bounds `PaginationMeta` validates. */
  predicate ValidMeta(m: PaginationMeta)
  {
    m.page >= 1 && 1 <= m.perPage <= 100 && m.totalItems >= 0 && m.totalPages >= 0
  }

  /**
   * The pagination block `paginated` builds, or why it raises: dividing by a
   * zero `per_page` when there are items, or a bound `PaginationMeta` rejects.
   * On success, `total_pages` is the least number of pages that holds every
   * item, `has_next` says the page is before the last, `has_prev` that it is
   * after the first. A page past the end is not rejected.
   */
  function Pagination(page: int, perPage: int, totalItems: int): (r: Result<PaginationMeta, PageError>)
    ensures r == Failure(ZeroDivisionError) <==> totalItems > 0 && perPage == 0
    ensures r.Success? <==> page >= 1 && 1 <= perPage <= 100 && totalItems >= 0
    ensures r.Success? ==>
      && r.value.page == page && r.value.perPage == perPage && r.value.totalItems == totalItems
      && (r.value.totalPages == 0 <==> totalItems == 0)
      && (totalItems > 0 ==> (r.value.totalPages - 1) * perPage < totalItems <= r.value.totalPages * perPage)
      && (r.value.hasNext <==> page < r.value.totalPages)
      && (r.value.hasPrev <==> page > 1)
  {
    if totalItems > 0 && perPage == 0 then Failure(ZeroDivisionError)
    else
      var totalPages := if totalItems > 0 then CeilDiv(totalItems, perPage) else 0;
      var meta := PaginationMeta(page, perPage, totalItems, totalPages, page < totalPages, page > 1);
      if ValidMeta(meta) then Success(meta) else Failure(ValidationError)
  }

  lemma MulMonotone(a: int, b: int, c: int)
    requires a <= b && c >= 0
    ensures a * c <= b * c
  {
  }

  /** There is a next page exactly when the items shown up to this page do not exhaust the total. */
  lemma HasNextIffMoreItems(page: int, perPage: int, totalItems: int)
    requires Pagination(page, perPage, totalItems).Success?
    ensures Pagination(page, perPage, totalItems).value.hasNext <==> page * perPage < totalItems
  {
    var m := Pagination(page, perPage, totalItems).value;
    if page < m.totalPages {
      MulMonotone(page, m.totalPages - 1, perPage);
    } else {
      MulMonotone(m.totalPages, page, perPage);
    }
  }

  /** A page past the last one is accepted, with no next page but a previous one. */
  lemma PagePastTheEnd()
    ensures Pagination(5, 10, 20) == Success(PaginationMeta(5, 10, 20, 2, false, true))
  {
    assert CeilDiv(20, 10) == 2;
  }

  /**
   * The body fields of `ResponseSerializer.paginated`, in the order the source builds them.
   * The body has no `meta`: the paginated model redefines `meta` as a property, which is
   * taken here to leave the inherited `meta` field at None, so that it is dropped (the
   * reading of pydantic 1; pydantic 2 behaves differently, see README).
   */
  function PaginatedFields(now: string, items: seq<Value>, message: string, m: PaginationMeta,
                           requestId: Option<string>): Entries
  {
    [("success", Bool(true)), ("message", Str(message)), ("timestamp", DateTime(now)),
     ("request_id", OptStr(requestId)), ("data", List(items)), ("pagination", PaginationValue(m))]
  }

  /** A paginated body is marked successful and carries the message, the timestamp and the request id when given. */
  lemma PaginatedBodyHead(now: string, items: seq<Value>, message: string, m: PaginationMeta,
                          requestId: Option<string>)
    ensures var body := Serialize(PaginatedFields(now, items, message, m, requestId)).entries;
      && Get(body, "success") == Some(Bool(true))
      && Get(body, "message") == Some(Str(message))
      && Get(body, "timestamp") == Some(Str(now))
      && Get(body, "request_id") == (if requestId.Some? then Some(Str(requestId.value)) else None)
  {
    var fields := PaginatedFields(now, items, message, m, requestId);
    SerializeGet(fields, 0);
    SerializeGet(fields, 1);
    SerializeGet(fields, 2);
    SerializeGet(fields, 3);
  }

  /** A paginated body carries the items, and the pagination block unchanged by the encoder. */
  lemma PaginatedBodyPayload(now: string, items: seq<Value>, message: string, m: PaginationMeta,
                             requestId: Option<string>)
    ensures var body := Serialize(PaginatedFields(now, items, message, m, requestId)).entries;
      && Get(body, "data") == Some(EncodeDateTime(List(items)))
      && Get(body, "pagination") == Some(PaginationValue(m))
  {
    var fields := PaginatedFields(now, items, message, m, requestId);
    SerializeGet(fields, 4);
    SerializeGet(fields, 5);
    assert EncodeDateTime(PaginationValue(m)) == PaginationValue(m);
  }

  /**
   * `ResponseSerializer.paginated`: status 200, `success` true, the items as
   * `data` and the pagination block; raises when `Pagination` does.
   */
  function PaginatedResponse(now: string, items: seq<Value>, page: int, perPage: int, totalItems: int,
                             message: string := "Data retrieved successfully",
                             requestId: Option<string> := None): (r: Result<JsonResponse, PageError>)
    ensures r.Failure? <==> Pagination(page, perPage, totalItems).Failure?
    ensures r.Failure? ==> r.error == Pagination(page, perPage, totalItems).error
    ensures r.Success? ==>
      && r.value.statusCode == 200
      && Field(r.value, "success") == Some(Bool(true))
      && Field(r.value, "message") == Some(Str(message))
      && Field(r.value, "timestamp") == Some(Str(now))
      && Field(r.value, "request_id") == (if requestId.Some? then Some(Str(requestId.value)) else None)
      && Field(r.value, "data") == Some(EncodeDateTime(List(items)))
      && Field(r.value, "pagination") == Some(PaginationValue(Pagination(page, perPage, totalItems).value))
  {
    match Pagination(page, perPage, totalItems)
    case Failure(e) => Failure(e)
    case Success(m) =>
      PaginatedBodyHead(now, items, message, m, requestId);
      PaginatedBodyPayload(now, items, message, m, requestId);
      Success(JsonResponse(200, Serialize(PaginatedFields(now, items, message, m, requestId))))
  }

  // ---------------------------------------------------------------------------
  // Fixed status and error-code shortcuts

  /** `ResponseSerializer.created`: a success response with status 201. */
  function Created(now: string, data: Value := Null, message: string := "Resource created successfully",
                   requestId: Option<string> := None): (r: JsonResponse)
    ensures r.statusCode == 201 && Field(r, "success") == Some(Bool(true))
    ensures Field(r, "message") == Some(Str(message))
    ensures Field(r, "data") == if data == Null then None else Some(EncodeDateTime(data))
    ensures Field(r, "meta") == None
    ensures Field(r, "request_id") == if requestId.Some? then Some(Str(requestId.value)) else None
  {
    SuccessResponse(now, data, message, Null, 201, requestId)
  }

  /** `ResponseSerializer.no_content`: a success response with status 204 and no data. */
  function NoContent(now: string, message: string := "Operation completed successfully",
                     requestId: Option<string> := None): (r: JsonResponse)
    ensures r.statusCode == 204 && Field(r, "success") == Some(Bool(true))
    ensures Field(r, "message") == Some(Str(message)) && Field(r, "data") == None
    ensures Field(r, "meta") == None
    ensures Field(r, "request_id") == if requestId.Some? then Some(Str(requestId.value)) else None
  {
    SuccessResponse(now, Null, message, Null, 204, requestId)
  }

  /** `ResponseSerializer.validation_error`: 422 with code VALIDATION_ERROR and the error list. */
  function ValidationErrorResponse(now: string, errors: seq<ErrorDetail>, message: string := "Validation failed",
                                   requestId: Option<string> := None): (r: JsonResponse)
    ensures r.statusCode == 422 && Field(r, "success") == Some(Bool(false))
    ensures Field(r, "error_code") == Some(Str("VALIDATION_ERROR"))
    ensures Field(r, "message") == Some(Str(message))
    ensures Field(r, "errors") == Some(EncodeDateTime(OptErrors(Some(errors))))
    ensures Field(r, "details") == None
    ensures Field(r, "request_id") == if requestId.Some? then Some(Str(requestId.value)) else None
  {
    ErrorResponse(now, message, "VALIDATION_ERROR", 422, None, Some(errors), requestId)
  }

  /**
   * The `details` of `not_found` and `forbidden`: the two optional fields that
   * were supplied non-empty, or None when neither was.
   */
  function OptionalDetails(key1: string, value1: Option<string>, key2: string, value2: Option<string>): Option<Entries>
  {
    var d := PresentStrings([(key1, value1), (key2, value2)]);
    if d != [] then Some(d) else None
  }

  lemma OptionalDetailsGet(key1: string, value1: Option<string>, key2: string, value2: Option<string>)
    requires key1 != key2
    ensures var d := OptionalDetails(key1, value1, key2, value2);
      && (d.None? <==> !TruthyStr(value1) && !TruthyStr(value2))
      && (d.Some? ==>
            && Get(d.value, key1) == (if TruthyStr(value1) then Some(Str(value1.value)) else None)
            && Get(d.value, key2) == (if TruthyStr(value2) then Some(Str(value2.value)) else None)
            && forall k :: k != key1 && k != key2 ==> Get(d.value, k) == None)
  {
    var pairs := [(key1, value1), (key2, value2)];
    PresentStringsGet(pairs, 0);
    PresentStringsGet(pairs, 1);
    forall k | k != key1 && k != key2
      ensures Get(PresentStrings(pairs), k) == None
    {
      PresentStringsKeys(pairs, k);
    }
  }

  /** Encoding leaves a dict of strings as it is. */
  lemma EncodeStringDict(es: Entries)
    requires forall i :: 0 <= i < |es| ==> es[i].1.Str?
    ensures EncodeDateTime(Dict(es)) == Dict(es)
  {
    assert NoDateTime(Dict(es));
    EncodeDateTimeIdentity(Dict(es));
  }

  /**
   * `ResponseSerializer.not_found`: 404 with code NOT_FOUND; `details` holds
   * `resource_type` and `resource_id` when supplied non-empty, and nothing else.
   */
  function NotFound(now: string, message: string := "Resource not found",
                    resourceType: Option<string> := None, resourceId: Option<string> := None,
                    requestId: Option<string> := None): (r: JsonResponse)
    ensures r.statusCode == 404 && Field(r, "success") == Some(Bool(false))
    ensures Field(r, "error_code") == Some(Str("NOT_FOUND"))
    ensures Field(r, "message") == Some(Str(message)) && Field(r, "timestamp") == Some(Str(now))
    ensures Field(r, "request_id") == if requestId.Some? then Some(Str(requestId.value)) else None
    ensures Field(r, "errors") == None
    ensures Details(r).None? <==> !TruthyStr(resourceType) && !TruthyStr(resourceId)
    ensures Details(r).Some? ==>
      && Get(Details(r).value, "resource_type") == (if TruthyStr(resourceType) then Some(Str(resourceType.value)) else None)
      && Get(Details(r).value, "resource_id") == (if TruthyStr(resourceId) then Some(Str(resourceId.value)) else None)
      && forall k :: k != "resource_type" && k != "resource_id" ==> Get(Details(r).value, k) == None
  {
    var details := OptionalDetails("resource_type", resourceType, "resource_id", resourceId);
    OptionalDetailsGet("resource_type", resourceType, "resource_id", resourceId);
    if details.Some? then
      EncodeStringDict(details.value);
      ErrorResponse(now, message, "NOT_FOUND", 404, details, None, requestId)
    else
      ErrorResponse(now, message, "NOT_FOUND", 404, details, None, requestId)
  }

  /**
   * `ResponseSerializer.forbidden`: 403 with code FORBIDDEN; `details` holds
   * `resource` and `action` when supplied non-empty, and nothing else.
   */
  function Forbidden(now: string, message: string := "Access forbidden",
                     resource: Option<string> := None, action: Option<string> := None,
                     requestId: Option<string> := None): (r: JsonResponse)
    ensures r.statusCode == 403 && Field(r, "success") == Some(Bool(false))
    ensures Field(r, "error_code") == Some(Str("FORBIDDEN"))
    ensures Field(r, "message") == Some(Str(message)) && Field(r, "timestamp") == Some(Str(now))
    ensures Field(r, "request_id") == if requestId.Some? then Some(Str(requestId.value)) else None
    ensures Field(r, "errors") == None
    ensures Details(r).None? <==> !TruthyStr(resource) && !TruthyStr(action)
    ensures Details(r).Some? ==>
      && Get(Details(r).value, "resource") == (if TruthyStr(resource) then Some(Str(resource.value)) else None)
      && Get(Details(r).value, "action") == (if TruthyStr(action) then Some(Str(action.value)) else None)
      && forall k :: k != "resource" && k != "action" ==> Get(Details(r).value, k) == None
  {
    var details := OptionalDetails("resource", resource, "action", action);
    OptionalDetailsGet("resource", resource, "action", action);
    if details.Some? then
      EncodeStringDict(details.value);
      ErrorResponse(now, message, "FORBIDDEN", 403, details, None, requestId)
    else
      ErrorResponse(now, message, "FORBIDDEN", 403, details, None, requestId)
  }

  /** `ResponseSerializer.unauthorized`: 401 with code UNAUTHORIZED and no details. */
  function Unauthorized(now: string, message: string := "Authentication required",
                        requestId: Option<string> := None): (r: JsonResponse)
    ensures r.statusCode == 401 && Field(r, "success") == Some(Bool(false))
    ensures Field(r, "error_code") == Some(Str("UNAUTHORIZED"))
    ensures Field(r, "message") == Some(Str(message)) && Field(r, "details") == None
    ensures Field(r, "errors") == None
    ensures Field(r, "request_id") == if requestId.Some? then Some(Str(requestId.value)) else None
  {
    ErrorResponse(now, message, "UNAUTHORIZED", 401, None, None, requestId)
  }
}
