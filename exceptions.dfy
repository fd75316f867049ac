/**
 * The service's exception hierarchy. Each exception carries a message, an HTTP
 * status, an application error code and a details dict. Python subclasses
 * become named constructors of one class; `className` records which Python
 * class was instantiated, since the default error code is derived from it.
 */
module Exceptions {
  import opened Wrappers
  import opened Json
  import Text

  // ---------------------------------------------------------------------------
  // The value-level rules the constructors follow

  /** `error_code or cls.__name__.upper()`. */
  function DefaultErrorCode(className: string, errorCode: Option<string>): (code: string)
    ensures TruthyStr(errorCode) ==> code == errorCode.value
    ensures !TruthyStr(errorCode) ==> |code| == |className| && forall i :: 0 <= i < |code| ==> !('a' <= code[i] <= 'z')
  {
    if TruthyStr(errorCode) then errorCode.value else Text.Upper(className)
  }

  /** Without an explicit code, the code is the class name up to ASCII letter case. */
  lemma DefaultErrorCodeMatchesClass(className: string, errorCode: Option<string>)
    requires !TruthyStr(errorCode)
    ensures Text.Lower(DefaultErrorCode(className, errorCode)) == Text.Lower(className)
  {
  }

  /**
   * The details an exception keeps from the dict it was given: `details or {}`
   * keeps a non-empty dict and replaces None or an empty dict by `{}`.
   */
  function FinalDetails(details: Option<Entries>): (kept: Entries)
    ensures kept == [] || (details.Some? && kept == details.value)
    ensures details.Some? && details.value != [] ==> kept == details.value
  {
    if details.Some? && details.value != [] then details.value else []
  }

  /**
   * The details after the optional-field rule of ConflictError, DatabaseError and
   * ExternalServiceError: a non-empty `value` with no dict gives a new dict holding
   * only `key`; a non-empty `value` with a dict sets `key` in that dict; an empty
   * or absent `value` leaves the details as they were.
   */
  function AttachedDetails(key: string, value: Option<string>, details: Option<Entries>): Option<Entries>
  {
    if TruthyStr(value) && details.None? then Some([(key, Str(value.value))])
    else if TruthyStr(value) then Some(Put(details.value, key, Str(value.value)))
    else details
  }

  /**
   * With a non-empty value, `key` holds the value and every other key holds
   * what the given dict held (nothing, without a dict); with none, nothing changes.
   */
  lemma AttachedDetailsGet(key: string, value: Option<string>, details: Option<Entries>, k: string)
    ensures !TruthyStr(value) ==> AttachedDetails(key, value, details) == details
    ensures TruthyStr(value) ==>
      && AttachedDetails(key, value, details).Some?
      && AttachedDetails(key, value, details).value != []
      && Get(AttachedDetails(key, value, details).value, k)
         == if k == key then Some(Str(value.value)) else if details.Some? then Get(details.value, k) else None
  {
    if TruthyStr(value) && details.Some? {
      PutGet(details.value, key, Str(value.value), k);
      GetSomeIffKey(Put(details.value, key, Str(value.value)), key);
    }
  }

  /** Attaching a field never shrinks the dict: the given keys stay, in order, and `key` is added if new. */
  lemma AttachedDetailsKeys(key: string, value: Option<string>, details: Entries)
    requires TruthyStr(value)
    ensures Keys(details) <= Keys(AttachedDetails(key, value, Some(details)).value)
    ensures key in Keys(AttachedDetails(key, value, Some(details)).value)
  {
  }

  /** The entries of an optional dict object. */
  function EntriesOf(d: Option<DictObject>): Option<Entries>
    reads if d.Some? then {d.value} else {}
  {
    if d.Some? then Some(d.value.entries) else None
  }

  // ---------------------------------------------------------------------------
  // The in-place steps

  /**
   * `details or {}`: the given dict object when it is non-empty, otherwise a
   * fresh empty one.
   */
  method DetailsOrEmpty(details: Option<DictObject>) returns (d: DictObject)
    ensures d.entries == FinalDetails(EntriesOf(details))
    ensures details.Some? && details.value.entries != [] ==> d == details.value
    ensures !(details.Some? && details.value.entries != []) ==> fresh(d)
  {
    if details.Some? && details.value.entries != [] {
      d := details.value;
    } else {
      d := new DictObject([]);
    }
  }

  /**
   * The optional-field step: `details = {key: value}` when there is no dict, or
   * `details[key] = value` on the caller's own dict object.
   */
  method AttachField(key: string, value: Option<string>, details: Option<DictObject>) returns (d: Option<DictObject>)
    modifies if details.Some? then {details.value} else {}
    ensures EntriesOf(d) == AttachedDetails(key, value, old(EntriesOf(details)))
    ensures details.Some? ==> d == details
    ensures details.None? && d.Some? ==> fresh(d.value)
    ensures !TruthyStr(value) ==> unchanged(if details.Some? then {details.value} else {})
  {
    if TruthyStr(value) && details.None? {
      var created := new DictObject([(key, Str(value.value))]);
      d := Some(created);
    } else if TruthyStr(value) {
      details.value.SetItem(key, Str(value.value));
      d := details;
    } else {
      d := details;
    }
  }

  /**
   * The conditional insertion of `NotFoundError` and `ForbiddenError`: a fresh
   * dict into which each pair is set only when its value is non-empty.
   */
  method PresentDetails(key1: string, value1: Option<string>, key2: string, value2: Option<string>)
    returns (d: DictObject)
    requires key1 != key2
    ensures fresh(d)
    ensures d.entries == PresentStrings([(key1, value1), (key2, value2)])
  {
    d := new DictObject([]);
    if TruthyStr(value1) {
      d.SetItem(key1, Str(value1.value));
    }
    if TruthyStr(value2) {
      d.SetItem(key2, Str(value2.value));
    }
    assert PresentStrings([(key1, value1), (key2, value2)][1..]) == PresentStrings([(key2, value2)]);
  }

  // ---------------------------------------------------------------------------
  // The exception objects

  class NugeException {
    /** The name of the Python class that was instantiated. */
    const className: string
    var message: string
    var statusCode: int
    var errorCode: string
    var details: DictObject

    /**
     * `NugeException.__init__`: status 500 unless given, the error code or
     * the upper-cased class name, and the details dict or `{}`.
     */
    constructor (message: string, statusCode: int := 500, errorCode: Option<string> := None,
                 details: Option<DictObject> := None, className: string := "NugeException")
      ensures this.className == className && this.message == message && this.statusCode == statusCode
      ensures this.errorCode == DefaultErrorCode(className, errorCode)
      ensures this.details.entries == FinalDetails(EntriesOf(details))
      ensures details.Some? && details.value.entries != [] ==> this.details == details.value
      ensures !(details.Some? && details.value.entries != []) ==> fresh(this.details)
    {
      var d := DetailsOrEmpty(details);
      this.className := className;
      this.message := message;
      this.statusCode := statusCode;
      this.errorCode := DefaultErrorCode(className, errorCode);
      this.details := d;
    }

    /** `ValidationError`: 422 with code VALIDATION_ERROR. */
    constructor Validation(message: string := "Validation failed", details: Option<DictObject> := None)
      ensures className == "ValidationError" && this.message == message
      ensures statusCode == 422 && errorCode == "VALIDATION_ERROR"
      ensures this.details.entries == FinalDetails(EntriesOf(details))
      ensures details.Some? && details.value.entries != [] ==> this.details == details.value
      ensures !(details.Some? && details.value.entries != []) ==> fresh(this.details)
    {
      var d := DetailsOrEmpty(details);
      className := "ValidationError";
      this.message := message;
      statusCode := 422;
      errorCode := "VALIDATION_ERROR";
      this.details := d;
    }

    /** `NotFoundError`: 404 with code NOT_FOUND; details hold the resource fields supplied non-empty. */
    constructor NotFound(message: string := "Resource not found",
                         resourceType: Option<string> := None, resourceId: Option<string> := None)
      ensures className == "NotFoundError" && this.message == message
      ensures statusCode == 404 && errorCode == "NOT_FOUND"
      ensures fresh(details)
      ensures details.entries == PresentStrings([("resource_type", resourceType), ("resource_id", resourceId)])
    {
      var built := PresentDetails("resource_type", resourceType, "resource_id", resourceId);
      var d := DetailsOrEmpty(Some(built));
      className := "NotFoundError";
      this.message := message;
      statusCode := 404;
      errorCode := "NOT_FOUND";
      details := d;
    }

    /** `UnauthorizedError`: 401 with code UNAUTHORIZED. */
    constructor Unauthorized(message: string := "Authentication required", details: Option<DictObject> := None)
      ensures className == "UnauthorizedError" && this.message == message
      ensures statusCode == 401 && errorCode == "UNAUTHORIZED"
      ensures this.details.entries == FinalDetails(EntriesOf(details))
      ensures details.Some? && details.value.entries != [] ==> this.details == details.value
      ensures !(details.Some? && details.value.entries != []) ==> fresh(this.details)
    {
      var d := DetailsOrEmpty(details);
      className := "UnauthorizedError";
      this.message := message;
      statusCode := 401;
      errorCode := "UNAUTHORIZED";
      this.details := d;
    }

    /** `ForbiddenError`: 403 with code FORBIDDEN; details hold the resource and action supplied non-empty. */
    constructor Forbidden(message: string := "Access forbidden",
                          resource: Option<string> := None, action: Option<string> := None)
      ensures className == "ForbiddenError" && this.message == message
      ensures statusCode == 403 && errorCode == "FORBIDDEN"
      ensures fresh(details)
      ensures details.entries == PresentStrings([("resource", resource), ("action", action)])
    {
      var built := PresentDetails("resource", resource, "action", action);
      var d := DetailsOrEmpty(Some(built));
      className := "ForbiddenError";
      this.message := message;
      statusCode := 403;
      errorCode := "FORBIDDEN";
      details := d;
    }

    /**
     * `ConflictError`: 409 with code CONFLICT; a non-empty `conflict_field` is
     * set in the caller's dict, in place, or in a new one when none was given.
     */
    constructor Conflict(message: string := "Resource conflict", conflictField: Option<string> := None,
                         details: Option<DictObject> := None)
      modifies if details.Some? then {details.value} else {}
      ensures className == "ConflictError" && this.message == message
      ensures statusCode == 409 && errorCode == "CONFLICT"
      ensures EntriesOf(details) == if details.Some? then AttachedDetails("conflict_field", conflictField, old(EntriesOf(details))) else None
      ensures this.details.entries == FinalDetails(AttachedDetails("conflict_field", conflictField, old(EntriesOf(details))))
      ensures details.Some? && details.value.entries != [] ==> this.details == details.value
      ensures !(details.Some? && details.value.entries != []) ==> fresh(this.details)
    {
      var attached := AttachField("conflict_field", conflictField, details);
      var d := DetailsOrEmpty(attached);
      className := "ConflictError";
      this.message := message;
      statusCode := 409;
      errorCode := "CONFLICT";
      this.details := d;
    }

    /** `ServerError`: 500 with code SERVER_ERROR. */
    constructor Server(message: string := "Internal server error", details: Option<DictObject> := None)
      ensures className == "ServerError" && this.message == message
      ensures statusCode == 500 && errorCode == "SERVER_ERROR"
      ensures this.details.entries == FinalDetails(EntriesOf(details))
      ensures details.Some? && details.value.entries != [] ==> this.details == details.value
      ensures !(details.Some? && details.value.entries != []) ==> fresh(this.details)
    {
      var d := DetailsOrEmpty(details);
      className := "ServerError";
      this.message := message;
      statusCode := 500;
      errorCode := "SERVER_ERROR";
      this.details := d;
    }

    /** `DatabaseError`: a server error that records a non-empty `operation` in its details. */
    constructor Database(message: string := "Database operation failed", operation: Option<string> := None,
                         details: Option<DictObject> := None)
      modifies if details.Some? then {details.value} else {}
      ensures className == "DatabaseError" && this.message == message
      ensures statusCode == 500 && errorCode == "SERVER_ERROR"
      ensures EntriesOf(details) == if details.Some? then AttachedDetails("operation", operation, old(EntriesOf(details))) else None
      ensures this.details.entries == FinalDetails(AttachedDetails("operation", operation, old(EntriesOf(details))))
      ensures details.Some? && details.value.entries != [] ==> this.details == details.value
      ensures !(details.Some? && details.value.entries != []) ==> fresh(this.details)
    {
      var attached := AttachField("operation", operation, details);
      var d := DetailsOrEmpty(attached);
      className := "DatabaseError";
      this.message := message;
      statusCode := 500;
      errorCode := "SERVER_ERROR";
      this.details := d;
    }

    /** `ExternalServiceError`: a server error that records a non-empty `service` in its details. */
    constructor ExternalService(message: string := "External service error", service: Option<string> := None,
                                details: Option<DictObject> := None)
      modifies if details.Some? then {details.value} else {}
      ensures className == "ExternalServiceError" && this.message == message
      ensures statusCode == 500 && errorCode == "SERVER_ERROR"
      ensures EntriesOf(details) == if details.Some? then AttachedDetails("service", service, old(EntriesOf(details))) else None
      ensures this.details.entries == FinalDetails(AttachedDetails("service", service, old(EntriesOf(details))))
      ensures details.Some? && details.value.entries != [] ==> this.details == details.value
      ensures !(details.Some? && details.value.entries != []) ==> fresh(this.details)
    {
      var attached := AttachField("service", service, details);
      var d := DetailsOrEmpty(attached);
      className := "ExternalServiceError";
      this.message := message;
      statusCode := 500;
      errorCode := "SERVER_ERROR";
      this.details := d;
    }
  }
}
