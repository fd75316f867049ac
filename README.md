# Nuge API helpers, modelled in Dafny

This project models the deterministic core of the Nuge FastAPI service:

- the logging configuration's redaction of sensitive keys, and the levels and context data of its event loggers;
- the response serializer;
- the request helpers of the logging middleware;
- the exception hierarchy;
- the exception handlers that turn exceptions into error responses;
- the parsing of the CORS origin setting.

Python values are modelled as `Json.Value`. A dict is its entries in insertion order. `Json.Get`, `Json.Put` and `Json.Update` stand for `d.get(k)`, `d[k] = v` and `d.update(other)`. A dict that the code mutates through a reference it shares with its caller is a `Json.DictObject`. Python's `str.strip`, `str.split`, `str.join`, `str.lower`/`str.upper` and the `in` substring test are in `Text`.

Modules, one per source file, plus three shared ones:

| module | file |
|---|---|
| `LoggingConfig` | `api/src/logging_config.py` |
| `Response` | `api/src/core/response.py` |
| `LoggingMiddleware` | `api/src/middleware/logging_middleware.py` |
| `ErrorHandlers` | `api/src/core/error_handlers.py` |
| `Exceptions` | `api/src/core/exceptions.py` |
| `Config` | `api/src/config.py` |
| `Json`, `Text`, `Wrappers` | the shared values, strings and Option/Result |

Some inputs are parameters instead of being read:
- the clock's reading (`now`, the ISO text of `datetime.utcnow()`);
- the fresh `uuid4` text used when a request carries no id;
- `settings.API_ENV`;
- the exception's `str()` text, type name and traceback.

## Model

| member | source | states |
|---|---|---|
| LoggingConfig.FilterSensitiveData | api/src/logging_config.py:64-86 | The formatter's loop returns exactly the redaction specification `Filtered` of its input. |
| LoggingConfig.SensitiveKeyIgnoresCase | api/src/logging_config.py:71-74 | The redaction test `IsSensitiveKey` ignores case: a key is sensitive exactly when its lower-cased form is. |
| LoggingConfig.SensitiveKeyInside | api/src/logging_config.py:71-74 | `IsSensitiveKey` matches substrings: any key that contains a sensitive key is itself sensitive. |
| LoggingConfig.FilteredShape | api/src/logging_config.py:66-84 | A non-dict is returned unchanged. A dict keeps exactly its keys, in the same order. |
| LoggingConfig.FilteredRedacts | api/src/logging_config.py:31-35 | A key whose lower-cased form contains a sensitive fragment maps to "[REDACTED]", whatever its value was. |
| LoggingConfig.FilteredDescends | api/src/logging_config.py:76-84 | Under a non-sensitive key: a dict is filtered; a list keeps its length, with dict elements filtered and other elements, nested lists included, unchanged; scalars are copied. |
| LoggingConfig.FilteredIdempotent | api/src/logging_config.py:69-84 | Filtering twice equals filtering once. |
| LoggingConfig.FilteredRedactsAll | api/src/logging_config.py:69-84 | Every sensitive key in the output holds "[REDACTED]". This holds at the top level and in every dict reached through dict values or dict elements of list values. |
| LoggingConfig.MonkeyIsSensitive | api/src/logging_config.py:74 | The match is on substrings: "monkey" is sensitive because it contains "key". |
| LoggingConfig.AuthorizationHeaderIsSensitive | api/src/logging_config.py:71-74 | The key is lower-cased before matching: "Authorization" is sensitive. |
| LoggingConfig.NestedListNotSearched | api/src/logging_config.py:78-82 | A dict inside a list inside a list is not searched: its "password" value survives. |
| LoggingConfig.SensitiveFieldsReduce | api/src/logging_config.py:31-35 | The twelve fragments catch exactly the keys that eight of them catch. "authorization", "api_key", "supabase_key" and "supabase_jwt_secret" add nothing. |
| LoggingConfig.SeverityLevel | api/src/logging_config.py:305-310 | The level is INFO, WARNING, ERROR or CRITICAL. It is INFO exactly when the severity is not "warning", "error" or "critical". |
| LoggingConfig.SeverityNamesLevel | api/src/logging_config.py:305-310 | Each of the four known severities selects the level whose name is the severity upper-cased. |
| LoggingConfig.LogApiResponse | api/src/logging_config.py:252-265 | Level INFO exactly when status < 400, WARNING exactly when status ≥ 400. The six context keys come in order and hold the method, the path, the status, the response time, the user id (None when absent) and "api_response". |
| LoggingConfig.LogBusinessEvent | api/src/logging_config.py:277-286 | Logged at INFO with the given message. The base keys event_type, user_id and vendor_id come first, in order. |
| LoggingConfig.BusinessEventMerge | api/src/logging_config.py:277-284 | Every key of `additional_data` overrides the base; other base keys keep their values. event_type is "business_" + type unless overridden. |
| LoggingConfig.LogSecurityEvent | api/src/logging_config.py:298-312 | The level is the severity's level and the message is kept. The context has exactly the keys event_type, user_id, ip_address and severity, in order. They hold "security_" + type, the user id and the IP address (None when absent), and the severity. |
| Response.EncodeDateTime | api/src/core/response.py:34-41 | The encoding is None exactly when the input is None. |
| Response.EncodeDateTimeShape | api/src/core/response.py:34-41 | Dict keys and list lengths are preserved. Every dict value and every list element is replaced by its own encoding, in place. A datetime becomes its ISO text. Tuples and scalars pass through unchanged. |
| Response.EncodeDateTimeRemoves | api/src/core/response.py:34-41 | No datetime is left anywhere the encoder looks. |
| Response.EncodeDateTimeIdentity | api/src/core/response.py:34-41 | A value without datetimes is encoded as itself. |
| Response.EncodeDateTimeIdempotent | api/src/core/response.py:34-43 | Encoding twice equals encoding once. |
| Response.DropNone | api/src/core/response.py:31 | No field of the result holds None. |
| Response.SerializeGet | api/src/core/response.py:29-43 | A field holding None is absent from the body. Any other field holds its encoded value. |
| Response.Serialize | api/src/core/response.py:29-43 | The body is a dict, and none of its fields is None. |
| Response.SuccessBodyRequired | api/src/core/response.py:16-58 | A success body always carries success = true, the message and the timestamp as ISO text. |
| Response.SuccessBodyOptional | api/src/core/response.py:22-58 | request_id, data and meta are in a success body exactly when they are not None; data and meta are encoded. |
| Response.SuccessResponse | api/src/core/response.py:142-153 | The status is kept and success is true. message and timestamp are always present; request_id, data and meta appear only when not None. |
| Response.ErrorBodyRequired | api/src/core/response.py:69-83 | An error body always carries success = false, the message, the timestamp and the error code. |
| Response.ErrorBodyOptional | api/src/core/response.py:69-83 | request_id, details and errors are in an error body exactly when they are supplied; details and errors are encoded. |
| Response.ErrorResponse | api/src/core/response.py:178-189 | The status is kept and success is false. error_code is present; details, errors and request_id appear only when supplied. |
| Response.CeilDiv | api/src/core/response.py:216 | `math.ceil(a / b)` for b > 0: (q−1)·b < a ≤ q·b, and q ≥ 1 when a > 0. |
| Response.Pagination | api/src/core/response.py:215-227 | Raises ZeroDivisionError exactly when total > 0 and per_page = 0. Otherwise succeeds exactly when the bounds of the `PaginationMeta` model hold: page ≥ 1, 1 ≤ per_page ≤ 100 and total ≥ 0. On success: total_pages = 0 iff total = 0; (tp−1)·pp < total ≤ tp·pp; has_next iff page < tp; has_prev iff page > 1. |
| Response.HasNextIffMoreItems | api/src/core/response.py:216-217 | has_next holds exactly when page·per_page < total_items. |
| Response.PagePastTheEnd | api/src/core/response.py:215-218 | A page past the last one is accepted, with has_next false and has_prev true. |
| Response.PaginatedBodyHead | api/src/core/response.py:97-105 | A paginated body carries success = true, the message, the timestamp, and the request id exactly when one is given. |
| Response.PaginatedBodyPayload | api/src/core/response.py:97-105 | A paginated body carries the encoded items as data and the pagination block, which the encoder leaves unchanged. |
| Response.PaginatedResponse | api/src/core/response.py:214-239 | Raises exactly when the pagination block does. Otherwise: 200, success true, the message, the timestamp, the request id when given, the encoded items as data, and the pagination block. |
| Response.Created | api/src/core/response.py:248-253 | 201, success true, the message, data present unless None, no meta, and the request id when given. |
| Response.NoContent | api/src/core/response.py:261-265 | 204, success true, the message, no data and no meta, and the request id when given. |
| Response.ValidationErrorResponse | api/src/core/response.py:274-280 | 422 with VALIDATION_ERROR, the message, the error list and the request id when given; no details. |
| Response.OptionalDetailsGet | api/src/core/response.py:290-300 | details is None exactly when neither optional field is a non-empty string. Otherwise it holds each supplied field and no other key. |
| Response.NotFound | api/src/core/response.py:290-302 | 404 with NOT_FOUND, the message, the timestamp and the request id when given; no errors. details holds resource_type and resource_id exactly when supplied non-empty, holds nothing else, and is absent when neither was supplied. |
| Response.Forbidden | api/src/core/response.py:312-324 | 403 with FORBIDDEN, the message, the timestamp and the request id when given; no errors. details holds resource and action exactly when supplied non-empty, holds nothing else, and is absent when neither was supplied. |
| Response.Unauthorized | api/src/core/response.py:332-337 | 401 with UNAUTHORIZED, the message and the request id when given; no details and no errors. |
| LoggingMiddleware.Header | api/src/middleware/logging_middleware.py:135 | A found value belongs to a header whose name matches, ignoring case. None means no header matches. |
| LoggingMiddleware.GetClientIp | api/src/middleware/logging_middleware.py:134-154 | Precedence is X-Forwarded-For, then X-Real-IP, then CF-Connecting-IP, then the peer host, then "unknown"; empty headers count as absent. The X-Forwarded-For result is the stripped text before its first comma and holds no comma. The other headers are returned verbatim. |
| LoggingMiddleware.ForwardedForDecides | api/src/middleware/logging_middleware.py:135-138 | A non-empty X-Forwarded-For decides alone. Neither the peer address nor any header after it changes the result. |
| LoggingMiddleware.UnknownOnlyWithoutSources | api/src/middleware/logging_middleware.py:134-154 | The result is "unknown" only when the source that wins the precedence is itself "unknown", or when nothing is present at all. |
| LoggingMiddleware.ExtractUserId | api/src/middleware/logging_middleware.py:171-179 | A truthy state.user gives its id, or None without one. Otherwise the result is state.user_id when set (even to None), else None. |
| LoggingMiddleware.UserIdIgnoredWithUser | api/src/middleware/logging_middleware.py:171-173 | With a truthy state.user, state.user_id plays no part. |
| LoggingMiddleware.UserIdFallback | api/src/middleware/logging_middleware.py:176-179 | Without a truthy user: the stored user_id, or None when never set. |
| LoggingMiddleware.GetRequestId | api/src/middleware/logging_middleware.py:194 | The stored request id, or None when there is none. |
| ErrorHandlers.ErrorCodeFor | api/src/core/error_handlers.py:73-88 | The code is "HTTP_ERROR" exactly when the status is not one of the twelve mapped ones. |
| ErrorHandlers.ErrorCodeForInjective | api/src/core/error_handlers.py:73-86 | Distinct mapped statuses have distinct codes. |
| ErrorHandlers.ErrorCodesAgree | api/src/core/error_handlers.py:73-88 | 401, 403, 404 and 422 map to the codes of the matching response shortcuts. |
| ErrorHandlers.RequestIdOf | api/src/core/error_handlers.py:35 | Without a stored id, the fresh uuid is used. A stored None gives no id. A stored string is used as it is. |
| ErrorHandlers.NugeExceptionHandler | api/src/core/error_handlers.py:35-56 | The exception's status, message, error code and details pass through unchanged; success is false. |
| ErrorHandlers.HttpExceptionHandler | api/src/core/error_handlers.py:70-107 | The exception's status is kept, the code comes from the table, the message is the detail's text, and there are no details. |
| ErrorHandlers.FieldNameSplits | api/src/core/error_handlers.py:126 | The dotted field path splits back into the texts of its loc parts, in order, when no name holds a dot. |
| ErrorHandlers.FieldName | api/src/core/error_handlers.py:126 | An empty loc gives ""; a one-part loc gives that part's text, with no dot. |
| ErrorHandlers.ConvertErrors | api/src/core/error_handlers.py:124-131 | One ErrorDetail per reported error, in order. Its field is the loc joined by ".", its message is msg, its code is type. |
| ErrorHandlers.DetailOf | api/src/core/error_handlers.py:125-131 | The serialized detail has exactly the keys field, message and code, in order, holding the dotted loc, msg and type. None of them is dropped. |
| ErrorHandlers.ValidationExceptionHandler | api/src/core/error_handlers.py:121-149 | 422 VALIDATION_ERROR, "Request validation failed", the converted errors and the request id. |
| ErrorHandlers.PydanticValidationExceptionHandler | api/src/core/error_handlers.py:163-191 | 422 VALIDATION_ERROR, "Data validation failed", the converted errors and the request id. |
| ErrorHandlers.GenericExceptionHandler | api/src/core/error_handlers.py:205-237 | Always 500 INTERNAL_SERVER_ERROR with the request id. In production: the fixed message and no details. Otherwise: "Internal server error: " + the text, and details with exactly the keys error_type and traceback, holding the type name and the traceback. |
| ErrorHandlers.ProductionHidesException | api/src/core/error_handlers.py:221-223 | In production the response does not depend on the exception at all. |
| Exceptions.DefaultErrorCode | api/src/core/exceptions.py:32 | A non-empty given code is kept. Otherwise the code is the class name with no lower-case ASCII letter left, of the same length. |
| Exceptions.DefaultErrorCodeMatchesClass | api/src/core/exceptions.py:32 | Without a given code, the code equals the class name up to letter case. |
| Exceptions.FinalDetails | api/src/core/exceptions.py:33 | `details or {}`: a non-empty dict is kept; anything else becomes empty. |
| Exceptions.AttachedDetailsGet | api/src/core/exceptions.py:124-127 | With a non-empty value, the key holds it and every other key keeps its value (none without a dict). With no value, details are unchanged. |
| Exceptions.AttachedDetailsKeys | api/src/core/exceptions.py:126-127 | Setting the field in the caller's dict keeps its keys in order and adds the key. |
| Exceptions.DetailsOrEmpty | api/src/core/exceptions.py:33 | A non-empty dict object is kept by reference. Otherwise a fresh empty one is made. |
| Exceptions.AttachField | api/src/core/exceptions.py:124-127 | Without a dict, a fresh `{key: value}`. With a dict, the caller's own object is updated in place. With no value, nothing changes. |
| Exceptions.PresentDetails | api/src/core/exceptions.py:62-66 | A fresh dict holding exactly the non-empty optional fields, in order. |
| Exceptions.NugeException.constructor | api/src/core/exceptions.py:23-34 | The status is 500 unless given. The code is the given one or the class name upper-cased. details is the given non-empty dict, by reference, or a fresh `{}`. |
| Exceptions.NugeException.Validation | api/src/core/exceptions.py:40-50 | 422 VALIDATION_ERROR with the default message "Validation failed". |
| Exceptions.NugeException.NotFound | api/src/core/exceptions.py:56-73 | 404 NOT_FOUND. details is a fresh dict holding resource_type and resource_id only when non-empty. |
| Exceptions.NugeException.Unauthorized | api/src/core/exceptions.py:79-89 | 401 UNAUTHORIZED with the default message "Authentication required". |
| Exceptions.NugeException.Forbidden | api/src/core/exceptions.py:95-112 | 403 FORBIDDEN. details is a fresh dict holding resource and action only when non-empty. |
| Exceptions.NugeException.Conflict | api/src/core/exceptions.py:118-134 | 409 CONFLICT. conflict_field goes into a new dict, or into the caller's dict in place, or details are unchanged. The caller's dict is shared when non-empty afterwards. |
| Exceptions.NugeException.Server | api/src/core/exceptions.py:140-150 | 500 SERVER_ERROR with the default message "Internal server error". |
| Exceptions.NugeException.Database | api/src/core/exceptions.py:156-167 | 500 SERVER_ERROR. operation is added by the same rule as ConflictError's field. |
| Exceptions.NugeException.ExternalService | api/src/core/exceptions.py:173-184 | 500 SERVER_ERROR. service is added by the same rule as ConflictError's field. |
| Config.CorsOriginsList | api/src/config.py:26 | One origin more than there are commas. No origin holds a comma or has whitespace at either end. An origin is "" exactly when its piece was all whitespace. |
| Config.CorsOriginsOrder | api/src/config.py:26 | For any comma-free pieces, parsing their comma-join gives the pieces stripped, in order. |
| Config.DefaultCorsOriginsList | api/src/config.py:16-26 | The default yields ["http://localhost:3000", "http://localhost:8000"]. |
| Text.Strip | api/src/config.py:26 | `strip()` removes exactly the leading and trailing Python whitespace. The result is an infix that neither starts nor ends with whitespace. |
| Text.StripEmptyIffAllSpace | api/src/config.py:26 | `strip()` gives "" exactly when the string is all whitespace. |
| Text.StripUntouched | api/src/config.py:26 | A string with no whitespace at either end is left as it is. |
| Text.StripKeepsOut | api/src/middleware/logging_middleware.py:138 | `strip()` adds no character: one absent from the string is absent from the result. |
| Text.StripIdempotent | api/src/middleware/logging_middleware.py:138 | Stripping twice equals stripping once. |
| Text.JoinSplit | api/src/config.py:26 | Joining the pieces of a split restores the string. |
| Text.SplitJoin | api/src/core/error_handlers.py:126 | Splitting a join of separator-free pieces restores the pieces. |
| Text.SplitFirst | api/src/middleware/logging_middleware.py:138 | The first piece of a split is everything before the first separator. |
| Json.PutGet | api/src/core/exceptions.py:127 | After `d[k] = v`, k holds v and every other key holds what it held. |
| Json.DictObject.SetItem | api/src/core/exceptions.py:124-127 | `d[k] = v` on a shared dict object: the object's entries become `Put` of the old entries, so PutGet describes every key afterwards. Distinct keys stay distinct. |
| Json.UpdateGet | api/src/logging_config.py:283-284 | After `d.update(other)`, other's keys hold other's values and the rest keep theirs. |
| Json.PresentStringsGet | api/src/core/response.py:290-294 | A key is present exactly when its value was a non-empty string, and then it holds that string. |

## Left out

- The commission and settlement engine is not part of this model: none of its rate resolution, rounding, idempotency or payout batching appears in the modelled source files.
- Logging I/O: handler setup, the formatters' `format` methods, `json.dumps` and file rotation.
- The async middleware bodies and everything timing-related. Clocks, `uuid4` and tracebacks are parameters.
- Registering the handlers on the application, and the handlers' own log calls.
- LoggingConfig.LogApiResponse: the message's `{response_time_ms:.2f}` float formatting is not modelled. The message is `method path` only, and the response time is an opaque value.
- Text.Lower and Text.Upper: only ASCII letters change case. Python's Unicode `lower()`/`upper()` (for example the Kelvin sign lower-casing to "k") is not modelled.
- LoggingConfig.FilterSensitiveData: dict keys are strings. Non-string keys, on which `key.lower()` raises, are not modelled.
- Response.CeilDiv: integer ceiling division. Python divides two ints with correct rounding, and for 0 < total_items < 2^53 and 1 ≤ per_page ≤ 100 the rounded quotient never crosses an integer, so `math.ceil(total_items / per_page)` agrees with it there. Totals of 2^53 or more are not modelled.
- Response.Serialize: pydantic's conversion of nested models inside `data` and `meta` is not modelled; they are treated as plain values. The `Content-Type` header of success responses is not modelled.
- ErrorHandlers.HttpExceptionHandler: `str(exc.detail)` is an input text. The `str()` of non-string details is not modelled.
- ErrorHandlers.RequestIdOf: a stored request id that is neither a string nor None is excluded by `ValidRequestId`, because the response model would reject it.
- LoggingMiddleware.Header: header names are matched case-insensitively over ASCII. A repeated header yields its first value, as `headers.get` does.
- Pydantic's own validation is modelled only through the bounds `PaginationMeta` states.
- Response.PaginatedResponse: the success path models the pydantic 1 reading of the `meta` property that `PaginatedResponse` declares over the inherited `meta` field (api/src/core/response.py:106-110). There the field stays None and is dropped from the body. The service imports `pydantic_settings`, so it runs on pydantic 2. Read without execution, pydantic 2 takes the property object as the field's default. `exclude_none` then keeps it, and rendering the JSON body fails with a TypeError, which the generic handler turns into a 500. The model does not capture that outcome.
- `log_business_event` builds its context in a local dict that nothing else references. It is modelled on values (`Json.Update`), with no object.
