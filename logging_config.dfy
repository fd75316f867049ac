/**
 * The pure parts of the logging configuration: the security-aware formatter's
 * redaction of sensitive keys, the level chosen for API responses and security
 * events, and the context data attached to business and security events.
 */
module LoggingConfig {
  import opened Wrappers
  import opened Json
  import Text

  // The numeric levels of Python's `logging` module.
  const DEBUG: int := 10
  const INFO: int := 20
  const WARNING: int := 30
  const ERROR: int := 40
  const CRITICAL: int := 50

  /** Key fragments whose presence marks a key as sensitive. */
  const SensitiveFields: set<string> := {
    "password", "token", "key", "secret", "authorization",
    "auth", "cookie", "session", "jwt", "api_key",
    "supabase_key", "supabase_jwt_secret"
  }

  /** What a sensitive key's value is replaced by. */
  const Redacted: string := "[REDACTED]"

  /** A key is sensitive when its lower-cased form contains any sensitive fragment. */
  predicate IsSensitiveKey(key: string)
  {
    exists s | s in SensitiveFields :: Text.IsInfix(s, Text.Lower(key))
  }

  /** Matching ignores case: a key is sensitive exactly when its lower-cased form is. */
  lemma SensitiveKeyIgnoresCase(key: string)
    ensures IsSensitiveKey(key) <==> IsSensitiveKey(Text.Lower(key))
  {
    Text.LowerIdempotent(key);
  }

  /** Matching is on substrings: a key that contains a sensitive key is itself sensitive. */
  lemma SensitiveKeyInside(key: string, outer: string)
    requires IsSensitiveKey(key) && Text.IsInfix(key, outer)
    ensures IsSensitiveKey(outer)
  {
    var s :| s in SensitiveFields && Text.IsInfix(s, Text.Lower(key));
    var i: nat :| i <= |outer| && Text.OccursAt(key, outer, i);
    Text.LowerOccursAt(key, outer, i);
    assert Text.IsInfix(Text.Lower(key), Text.Lower(outer));
    Text.InfixTransitive(s, Text.Lower(key), Text.Lower(outer));
  }

  // ---------------------------------------------------------------------------
  // Redaction: the specification

  /** The value the filter stores under `key`, given the original `value`. */
  function FilteredValue(key: string, value: Value): Value
    decreases value, 2
  {
    if IsSensitiveKey(key) then Str(Redacted)
    else match value
      case Dict(_) => Filtered(value)
      case List(items) => List(seq(|items|, j requires 0 <= j < |items| =>
                                     if items[j].Dict? then Filtered(items[j]) else items[j]))
      case _ => value
  }

  /**
   * The result of filtering `data`: a non-dict is returned as it is; a dict
   * keeps its keys in order and each value becomes its `FilteredValue`.
   */
  function Filtered(data: Value): (r: Value)
    decreases data, 1
  {
    match data
    case Dict(es) =>
      Dict(seq(|es|, i requires 0 <= i < |es| => (es[i].0, FilteredValue(es[i].0, es[i].1))))
    case _ => data
  }

  // ---------------------------------------------------------------------------
  // Redaction: the formatter's loop

  /**
   * `SecurityAwareJSONFormatter._filter_sensitive_data`: builds a fresh dict
   * key by key, redacting sensitive keys and descending into dicts and into
   * the dict elements of lists. The keys of a dict are distinct, so each
   * insertion into `filtered` appends.
   */
  method FilterSensitiveData(data: Value) returns (r: Value)
    ensures r == Filtered(data)
    decreases data
  {
    if !data.Dict? {
      return data;
    }
    var es := data.entries;
    var filtered: Entries := [];
    for i := 0 to |es|
      invariant |filtered| == i
      invariant forall j :: 0 <= j < i ==> filtered[j] == (es[j].0, FilteredValue(es[j].0, es[j].1))
    {
      var key := es[i].0;
      var value := es[i].1;
      assert es[i] in es;
      var v: Value;
      if IsSensitiveKey(key) {
        v := Str(Redacted);
      } else if value.Dict? {
        v := FilterSensitiveData(value);
      } else if value.List? {
        var items: seq<Value> := [];
        for j := 0 to |value.items|
          invariant |items| == j
          invariant forall m :: 0 <= m < j ==>
            items[m] == if value.items[m].Dict? then Filtered(value.items[m]) else value.items[m]
        {
          var item := value.items[j];
          assert item in value.items;
          if item.Dict? {
            item := FilterSensitiveData(item);
          }
          items := items + [item];
        }
        v := List(items);
        assert v == FilteredValue(key, value);
      } else {
        v := value;
      }
      filtered := filtered + [(key, v)];
    }
    r := Dict(filtered);
  }

  // ---------------------------------------------------------------------------
  // Redaction: properties

  /** The filter keeps a dict's keys, in order, and returns anything else unchanged. */
  lemma FilteredShape(data: Value)
    ensures !data.Dict? ==> Filtered(data) == data
    ensures data.Dict? ==> Filtered(data).Dict? && Keys(Filtered(data).entries) == Keys(data.entries)
  {
  }

  /** A sensitive key's value is replaced by the redaction marker, whatever it was. */
  lemma FilteredRedacts(es: Entries, i: nat)
    requires i < |es| && IsSensitiveKey(es[i].0)
    ensures Filtered(Dict(es)).entries[i] == (es[i].0, Str(Redacted))
  {
  }

  /**
   * Under a key that is not sensitive, a dict is filtered, a list keeps its
   * length with its dict elements filtered and its other elements (nested
   * lists included) unchanged, and any other value is copied.
   */
  lemma FilteredDescends(es: Entries, i: nat)
    requires i < |es| && !IsSensitiveKey(es[i].0)
    ensures var v := Filtered(Dict(es)).entries[i].1;
      && (es[i].1.Dict? ==> v == Filtered(es[i].1))
      && (es[i].1.List? ==>
            v.List? && |v.items| == |es[i].1.items| &&
            forall j :: 0 <= j < |v.items| ==>
              v.items[j] == if es[i].1.items[j].Dict? then Filtered(es[i].1.items[j]) else es[i].1.items[j])
      && (!es[i].1.Dict? && !es[i].1.List? ==> v == es[i].1)
  {
  }

  /** Filtering an already filtered value changes nothing. */
  lemma {:induction false} FilteredIdempotent(data: Value)
    ensures Filtered(Filtered(data)) == Filtered(data)
    decreases data, 1
  {
    if data.Dict? {
      var es := data.entries;
      var f := Filtered(data).entries;
      forall i | 0 <= i < |es|
        ensures FilteredValue(f[i].0, f[i].1) == f[i].1
      {
        assert es[i] in es;
        FilteredValueIdempotent(es[i].0, es[i].1);
      }
    }
  }

  lemma {:induction false} FilteredValueIdempotent(key: string, value: Value)
    ensures FilteredValue(key, FilteredValue(key, value)) == FilteredValue(key, value)
    decreases value, 2
  {
    if !IsSensitiveKey(key) {
      match value
      case Dict(_) =>
        FilteredIdempotent(value);
      case List(items) =>
        var v := FilteredValue(key, value);
        forall j | 0 <= j < |items| && items[j].Dict?
          ensures Filtered(v.items[j]) == v.items[j]
        {
          assert items[j] in items;
          FilteredIdempotent(items[j]);
        }
      case _ =>
    }
  }

  /**
   * What redaction guarantees: in a dict, and in every dict reached through a
   * dict value or a dict element of a list value, every sensitive key holds
   * the redaction marker.
   */
  ghost predicate Redacts(data: Value)
    decreases data, 1
  {
    data.Dict? ==>
      forall i :: 0 <= i < |data.entries| ==> ValueRedacts(data.entries[i].0, data.entries[i].1)
  }

  ghost predicate ValueRedacts(key: string, value: Value)
    decreases value, 2
  {
    if IsSensitiveKey(key) then value == Str(Redacted)
    else match value
      case Dict(_) => Redacts(value)
      case List(items) => forall j :: 0 <= j < |items| ==> Redacts(items[j])
      case _ => true
  }

  /** The filter's output meets the redaction guarantee, whatever its input. */
  lemma {:induction false} FilteredRedactsAll(data: Value)
    ensures Redacts(Filtered(data))
    decreases data, 1
  {
    if data.Dict? {
      var es := data.entries;
      var f := Filtered(data).entries;
      forall i | 0 <= i < |f|
        ensures ValueRedacts(f[i].0, f[i].1)
      {
        assert es[i] in es;
        FilteredValueRedacts(es[i].0, es[i].1);
      }
    }
  }

  lemma {:induction false} FilteredValueRedacts(key: string, value: Value)
    ensures ValueRedacts(key, FilteredValue(key, value))
    decreases value, 2
  {
    if !IsSensitiveKey(key) {
      match value
      case Dict(_) =>
        FilteredRedactsAll(value);
      case List(items) =>
        var v := FilteredValue(key, value);
        forall j | 0 <= j < |items|
          ensures Redacts(v.items[j])
        {
          assert items[j] in items;
          if items[j].Dict? {
            FilteredRedactsAll(items[j]);
          }
        }
      case _ =>
    }
  }

  /** The match is on substrings: "monkey" is sensitive because it contains "key". */
  lemma MonkeyIsSensitive()
    ensures IsSensitiveKey("monkey")
  {
    assert Text.Lower("monkey") == "monkey";
    assert Text.OccursAt("key", "monkey", 3);
  }

  /** The match ignores case: "Authorization" is sensitive. */
  lemma AuthorizationHeaderIsSensitive()
    ensures IsSensitiveKey("Authorization")
  {
    assert Text.Lower("Authorization") == "authorization";
    assert Text.OccursAt("authorization", "authorization", 0);
  }

  /**
   * Only a list directly under a key is searched for dicts: a dict inside a
   * list inside a list keeps a sensitive key's value.
   */
  lemma NestedListNotSearched(secret: Value)
    ensures var inner := Dict([("password", secret)]);
      var data := Dict([("rows", List([List([inner])]))]);
      Filtered(data) == data
  {
    var inner := Dict([("password", secret)]);
    var data := Dict([("rows", List([List([inner])]))]);
    assert Text.Lower("rows") == "rows";
    assert !IsSensitiveKey("rows") by {
      forall s | s in SensitiveFields
        ensures !Text.IsInfix(s, "rows")
      {
        if |s| <= 4 {
          Text.NotInfixByFirstChar(s, "rows");
        }
      }
    }
    var rows := List([List([inner])]);
    assert FilteredValue("rows", rows) == rows;
    assert Filtered(data).entries == [("rows", rows)];
  }

  /**
   * The last three fragments add nothing: every key they catch also contains
   * "key", "jwt" or "secret", and "authorization" contains "auth".
   */
  lemma SensitiveFieldsReduce(key: string)
    ensures IsSensitiveKey(key) <==>
      exists s | s in {"password", "token", "key", "secret", "auth", "cookie", "session", "jwt"} ::
        Text.IsInfix(s, Text.Lower(key))
  {
    var lk := Text.Lower(key);
    if IsSensitiveKey(key) {
      var s :| s in SensitiveFields && Text.IsInfix(s, lk);
      if s == "authorization" {
        assert Text.OccursAt("auth", s, 0);
        Text.InfixTransitive("auth", s, lk);
      } else if s == "api_key" {
        assert Text.OccursAt("key", s, 4);
        Text.InfixTransitive("key", s, lk);
      } else if s == "supabase_key" {
        assert Text.OccursAt("key", s, 9);
        Text.InfixTransitive("key", s, lk);
      } else if s == "supabase_jwt_secret" {
        assert Text.OccursAt("jwt", s, 9);
        Text.InfixTransitive("jwt", s, lk);
      }
    }
  }

  // ---------------------------------------------------------------------------
  // Levels and event context

  /** Python's `logging.getLevelName` for the five levels used here; any other level is rendered as "Level n". */
  function LevelName(level: int): string
  {
    if level == CRITICAL then "CRITICAL"
    else if level == ERROR then "ERROR"
    else if level == WARNING then "WARNING"
    else if level == INFO then "INFO"
    else if level == DEBUG then "DEBUG"
    else "Level " + Text.IntToDecimal(level)
  }

  /** The level `log_security_event` logs at for a given severity; unknown severities log at INFO. */
  function SeverityLevel(severity: string): (level: int)
    ensures level in {INFO, WARNING, ERROR, CRITICAL}
    ensures level == INFO <==> severity !in {"warning", "error", "critical"}
  {
    if severity == "info" then INFO
    else if severity == "warning" then WARNING
    else if severity == "error" then ERROR
    else if severity == "critical" then CRITICAL
    else INFO
  }

  /** Each of the four known severities names the level it selects. */
  lemma SeverityNamesLevel(severity: string)
    requires severity in {"info", "warning", "error", "critical"}
    ensures LevelName(SeverityLevel(severity)) == Text.Upper(severity)
  {
  }

  /** One call of `log_with_context`: the level, the message and the extra data. */
  datatype LogEntry = LogEntry(level: int, message: string, extraData: Entries)

  /**
   * `log_api_response`: the context of a finished request. Responses below 400
   * log at INFO, the others at WARNING. The message formats the float response
   * time, which is not modelled, so the entry carries the method and path only.
   */
  function LogApiResponse(httpMethod: string, path: string, statusCode: int, responseTimeMs: Value,
                          userId: Option<string>): (e: LogEntry)
    ensures e.level == INFO <==> statusCode < 400
    ensures e.level == WARNING <==> statusCode >= 400
    ensures Keys(e.extraData) == ["request_method", "request_path", "response_status",
                                  "response_time_ms", "user_id", "event_type"]
    ensures Get(e.extraData, "request_method") == Some(Str(httpMethod))
    ensures Get(e.extraData, "request_path") == Some(Str(path))
    ensures Get(e.extraData, "response_status") == Some(Int(statusCode))
    ensures Get(e.extraData, "response_time_ms") == Some(responseTimeMs)
    ensures Get(e.extraData, "user_id") == Some(if userId.Some? then Str(userId.value) else Null)
    ensures Get(e.extraData, "event_type") == Some(Str("api_response"))
  {
    var extra := [("request_method", Str(httpMethod)), ("request_path", Str(path)),
                  ("response_status", Int(statusCode)), ("response_time_ms", responseTimeMs),
                  ("user_id", OptStr(userId)), ("event_type", Str("api_response"))];
    GetAt(extra, 0);
    GetAt(extra, 1);
    GetAt(extra, 2);
    GetAt(extra, 3);
    GetAt(extra, 4);
    GetAt(extra, 5);
    LogEntry(if statusCode < 400 then INFO else WARNING, httpMethod + " " + path, extra)
  }

  /** The context `log_business_event` starts from, before `additional_data` is merged in. */
  function BusinessEventBase(eventType: string, userId: Option<string>, vendorId: Option<string>): Entries
  {
    [("event_type", Str("business_" + eventType)), ("user_id", OptStr(userId)),
     ("vendor_id", OptStr(vendorId))]
  }

  /** `log_business_event`: the base context, updated with `additional_data` when that is non-empty. */
  function LogBusinessEvent(eventType: string, message: string, userId: Option<string>,
                            vendorId: Option<string>, additionalData: Option<Entries>): (e: LogEntry)
    ensures e.level == INFO && e.message == message
    ensures ["event_type", "user_id", "vendor_id"] <= Keys(e.extraData)
  {
    var base := BusinessEventBase(eventType, userId, vendorId);
    var extra := if additionalData.Some? && additionalData.value != []
                 then Update(base, additionalData.value) else base;
    UpdateKeysPrefix(base, if additionalData.Some? then additionalData.value else []);
    LogEntry(INFO, message, extra)
  }

  /**
   * Every key of `additional_data` overrides the base context; the other base
   * keys keep their values. In particular the event type is "business_" plus
   * the given type unless `additional_data` sets its own.
   */
  lemma {:induction false} BusinessEventMerge(eventType: string, message: string, userId: Option<string>,
                                              vendorId: Option<string>, additionalData: Option<Entries>,
                                              k: string)
    requires additionalData.Some? ==> DistinctKeys(additionalData.value)
    ensures var extra := LogBusinessEvent(eventType, message, userId, vendorId, additionalData).extraData;
      var base := BusinessEventBase(eventType, userId, vendorId);
      Get(extra, k) == if additionalData.Some? && k in Keys(additionalData.value)
                       then Get(additionalData.value, k) else Get(base, k)
    ensures var extra := LogBusinessEvent(eventType, message, userId, vendorId, additionalData).extraData;
      (additionalData.None? || "event_type" !in Keys(additionalData.value)) ==>
        Get(extra, "event_type") == Some(Str("business_" + eventType))
  {
    var base := BusinessEventBase(eventType, userId, vendorId);
    if additionalData.Some? && additionalData.value != [] {
      UpdateGet(base, additionalData.value, k);
      UpdateGet(base, additionalData.value, "event_type");
    }
  }

  /** `log_security_event`: the context of a security event and the level its severity selects. */
  function LogSecurityEvent(eventType: string, message: string, userId: Option<string>,
                            ipAddress: Option<string>, severity: string := "info"): (e: LogEntry)
    ensures e.level == SeverityLevel(severity) && e.message == message
    ensures Keys(e.extraData) == ["event_type", "user_id", "ip_address", "severity"]
    ensures Get(e.extraData, "event_type") == Some(Str("security_" + eventType))
    ensures Get(e.extraData, "user_id") == Some(if userId.Some? then Str(userId.value) else Null)
    ensures Get(e.extraData, "ip_address") == Some(if ipAddress.Some? then Str(ipAddress.value) else Null)
    ensures Get(e.extraData, "severity") == Some(Str(severity))
  {
    var extra := [("event_type", Str("security_" + eventType)), ("user_id", OptStr(userId)),
                  ("ip_address", OptStr(ipAddress)), ("severity", Str(severity))];
    GetAt(extra, 0);
    GetAt(extra, 1);
    GetAt(extra, 2);
    GetAt(extra, 3);
    LogEntry(SeverityLevel(severity), message, extra)
  }
}
