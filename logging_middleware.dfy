/**
 * The request helpers of the logging middleware: the client address behind
 * proxies, the authenticated user's id, and the request id kept in the
 * request's state.
 */
module LoggingMiddleware {
  import opened Wrappers
  import opened Json
  import Text

  /** The peer address of the connection. */
  datatype Client = Client(host: string, port: int)

  /**
   * The object stored in `request.state.user`: its truth value and its `id`
   * attribute (`None` when the object has no such attribute).
   */
  datatype UserObject = UserObject(truthy: bool, id: Option<Value>)

  /**
   * `request.state`: each attribute is `None` when it was never set, and
   * otherwise holds the value set.
   */
  datatype RequestState = RequestState(user: Option<UserObject>, userId: Option<Value>, requestId: Option<Value>)

  /** The parts of a request the helpers read; header names as they arrived, in order. */
  datatype Request = Request(headers: seq<(string, string)>, client: Option<Client>, state: RequestState)

  /** `request.headers.get(name)` for a lower-case `name`: the first header whose name matches, ignoring case. */
  function Header(headers: seq<(string, string)>, name: string): (r: Option<string>)
    ensures r.Some? ==> exists i :: 0 <= i < |headers| && Text.Lower(headers[i].0) == name && headers[i].1 == r.value
    ensures r.None? ==> forall i :: 0 <= i < |headers| ==> Text.Lower(headers[i].0) != name
  {
    if headers == [] then None
    else if Text.Lower(headers[0].0) == name then Some(headers[0].1)
    else
      var r := Header(headers[1..], name);
      assert forall i :: 1 <= i < |headers| ==> headers[i] == headers[1..][i - 1];
      r
  }

  /** Headers added after the first match do not change what `get` finds. */
  lemma {:induction false} HeaderPrefix(headers: seq<(string, string)>, extra: seq<(string, string)>, name: string)
    requires Header(headers, name).Some?
    ensures Header(headers + extra, name) == Header(headers, name)
  {
    if Text.Lower(headers[0].0) != name {
      assert (headers + extra)[1..] == headers[1..] + extra;
      HeaderPrefix(headers[1..], extra, name);
    }
  }

  /**
   * `_get_client_ip`: the first of these that is present and non-empty, in
   * order of preference: the first comma-separated entry of X-Forwarded-For,
   * stripped; X-Real-IP as it is; CF-Connecting-IP as it is; the connection's
   * peer host; and finally "unknown".
   */
  function GetClientIp(request: Request): (ip: string)
    ensures var xff := Header(request.headers, "x-forwarded-for");
      TruthyStr(xff) ==> ip == Text.Strip(xff.value[..Text.IndexOf(xff.value, ',')]) && ',' !in ip
    ensures var xff, realIp := Header(request.headers, "x-forwarded-for"), Header(request.headers, "x-real-ip");
      !TruthyStr(xff) && TruthyStr(realIp) ==> ip == realIp.value
    ensures var xff, realIp, cf := Header(request.headers, "x-forwarded-for"), Header(request.headers, "x-real-ip"),
                                 Header(request.headers, "cf-connecting-ip");
      && (!TruthyStr(xff) && !TruthyStr(realIp) && TruthyStr(cf) ==> ip == cf.value)
      && (!TruthyStr(xff) && !TruthyStr(realIp) && !TruthyStr(cf) ==>
            ip == if request.client.Some? then request.client.value.host else "unknown")
  {
    var forwardedFor := Header(request.headers, "x-forwarded-for");
    if TruthyStr(forwardedFor) then
      var first := Text.Split(forwardedFor.value, ',')[0];
      Text.SplitFirst(forwardedFor.value, ',');
      Text.StripKeepsOut(first, ',');
      Text.Strip(first)
    else
      var realIp := Header(request.headers, "x-real-ip");
      if TruthyStr(realIp) then realIp.value
      else
        var cfConnectingIp := Header(request.headers, "cf-connecting-ip");
        if TruthyStr(cfConnectingIp) then cfConnectingIp.value
        else if request.client.Some? then request.client.value.host
        else "unknown"
  }

  /**
   * A non-empty X-Forwarded-For decides the address alone: the other headers,
   * any header that follows it and the peer address play no part.
   */
  lemma ForwardedForDecides(headers: seq<(string, string)>, extra: seq<(string, string)>, state: RequestState,
                            client1: Option<Client>, client2: Option<Client>)
    requires TruthyStr(Header(headers, "x-forwarded-for"))
    ensures GetClientIp(Request(headers + extra, client1, state)) == GetClientIp(Request(headers, client2, state))
  {
    HeaderPrefix(headers, extra, "x-forwarded-for");
  }

  /** With none of the three headers set non-empty, the address is the peer's, or "unknown" without one. */
  lemma UnknownOnlyWithoutSources(request: Request)
    ensures GetClientIp(request) == "unknown" <==>
      if TruthyStr(Header(request.headers, "x-forwarded-for")) then
        Text.Strip(Text.Split(Header(request.headers, "x-forwarded-for").value, ',')[0]) == "unknown"
      else if TruthyStr(Header(request.headers, "x-real-ip")) then
        Header(request.headers, "x-real-ip").value == "unknown"
      else if TruthyStr(Header(request.headers, "cf-connecting-ip")) then
        Header(request.headers, "cf-connecting-ip").value == "unknown"
      else request.client.None? || request.client.value.host == "unknown"
  {
    var xff := Header(request.headers, "x-forwarded-for");
    if TruthyStr(xff) {
      Text.SplitFirst(xff.value, ',');
    }
  }

  /**
   * `_extract_user_id`: a truthy `state.user` gives its `id` attribute (None
   * without one); otherwise `state.user_id` when that attribute was set, even
   * to None; otherwise None.
   */
  function ExtractUserId(state: RequestState): (id: Value)
    ensures state.user.Some? && state.user.value.truthy ==>
      id == if state.user.value.id.Some? then state.user.value.id.value else Null
    ensures !(state.user.Some? && state.user.value.truthy) ==>
      id == if state.userId.Some? then state.userId.value else Null
  {
    if state.user.Some? && state.user.value.truthy then
      match state.user.value.id
      case Some(v) => v
      case None => Null
    else if state.userId.Some? then state.userId.value
    else Null
  }

  /** Once `state.user` is truthy, `state.user_id` is never consulted. */
  lemma UserIdIgnoredWithUser(state: RequestState, other: Option<Value>)
    requires state.user.Some? && state.user.value.truthy
    ensures ExtractUserId(state.(userId := other)) == ExtractUserId(state)
  {
  }

  /** Without a truthy user, the result is `state.user_id` as set, or None when it was never set. */
  lemma UserIdFallback(state: RequestState)
    requires state.user.None? || !state.user.value.truthy
    ensures state.userId.None? ==> ExtractUserId(state) == Null
    ensures state.userId.Some? ==> ExtractUserId(state) == state.userId.value
  {
  }

  /** `get_request_id`: the request id stored in the state, or None when there is none. */
  function GetRequestId(state: RequestState): (id: Value)
    ensures state.requestId.None? ==> id == Null
    ensures state.requestId.Some? ==> id == state.requestId.value
  {
    match state.requestId
    case Some(v) => v
    case None => Null
  }
}
