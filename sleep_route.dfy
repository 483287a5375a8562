/**
  The server route that forwards a sleep query to the Oura API: it checks the dates and
  the token, picks the endpoint from `type`, builds the upstream URL, and passes the
  upstream answer back (its JSON on success, its status and text on failure, 500 when
  something throws inside its `try`). A date that makes no valid `Date` throws before
  all of this, in the first log line.
*/
module SleepRoute {
  import opened Wrappers
  import opened Js
  import Http

  const DETAILED_SLEEP_URL := "https://api.ouraring.com/v2/usercollection/sleep"
  const DAILY_SLEEP_URL := "https://api.ouraring.com/v2/usercollection/daily_sleep"

  const MISSING_PARAMETERS := "Missing required parameters: start_date and end_date"
  const NO_TOKEN := "Oura API token not configured"
  const FETCH_FAILED := "Failed to fetch data from Oura API"

  /** The call the route makes upstream: the URL and the `Authorization` header. */
  datatype UpstreamRequest = UpstreamRequest(url: string, authorization: string)

  /**
    The route's outcome: an answer, with the upstream call it made, if any; or an error
    the handler throws outside its `try`, which the framework answers with a bare 500
    in place of the route's JSON.
  */
  datatype Reply =
    | Reply(request: Option<UpstreamRequest>, status: int, body: Value)
    | Uncaught(message: string)

  /** The message of the RangeError that `toISOString()` throws for an invalid date. */
  const INVALID_TIME := "Invalid time value"

  /**
    `searchParams.get(name)`: the first value of the parameter, or `null`. `query` maps each
    parameter name to its first (decoded) value.
  */
  function Param(query: map<string, string>, name: string): Option<string>
  {
    if name in query then Some(query[name]) else None
  }

  /** A parameter that is truthy: present and not empty. */
  predicate Given(p: Option<string>)
  {
    p.Some? && p.value != ""
  }

  /** Both dates are given (`startDate && endDate`). */
  predicate DatesGiven(query: map<string, string>)
  {
    Given(Param(query, "start_date")) && Given(Param(query, "end_date"))
  }

  /**
    The dates the first log line turns into ISO text: each date that is given must make
    a valid `Date`. `isoDate(s)` tells whether `new Date(s).toISOString()` returns, which
    depends on the engine's date parser.
  */
  predicate DatesConvert(query: map<string, string>, isoDate: string -> bool)
  {
    && (Given(Param(query, "start_date")) ==> isoDate(query["start_date"]))
    && (Given(Param(query, "end_date")) ==> isoDate(query["end_date"]))
  }

  /** `process.env.NEXT_PUBLIC_OURA_TOKEN || ''` */
  function Token(env: Option<string>): (t: string)
    ensures env.None? ==> t == ""
  {
    if env.Some? then env.value else ""
  }

  /** The endpoint for `searchParams.get('type') || 'detailed'`: daily only for `daily`. */
  function Endpoint(typeParam: Option<string>): (url: string)
    ensures url == DAILY_SLEEP_URL <==> typeParam == Some("daily")
    ensures url == DAILY_SLEEP_URL || url == DETAILED_SLEEP_URL
  {
    var kind := if Given(typeParam) then typeParam.value else "detailed";
    assert |DAILY_SLEEP_URL| != |DETAILED_SLEEP_URL|;
    if kind == "daily" then DAILY_SLEEP_URL else DETAILED_SLEEP_URL
  }

  /** The upstream URL: the endpoint with the two dates as its query, inserted as they are. */
  function UpstreamUrl(base: string, startDate: string, endDate: string): string
  {
    base + "?start_date=" + startDate + "&end_date=" + endDate
  }

  function ErrorBody(message: string): Value
  {
    Obj(map["error" := Str(message)])
  }

  function ErrorWithDetails(message: string, details: string): Value
  {
    Obj(map["error" := Str(message), "details" := Str(details)])
  }

  /** `v.length` as `data.data.length > 0` compares it: undefined (NaN) for numbers and booleans. */
  function Length(v: Value): Number
  {
    match v
    case Arr(items) => Finite(|items| as real)
    case Str(s) => Finite(|s| as real)
    case Obj(_) => ToNumber(Get(v, "length"))
    case _ => NaN
  }

  /** `list[0]` for a value whose length was read above. */
  function FirstItem(v: Value): Value
  {
    match v
    case Arr(items) => if |items| > 0 then items[0] else Undef
    case Str(s) => if |s| > 0 then Str([s[0]]) else Undef
    case Obj(_) => Get(v, "0")
    case _ => Undef
  }

  /**
    The logging after `response.json()` reads `data.data?.length`, then `data.data[0].score`
    when `data.data` is truthy and longer than 0: the error it throws, if any.
  */
  function LoggingError(data: Value): (e: Option<string>)
    ensures Nullish(data) ==> e.Some?
  {
    if Nullish(data) then Some(NullRead(data, "data"))
    else
      var list := Get(data, "data");
      if Truthy(list) && Above(Length(list), 0.0) && Nullish(FirstItem(list)) then
        Some(NullRead(FirstItem(list), "score"))
      else None
  }

  /** What the route answers once it has made the upstream call and it came back as `response`. */
  function Forward(response: Http.Response): (r: (int, Value))
    requires !response.Aborted?
  {
    match response
    case Threw(message) => (500, ErrorWithDetails(FETCH_FAILED, message))
    case Replied(status, text, json) =>
      if !Http.IsOk(status) then (status, ErrorWithDetails("Oura API returned " + IntToString(status), text))
      else match json
        case Err(message) => (500, ErrorWithDetails(FETCH_FAILED, message))
        case Ok(data) =>
          match LoggingError(data)
          case Some(message) => (500, ErrorWithDetails(FETCH_FAILED, message))
          case None => (200, data)
  }

  /**
    `GET`: `query` is the request's search parameters, `env` the token variable,
    `isoDate` whether a date text converts to ISO (see `DatesConvert`), and `upstream`
    what the upstream `fetch` comes back with when the route makes it.
  */
  function HandleGet(query: map<string, string>, env: Option<string>, isoDate: string -> bool,
                     upstream: Http.Response): (r: Reply)
    requires !upstream.Aborted?
    ensures r.Reply? && r.request.Some? ==> r.request.value.authorization == "Bearer " + Token(env)
    ensures r.Uncaught? <==> !DatesConvert(query, isoDate)
  {
    var startDate := Param(query, "start_date");
    var endDate := Param(query, "end_date");
    if !DatesConvert(query, isoDate) then Uncaught(INVALID_TIME)
    else if !Given(startDate) || !Given(endDate) then Reply(None, 400, ErrorBody(MISSING_PARAMETERS))
    else
      var token := Token(env);
      if token == "" then Reply(None, 500, ErrorBody(NO_TOKEN))
      else
        var apiUrl := Endpoint(Param(query, "type"));
        var request := UpstreamRequest(UpstreamUrl(apiUrl, startDate.value, endDate.value), "Bearer " + token);
        var (status, body) := Forward(upstream);
        Reply(Some(request), status, body)
  }

  /** A given date that does not convert throws before anything is checked, and no upstream call is made. */
  lemma UnconvertibleDateThrows(query: map<string, string>, env: Option<string>, isoDate: string -> bool,
                                upstream: Http.Response)
    requires !upstream.Aborted? && !DatesConvert(query, isoDate)
    ensures HandleGet(query, env, isoDate, upstream) == Uncaught(INVALID_TIME)
  {
  }

  /** The upstream call is made exactly when both dates are given and convert and a token is configured. */
  lemma UpstreamCalledExactly(query: map<string, string>, env: Option<string>, isoDate: string -> bool,
                              upstream: Http.Response)
    requires !upstream.Aborted?
    ensures var r := HandleGet(query, env, isoDate, upstream);
      r.Reply? && r.request.Some? <==> DatesConvert(query, isoDate) && DatesGiven(query) && Token(env) != ""
  {
  }

  /** Missing or empty dates give 400, whatever the token, and no upstream call, when the given ones convert. */
  lemma MissingDatesRejected(query: map<string, string>, env: Option<string>, isoDate: string -> bool,
                             upstream: Http.Response)
    requires !upstream.Aborted? && DatesConvert(query, isoDate) && !DatesGiven(query)
    ensures HandleGet(query, env, isoDate, upstream) == Reply(None, 400, ErrorBody(MISSING_PARAMETERS))
  {
  }

  /** With both dates but no token the answer is 500 "Oura API token not configured", with no upstream call. */
  lemma MissingTokenRejected(query: map<string, string>, env: Option<string>, isoDate: string -> bool,
                             upstream: Http.Response)
    requires !upstream.Aborted? && DatesConvert(query, isoDate) && DatesGiven(query) && Token(env) == ""
    ensures HandleGet(query, env, isoDate, upstream) == Reply(None, 500, ErrorBody(NO_TOKEN))
  {
  }

  /** The upstream URL is the chosen endpoint followed by the two dates. */
  lemma UpstreamUrlShape(query: map<string, string>, env: Option<string>, isoDate: string -> bool,
                         upstream: Http.Response)
    requires !upstream.Aborted? && DatesConvert(query, isoDate) && DatesGiven(query) && Token(env) != ""
    ensures var r := HandleGet(query, env, isoDate, upstream);
      r.Reply? && r.request ==
        Some(UpstreamRequest(UpstreamUrl(Endpoint(Param(query, "type")), query["start_date"], query["end_date"]),
                             "Bearer " + Token(env)))
  {
  }

  /** The two endpoints never build the same URL, whatever the dates: the 44th character tells them apart. */
  lemma EndpointsDistinct(s1: string, e1: string, s2: string, e2: string)
    ensures UpstreamUrl(DAILY_SLEEP_URL, s1, e1) != UpstreamUrl(DETAILED_SLEEP_URL, s2, e2)
  {
    assert UpstreamUrl(DAILY_SLEEP_URL, s1, e1)[43] == 'd';
    assert UpstreamUrl(DETAILED_SLEEP_URL, s2, e2)[43] == 's';
  }

  /** The daily endpoint is used exactly for `type=daily`; an absent, empty or other type uses the detailed one. */
  lemma DailyOnlyForDaily(query: map<string, string>, env: Option<string>, isoDate: string -> bool,
                          upstream: Http.Response)
    requires !upstream.Aborted? && DatesConvert(query, isoDate) && DatesGiven(query) && Token(env) != ""
    ensures var r := HandleGet(query, env, isoDate, upstream);
      && r.Reply? && r.request.Some?
      && (Param(query, "type") == Some("daily") ==>
            r.request.value.url == UpstreamUrl(DAILY_SLEEP_URL, query["start_date"], query["end_date"]))
      && (Param(query, "type") != Some("daily") ==>
            r.request.value.url == UpstreamUrl(DETAILED_SLEEP_URL, query["start_date"], query["end_date"]))
  {
  }

  /** A non-ok upstream status is passed back with the upstream text as the details. */
  lemma FailureStatusPropagated(query: map<string, string>, env: Option<string>, isoDate: string -> bool,
                                status: int, text: string, json: Result<Value, string>)
    requires DatesConvert(query, isoDate) && DatesGiven(query) && Token(env) != "" && !Http.IsOk(status)
    ensures var r := HandleGet(query, env, isoDate, Http.Replied(status, text, json));
      r.Reply? && r.status == status && r.body == ErrorWithDetails("Oura API returned " + IntToString(status), text)
  {
  }

  /** A successful upstream JSON is passed back unchanged with status 200 unless the logging trips on it. */
  lemma SuccessPassedThrough(query: map<string, string>, env: Option<string>, isoDate: string -> bool,
                             status: int, text: string, data: Value)
    requires DatesConvert(query, isoDate) && DatesGiven(query) && Token(env) != "" && Http.IsOk(status)
    ensures var r := HandleGet(query, env, isoDate, Http.Replied(status, text, Ok(data)));
      && r.Reply?
      && (LoggingError(data).None? ==> r.status == 200 && r.body == data)
      && (LoggingError(data).Some? ==> r.status == 500 && r.body == ErrorWithDetails(FETCH_FAILED, LoggingError(data).value))
  {
  }

  /**
    An error thrown by the upstream `fetch`, or by `response.json()` on an ok reply, is caught
    and answered with 500 and the error's text as the details.
  */
  lemma ThrownErrorsGive500(query: map<string, string>, env: Option<string>, isoDate: string -> bool,
                            upstream: Http.Response)
    requires !upstream.Aborted? && DatesConvert(query, isoDate) && DatesGiven(query) && Token(env) != ""
    ensures var r := HandleGet(query, env, isoDate, upstream);
      && (upstream.Threw? ==>
            r.Reply? && r.status == 500 && r.body == ErrorWithDetails(FETCH_FAILED, upstream.message))
      && (upstream.Replied? && Http.IsOk(upstream.status) && upstream.json.Err? ==>
            r.Reply? && r.status == 500 && r.body == ErrorWithDetails(FETCH_FAILED, upstream.json.error))
  {
  }

  /** Every answer with a status in the ok range is an unchanged upstream JSON. */
  lemma OkAnswersAreUpstreamData(query: map<string, string>, env: Option<string>, isoDate: string -> bool,
                                 upstream: Http.Response)
    requires !upstream.Aborted?
    ensures var r := HandleGet(query, env, isoDate, upstream);
      r.Reply? && Http.IsOk(r.status) ==>
        && r.status == 200 && upstream.Replied? && upstream.json == Ok(r.body) && r.request.Some?
  {
  }

  /** A payload whose `data` is a list of objects, as the Oura API sends, never trips the logging. */
  lemma ObjectListsPassLogging(fields: map<string, Value>, items: seq<Value>)
    requires "data" in fields && fields["data"] == Arr(items)
    requires forall i :: 0 <= i < |items| ==> items[i].Obj?
    ensures LoggingError(Obj(fields)).None?
  {
  }

  /** A JSON `null`, or a list whose first item is `null`, is answered with 500. */
  lemma NullPayloadsFail(rest: seq<Value>)
    ensures LoggingError(Null) == Some(NullRead(Null, "data"))
    ensures LoggingError(Obj(map["data" := Arr([Null] + rest)])) == Some(NullRead(Null, "score"))
  {
    var v := Obj(map["data" := Arr([Null] + rest)]);
    assert Get(v, "data") == Arr([Null] + rest);
    assert FirstItem(Arr([Null] + rest)) == Null;
  }
}
