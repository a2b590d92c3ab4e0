/** The legacy static front end's request helper
    (src/main/resources/static/js/api.js): the current-user fallback, the
    request configuration `apiCall` builds, and the error it throws. */
module LegacyApi {
  import opened Wrappers
  import opened Text
  import Js

  /** What `localStorage.getItem('currentUser')` holds, once parsed: nothing
      (or an empty string), the JSON value `null` (`JSON.stringify(null)`),
      or any other value, of which the `userId` and `id` properties are read
      (both `undefined` when it is not an object). */
  datatype Stored = NothingStored | StoredNull | StoredValue(userId: Js.JsId, id: Js.JsId)

  /** `getCurrentUserId` answers an id, or throws the `TypeError` of reading
      `.userId` of `null`. */
  datatype CurrentUser = UserIdIs(id: Js.JsId) | ReadOfNullThrown

  /** `getCurrentUserId`: the stored `userId`, else the stored `id`, else user
      1, also when nothing is stored; a stored `null` throws. */
  function CurrentUserId(stored: Stored): (r: CurrentUser)
    ensures r.ReadOfNullThrown? <==> stored.StoredNull?
    ensures r.UserIdIs? ==> Js.Truthy(r.id)
    ensures stored.NothingStored? ==> r == UserIdIs(Js.Num(1))
    ensures stored.StoredValue? && Js.Truthy(stored.userId) ==> r == UserIdIs(stored.userId)
    ensures stored.StoredValue? && !Js.Truthy(stored.userId) && Js.Truthy(stored.id) ==> r == UserIdIs(stored.id)
    ensures stored.StoredValue? && !Js.Truthy(stored.userId) && !Js.Truthy(stored.id) ==> r == UserIdIs(Js.Num(1))
  {
    match stored
    case NothingStored => UserIdIs(Js.Num(1))
    case StoredNull => ReadOfNullThrown
    case StoredValue(userId, id) => UserIdIs(Js.Or(Js.Or(userId, id), Js.Num(1)))
  }

  /** A visitor who never logged in, or whose stored value has no usable id,
      acts exactly as user 1 would. */
  lemma AnonymousIsUserOne(stored: Stored)
    requires stored.NothingStored? || (stored.StoredValue? && !Js.Truthy(stored.userId) && !Js.Truthy(stored.id))
    ensures CurrentUserId(stored) == CurrentUserId(StoredValue(Js.Num(1), Js.Undefined))
  {
  }

  /** A JSON-like JavaScript value. Numbers are kept as reals; NaN is not
      modelled. */
  datatype Value =
    | Undefined
    | Null
    | Bool(b: bool)
    | Number(x: real)
    | Str(s: string)
    | Object(fields: map<string, Value>)
    | Array(items: seq<Value>)

  predicate Truthy(v: Value) {
    match v
    case Undefined => false
    case Null => false
    case Bool(b) => b
    case Number(x) => x != 0.0
    case Str(s) => s != []
    case Object(_) => true
    case Array(_) => true
  }

  /** `typeof v === 'object'`, which holds for `null` too. */
  predicate TypeofObject(v: Value) {
    v.Null? || v.Object? || v.Array?
  }

  const JsonHeaders := Object(map["Content-Type" := Str("application/json")])
  const DefaultOptions: map<string, Value> := map["headers" := JsonHeaders]

  /** The configuration `apiCall` passes to `fetch`: `{...defaultOptions,
      ...options}`, then an object or array body replaced by its JSON text
      (`stringify` stands for `JSON.stringify`). Caller keys win, and a
      caller's `headers` replace the default headers whole. */
  function Config(options: map<string, Value>, stringify: Value -> string): (r: map<string, Value>)
    ensures r.Keys == DefaultOptions.Keys + options.Keys
    ensures forall k :: k in options && k != "body" ==> r[k] == options[k]
    ensures "headers" !in options ==> r["headers"] == JsonHeaders
    ensures "body" in options && Truthy(options["body"]) && TypeofObject(options["body"])
            ==> r["body"] == Str(stringify(options["body"]))
    ensures "body" in options && !(Truthy(options["body"]) && TypeofObject(options["body"]))
            ==> r["body"] == options["body"]
  {
    var config := DefaultOptions + options;
    if "body" in config && Truthy(config["body"]) && TypeofObject(config["body"]) then
      config["body" := Str(stringify(config["body"]))]
    else config
  }

  /** The body is sent as JSON text exactly when it is an object or an array;
      `null` and every primitive go through untouched. */
  lemma BodySerializedIffStructured(options: map<string, Value>, stringify: Value -> string)
    requires "body" in options
    ensures Config(options, stringify)["body"] != options["body"]
            <==> options["body"].Object? || options["body"].Array?
  {
  }

  /** Headers are not merged: a caller sending only an `Authorization`
      header sends no `Content-Type`. */
  lemma HeadersReplacedWhole(token: string, stringify: Value -> string)
    ensures var r := Config(map["headers" := Object(map["Authorization" := Str(token)])], stringify);
            "Content-Type" !in r["headers"].fields
  {
  }

  /** What a failed call rejects with: an `Error` carrying a message, the
      `TypeError` raised by reading `.message` of a `null` error body, or the
      `SyntaxError` of an ok response whose body is not JSON. */
  datatype Failure = Thrown(message: string) | ReadOfNull | NotJson

  const UnknownError := "Unknown error"
  const StatusPrefix := "HTTP error! status: "

  function StatusText(status: nat): (r: string)
    ensures |r| > |StatusPrefix| && r[..|StatusPrefix|] == StatusPrefix
    ensures ParseDecimal(r[|StatusPrefix|..]) == status
  {
    var r := StatusPrefix + Decimal(status);
    assert r[|StatusPrefix|..] == Decimal(status);
    DecimalRoundTrip(status);
    r
  }

  /** The error of a non-ok response. `parsed` is the response body, `None`
      when it is not JSON; `toText` is `String(...)` for a non-string
      message. */
  function ErrorOf(status: nat, parsed: Option<Value>, toText: Value -> string): (r: Failure)
    ensures parsed.None? ==> r == Thrown(UnknownError)
    ensures parsed.Some? && (parsed.value.Null? || parsed.value.Undefined?) ==> r == ReadOfNull
    ensures parsed.Some? && parsed.value.Object? && "message" in parsed.value.fields
            && parsed.value.fields["message"].Str? && parsed.value.fields["message"].s != []
            ==> r == Thrown(parsed.value.fields["message"].s)
    ensures parsed.Some? && parsed.value.Object? && "message" in parsed.value.fields
            && Truthy(parsed.value.fields["message"]) && !parsed.value.fields["message"].Str?
            ==> r == Thrown(toText(parsed.value.fields["message"]))
    ensures parsed.Some? && !parsed.value.Object? && !parsed.value.Null? && !parsed.value.Undefined?
            ==> r == Thrown(StatusText(status))
    ensures parsed.Some? && parsed.value.Object?
            && ("message" !in parsed.value.fields || !Truthy(parsed.value.fields["message"]))
            ==> r == Thrown(StatusText(status))
  {
    match parsed
    case None => Thrown(UnknownError)
    case Some(body) =>
      if body.Null? || body.Undefined? then ReadOfNull
      else
        var message := if body.Object? && "message" in body.fields then body.fields["message"] else Undefined;
        if Truthy(message) then Thrown(if message.Str? then message.s else toText(message))
        else Thrown(StatusText(status))
  }

  /** The status a fallback message reports is the response's status. */
  lemma StatusRecoverable(status: nat, parsed: Option<Value>, toText: Value -> string)
    requires parsed.Some? && parsed.value.Object? && "message" !in parsed.value.fields
    ensures var r := ErrorOf(status, parsed, toText);
            r.Thrown? && ParseDecimal(r.message[|StatusPrefix|..]) == status
  {
  }

  /** What `fetch` yields: a network failure, or a response with status and
      body (`None` when the body is not JSON). */
  datatype Response = Response(ok: bool, status: nat, body: Option<Value>)
  datatype Outcome = Resolved(value: Value) | Rejected(failure: Failure)

  /** `apiCall`: the URL is the endpoint itself (the base URL is empty);
      a network failure is rethrown, a non-ok response rejects with
      `ErrorOf`, and an ok response resolves to its JSON body. `respond`
      stands for `fetch`. */
  function ApiCall(endpoint: string, options: map<string, Value>, stringify: Value -> string,
                   toText: Value -> string,
                   respond: (string, map<string, Value>) -> Fetch<Response>): (r: Outcome)
    ensures var answer := respond(endpoint, Config(options, stringify));
      && (answer.FetchFailed? ==> r == Rejected(Thrown(answer.message)))
      && (answer.Fetched? && !answer.value.ok ==>
            r == Rejected(ErrorOf(answer.value.status, answer.value.body, toText)))
      && (answer.Fetched? && answer.value.ok && answer.value.body.Some? ==>
            r == Resolved(answer.value.body.value))
      && (answer.Fetched? && answer.value.ok && answer.value.body.None? ==> r == Rejected(NotJson))
      && (r.Resolved? ==> answer.Fetched? && answer.value.ok)
  {
    var url := "" + endpoint;
    assert url == endpoint;
    match respond(url, Config(options, stringify))
    case FetchFailed(message) => Rejected(Thrown(message))
    case Fetched(response) =>
      if !response.ok then Rejected(ErrorOf(response.status, response.body, toText))
      else if response.body.None? then Rejected(NotJson)
      else Resolved(response.body.value)
  }

  /** A server that refuses a request with a JSON `message` has that text
      reach the caller as the rejection; a refusal without one reports the
      status, which can be read back from the text. */
  lemma ServerMessageReachesCaller(endpoint: string, options: map<string, Value>, stringify: Value -> string,
                                   toText: Value -> string,
                                   respond: (string, map<string, Value>) -> Fetch<Response>)
    requires var answer := respond(endpoint, Config(options, stringify));
             answer.Fetched? && !answer.value.ok && answer.value.body.Some? && answer.value.body.value.Object?
    ensures var answer := respond(endpoint, Config(options, stringify));
            var fields := answer.value.body.value.fields;
            var r := ApiCall(endpoint, options, stringify, toText, respond);
            && ("message" in fields && fields["message"].Str? && fields["message"].s != [] ==>
                  r == Rejected(Thrown(fields["message"].s)))
            && ("message" !in fields ==>
                  r.Rejected? && r.failure.Thrown?
                  && ParseDecimal(r.failure.message[|StatusPrefix|..]) == answer.value.status)
  {
    var answer := respond(endpoint, Config(options, stringify));
    if "message" !in answer.value.body.value.fields {
      StatusRecoverable(answer.value.status, answer.value.body, toText);
    }
  }
}
