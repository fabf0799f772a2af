/**
 * The puzzle-registration Lambda (lambda/puzzle-register/index.py): it parses
 * the API Gateway event, checks the two required fields, calls
 * PuzzleService's create_puzzle, and maps the outcome to an HTTP response
 * with CORS headers chosen from the configured origins.
 *
 * `HandlerOutcome` is the handler as it evidently means to behave;
 * `HandlerAsWritten` differs from it on a body that is not valid JSON (see
 * `MalformedBodyCrashes`) and on every call from the Lambda runtime, whose
 * context object has no `request_id` (see `RuntimeContextCrashes`).
 */
module PuzzleRegister {
  import opened Wrappers
  import opened Text
  import opened Storage
  import opened PuzzleService

  /** The environment variables the module reads at import time; None when unset. */
  datatype Config = Config(environment: Option<string>, allowedOrigins: Option<string>)

  const DefaultOrigin := "http://localhost:3000"

  /** ENVIRONMENT, 'dev' when unset. */
  function Environment(cfg: Config): string
  {
    cfg.environment.GetOr("dev")
  }

  /** ALLOWED_ORIGINS_LIST: the comma-separated entries of ALLOWED_ORIGINS, each stripped. */
  function AllowedOriginsList(cfg: Config): (list: seq<string>)
    ensures |list| >= 1
  {
    var parts := Split(cfg.allowedOrigins.GetOr(DefaultOrigin), ',');
    seq(|parts|, i requires 0 <= i < |parts| => Strip(parts[i]))
  }

  /**
   * The list holds one entry per comma-separated field of the setting,
   * in order, each the field without its surrounding white space; no entry
   * holds a comma, and stripping an entry again changes nothing.
   */
  lemma AllowedOriginsSpec(cfg: Config)
    ensures var raw, list := cfg.allowedOrigins.GetOr(DefaultOrigin), AllowedOriginsList(cfg);
      && |list| == |Split(raw, ',')|
      && (forall i :: 0 <= i < |list| ==> list[i] == Strip(Split(raw, ',')[i]))
      && (forall i :: 0 <= i < |list| ==> ',' !in list[i] && Strip(list[i]) == list[i])
  {
    var raw, list := cfg.allowedOrigins.GetOr(DefaultOrigin), AllowedOriginsList(cfg);
    var parts := Split(raw, ',');
    forall i | 0 <= i < |list| ensures ',' !in list[i] && Strip(list[i]) == list[i] {
      StripSpec(parts[i]);
      StripIdempotent(parts[i]);
      assert list[i] == parts[i][LeadingSpaces(parts[i])..LeadingSpaces(parts[i]) + |list[i]|];
    }
  }

  /** A setting without commas or surrounding white space allows exactly that one origin. */
  lemma SingleOrigin(cfg: Config, raw: string)
    requires cfg.allowedOrigins.GetOr(DefaultOrigin) == raw
    requires ',' !in raw && raw != [] && !IsSpace(raw[0]) && !IsSpace(raw[|raw| - 1])
    ensures AllowedOriginsList(cfg) == [raw]
  {
    StripUnpadded(raw);
    AllowedOriginsSpec(cfg);
    assert AllowedOriginsList(cfg)[0] == raw;
  }

  /** With ALLOWED_ORIGINS unset, only the local development front end is allowed. */
  lemma DefaultOriginsList(cfg: Config)
    requires cfg.allowedOrigins.None?
    ensures AllowedOriginsList(cfg) == [DefaultOrigin]
  {
    var raw := DefaultOrigin;
    assert raw[0] == 'h' && raw[|raw| - 1] == '0';
    assert forall i :: 0 <= i < |raw| ==> raw[i] != ',';
    SingleOrigin(cfg, raw);
  }

  /** The request's origin: header 'origin', else 'Origin', else ''; an empty header counts as absent. */
  function RequestOrigin(headers: map<string, string>): string
  {
    if "origin" in headers && headers["origin"] != "" then headers["origin"]
    else if "Origin" in headers && headers["Origin"] != "" then headers["Origin"]
    else ""
  }

  /** Access-Control-Allow-Origin: the request's origin when allowed, else the first allowed origin. */
  function CorsOrigin(list: seq<string>, origin: string): string
  {
    if origin in list then origin
    else if |list| > 0 then list[0]
    else DefaultOrigin
  }

  /**
   * The chosen origin is always one of the configured ones, and it is the
   * request's exactly when that is allowed: the hard-coded fallback for an
   * empty list is never reached, since the list is never empty.
   */
  lemma CorsOriginAllowed(cfg: Config, origin: string)
    ensures var list := AllowedOriginsList(cfg); var o := CorsOrigin(list, origin);
      && o in list
      && (o == origin <==> origin in list)
      && (origin !in list ==> o == list[0])
  {
  }

  /** A JSON value as `json.loads` returns it; arrays and objects are known by their size only. */
  datatype Json = JNull | JBool(b: bool) | JNum(n: int) | JStr(s: string) | JArray(length: nat) | JObject(size: nat)

  /** Python's truth value of a parsed JSON value. */
  predicate Truthy(v: Json)
  {
    match v
    case JNull => false
    case JBool(b) => b
    case JNum(n) => n != 0
    case JStr(s) => s != ""
    case JArray(length) => length > 0
    case JObject(size) => size > 0
  }

  /**
   * The integer a piece count compares equal to in `piece_count not in
   * valid_piece_counts`: a number, or a boolean (True == 1); other values
   * are equal to no integer.
   */
  function CountValue(v: Json): Option<int>
  {
    match v
    case JNum(n) => Some(n)
    case JBool(b) => Some(if b then 1 else 0)
    case _ => None
  }

  /**
   * The request body: absent (parsed as "{}"), JSON `null`, text that is not
   * JSON (`reason` is the decoder's message), JSON that is not an object
   * (`typeName` is the Python type it parses to), or an object, of which the
   * handler reads three fields.
   */
  datatype Body =
    | NoBody
    | NullBody
    | Malformed(reason: string)
    | NotObject(typeName: string)
    | Fields(pieceCount: Option<Json>, puzzleName: Option<string>, userId: Option<string>)

  /** The event: its headers (None when the event's headers are `null`) and its body. */
  datatype Event = Event(headers: Option<map<string, string>>, body: Body)

  /** What the handler serialises as the response body. */
  datatype Payload = Created(summary: CreateSummary) | ErrorPayload(error: string, details: Option<string>)

  /** The status and body a return site of the handler hands to create_response. */
  datatype Reply = Reply(statusCode: int, body: Payload)

  datatype Response = Response(statusCode: int, headers: map<string, string>, body: Payload)

  /** How an invocation ends: a response, or an exception escaping the handler. */
  datatype Invocation = Returned(response: Response) | Crashed(exception: string)

  /**
   * The handler's `context` argument: None in a direct call, or the object
   * the AWS Lambda Python runtime passes, which is truthy and carries the
   * request id as `aws_request_id`, with no `request_id` attribute.
   */
  datatype Context = NoContext | RuntimeContext(awsRequestId: string)

  /** What the log lines' `context.request_id` raises on the runtime's context. */
  const NoRequestIdMessage := "AttributeError: 'LambdaContext' object has no attribute 'request_id'"

  /** What reading the unbound `body` raises, in the wording of Python 3.11 and later. */
  const UnboundBodyMessage := "UnboundLocalError: cannot access local variable 'body' where it is not associated with a value"

  /** create_response's headers. */
  function ResponseHeaders(cfg: Config, headers: map<string, string>): map<string, string>
  {
    map["Content-Type" := "application/json",
        "Access-Control-Allow-Origin" := CorsOrigin(AllowedOriginsList(cfg), RequestOrigin(headers)),
        "Access-Control-Allow-Headers" := "Content-Type,Authorization",
        "Access-Control-Allow-Methods" := "GET,POST,PUT,DELETE,OPTIONS",
        "Access-Control-Allow-Credentials" := "true"]
  }

  /**
   * create_response: fails when the event's headers are `null`, since
   * `None.get` raises. Raised inside the handler's `try`, that error is
   * caught, and the `except` clause's own call raises it again.
   */
  function CreateResponse(cfg: Config, headers: Option<map<string, string>>, reply: Reply): Invocation
  {
    match headers
    case None => Crashed("AttributeError: 'NoneType' object has no attribute 'get'")
    case Some(h) => Returned(Response(reply.statusCode, ResponseHeaders(cfg, h), reply.body))
  }

  /** The `except Exception` reply: the fixed message, and `str(e)` as details outside 'prod'. */
  function ServerError(cfg: Config, message: string): Reply
  {
    Reply(500, ErrorPayload("Internal server error", if Environment(cfg) != "prod" then Some(message) else None))
  }

  /** What an error raised by create_puzzle becomes: a ValueError is the caller's fault. */
  function ErrorReply(cfg: Config, e: Error): Reply
  {
    if e.ValueError? then Reply(400, ErrorPayload(e.message, None)) else ServerError(cfg, e.message)
  }

  /** create_puzzle on the piece count as parsed: a value equal to no integer is never valid. */
  function CreateFromJson(w: World, pieceCount: Json, name: string, user: string, now: string, f: Faults)
    : (World, Result<CreateSummary, Error>)
  {
    match CountValue(pieceCount)
    case Some(n) => CreateOutcome(w, n, name, user, now, f)
    case None => (w, Err(ValueError(InvalidCountMessage())))
  }

  /**
   * The handler on a parsed object: the two required-field checks in order,
   * then create_puzzle with userId defaulting to 'anonymous'.
   */
  function FieldsReply(w: World, cfg: Config, pieceCount: Option<Json>, puzzleName: Option<string>,
                       userId: Option<string>, now: string, f: Faults): (World, Reply)
  {
    if pieceCount.None? || !Truthy(pieceCount.value) then
      (w, Reply(400, ErrorPayload("pieceCount is required", None)))
    else if puzzleName.None? || puzzleName.value == "" then
      (w, Reply(400, ErrorPayload("puzzleName is required", None)))
    else
      var (w', r) := CreateFromJson(w, pieceCount.value, puzzleName.value, userId.GetOr("anonymous"), now, f);
      match r
      case Ok(summary) => (w', Reply(200, Created(summary)))
      case Err(e) => (w', ErrorReply(cfg, e))
  }

  /** The handler's reply to a body, with a body that is not JSON answered as the ValueError it is. */
  function HandlerReply(w: World, cfg: Config, body: Body, now: string, f: Faults): (World, Reply)
  {
    match body
    case NoBody => FieldsReply(w, cfg, None, None, None, now, f)
    case NullBody => (w, ServerError(cfg, "the JSON object must be str, bytes or bytearray, not NoneType"))
    case Malformed(reason) => (w, Reply(400, ErrorPayload(reason, None)))
    case NotObject(typeName) => (w, ServerError(cfg, "'" + typeName + "' object has no attribute 'get'"))
    case Fields(pieceCount, puzzleName, userId) => FieldsReply(w, cfg, pieceCount, puzzleName, userId, now, f)
  }

  /** handler: every return site goes through create_response. */
  function HandlerOutcome(w: World, cfg: Config, event: Event, now: string, f: Faults): (World, Invocation)
  {
    var (w', reply) := HandlerReply(w, cfg, event.body, now, f);
    (w', CreateResponse(cfg, event.headers, reply))
  }

  /**
   * handler as written. Its first log line, before the `try`, reads
   * `context.request_id`, which the runtime's context does not have, so
   * every call from the runtime raises AttributeError there. Called without
   * a context, the `except ValueError` clause reads `body` for its log line,
   * and when `json.loads` itself raised, `body` was never bound, so an
   * UnboundLocalError escapes the handler.
   */
  function HandlerAsWritten(w: World, cfg: Config, event: Event, context: Context, now: string, f: Faults): (World, Invocation)
  {
    if context.RuntimeContext? then (w, Crashed(NoRequestIdMessage))
    else if event.body.Malformed? then (w, Crashed(UnboundBodyMessage))
    else HandlerOutcome(w, cfg, event, now, f)
  }

  /**
   * Called without a context, the handler as written crashes on a body that
   * is not JSON instead of answering 400 with the decoder's message; on
   * every other event the two agree.
   */
  lemma MalformedBodyCrashes(w: World, cfg: Config, event: Event, now: string, f: Faults)
    ensures event.body.Malformed? && event.headers.Some? ==>
      && HandlerAsWritten(w, cfg, event, NoContext, now, f).1.Crashed?
      && HandlerOutcome(w, cfg, event, now, f) ==
         (w, Returned(Response(400, ResponseHeaders(cfg, event.headers.value), ErrorPayload(event.body.reason, None))))
    ensures !event.body.Malformed? ==> HandlerAsWritten(w, cfg, event, NoContext, now, f) == HandlerOutcome(w, cfg, event, now, f)
  {
  }

  /**
   * Called by the Lambda runtime, the handler as written never gets past its
   * first log line: every invocation raises AttributeError and writes
   * nothing, even a well-formed registration that the corrected handler
   * answers 200 with a stored puzzle.
   */
  lemma RuntimeContextCrashes(w: World, cfg: Config, event: Event, requestId: string, now: string, f: Faults)
    ensures HandlerAsWritten(w, cfg, event, RuntimeContext(requestId), now, f) == (w, Crashed(NoRequestIdMessage))
    ensures var ok := Event(Some(map[]), Fields(Some(JNum(100)), Some("puzzle"), None));
      && HandlerAsWritten(w, cfg, ok, RuntimeContext(requestId), now, map[]).1.Crashed?
      && HandlerOutcome(w, cfg, ok, now, map[]).1.Returned?
      && HandlerOutcome(w, cfg, ok, now, map[]).1.response.statusCode == 200
  {
    var ok := Event(Some(map[]), Fields(Some(JNum(100)), Some("puzzle"), None));
    assert CreateFromJson(w, JNum(100), "puzzle", "anonymous", now, map[]) == CreateOutcome(w, 100, "puzzle", "anonymous", now, map[]);
  }

  /**
   * Every response carries the fixed headers and an allowed origin, which is
   * the request's own exactly when that is allowed; with `null` headers
   * there is no response at all.
   */
  lemma ResponseHeadersSpec(cfg: Config, headers: Option<map<string, string>>, reply: Reply)
    ensures var inv := CreateResponse(cfg, headers, reply);
      && (inv.Returned? <==> headers.Some?)
      && (inv.Returned? ==>
        var h := inv.response.headers;
        && inv.response.statusCode == reply.statusCode && inv.response.body == reply.body
        && h.Keys == {"Content-Type", "Access-Control-Allow-Origin", "Access-Control-Allow-Headers",
                      "Access-Control-Allow-Methods", "Access-Control-Allow-Credentials"}
        && h["Content-Type"] == "application/json"
        && h["Access-Control-Allow-Headers"] == "Content-Type,Authorization"
        && h["Access-Control-Allow-Methods"] == "GET,POST,PUT,DELETE,OPTIONS"
        && h["Access-Control-Allow-Credentials"] == "true"
        && h["Access-Control-Allow-Origin"] in AllowedOriginsList(cfg)
        && (h["Access-Control-Allow-Origin"] == RequestOrigin(headers.value)
            <==> RequestOrigin(headers.value) in AllowedOriginsList(cfg)))
  {
    if headers.Some? {
      CorsOriginAllowed(cfg, RequestOrigin(headers.value));
    }
  }

  /**
   * The handler answers 200 only with a created puzzle, 400 and 500 only
   * with an error; a 500 always says "Internal server error" and carries
   * details exactly when ENVIRONMENT is not 'prod' (unset counts as 'dev').
   */
  lemma ReplyKinds(w: World, cfg: Config, body: Body, now: string, f: Faults)
    ensures var r := HandlerReply(w, cfg, body, now, f).1;
      && r.statusCode in {200, 400, 500}
      && (r.statusCode == 200 <==> r.body.Created?)
      && (r.statusCode == 500 ==>
           && r.body.error == "Internal server error"
           && (r.body.details.Some? <==> cfg.environment != Some("prod")))
      && (r.statusCode == 400 ==> r.body.details.None?)
  {
    match body
    case Fields(pc, name, user) =>
      if pc.Some? && Truthy(pc.value) && name.Some? && name.value != "" {
        var (w', cr) := CreateFromJson(w, pc.value, name.value, user.GetOr("anonymous"), now, f);
        assert HandlerReply(w, cfg, body, now, f).1 == if cr.Ok? then Reply(200, Created(cr.value)) else ErrorReply(cfg, cr.error);
      }
    case _ =>
  }

  /**
   * The required-field checks: a missing or falsy pieceCount is reported
   * first, whatever the name; then a missing or empty puzzleName. Neither
   * touches the backend, and an absent body misses both.
   */
  lemma RequiredFields(w: World, cfg: Config, body: Body, now: string, f: Faults)
    ensures var (w', r) := HandlerReply(w, cfg, body, now, f);
      match body
      case Fields(pc, name, _) =>
        && ((pc.None? || !Truthy(pc.value)) ==>
             w' == w && r == Reply(400, ErrorPayload("pieceCount is required", None)))
        && ((pc.Some? && Truthy(pc.value) && (name.None? || name.value == "")) ==>
             w' == w && r == Reply(400, ErrorPayload("puzzleName is required", None)))
      case NoBody => w' == w && r == Reply(400, ErrorPayload("pieceCount is required", None))
      case _ => w' == w
  {
  }

  /**
   * Once both fields are present, the handler's effect is create_puzzle's,
   * with userId defaulting to 'anonymous': success is a 200 carrying the
   * service's summary, a ValueError a 400 carrying its text, and any other
   * error a 500.
   */
  lemma CreateMapped(w: World, cfg: Config, body: Body, now: string, f: Faults, n: int, name: string)
    requires body.Fields? && body.pieceCount == Some(JNum(n)) && n != 0
    requires body.puzzleName == Some(name) && name != ""
    ensures var (w', r) := HandlerReply(w, cfg, body, now, f);
      var (cw, cr) := CreateOutcome(w, n, name, body.userId.GetOr("anonymous"), now, f);
      && w' == cw
      && (cr.Ok? ==> r == Reply(200, Created(cr.value)))
      && (cr.Err? && cr.error.ValueError? ==> r == Reply(400, ErrorPayload(cr.error.message, None)))
      && (cr.Err? && !cr.error.ValueError? ==> r == ServerError(cfg, cr.error.message))
  {
    var user := body.userId.GetOr("anonymous");
    assert CreateFromJson(w, JNum(n), name, user, now, f) == CreateOutcome(w, n, name, user, now, f);
  }

  /** A puzzle registered without a userId belongs to 'anonymous'. */
  lemma AnonymousByDefault(w: World, cfg: Config, body: Body, now: string, f: Faults)
    requires body.Fields? && body.userId.None?
    requires HandlerReply(w, cfg, body, now, f).1.statusCode == 200
    ensures var (w', r) := HandlerReply(w, cfg, body, now, f);
      && r.body.Created?
      && PuzzleKey("anonymous", r.body.summary.puzzleId) in w'.puzzles
  {
    var pc := body.pieceCount.value;
    var (cw, cr) := CreateFromJson(w, pc, body.puzzleName.value, "anonymous", now, f);
    assert cr.Ok?;
  }

  /**
   * A truthy piece count that is not a number, or a boolean, never creates
   * a puzzle: it is answered 400 with the service's listing message.
   */
  lemma NonNumericCountRejected(w: World, cfg: Config, body: Body, now: string, f: Faults)
    requires body.Fields? && body.pieceCount.Some? && Truthy(body.pieceCount.value)
    requires !body.pieceCount.value.JNum?
    requires body.puzzleName.Some? && body.puzzleName.value != ""
    ensures HandlerReply(w, cfg, body, now, f) == (w, Reply(400, ErrorPayload(InvalidCountMessage(), None)))
  {
  }
}
