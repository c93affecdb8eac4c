/**
 * Request dispatch: binding a request to a handler's arguments, turning its
 * result into a response, the `run` state machine and its error mapping, and
 * the CORS headers baked once per application.
 *
 * The validation library and the handler itself are oracles supplied in an
 * `Env`: the model fixes the order in which they are consulted and how each
 * of their outcomes becomes a response.
 */
module Dispatch {
  import opened Wrappers
  import opened Types
  import Dicts
  import Text

  /** What a model class is validated against: the whole request, or one slice of it. */
  datatype ValidationInput = WholeRequest(request: ParsedRequest) | Data(value: Json)

  /** `Model.model_validate(x)`: the validated instance (as its JSON dump), or the `e.json()` error text. */
  datatype Validated = Valid(dump: Json) | Invalid(errors: string)

  /** What a handler returned: an instance of some model class, or plain data. */
  datatype HandlerResult = ModelInstance(dump: Json) | PlainValue(value: Json)

  /** The exceptions the pipeline tells apart. */
  datatype Raised =
    | APIError(status: int, message: string)
    | ValidationError(errors: string)
    | OtherException

  /** How a handler call ends. */
  datatype Outcome = Returned(result: HandlerResult) | Raise(exception: Raised)

  /** The foreign collaborators: the validation library and the handlers' bodies. */
  datatype Env = Env(
    validate: (ModelType, ValidationInput) -> Validated,
    invoke: (Handler, map<string, Json>) -> Outcome)

  const InternalServerError := "Internal Server Error"

  // ---------------------------------------------------------------- InvokeTemplate.prepare_method_args

  /** The three bindable arguments; `prepare_method_args` validates them in this order. */
  datatype ArgKind = RequestArg | ParamsArg | BodyArg

  function ArgName(k: ArgKind): string {
    match k
    case RequestArg => "request"
    case ParamsArg => "params"
    case BodyArg => "body"
  }

  function Declared(t: InvokeTemplate, k: ArgKind): Option<ModelType> {
    match k
    case RequestArg => t.request
    case ParamsArg => t.params
    case BodyArg => t.body
  }

  /** The part of the request each argument is validated from. */
  function InputFor(k: ArgKind, req: ParsedRequest): ValidationInput {
    match k
    case RequestArg => WholeRequest(req)
    case ParamsArg => Data(JObj(req.params))
    case BodyArg => Data(req.body)
  }

  /** The validation of argument `k`, if the template declares it. */
  function Check(t: InvokeTemplate, k: ArgKind, req: ParsedRequest, env: Env): Option<Validated> {
    match Declared(t, k)
    case None => None
    case Some(ty) => Some(env.validate(ty, InputFor(k, req)))
  }

  predicate Fails(t: InvokeTemplate, k: ArgKind, req: ParsedRequest, env: Env) {
    var c := Check(t, k, req, env);
    c.Some? && c.value.Invalid?
  }

  /** Adds `name: instance` to the arguments when the check ran and succeeded. */
  function Bind(args: map<string, Json>, name: string, c: Option<Validated>): map<string, Json> {
    if c.Some? && c.value.Valid? then args[name := c.value.dump] else args
  }

  /**
   * `prepare_method_args`: validates `request`, then `params`, then `body`
   * (each only if declared). The first failure is raised; otherwise every
   * declared argument is bound to its validated instance and nothing else is.
   */
  function MethodArgs(t: InvokeTemplate, req: ParsedRequest, env: Env): (r: Result<map<string, Json>, string>)
    ensures r.Success? <==> !Fails(t, RequestArg, req, env) && !Fails(t, ParamsArg, req, env) && !Fails(t, BodyArg, req, env)
    ensures Fails(t, RequestArg, req, env) ==> r == Failure(Check(t, RequestArg, req, env).value.errors)
    ensures !Fails(t, RequestArg, req, env) && Fails(t, ParamsArg, req, env) ==>
      r == Failure(Check(t, ParamsArg, req, env).value.errors)
    ensures !Fails(t, RequestArg, req, env) && !Fails(t, ParamsArg, req, env) && Fails(t, BodyArg, req, env) ==>
      r == Failure(Check(t, BodyArg, req, env).value.errors)
    ensures r.Success? ==> forall k: ArgKind ::
      (ArgName(k) in r.value <==> Declared(t, k).Some?) &&
      (ArgName(k) in r.value ==> Check(t, k, req, env).value.Valid? && r.value[ArgName(k)] == Check(t, k, req, env).value.dump)
    ensures r.Success? ==> forall name :: name in r.value ==> name in {"request", "params", "body"}
  {
    var cr := Check(t, RequestArg, req, env);
    var cp := Check(t, ParamsArg, req, env);
    var cb := Check(t, BodyArg, req, env);
    if cr.Some? && cr.value.Invalid? then Failure(cr.value.errors)
    else if cp.Some? && cp.value.Invalid? then Failure(cp.value.errors)
    else if cb.Some? && cb.value.Invalid? then Failure(cb.value.errors)
    else Success(Bind(Bind(Bind(map[], "request", cr), "params", cp), "body", cb))
  }

  /** `prepare_method_args` as the source runs it: `args` is filled in order and the first failed validation is raised. */
  method PrepareMethodArgs(t: InvokeTemplate, req: ParsedRequest, env: Env) returns (r: Result<map<string, Json>, string>)
    ensures r == MethodArgs(t, req, env)
  {
    var args: map<string, Json> := map[];
    if t.request.Some? {
      var v := env.validate(t.request.value, WholeRequest(req));
      if v.Invalid? {
        return Failure(v.errors);
      }
      args := args["request" := v.dump];
    }
    if t.params.Some? {
      var v := env.validate(t.params.value, Data(JObj(req.params)));
      if v.Invalid? {
        return Failure(v.errors);
      }
      args := args["params" := v.dump];
    }
    if t.body.Some? {
      var v := env.validate(t.body.value, Data(req.body));
      if v.Invalid? {
        return Failure(v.errors);
      }
      args := args["body" := v.dump];
    }
    return Success(args);
  }

  // ---------------------------------------------------------------- InvokeTemplate.prepare_response

  /**
   * `prepare_response`: the template's status always; no declared response type
   * gives a `None` body; a model instance is dumped as it is; plain data is
   * validated against the response type first, and that validation may fail.
   */
  function PrepareResponse(t: InvokeTemplate, result: HandlerResult, env: Env): (r: Result<Response, string>)
    ensures r.Success? ==> r.value.status == t.status && r.value.headers == map[] && !r.value.raw
    ensures t.response.None? ==> r == Success(Response(t.status, JNull))
    ensures r.Failure? <==>
      (t.response.Some? && result.PlainValue? && env.validate(t.response.value, Data(result.value)).Invalid?)
    ensures t.response.Some? && result.ModelInstance? ==> r.value.body == result.dump
    ensures r.Success? && t.response.Some? && result.PlainValue? ==>
      env.validate(t.response.value, Data(result.value)) == Valid(r.value.body)
  {
    match t.response
    case None => Success(Response(t.status, JNull))
    case Some(ty) =>
      match result
      case ModelInstance(dump) => Success(Response(t.status, dump))
      case PlainValue(v) =>
        match env.validate(ty, Data(v))
        case Valid(dump) => Success(Response(t.status, dump))
        case Invalid(errors) => Failure(errors)
  }

  // ---------------------------------------------------------------- LambdaAPI.run_endpoint_handler

  /**
   * `run_endpoint_handler`: a missing template raises (the attribute lookup
   * fails); invalid arguments give a 400 before the handler runs; an exception
   * from the handler propagates; a result that fails response validation gives
   * a generic 500.
   */
  function RunEndpointHandler(fn: Handler, templates: Templates, req: ParsedRequest, env: Env): (r: Result<Response, Raised>)
    ensures fn !in templates ==> r == Failure(OtherException)
    ensures fn in templates && MethodArgs(templates[fn], req, env).Failure? ==>
      r == Success(Response(400, ErrorBody(MethodArgs(templates[fn], req, env).error)))
    ensures r.Failure? && fn in templates ==>
      MethodArgs(templates[fn], req, env).Success? &&
      env.invoke(fn, MethodArgs(templates[fn], req, env).value) == Raise(r.error)
    ensures fn in templates && MethodArgs(templates[fn], req, env).Success? ==>
      var outcome := env.invoke(fn, MethodArgs(templates[fn], req, env).value);
      && (outcome.Raise? ==> r == Failure(outcome.exception))
      && (outcome.Returned? && PrepareResponse(templates[fn], outcome.result, env).Failure? ==>
            r == Success(Response(500, ErrorBody(InternalServerError))))
      && (outcome.Returned? && PrepareResponse(templates[fn], outcome.result, env).Success? ==>
            r == Success(PrepareResponse(templates[fn], outcome.result, env).value))
  {
    if fn !in templates then Failure(OtherException)
    else
      var t := templates[fn];
      match MethodArgs(t, req, env)
      case Failure(errors) => Success(Response(400, ErrorBody(errors)))
      case Success(args) =>
        match env.invoke(fn, args)
        case Raise(e) => Failure(e)
        case Returned(result) =>
          match PrepareResponse(t, result, env)
          case Failure(_) => Success(Response(500, ErrorBody(InternalServerError)))
          case Success(response) => Success(response)
  }

  // ---------------------------------------------------------------- LambdaAPI.run

  /** The `except` clauses of `run`, tried in order: API error, validation error, anything else. */
  function ExceptionResponse(e: Raised): (r: Response)
    ensures e.APIError? ==> r == Response(e.status, ErrorBody(e.message))
    ensures e.ValidationError? ==> r.status == 400 && r.raw && r.body == JStr("{\"error\": " + e.errors + "}")
    ensures e.OtherException? ==> r == Response(500, ErrorBody(InternalServerError))
  {
    match e
    case APIError(status, message) => Response(status, ErrorBody(message))
    case ValidationError(errors) => Response(400, JStr("{\"error\": " + errors + "}"), raw := true)
    case OtherException => Response(500, ErrorBody(InternalServerError))
  }

  /** The handler registered for the request's path and method, if any. */
  function Lookup(table: RouteTable, path: string, m: Method): Option<Handler> {
    if path in table.entries && m in table.entries[path].entries then Some(table.entries[path].entries[m])
    else None
  }

  /**
   * `run`: an unknown path is 404; on a known path OPTIONS is answered with
   * the CORS headers before any handler lookup; a registered method runs the
   * pipeline; any other method is 405.
   */
  function Run(table: RouteTable, templates: Templates, corsHeaders: map<string, string>,
               req: ParsedRequest, env: Env): (r: Response)
    ensures req.path !in table.entries ==> r == Response(404, ErrorBody("Not Found"))
    ensures req.path in table.entries && req.verb == OPTIONS ==> r == Response(200, JNull, corsHeaders)
    ensures req.path in table.entries && req.verb != OPTIONS && Lookup(table, req.path, req.verb).None? ==>
      r == Response(405, ErrorBody("Method Not Allowed"))
    ensures req.verb != OPTIONS && Lookup(table, req.path, req.verb).Some? ==>
      var res := RunEndpointHandler(Lookup(table, req.path, req.verb).value, templates, req, env);
      r == if res.Success? then res.value else ExceptionResponse(res.error)
  {
    if req.path !in table.entries then Response(404, ErrorBody("Not Found"))
    else if req.verb == OPTIONS then Response(200, JNull, corsHeaders)
    else
      var endpoint := table.entries[req.path];
      if req.verb in endpoint.entries then
        match RunEndpointHandler(endpoint.entries[req.verb], templates, req, env)
        case Success(response) => response
        case Failure(e) => ExceptionResponse(e)
      else Response(405, ErrorBody("Method Not Allowed"))
  }

  /**
   * The whole error mapping for a request routed to `fn`, from the oracles'
   * answers to the response: argument validation first, then the handler's
   * outcome, then response validation.
   */
  lemma PipelineOutcomes(table: RouteTable, templates: Templates, corsHeaders: map<string, string>,
                         req: ParsedRequest, env: Env, fn: Handler)
    requires req.verb != OPTIONS && Lookup(table, req.path, req.verb) == Some(fn)
    ensures var r := Run(table, templates, corsHeaders, req, env);
      if fn !in templates then r == Response(500, ErrorBody(InternalServerError))
      else
        var t := templates[fn];
        var args := MethodArgs(t, req, env);
        if args.Failure? then r == Response(400, ErrorBody(args.error)) && !r.raw
        else match env.invoke(fn, args.value)
          case Raise(APIError(s, msg)) => r == Response(s, ErrorBody(msg))
          case Raise(ValidationError(e)) => r == Response(400, JStr("{\"error\": " + e + "}"), map[], true)
          case Raise(OtherException) => r == Response(500, ErrorBody(InternalServerError))
          case Returned(result) =>
            var prepared := PrepareResponse(t, result, env);
            r == if prepared.Success? then prepared.value else Response(500, ErrorBody(InternalServerError))
  {
  }

  /** OPTIONS on a known path never consults a handler or the validation library. */
  lemma OptionsNeverRunsHandler(table: RouteTable, templates1: Templates, templates2: Templates,
                                corsHeaders: map<string, string>, req: ParsedRequest, env1: Env, env2: Env)
    requires req.path in table.entries && req.verb == OPTIONS
    ensures Run(table, templates1, corsHeaders, req, env1) == Run(table, templates2, corsHeaders, req, env2)
  {
  }

  /**
   * When argument validation fails the handler is never invoked: the response
   * is the same whatever the handler would have done.
   */
  lemma InvalidArgumentsSkipHandler(table: RouteTable, templates: Templates, corsHeaders: map<string, string>,
                                    req: ParsedRequest, env1: Env, env2: Env, fn: Handler)
    requires req.verb != OPTIONS && Lookup(table, req.path, req.verb) == Some(fn) && fn in templates
    requires env1.validate == env2.validate
    requires MethodArgs(templates[fn], req, env1).Failure?
    ensures Run(table, templates, corsHeaders, req, env1) == Run(table, templates, corsHeaders, req, env2)
    ensures Run(table, templates, corsHeaders, req, env1).status == 400
  {
    assert MethodArgs(templates[fn], req, env1) == MethodArgs(templates[fn], req, env2);
  }

  /**
   * A handler result that fails response validation is never reflected to the
   * caller: the response is the generic 500 whatever the validation errors say.
   */
  lemma InvalidResultIsNotLeaked(table: RouteTable, templates: Templates, corsHeaders: map<string, string>,
                                 req: ParsedRequest, env: Env, fn: Handler)
    requires req.verb != OPTIONS && Lookup(table, req.path, req.verb) == Some(fn) && fn in templates
    requires MethodArgs(templates[fn], req, env).Success?
    requires env.invoke(fn, MethodArgs(templates[fn], req, env).value).Returned?
    requires PrepareResponse(templates[fn], env.invoke(fn, MethodArgs(templates[fn], req, env).value).result, env).Failure?
    ensures Run(table, templates, corsHeaders, req, env) == Response(500, ErrorBody(InternalServerError))
  {
  }

  // ---------------------------------------------------------------- LambdaAPI._bake_headers

  const AllowOrigin := "Access-Control-Allow-Origin"
  const AllowMethods := "Access-Control-Allow-Methods"
  const AllowHeaders := "Access-Control-Allow-Headers"
  const MaxAge := "Access-Control-Max-Age"

  /**
   * The headers `_bake_headers` computes: none without a CORS configuration;
   * otherwise exactly four, the lists comma-joined and the max-age in decimal.
   */
  function BakedHeaders(cors: Option<CorsConfig>): (h: map<string, string>)
    ensures cors.None? ==> h == map[]
    ensures cors.Some? ==> h.Keys == {AllowOrigin, AllowMethods, AllowHeaders, MaxAge}
    ensures cors.Some? ==>
      && h[AllowOrigin] == Text.Join(",", cors.value.allowOrigins)
      && h[AllowMethods] == Text.Join(",", cors.value.allowMethods)
      && h[AllowHeaders] == Text.Join(",", cors.value.allowHeaders)
      && h[MaxAge] == Text.IntToString(cors.value.maxAge)
  {
    match cors
    case None => map[]
    case Some(c) =>
      map[AllowOrigin := Text.Join(",", c.allowOrigins),
          AllowMethods := Text.Join(",", c.allowMethods),
          AllowHeaders := Text.Join(",", c.allowHeaders),
          MaxAge := Text.IntToString(c.maxAge)]
  }

  /**
   * A browser reading the baked headers back recovers the configuration: the
   * lists split at commas (when no entry contains one) and the max-age parsed.
   */
  lemma BakedHeadersRoundTrip(c: CorsConfig)
    requires |c.allowOrigins| >= 1 && |c.allowMethods| >= 1 && |c.allowHeaders| >= 1
    requires forall i :: 0 <= i < |c.allowOrigins| ==> ',' !in c.allowOrigins[i]
    requires forall i :: 0 <= i < |c.allowMethods| ==> ',' !in c.allowMethods[i]
    requires forall i :: 0 <= i < |c.allowHeaders| ==> ',' !in c.allowHeaders[i]
    ensures var h := BakedHeaders(Some(c));
      && Text.Split(h[AllowOrigin], ',') == c.allowOrigins
      && Text.Split(h[AllowMethods], ',') == c.allowMethods
      && Text.Split(h[AllowHeaders], ',') == c.allowHeaders
      && |h[MaxAge]| >= 1
      && Text.ParseInt(h[MaxAge]) == c.maxAge
  {
    Text.SplitJoin(',', c.allowOrigins);
    Text.SplitJoin(',', c.allowMethods);
    Text.SplitJoin(',', c.allowHeaders);
    Text.IntToStringRoundTrip(c.maxAge);
  }

  /** A default configuration advertises a max-age of "3000". */
  lemma DefaultMaxAge(origins: seq<string>, methods: seq<string>, headers: seq<string>)
    ensures BakedHeaders(Some(CorsConfig(origins, methods, headers)))[MaxAge] == "3000"
  {
  }
}
