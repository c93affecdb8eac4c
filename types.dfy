/**
 * The values that lambda_api's core passes around: HTTP methods, JSON data,
 * handler descriptors, route configuration, compiled invocation templates,
 * requests and responses.
 */
module Types {
  import opened Wrappers
  import Dicts

  /** The HTTP methods a route can be registered for. */
  datatype Method = GET | POST | PUT | PATCH | DELETE | OPTIONS

  /** The string value of a method (the enum is a string enum). */
  function MethodName(m: Method): string {
    match m
    case GET => "GET"
    case POST => "POST"
    case PUT => "PUT"
    case PATCH => "PATCH"
    case DELETE => "DELETE"
    case OPTIONS => "OPTIONS"
  }

  /** JSON-compatible data (floating point numbers are not modelled). */
  datatype Json =
    | JNull
    | JBool(b: bool)
    | JInt(i: int)
    | JStr(s: string)
    | JArr(items: seq<Json>)
    | JObj(fields: map<string, Json>)

  /** `{"error": msg}`. */
  function ErrorBody(msg: string): (j: Json)
    ensures j.JObj? && j.fields.Keys == {"error"} && j.fields["error"] == JStr(msg)
  {
    JObj(map["error" := JStr(msg)])
  }

  /** A validation-library model class, named; `RootModelOf` is the wrapper `RootModel[T]`. */
  datatype ModelType = Model(name: string) | RootModelOf(inner: string)

  /** A handler's return annotation, as reflection sees it. */
  datatype Annotation =
    | Unannotated            // no annotation at all
    | NoneAnnotation         // `-> None`
    | ModelClass(name: string)  // a class deriving from the model base class
    | OtherType(name: string)   // anything else, e.g. `-> str`

  /** What reflection finds in a handler's signature: the annotated `params`, `body`, `request` parameters and the return type. */
  datatype Signature = Signature(
    params: Option<ModelType>,
    body: Option<ModelType>,
    request: Option<ModelType>,
    returnType: Annotation)

  /** A handler function: its identity, its signature and its docstring ("" for none). */
  datatype Handler = Handler(id: nat, signature: Signature, doc: string)

  /** The `tags` entry of a route's keyword configuration: absent, `None`, or a list. */
  datatype TagsParam = TagsUnset | TagsNone | Tags(list: seq<string>)

  /** The `RouteParams` keyword configuration of a route. */
  datatype RouteParams = RouteParams(status: Option<int>, tags: TagsParam)

  /** Per-handler metadata compiled once, at registration. */
  datatype InvokeTemplate = InvokeTemplate(
    params: Option<ModelType>,
    body: Option<ModelType>,
    request: Option<ModelType>,
    response: Option<ModelType>,
    status: int,
    tags: seq<string>)

  /** CORS configuration; `max_age` defaults to 3000. */
  datatype CorsConfig = CorsConfig(
    allowOrigins: seq<string>,
    allowMethods: seq<string>,
    allowHeaders: seq<string>,
    maxAge: int := 3000)

  /** The normalized request an adapter hands to the core. */
  datatype ParsedRequest = ParsedRequest(
    headers: map<string, string>,
    path: string,
    verb: Method,
    params: map<string, Json>,
    body: Json,
    providerData: map<string, Json>)

  /** The internal response; `raw` marks a body that is already encoded text. */
  datatype Response = Response(
    status: int,
    body: Json,
    headers: map<string, string> := map[],
    raw: bool := false)

  /** `route_table`: path -> method -> handler, both levels insertion ordered. */
  type RouteTable = Dicts.Dict<string, Dicts.Dict<Method, Handler>>

  /** The side table standing for the `__invoke_template__` attribute of handler functions. */
  type Templates = map<Handler, InvokeTemplate>
}
