# lambda_api core, modelled in Dafny

`lambda_api` is a small serverless web framework. Handlers are registered on
a `Router` or directly on a `LambdaAPI` application under a path and an HTTP
method. The application keeps a flat `route_table` (path -> method ->
handler). When a handler is first registered on an application, the application
compiles an `InvokeTemplate` for it: the declared `request`, `params` and `body` models,
the response model, the status and the tags. It dispatches a `ParsedRequest`
through a fixed pipeline:

1. path lookup;
2. the OPTIONS/CORS answer;
3. argument validation;
4. the handler;
5. response validation.

Each failure maps to a fixed status and body. `OpenApiGenerator` turns an
application's table into an OpenAPI 3 document. `json_decode_error_fragment`
formats the window around a JSON decoding error.

The model is split by concern:

- `wrappers.dfy` (`Wrappers`): `Option` and `Result`.
- `dicts.dfy` (`Dicts`): Python's insertion-ordered `dict` as a key sequence
  plus a map, with `Set`, the two-level `SetNested` write and the nested
  flattening the generators perform.
- `types.dfy` (`Types`): the records of `lambda_api/core.py`, namely
  `Method`, `Response`, `ParsedRequest`, `InvokeTemplate`, `RouteParams` and
  `CORSConfig`. Handlers are values with an identity, a signature and a
  docstring.
- `text.dfy` (`Text`): the string operations the source relies on. These
  are `",".join`, `str(int)`, ASCII `lower`/`title`, `find`/`rfind` and
  `rjust`.
- `dispatch.dfy` (`Dispatch`):
  - `prepare_method_args`, `prepare_response` and `run_endpoint_handler`;
  - the decision that `LambdaAPI.run` makes;
  - `_bake_headers`.
- `routing.dfy` (`Routing`): the `Router` class, whose nested routers form
  an acyclic composition.
- `app.dfy` (`App`):
  - template compilation;
  - the shared template store, which stands for the `__invoke_template__`
    attributes;
  - the `LambdaAPI` class;
  - replaying a composed router's or application's routes.
- `docsgen.dfy` (`Docs`): `OpenApiGenerator`. It works over an in-place
  `SchemaDraft` (the `schema` dict), and lemmas describe the finished
  document.
- `utils.dfy` (`Fragment`): `json_decode_error_fragment`.

Two foreign collaborators are passed in as oracle parameters:

- the validation library, which validates models and produces their JSON
  Schema;
- the handlers' bodies.

`Dispatch.Env` and `Docs.SchemaEnv` hold these oracles. Async execution and
logging are left out.

## Model

| member | source | states |
|---|---|---|
| Types.ErrorBody | lambda_api/core.py:236 | Definition of the one-key error object `{"error": msg}`; what the error responses carry is stated by `Dispatch.Run` and `Dispatch.PipelineOutcomes`. |
| Dicts.SetNested | lambda_api/core.py:164-166 | `d[k1][k2] = v`, creating `d[k1]` when missing. The new key goes last; every other outer and inner entry is kept. |
| Dicts.SetNestedRow | lambda_api/core.py:293-298 | After the nested write, the inner dict is the old one (or `{}`) updated at `k2`. Its keys are the old keys, with `k2` appended only when new. |
| Dicts.FlattenMember | lambda_api/core.py:180-182 | The flattened nested dict holds exactly the `(k1, k2, v)` with `d[k1][k2] == v`. |
| Dicts.FlattenDistinct | lambda_api/core.py:180-182 | The flattening never yields the same `(k1, k2)` twice. |
| Text.SplitJoin | lambda_api/core.py:220-226 | A comma-join of comma-free strings splits back into the same list. |
| Text.IntToStringRoundTrip | lambda_api/core.py:227 | `str(n)` is a non-empty optionally signed digit string that parses back to `n`. |
| Text.TitleFromAt | lambda_api/docsgen.py:53 | `str.title()` character by character: a letter after a letter is lowered, any other letter is upped, everything else is kept. |
| Text.TitleFromIdempotent | lambda_api/docsgen.py:53 | Title-casing twice is title-casing once. |
| Text.RFindSplit | lambda_api/utils.py:40 | `rfind` in `[lo, hi)` is `rfind` in `[mid, hi)` when that finds something, and `rfind` in `[lo, mid)` otherwise. |
| Dispatch.MethodArgs | lambda_api/core.py:76-86 | Arguments are validated in the order request, params, body. The first failure is the result. On success exactly the declared arguments are bound, each to its validated instance. |
| Dispatch.PrepareMethodArgs | lambda_api/core.py:76-86 | The step-by-step filling of `args` gives the same result as `MethodArgs`. |
| Dispatch.PrepareResponse | lambda_api/core.py:88-96 | The status is always the template's. With no response type the body is `None`. A model instance is dumped as is; plain data is dumped after validation; failure comes only from validating plain data. |
| Dispatch.RunEndpointHandler | lambda_api/core.py:265-288 | A missing template raises. Invalid arguments give 400 `{"error": e.json()}` without calling the handler. Otherwise a handler exception `e` propagates as `Failure(e)`, a result that fails response validation gives the generic 500, and any other result gives the prepared response. |
| Dispatch.ExceptionResponse | lambda_api/core.py:246-259 | `APIError` gives its status and message. `ValidationError` gives 400 with the raw `{"error": ...}` text. Anything else gives 500 "Internal Server Error". |
| Dispatch.Lookup | lambda_api/core.py:231-244 | The handler `route_table[path][method]`, when both keys exist. Its use by `run` is stated by `Dispatch.Run` and `App.RunThroughLookup`. |
| Dispatch.Run | lambda_api/core.py:230-263 | An unknown path gives 404. OPTIONS on a known path gives 200 with the baked headers. A registered method goes through the pipeline. Anything else gives 405. |
| Dispatch.PipelineOutcomes | lambda_api/core.py:241-259 | For a routed request, the complete map from oracle answers to responses, with argument validation taking precedence over the handler and the handler over response validation. |
| Dispatch.OptionsNeverRunsHandler | lambda_api/core.py:237-240 | OPTIONS on a known path depends on neither the templates nor the oracles, so no handler is ever run for it. |
| Dispatch.InvalidArgumentsSkipHandler | lambda_api/core.py:272-275 | When argument validation fails, the response is a 400 that does not depend on the handler's behaviour. |
| Dispatch.InvalidResultIsNotLeaked | lambda_api/core.py:281-288 | A result that fails response validation gives exactly the generic 500. |
| Dispatch.BakedHeaders | lambda_api/core.py:217-228 | Without CORS there are no headers. With CORS there are exactly four, holding the comma-joined origins, methods and headers and the stringified max-age. |
| Dispatch.BakedHeadersRoundTrip | lambda_api/core.py:217-228 | The baked comma-joined headers split back to the configured lists, and the max-age parses back to the configured integer. |
| Dispatch.DefaultMaxAge | lambda_api/core.py:109-114 | A CORS configuration with the default max-age advertises "3000". |
| Routing.Prefixed | lambda_api/core.py:182 | Definition: the tuple `(fn, prefix + path, method, config)` for each stored route, order kept; the exactly-once property is `Routing.OwnRoutesExactlyOnce`. |
| Routing.OwnRoutesExactlyOnce | lambda_api/core.py:178-182 | The own routes hold each stored (path, method) exactly once, under path `root + base + path`, and nothing else. |
| Routing.FlattenRoutes | lambda_api/core.py:180-182 | The nested loops yield exactly the own routes in table order. |
| Routing.AppendPathRoutes | lambda_api/core.py:181-182 | The inner loop appends one path's methods in order. |
| Routing.Router.constructor | lambda_api/core.py:151-155 | `tags or []`, no routes, no nested routers. |
| Routing.Router.AddRoute | lambda_api/core.py:157-167 | `routes[path][method] = (fn, config)` with last write winning. Every other entry is unchanged, and `fn` is returned. |
| Routing.Router.AddRouter | lambda_api/core.py:169-173 | Adding a router to itself fails and leaves state unchanged. Otherwise the only change is `routers + {r}`. |
| Routing.AddRouterAsWritten | lambda_api/core.py:169-173 | The guard as written: refused exactly when the router is added to itself; otherwise it is added and every other router's children are kept. |
| Routing.MutualAddRouterNestsWithoutBound | lambda_api/core.py:169-185 | After `a.add_router(b)` and `b.add_router(a)`, both accepted, `a.get_routes()` nests calls `n` deep for every `n`. |
| Routing.Router.NestedRoutesAdd | lambda_api/core.py:184-185 | The routes yielded by a set of nested routers are the union over its members. |
| Routing.Router.AllRoutesUnderPrefix | lambda_api/core.py:178-185 | Every path yielded under `root` starts with `root + base`. |
| Routing.Router.GetRoutes | lambda_api/core.py:175-185 | The own routes come first, in table order. The whole result, as a set, is the own routes plus every nested router's routes under `root + base`. |
| Routing.Router.AllRoutes | lambda_api/core.py:175-185 | The set of tuples `get_routes(root)` yields: own routes under `root + base`, then the nested routers' under that prefix. `Routing.Router.GetRoutes` and `Routing.Router.AllRoutesUnderPrefix` state its properties. |
| Routing.Router.NestedGetRoutes | lambda_api/core.py:184-185 | Collects, as a set, every nested router's routes, each under the given prefix. |
| App.ResponseType | lambda_api/core.py:303-311 | A missing or `None` annotation gives no response type. A model class is kept; any other type is wrapped in `RootModel`. |
| App.TemplateTags | lambda_api/core.py:319 | `config.get("tags", default_tags) or []`: the default when unset, `[]` for `None`, the list otherwise. `App.CompileTemplate` and `App.RecompileExported` carry its contract. |
| App.CompileTemplate | lambda_api/core.py:313-320 | The compiled template has the annotated arguments. Status defaults to 200. Tags default to the app's tags, and explicit `None` or `[]` gives `[]`. |
| App.RecompileExported | lambda_api/core.py:318-332 | Compiling again from the exported `{status, tags}` gives the same template, whatever the default tags. |
| App.Register | lambda_api/core.py:300-320 | A template is compiled only for a handler without one, and no existing template ever changes. |
| App.RegisterTable | lambda_api/core.py:334-336 | The table after `add_route` for each replayed route in order. `App.RegisterTableLookup` and `App.RegisterTablePaths` state what it holds. |
| App.TemplateRegistry.constructor | lambda_api/core.py:300 | Initially no handler has a template. |
| App.LookupAfterSetNested | lambda_api/core.py:293-298 | After `add_route`, only the lookup of `(path, verb)` changes, and it gives `fn`. |
| App.RegisterKeepsInvariant | lambda_api/core.py:290-320 | `add_route` keeps every handler in the table templated and every path non-empty. |
| App.LastFor | lambda_api/core.py:334-336 | The last replayed route for a (path, method) is found, or no route matches. |
| App.RegisterTableLookup | lambda_api/core.py:334-336 | After a replay, each (path, method) maps to its last replayed handler, and untouched pairs keep their handler. |
| App.PathsOf | lambda_api/core.py:334-336 | The set of the replayed routes' paths. |
| App.RegisterTablePaths | lambda_api/core.py:334-336 | A replay adds exactly the replayed paths. |
| App.RegisterTemplatesGrow | lambda_api/core.py:334-336 | A replay never changes an existing template, every replayed handler ends up with one, and nothing changes when all have one. |
| App.RegisterAllKeepsInvariant | lambda_api/core.py:334-336 | A replay keeps the table invariant. |
| App.Exported | lambda_api/core.py:329-332 | Definition: each tuple carries the stored path (`root` ignored) and the template's status and tags; the exactly-once property is `App.AppRoutesExactlyOnce`. |
| App.AppRoutes | lambda_api/core.py:324-332 | What `LambdaAPI.get_routes` yields: the flattened table, exported. `App.AppRoutesExactlyOnce` and `App.ExportRoutes` state its properties. |
| App.AppRoutesExactlyOnce | lambda_api/core.py:324-332 | `LambdaAPI.get_routes` yields each table entry exactly once, with the configuration of its template, and nothing else. |
| App.LastForDistinct | lambda_api/core.py:327-332 | Among routes with distinct pairs, a route is the last one for its pair. |
| App.ReplayKeepsTemplates | lambda_api/core.py:334-336 | Replaying an application's own routes leaves every template unchanged. |
| App.ReplayRebuildsPaths | lambda_api/core.py:334-336 | Replaying an application's routes into an empty table creates exactly its paths. |
| App.AppRoutesLastFor | lambda_api/core.py:327-332 | The last exported route for a pair is the table's handler for it. |
| App.ReplayRebuildsLookup | lambda_api/core.py:334-336 | Replaying an application's routes into an empty table gives every pair the same handler. |
| App.RunThroughLookup | lambda_api/core.py:231-261 | `run` sees the table only through its paths and the handler lookup. |
| App.ReplayedAppRunsTheSame | lambda_api/core.py:334-336 | An application rebuilt from another's `get_routes` answers every request exactly as the original does. |
| App.AddedRouteDispatches | lambda_api/core.py:290-322 | After `add_route`, a non-OPTIONS request for the pair runs that handler with a template. |
| App.AddRouteKeepsOtherRoutes | lambda_api/core.py:290-298 | `add_route` does not change the answer to a request for a known path and a different pair. |
| App.LambdaAPI.constructor | lambda_api/core.py:189-215 | Empty table, `tags or []` and headers baked from the CORS config. |
| App.LambdaAPI.BakeHeaders | lambda_api/core.py:217-228 | The headers are replaced only when a CORS config is present. |
| App.LambdaAPI.Run | lambda_api/core.py:230-263 | Dispatch on the current table, templates and headers. |
| App.LambdaAPI.AddRoute | lambda_api/core.py:290-322 | The table gets `route_table[path][method] = fn` with everything else kept. A template is compiled only when missing. The invariant is kept and `fn` is returned. |
| App.LambdaAPI.GetRoutes | lambda_api/core.py:324-332 | Yields the table's routes in order, each with its template's configuration. |
| App.LambdaAPI.Replay | lambda_api/core.py:335-336 | Calls `add_route` for each route in order. |
| App.LambdaAPI.AddRouter | lambda_api/core.py:334-336 | Replays exactly the routes the router yields for `""`, with its own routes first. |
| App.LambdaAPI.AddApp | lambda_api/core.py:334-336 | Replays exactly another application's table, in order. |
| App.ExportPath | lambda_api/core.py:328-332 | The inner loop of `get_routes` for one path. |
| App.ExportRoutes | lambda_api/core.py:327-332 | The nested loops equal `AppRoutes`. |
| Docs.MethodKeyIsLower | lambda_api/docsgen.py:38 | The operation key is `method.lower()`. |
| Docs.MethodKeyInjective | lambda_api/docsgen.py:38 | Two methods share an operation key exactly when they are the same method. |
| Docs.HeaderName | lambda_api/docsgen.py:53 | The documented header name has the key's length and no underscore. |
| Docs.HeaderNameAt | lambda_api/docsgen.py:53 | Per character, `_` becomes `-` and the result is title-cased, so `x_custom_header` becomes `X-Custom-Header`. |
| Docs.HeaderNameIdempotent | lambda_api/docsgen.py:53 | Documenting a documented header name changes nothing. |
| Docs.Descriptors | lambda_api/docsgen.py:50-77 | One descriptor per property, in property order. Header names are transformed, and `required` is set exactly for the properties listed as required. |
| Docs.AuthOf | lambda_api/docsgen.py:61-64 | The `auth_name` of the request config, only when truthy. `Docs.FreshOperation` states when `security` appears. |
| Docs.UpdateKeys | lambda_api/docsgen.py:71 | `components.update(defs)`: every definition is written, and other entries are kept. |
| Docs.EndpointComponents | lambda_api/docsgen.py:71-101 | The components after one endpoint: query `$defs`, then body, then response. `Docs.EndpointComponentsGrow` and `Docs.AddComponents` carry its contract. |
| Docs.StoreSchema | lambda_api/docsgen.py:84-101 | The schema is stored under its title without `$defs`, then its definitions are merged and win on a clash. Other entries are kept. |
| Docs.EndpointComponentsGrow | lambda_api/docsgen.py:71-101 | No component disappears, and the body and response titles are present afterwards. |
| Docs.FreshOperation | lambda_api/docsgen.py:40-115 | `responses` has one key, `str(status)`, exactly when a response model exists. `security`, `tags`, `description` and `requestBody` exist exactly when their source is truthy. `parameters` is the headers, then the query. |
| Docs.EndpointOperation | lambda_api/docsgen.py:40-115 | The operation after `_add_endpoint_to_schema`'s updates. `Docs.FreshOperation` and `Docs.FillOperation` carry its contract. |
| Docs.DocumentFor | lambda_api/docsgen.py:15-27 | The document has `id` exactly when `schema_id` is truthy. |
| Docs.Step | lambda_api/docsgen.py:25-26 | One `_add_endpoint_to_schema` call on the draft. `Docs.OpenApiGenerator.AddEndpointToSchema`, `Docs.RowFoldRow` and `Docs.RowFoldOthers` state its effect. |
| Docs.TableFold | lambda_api/docsgen.py:24-26 | The `get_schema` loops over the table's paths. `Docs.TableFoldDocuments`, `Docs.TableFoldComponents` and `Docs.OpenApiGenerator.GetSchema` state its properties. |
| Docs.MethodKeys | lambda_api/docsgen.py:38 | Definition: the lowered method names, in order; what the document holds under them is `Docs.DocumentPaths`. |
| Docs.PrefixedPaths | lambda_api/docsgen.py:37 | Definition: the prefixed paths, in order; that they are the document's keys is `Docs.DocumentPaths`. |
| Docs.RowFoldOthers | lambda_api/docsgen.py:25-26 | The inner loop touches only `paths[prefix + path]`, which it creates when a method exists. |
| Docs.RowFoldRow | lambda_api/docsgen.py:25-38 | A path's entry has exactly the lowered method keys, each holding its operation documented from scratch. |
| Docs.RowSnoc | lambda_api/docsgen.py:25-26 | Documenting one more method extends a documented row. |
| Docs.MethodKeysSnoc | lambda_api/docsgen.py:25-26 | The keys of a longer method sequence are the old keys plus the new one. |
| Docs.NewMethodKey | lambda_api/docsgen.py:38 | Distinct methods give a fresh key. |
| Docs.TableFoldDocuments | lambda_api/docsgen.py:24-26 | The outer loop documents every path under its prefixed key. |
| Docs.TableSnoc | lambda_api/docsgen.py:24-26 | Documenting one more path extends a documented table. |
| Docs.PrefixedPathsSnoc | lambda_api/docsgen.py:24 | The prefixed keys of one more path. |
| Docs.NewPrefixedPath | lambda_api/docsgen.py:37 | Distinct paths give distinct prefixed keys. |
| Docs.DocumentPaths | lambda_api/docsgen.py:24-38 | `paths` has exactly the keys `prefix + path`, each holding exactly the lowered method keys with their operations. |
| Docs.RowFoldComponents | lambda_api/docsgen.py:84-101 | After one path, each of its endpoints' references resolves. |
| Docs.TableFoldComponents | lambda_api/docsgen.py:84-101 | After all paths, every endpoint's references resolve. |
| Docs.DocumentRefsResolve | lambda_api/docsgen.py:84-107 | In the document before the `$defs` rewrite, the body and response references of every documented operation name an existing component. |
| Docs.SchemaDraft.constructor | lambda_api/docsgen.py:16-19 | Empty `paths` and empty `components/schemas`. |
| Docs.OpenApiGenerator.constructor | lambda_api/docsgen.py:10-13 | Takes the application's id and prefix and shares its table. |
| Docs.OpenApiGenerator.AddEndpointToSchema | lambda_api/docsgen.py:31-115 | Documents one endpoint into the shared draft in place. |
| Docs.OpenApiGenerator.AddPathToSchema | lambda_api/docsgen.py:25-26 | The inner loop, equal to the row fold. |
| Docs.OpenApiGenerator.GetSchema | lambda_api/docsgen.py:15-27 | The loops build exactly `DocumentFor`. |
| Docs.FillOperation | lambda_api/docsgen.py:40-115 | The in-place field updates equal `EndpointOperation`. |
| Docs.AddComponents | lambda_api/docsgen.py:71-101 | The in-place component updates, in order. |
| Docs.SchemaIsDeterministic | lambda_api/docsgen.py:15-29 | Repeated calls, and a fresh generator on the same app, give equal documents. |
| Fragment.WindowStart | lambda_api/utils.py:36 | `max(0, pos - 20)`. |
| Fragment.WindowEnd | lambda_api/utils.py:37 | `min(len(doc), pos + 20)`. |
| Fragment.WindowBounds | lambda_api/utils.py:36-37 | `0 <= start <= pos <= end <= len(doc)`, with at most 20 characters on each side. |
| Fragment.TrimmedMsg | lambda_api/utils.py:38 | The result is a prefix of the message, 2 shorter exactly when it ends with `" at"`. |
| Fragment.Cut | lambda_api/utils.py:46-47 | The first newline in `doc[pos:end]`, or `end`. |
| Fragment.LineStart | lambda_api/utils.py:40 | The start of the shown line that holds the error. |
| Fragment.Pointer | lambda_api/utils.py:42-44 | Length `max(1, width)`: spaces, then `^` last. |
| Fragment.PointerWidth | lambda_api/utils.py:40-44 | The corrected width `pos - line start + 1`, which is at least 1. |
| Fragment.PointerWidthAsWritten | lambda_api/utils.py:40-44 | The source's width: `colno` after a newline in `doc[start:pos]`, `colno - start` otherwise. `Fragment.WidthWithNewlineIsColno` and `Fragment.AsWrittenWidthOffset` state when it is right. |
| Fragment.Assemble | lambda_api/utils.py:46-63 | In both branches the length is `(end - start) + 1 + len(pointer) + len(msg)`. |
| Fragment.ErrorFragment | lambda_api/utils.py:35-63 | The fragment with the corrected width. `Fragment.CaretUnderError` and `Fragment.FragmentInsertsHintLine` carry its contract. |
| Fragment.ErrorFragmentAsWritten | lambda_api/utils.py:35-63 | `json_decode_error_fragment` as written. `Fragment.Assemble`, `Fragment.FragmentInsertsHintLine` and `Fragment.Pointer` hold for every width, so for this one too; `Fragment.AsWrittenMisplacesCaret` shows where its caret lands. |
| Fragment.FragmentInsertsHintLine | lambda_api/utils.py:46-63 | The result is the window with `"\n" + pointer + msg` inserted at the cut, and removing the hint line gives back the window. |
| Fragment.CaretUnderError | lambda_api/utils.py:40-63 | With the corrected width, the caret stands under `doc[pos]` in the hint line below the error's line. |
| Fragment.WidthWithNewlineIsColno | lambda_api/utils.py:41-42 | When a newline is in `doc[start:pos]`, the source's width `colno` is right. |
| Fragment.AsWrittenWidthOffset | lambda_api/utils.py:43-44 | Otherwise the source's width is short by one more than the last newline before the window, and right exactly when `doc[:pos]` has none. |
| Fragment.AsWrittenMisplacesCaret | lambda_api/utils.py:43-44 | A concrete error where the source's caret lands one column left of the error. |

## Left out

- Validation library: `model_validate`, `model_dump`, `model_json_schema`,
  `RootModel[...]` and `ValidationError.json()` are oracles.
  - `Dispatch.Env` covers validation.
  - `Docs.SchemaEnv` covers schema, headers schema and `auth_name`.
- Reflection:
  - `inspect.signature` is replaced by a `Signature` value carried by each
    handler.
  - A `Signature` always gives `request`, `params` and `body` an annotation.
    In the source an unannotated one is `inspect.Parameter.empty`, which is
    truthy: the request then fails with a 500 and `get_schema` raises
    `AttributeError`. That case is not modelled.
  - `inspect.getdoc` is the handler's `doc` string, unindented as given.
  - `__invoke_template__` is a shared `App.TemplateRegistry`. The model assumes every application is built on one registry, as the attribute on the function object makes it in the source. Nothing in `App.LambdaAPI.constructor` or `App.LambdaAPI.AddApp` enforces it.
- Async execution and `logging.error`: only the returned `Response` is
  modelled.
- `ParsedRequest.__str__`/`__repr__`: log formatting.
- The `json_dumps`/`json_loads` wrappers: thin wrappers over a foreign
  serializer.
- The `.get`/`.post`/`.put`/`.delete`/`.patch` decorators: each only calls
  `add_route` with a fixed method.
- The `json.dumps(...).replace("$defs", "components/schemas")` rewrite in
  `get_schema`: a textual rewrite of serialized output.
  - `Docs.DocumentFor` is the document before it.
- `Docs.DocumentRefsResolve`: covers only the body and response references,
  in the document before the rewrite. The header schema's `$defs` are never
  merged into the components (docsgen.py:45-58, unlike the query branch at
  docsgen.py:71), so after the rewrite a header field's nested `#/$defs/X`
  is a `#/components/schemas/X` that may name nothing.
- `Routing.Router.AddRouter`: requires the composition to stay acyclic, and
  does not update an ancestor's footprint after a later `add_router` on a
  child.
  - The source itself only rejects self-insertion.
  - A cycle such as `a.add_router(b); b.add_router(a)` makes `get_routes` recurse until Python's recursion limit raises `RecursionError` (see "## Findings").
- `Routing.Router.GetRoutes`: the order of sibling routers is a Python
  `set` order; only the own-routes-first order and the set of routes are
  stated.
- A `LambdaAPI` nested inside a `Router`: it is not modelled.
  `App.LambdaAPI.AddApp` covers `add_router` given another application.
- `Router.tags` is stored but never read by the code, so it does not tag
  anything.
- `LambdaAPI.get_routes` ignores `root`; the code is followed.
- `App.ConfigFor`: its fallback for a handler without a template is never
  reached under the application's invariant.
- Case mapping and `str.title()` cover ASCII letters only; other characters
  are kept as they are.
- `Fragment`:
  - `colno` is taken as the decoder's definition (`FromDecoder`);
  - positions are assumed to lie in the document (`InDoc`), as the decoder
    reports them.

## Findings

| source | as written | input that shows it | evidently intended | confidence | as-written member | corrected member |
|---|---|---|---|---|---|---|
| lambda_api/utils.py:43-44 | When `doc[start:pos]` has no newline, the caret is padded to width `colno - start`. But `colno` counts from the last newline before `pos`, which may lie before `start`. | `doc = "\n[" + "1," * 12 + "x]"`: the decoder rejects the `x` at `pos = 26`, `colno = 26`. The window starts at 6, the width is 20, and the caret lands in column 19 instead of under the `x` in column 20. | The width is `pos - start + 1`, so the caret stands under `doc[pos]`. | not executed | Fragment.AsWrittenMisplacesCaret | Fragment.CaretUnderError |
| lambda_api/core.py:169-173 | `add_router` refuses only `router is self`. A router that already holds `self`, directly or further down, is accepted. | `a.add_router(b)` then `b.add_router(a)`: both succeed, and `a.get_routes()` (core.py:184-185) recurses until Python's recursion limit raises `RecursionError`; by then `LambdaAPI.add_router` has already added every route yielded so far. | A router that would close a cycle is refused, so composition stays acyclic. | not executed | Routing.MutualAddRouterNestsWithoutBound | Routing.Router.AddRouter |
