/**
 * `LambdaAPI`: the application object. It keeps the flat
 * path -> method -> handler `route_table`, compiles each handler's
 * invocation template once at registration, bakes the CORS response headers
 * once, dispatches requests, and replays the routes of a composed router.
 *
 * The templates live in a `TemplateRegistry` shared by every application:
 * the template is an attribute of the handler function itself, so a handler
 * registered with two applications keeps the template of its first
 * registration.
 */
module App {
  import opened Wrappers
  import opened Types
  import Dicts
  import Dispatch
  import Routing

  // ---------------------------------------------------------------- template compilation

  /**
   * The response type of a handler: none for a missing or `None` return
   * annotation, a model class as it is, anything else wrapped in `RootModel`.
   */
  function ResponseType(a: Annotation): (r: Option<ModelType>)
    ensures r.None? <==> a.Unannotated? || a.NoneAnnotation?
    ensures a.ModelClass? ==> r == Some(Model(a.name))
    ensures a.OtherType? ==> r == Some(RootModelOf(a.name))
  {
    match a
    case Unannotated => None
    case NoneAnnotation => None
    case ModelClass(name) => Some(Model(name))
    case OtherType(name) => Some(RootModelOf(name))
  }

  /** `config.get("tags", default_tags) or []`. */
  function TemplateTags(tags: TagsParam, defaultTags: seq<string>): seq<string> {
    match tags
    case TagsUnset => defaultTags
    case TagsNone => []
    case Tags(list) => list
  }

  /**
   * The template `add_route` compiles for a handler seen for the first time:
   * the annotated arguments, the response type, the status (200 by default)
   * and the tags (the application's default tags when none are configured,
   * none for an explicit `None` or an empty list).
   */
  function CompileTemplate(sig: Signature, config: RouteParams, defaultTags: seq<string>): (t: InvokeTemplate)
    ensures t.params == sig.params && t.body == sig.body && t.request == sig.request
    ensures t.response == ResponseType(sig.returnType)
    ensures config.status.None? ==> t.status == 200
    ensures config.status.Some? ==> t.status == config.status.value
    ensures config.tags.TagsUnset? ==> t.tags == defaultTags
    ensures config.tags.TagsNone? || config.tags == Tags([]) ==> t.tags == []
    ensures config.tags.Tags? ==> t.tags == config.tags.list
  {
    InvokeTemplate(sig.params, sig.body, sig.request, ResponseType(sig.returnType),
                   config.status.GetOr(200), TemplateTags(config.tags, defaultTags))
  }

  /** The `{"status": ..., "tags": ...}` configuration `LambdaAPI.get_routes` reports for a template. */
  function ExportedConfig(t: InvokeTemplate): RouteParams {
    RouteParams(Some(t.status), Tags(t.tags))
  }

  /**
   * Compiling a handler again from the configuration its template is
   * exported with gives back the same template, whatever the default tags.
   */
  lemma RecompileExported(sig: Signature, config: RouteParams, defaultTags: seq<string>, otherDefaults: seq<string>)
    ensures var t := CompileTemplate(sig, config, defaultTags);
      CompileTemplate(sig, ExportedConfig(t), otherDefaults) == t
  {
  }

  /**
   * The template store after `fn` is registered: a template is compiled only
   * when `fn` has none yet, and no existing template ever changes.
   */
  function Register(templates: Templates, fn: Handler, config: RouteParams, defaultTags: seq<string>): (r: Templates)
    ensures r.Keys == templates.Keys + {fn}
    ensures forall h :: h in templates ==> r[h] == templates[h]
    ensures fn !in templates ==> r[fn] == CompileTemplate(fn.signature, config, defaultTags)
  {
    if fn in templates then templates else templates[fn := CompileTemplate(fn.signature, config, defaultTags)]
  }

  /** Where every handler's template lives (the `__invoke_template__` attributes). */
  class TemplateRegistry {
    var templates: Templates

    constructor()
      ensures templates == map[]
    {
      templates := map[];
    }
  }

  // ---------------------------------------------------------------- the table invariant

  /** Every handler in the table has a template. */
  ghost predicate Complete(table: RouteTable, templates: Templates) {
    forall p, m :: p in table.entries && m in table.entries[p].entries ==> table.entries[p].entries[m] in templates
  }

  /** A path is only ever created together with its first method. */
  ghost predicate NoEmptyEndpoints(table: RouteTable) {
    forall p :: p in table.entries ==> table.entries[p].keys != []
  }

  /** The single-entry update `add_route` makes to the table, seen through lookup: only `(path, verb)` changes. */
  lemma LookupAfterSetNested(table: RouteTable, path: string, verb: Method, fn: Handler, p: string, m: Method)
    ensures Dispatch.Lookup(Dicts.SetNested(table, path, verb, fn), p, m) ==
      if p == path && m == verb then Some(fn) else Dispatch.Lookup(table, p, m)
  {
  }

  lemma RegisterKeepsInvariant(table: RouteTable, templates: Templates, fn: Handler, path: string, verb: Method,
                               config: RouteParams, defaultTags: seq<string>)
    requires Complete(table, templates) && NoEmptyEndpoints(table)
    ensures var t2 := Dicts.SetNested(table, path, verb, fn);
      Complete(t2, Register(templates, fn, config, defaultTags)) && NoEmptyEndpoints(t2)
  {
    var t2 := Dicts.SetNested(table, path, verb, fn);
    forall p | p in t2.entries ensures t2.entries[p].keys != [] {
      if p == path {
        assert verb in t2.entries[p].entries;
      }
    }
  }

  // ---------------------------------------------------------------- replaying a sequence of routes

  /** The table after `add_route` is called for each route in order. */
  function RegisterTable(table: RouteTable, routes: seq<Routing.RouteEntry>): RouteTable
    decreases |routes|
  {
    if routes == [] then table
    else
      var last := routes[|routes| - 1];
      Dicts.SetNested(RegisterTable(table, routes[..|routes| - 1]), last.path, last.verb, last.fn)
  }

  /** The template store after `add_route` is called for each route in order. */
  function RegisterTemplates(templates: Templates, routes: seq<Routing.RouteEntry>, defaultTags: seq<string>): Templates
    decreases |routes|
  {
    if routes == [] then templates
    else
      var last := routes[|routes| - 1];
      Register(RegisterTemplates(templates, routes[..|routes| - 1], defaultTags), last.fn, last.config, defaultTags)
  }

  predicate Matches(e: Routing.RouteEntry, p: string, m: Method) {
    e.path == p && e.verb == m
  }

  /** The handler of the last route for `(p, m)` in `routes`, if there is one. */
  function LastFor(routes: seq<Routing.RouteEntry>, p: string, m: Method): (r: Option<Handler>)
    ensures r.None? ==> forall i :: 0 <= i < |routes| ==> !Matches(routes[i], p, m)
    ensures r.Some? ==> exists i :: (0 <= i < |routes| && Matches(routes[i], p, m) && routes[i].fn == r.value &&
      forall j :: i < j < |routes| ==> !Matches(routes[j], p, m))
    decreases |routes|
  {
    if routes == [] then None
    else
      var last := routes[|routes| - 1];
      if Matches(last, p, m) then Some(last.fn)
      else
        var r := LastFor(routes[..|routes| - 1], p, m);
        assert forall i :: 0 <= i < |routes| - 1 ==> routes[..|routes| - 1][i] == routes[i];
        r
  }

  /** Replaying routes: for each (path, method) the last route replayed wins; untouched pairs keep their handler. */
  lemma {:induction false} RegisterTableLookup(table: RouteTable, routes: seq<Routing.RouteEntry>, p: string, m: Method)
    ensures Dispatch.Lookup(RegisterTable(table, routes), p, m) ==
      if LastFor(routes, p, m).Some? then LastFor(routes, p, m) else Dispatch.Lookup(table, p, m)
    decreases |routes|
  {
    if routes != [] {
      var init := routes[..|routes| - 1];
      var last := routes[|routes| - 1];
      RegisterTableLookup(table, init, p, m);
      LookupAfterSetNested(RegisterTable(table, init), last.path, last.verb, last.fn, p, m);
    }
  }

  /** The paths of a sequence of routes. */
  function PathsOf(routes: seq<Routing.RouteEntry>): (r: set<string>)
    ensures forall i :: 0 <= i < |routes| ==> routes[i].path in r
    ensures forall p :: p in r ==> exists i :: 0 <= i < |routes| && routes[i].path == p
    decreases |routes|
  {
    if routes == [] then {}
    else
      var r := PathsOf(routes[..|routes| - 1]);
      assert forall i :: 0 <= i < |routes| - 1 ==> routes[..|routes| - 1][i] == routes[i];
      r + {routes[|routes| - 1].path}
  }

  /** Replaying routes adds exactly their paths to the table's paths. */
  lemma {:induction false} RegisterTablePaths(table: RouteTable, routes: seq<Routing.RouteEntry>)
    ensures RegisterTable(table, routes).entries.Keys == table.entries.Keys + PathsOf(routes)
    decreases |routes|
  {
    if routes != [] {
      RegisterTablePaths(table, routes[..|routes| - 1]);
    }
  }

  /**
   * Replaying routes never changes an existing template, and afterwards every
   * replayed handler has one; handlers that already had one are left alone.
   */
  lemma {:induction false} RegisterTemplatesGrow(templates: Templates, routes: seq<Routing.RouteEntry>, defaultTags: seq<string>)
    ensures forall h :: h in templates ==>
      h in RegisterTemplates(templates, routes, defaultTags) && RegisterTemplates(templates, routes, defaultTags)[h] == templates[h]
    ensures forall i :: 0 <= i < |routes| ==> routes[i].fn in RegisterTemplates(templates, routes, defaultTags)
    ensures (forall i :: 0 <= i < |routes| ==> routes[i].fn in templates) ==>
      RegisterTemplates(templates, routes, defaultTags) == templates
    decreases |routes|
  {
    if routes != [] {
      var init := routes[..|routes| - 1];
      RegisterTemplatesGrow(templates, init, defaultTags);
      assert forall i :: 0 <= i < |init| ==> init[i] == routes[i];
    }
  }

  /** Registration keeps the table invariant, whatever the routes. */
  lemma {:induction false} RegisterAllKeepsInvariant(table: RouteTable, templates: Templates,
                                                   routes: seq<Routing.RouteEntry>, defaultTags: seq<string>)
    requires Complete(table, templates) && NoEmptyEndpoints(table)
    ensures Complete(RegisterTable(table, routes), RegisterTemplates(templates, routes, defaultTags))
    ensures NoEmptyEndpoints(RegisterTable(table, routes))
    decreases |routes|
  {
    if routes != [] {
      var init := routes[..|routes| - 1];
      var last := routes[|routes| - 1];
      RegisterAllKeepsInvariant(table, templates, init, defaultTags);
      RegisterKeepsInvariant(RegisterTable(table, init), RegisterTemplates(templates, init, defaultTags),
                             last.fn, last.path, last.verb, last.config, defaultTags);
    }
  }

  // ---------------------------------------------------------------- LambdaAPI.get_routes

  /**
   * The configuration reported for a handler. Under `Complete` the handler
   * always has a template; the fallback is never reached by `get_routes`.
   */
  function ConfigFor(templates: Templates, fn: Handler): RouteParams {
    if fn in templates then ExportedConfig(templates[fn]) else RouteParams(None, TagsUnset)
  }

  /** Flat (path, method, handler) items as the tuples `LambdaAPI.get_routes` yields: no prefix, the template's status and tags. */
  function Exported(templates: Templates, items: seq<(string, Method, Handler)>): (r: seq<Routing.RouteEntry>)
    ensures |r| == |items|
    ensures forall i :: 0 <= i < |r| ==>
      r[i] == Routing.RouteEntry(items[i].2, items[i].0, items[i].1, ConfigFor(templates, items[i].2))
  {
    seq(|items|, i requires 0 <= i < |items| =>
      Routing.RouteEntry(items[i].2, items[i].0, items[i].1, ConfigFor(templates, items[i].2)))
  }

  lemma ExportedAppend(templates: Templates, a: seq<(string, Method, Handler)>, b: seq<(string, Method, Handler)>)
    ensures Exported(templates, a + b) == Exported(templates, a) + Exported(templates, b)
  {
    var l := Exported(templates, a + b);
    var r := Exported(templates, a) + Exported(templates, b);
    assert |l| == |r|;
    forall i | 0 <= i < |l| ensures l[i] == r[i] {
      if i < |a| {
        assert (a + b)[i] == a[i];
      } else {
        assert (a + b)[i] == b[i - |a|];
      }
    }
  }

  /** The application's routes in table order, as `get_routes` yields them. */
  function AppRoutes(table: RouteTable, templates: Templates): seq<Routing.RouteEntry> {
    Exported(templates, Dicts.Flatten(table))
  }

  /** No two routes for the same (path, method). */
  ghost predicate PairsDistinct(routes: seq<Routing.RouteEntry>) {
    forall i, j :: 0 <= i < j < |routes| ==> routes[i].path != routes[j].path || routes[i].verb != routes[j].verb
  }

  /**
   * `LambdaAPI.get_routes` yields each table entry exactly once, with the
   * stored path (no prefix) and the configuration its template was compiled
   * with, and nothing else.
   */
  lemma AppRoutesExactlyOnce(table: RouteTable, templates: Templates)
    requires Complete(table, templates)
    ensures forall p, m :: p in table.entries && m in table.entries[p].entries ==>
      var fn := table.entries[p].entries[m];
      Routing.RouteEntry(fn, p, m, ExportedConfig(templates[fn])) in AppRoutes(table, templates)
    ensures forall e :: e in AppRoutes(table, templates) ==>
      && Dispatch.Lookup(table, e.path, e.verb) == Some(e.fn)
      && e.fn in templates && e.config == ExportedConfig(templates[e.fn])
    ensures PairsDistinct(AppRoutes(table, templates))
  {
    var flat := Dicts.Flatten(table);
    var rs := AppRoutes(table, templates);
    forall p, m | p in table.entries && m in table.entries[p].entries
      ensures Routing.RouteEntry(table.entries[p].entries[m], p, m, ExportedConfig(templates[table.entries[p].entries[m]])) in rs
    {
      var fn := table.entries[p].entries[m];
      Dicts.FlattenMember(table, (p, m, fn));
      var i :| 0 <= i < |flat| && flat[i] == (p, m, fn);
      assert rs[i] == Routing.RouteEntry(fn, p, m, ExportedConfig(templates[fn]));
    }
    forall e | e in rs
      ensures Dispatch.Lookup(table, e.path, e.verb) == Some(e.fn) && e.fn in templates && e.config == ExportedConfig(templates[e.fn])
    {
      var i :| 0 <= i < |rs| && rs[i] == e;
      Dicts.FlattenMember(table, flat[i]);
    }
    Dicts.FlattenDistinct(table);
  }

  /** When no (path, method) repeats, the last route for a pair is its only route. */
  lemma LastForDistinct(routes: seq<Routing.RouteEntry>, i: nat)
    requires PairsDistinct(routes) && i < |routes|
    ensures LastFor(routes, routes[i].path, routes[i].verb) == Some(routes[i].fn)
  {
    var r := LastFor(routes, routes[i].path, routes[i].verb);
    var k :| 0 <= k < |routes| && Matches(routes[k], routes[i].path, routes[i].verb) && routes[k].fn == r.value &&
      forall j :: k < j < |routes| ==> !Matches(routes[j], routes[i].path, routes[i].verb);
    assert Matches(routes[i], routes[i].path, routes[i].verb);
    assert k == i;
  }

  /** Replaying an application's routes with the shared template store leaves every template as it is. */
  lemma ReplayKeepsTemplates(table: RouteTable, templates: Templates, defaultTags: seq<string>)
    requires Complete(table, templates)
    ensures RegisterTemplates(templates, AppRoutes(table, templates), defaultTags) == templates
  {
    var routes := AppRoutes(table, templates);
    AppRoutesExactlyOnce(table, templates);
    forall i | 0 <= i < |routes| ensures routes[i].fn in templates {
      assert routes[i] in routes;
    }
    RegisterTemplatesGrow(templates, routes, defaultTags);
  }

  /** Replaying an application's routes into an empty table creates exactly its paths. */
  lemma ReplayRebuildsPaths(table: RouteTable, templates: Templates)
    requires Complete(table, templates) && NoEmptyEndpoints(table)
    ensures RegisterTable(Dicts.Empty(), AppRoutes(table, templates)).entries.Keys == table.entries.Keys
  {
    var routes := AppRoutes(table, templates);
    AppRoutesExactlyOnce(table, templates);
    RegisterTablePaths(Dicts.Empty(), routes);
    forall p | p in table.entries ensures p in PathsOf(routes) {
      var m := table.entries[p].keys[0];
      var fn := table.entries[p].entries[m];
      assert Routing.RouteEntry(fn, p, m, ExportedConfig(templates[fn])) in routes;
    }
    forall p | p in PathsOf(routes) ensures p in table.entries {
      var i :| 0 <= i < |routes| && routes[i].path == p;
      assert routes[i] in routes;
    }
  }

  /** The last route replayed for a (path, method) of an application is the one its table holds. */
  lemma AppRoutesLastFor(table: RouteTable, templates: Templates, p: string, m: Method)
    requires Complete(table, templates)
    ensures LastFor(AppRoutes(table, templates), p, m) == Dispatch.Lookup(table, p, m)
  {
    if p in table.entries && m in table.entries[p].entries {
      LastForStored(table, templates, p, m);
    } else {
      LastForUnstored(table, templates, p, m);
    }
  }

  lemma LastForStored(table: RouteTable, templates: Templates, p: string, m: Method)
    requires Complete(table, templates)
    requires p in table.entries && m in table.entries[p].entries
    ensures LastFor(AppRoutes(table, templates), p, m) == Some(table.entries[p].entries[m])
  {
    var routes := AppRoutes(table, templates);
    AppRoutesExactlyOnce(table, templates);
    var fn := table.entries[p].entries[m];
    var e := Routing.RouteEntry(fn, p, m, ExportedConfig(templates[fn]));
    var i :| 0 <= i < |routes| && routes[i] == e;
    LastForDistinct(routes, i);
  }

  lemma LastForUnstored(table: RouteTable, templates: Templates, p: string, m: Method)
    requires Complete(table, templates)
    requires !(p in table.entries && m in table.entries[p].entries)
    ensures LastFor(AppRoutes(table, templates), p, m) == None
  {
    var routes := AppRoutes(table, templates);
    if LastFor(routes, p, m).Some? {
      AppRoutesExactlyOnce(table, templates);
      var i :| 0 <= i < |routes| && Matches(routes[i], p, m) && routes[i].fn == LastFor(routes, p, m).value;
      assert routes[i] in routes;
    }
  }

  /** Replaying an application's routes into an empty table sends every (path, method) to the same handler. */
  lemma ReplayRebuildsLookup(table: RouteTable, templates: Templates, p: string, m: Method)
    requires Complete(table, templates)
    ensures Dispatch.Lookup(RegisterTable(Dicts.Empty(), AppRoutes(table, templates)), p, m) == Dispatch.Lookup(table, p, m)
  {
    RegisterTableLookup(Dicts.Empty(), AppRoutes(table, templates), p, m);
    AppRoutesLastFor(table, templates, p, m);
  }

  /** `run` sees the table only through its set of paths and the handler lookup. */
  lemma RunThroughLookup(t1: RouteTable, t2: RouteTable, templates: Templates, headers: map<string, string>,
                         req: ParsedRequest, env: Dispatch.Env)
    requires t1.entries.Keys == t2.entries.Keys
    requires Dispatch.Lookup(t1, req.path, req.verb) == Dispatch.Lookup(t2, req.path, req.verb)
    ensures Dispatch.Run(t1, templates, headers, req, env) == Dispatch.Run(t2, templates, headers, req, env)
  {
  }

  /**
   * An application rebuilt by replaying another's routes (with the shared
   * template store) answers every request exactly as the original does.
   */
  lemma ReplayedAppRunsTheSame(table: RouteTable, templates: Templates, defaultTags: seq<string>,
                               headers: map<string, string>, req: ParsedRequest, env: Dispatch.Env)
    requires Complete(table, templates) && NoEmptyEndpoints(table)
    ensures var routes := AppRoutes(table, templates);
      Dispatch.Run(RegisterTable(Dicts.Empty(), routes), RegisterTemplates(templates, routes, defaultTags), headers, req, env) ==
      Dispatch.Run(table, templates, headers, req, env)
  {
    var routes := AppRoutes(table, templates);
    ReplayKeepsTemplates(table, templates, defaultTags);
    ReplayRebuildsPaths(table, templates);
    ReplayRebuildsLookup(table, templates, req.path, req.verb);
    RunThroughLookup(RegisterTable(Dicts.Empty(), routes), table, templates, headers, req, env);
  }

  // ---------------------------------------------------------------- registration seen from dispatch

  /**
   * After `add_route(fn, path, verb, config)` a request for `(path, verb)`
   * (other than OPTIONS) runs `fn` through the pipeline with a template, so
   * the missing-template error can no longer occur.
   */
  lemma AddedRouteDispatches(table: RouteTable, templates: Templates, headers: map<string, string>,
                             fn: Handler, verb: Method, config: RouteParams, defaultTags: seq<string>,
                             req: ParsedRequest, env: Dispatch.Env)
    requires req.verb == verb && verb != OPTIONS
    ensures var tp := Register(templates, fn, config, defaultTags);
      var res := Dispatch.RunEndpointHandler(fn, tp, req, env);
      && fn in tp
      && Dispatch.Run(Dicts.SetNested(table, req.path, verb, fn), tp, headers, req, env) ==
         (if res.Success? then res.value else Dispatch.ExceptionResponse(res.error))
  {
    LookupAfterSetNested(table, req.path, verb, fn, req.path, verb);
  }

  /**
   * `add_route` does not change the answer to any request for a known path
   * and a different (path, method).
   */
  lemma AddRouteKeepsOtherRoutes(table: RouteTable, templates: Templates, headers: map<string, string>,
                                 fn: Handler, path: string, verb: Method, config: RouteParams, defaultTags: seq<string>,
                                 req: ParsedRequest, env: Dispatch.Env)
    requires Complete(table, templates)
    requires req.path in table.entries && (req.path != path || req.verb != verb)
    ensures Dispatch.Run(Dicts.SetNested(table, path, verb, fn), Register(templates, fn, config, defaultTags), headers, req, env) ==
      Dispatch.Run(table, templates, headers, req, env)
  {
    var tp := Register(templates, fn, config, defaultTags);
    LookupAfterSetNested(table, path, verb, fn, req.path, req.verb);
    var l := Dispatch.Lookup(table, req.path, req.verb);
    if l.Some? {
      assert l.value in templates;
      SameTemplateSameHandling(l.value, tp, templates, req, env);
    }
  }

  /** `run_endpoint_handler` sees the template store only through the handler's own template. */
  lemma SameTemplateSameHandling(fn: Handler, t1: Templates, t2: Templates, req: ParsedRequest, env: Dispatch.Env)
    requires fn in t1 && fn in t2 && t1[fn] == t2[fn]
    ensures Dispatch.RunEndpointHandler(fn, t1, req, env) == Dispatch.RunEndpointHandler(fn, t2, req, env)
  {
  }

  // ---------------------------------------------------------------- the class

  class LambdaAPI {
    var routeTable: RouteTable
    /** Used only by the documentation generator; it does not affect dispatch. */
    const prefix: string
    const schemaId: Option<string>
    const corsConfig: Option<CorsConfig>
    var commonResponseHeaders: map<string, string>
    const defaultTags: seq<string>
    const registry: TemplateRegistry

    ghost predicate Valid()
      reads this, registry
    {
      Complete(routeTable, registry.templates) && NoEmptyEndpoints(routeTable)
    }

    /** `LambdaAPI(prefix="", schema_id=None, cors=None, tags=None)`, with the headers baked. */
    constructor(registry: TemplateRegistry, prefix: string := "", schemaId: Option<string> := None,
                cors: Option<CorsConfig> := None, tags: Option<seq<string>> := None)
      ensures this.registry == registry && this.prefix == prefix && this.schemaId == schemaId
      ensures corsConfig == cors && defaultTags == tags.GetOr([])
      ensures routeTable == Dicts.Empty()
      ensures commonResponseHeaders == Dispatch.BakedHeaders(cors)
      ensures Valid()
    {
      routeTable := Dicts.Empty();
      this.prefix := prefix;
      this.schemaId := schemaId;
      corsConfig := cors;
      commonResponseHeaders := map[];
      defaultTags := tags.GetOr([]);
      this.registry := registry;
      new;
      BakeHeaders();
    }

    /** `_bake_headers`: replaces the common headers only when a CORS configuration is present. */
    method BakeHeaders()
      modifies `commonResponseHeaders
      ensures corsConfig.Some? ==> commonResponseHeaders == Dispatch.BakedHeaders(corsConfig)
      ensures corsConfig.None? ==> commonResponseHeaders == old(commonResponseHeaders)
    {
      if corsConfig.Some? {
        commonResponseHeaders := Dispatch.BakedHeaders(corsConfig);
      }
    }

    /** `run`, on the application's current table, templates and headers. */
    method Run(req: ParsedRequest, env: Dispatch.Env) returns (r: Response)
      ensures r == Dispatch.Run(routeTable, registry.templates, commonResponseHeaders, req, env)
    {
      r := Dispatch.Run(routeTable, registry.templates, commonResponseHeaders, req, env);
    }

    /**
     * `add_route`: `route_table[path][method] = fn` (a new path is appended,
     * every other entry is kept), and a template is compiled for `fn` only if
     * it has none yet.
     */
    method AddRoute(fn: Handler, path: string, verb: Method, config: RouteParams) returns (r: Handler)
      modifies `routeTable, registry`templates
      ensures r == fn
      ensures routeTable == Dicts.SetNested(old(routeTable), path, verb, fn)
      ensures registry.templates == Register(old(registry.templates), fn, config, defaultTags)
      ensures old(Valid()) ==> Valid()
    {
      ghost var before := routeTable;
      ghost var known := registry.templates;
      var endpoint := Dicts.GetOr(routeTable, path, Dicts.Empty());
      routeTable := Dicts.Set(routeTable, path, Dicts.Set(endpoint, verb, fn));
      if fn !in registry.templates {
        registry.templates := registry.templates[fn := CompileTemplate(fn.signature, config, defaultTags)];
      }
      r := fn;
      if Complete(before, known) && NoEmptyEndpoints(before) {
        RegisterKeepsInvariant(before, known, fn, path, verb, config, defaultTags);
      }
    }

    /** `get_routes(root)`: the table's routes in order; `root` is ignored. */
    method GetRoutes(root: string) returns (rs: seq<Routing.RouteEntry>)
      requires Valid()
      ensures rs == AppRoutes(routeTable, registry.templates)
    {
      rs := ExportRoutes(routeTable, registry.templates);
    }

    /** Calls `add_route` for each route in order. */
    method Replay(routes: seq<Routing.RouteEntry>)
      modifies `routeTable, registry`templates
      ensures routeTable == RegisterTable(old(routeTable), routes)
      ensures registry.templates == RegisterTemplates(old(registry.templates), routes, defaultTags)
      ensures old(Valid()) ==> Valid()
    {
      var i := 0;
      while i < |routes|
        invariant 0 <= i <= |routes|
        invariant routeTable == RegisterTable(old(routeTable), routes[..i])
        invariant registry.templates == RegisterTemplates(old(registry.templates), routes[..i], defaultTags)
        invariant old(Valid()) ==> Valid()
      {
        var e := routes[i];
        assert routes[..i + 1][..i] == routes[..i];
        var _ := AddRoute(e.fn, e.path, e.verb, e.config);
        i := i + 1;
      }
      assert routes[..i] == routes;
    }

    /**
     * `add_router(router)` for a `Router`: replays exactly the routes
     * `router.get_routes("")` yields, the router's own routes first.
     */
    method AddRouter(router: Routing.Router) returns (ghost replayed: seq<Routing.RouteEntry>)
      requires router.Valid()
      modifies `routeTable, registry`templates
      ensures Routing.Elements(replayed) == router.AllRoutes("")
      ensures var own := Routing.OwnRoutes(router.base, router.routes);
        |own| <= |replayed| && replayed[..|own|] == own
      ensures routeTable == RegisterTable(old(routeTable), replayed)
      ensures registry.templates == RegisterTemplates(old(registry.templates), replayed, defaultTags)
      ensures old(Valid()) ==> Valid()
    {
      var routes := router.GetRoutes("");
      assert "" + router.base == router.base;
      replayed := routes;
      Replay(routes);
    }

    /**
     * `add_router(app)` for another application: replays that application's
     * table in order, with the configuration of each handler's template.
     */
    method AddApp(other: LambdaAPI) returns (ghost replayed: seq<Routing.RouteEntry>)
      requires other.Valid()
      modifies `routeTable, registry`templates
      ensures replayed == AppRoutes(old(other.routeTable), old(other.registry.templates))
      ensures routeTable == RegisterTable(old(routeTable), replayed)
      ensures registry.templates == RegisterTemplates(old(registry.templates), replayed, defaultTags)
      ensures old(Valid()) ==> Valid()
    {
      var routes := other.GetRoutes("");
      replayed := routes;
      Replay(routes);
    }
  }

  // ---------------------------------------------------------------- the loops of LambdaAPI.get_routes

  /** One more method of a path appends its exported tuple. */
  lemma ExportRowStep(templates: Templates, path: string, endpoint: Dicts.Dict<Method, Handler>, j: nat)
    requires j < |endpoint.keys|
    ensures forall m :: m in endpoint.keys[..j + 1] ==> m in endpoint.entries
    ensures var m := endpoint.keys[j];
      var fn := endpoint.entries[m];
      Exported(templates, Dicts.Row(path, endpoint, endpoint.keys[..j + 1])) ==
      Exported(templates, Dicts.Row(path, endpoint, endpoint.keys[..j])) + [Routing.RouteEntry(fn, path, m, ConfigFor(templates, fn))]
  {
    Dicts.RowKeysStep(path, endpoint, j);
    var m := endpoint.keys[j];
    ExportedAppend(templates, Dicts.Row(path, endpoint, endpoint.keys[..j]), [(path, m, endpoint.entries[m])]);
  }

  /** One more path of the table appends its exported row. */
  lemma ExportTableStep(templates: Templates, table: RouteTable, i: nat)
    requires i < |table.keys|
    ensures forall k :: k in table.keys[..i + 1] ==> k in table.entries
    ensures var path := table.keys[i];
      Exported(templates, Dicts.FlattenKeys(table, table.keys[..i + 1])) ==
      Exported(templates, Dicts.FlattenKeys(table, table.keys[..i])) +
      Exported(templates, Dicts.Row(path, table.entries[path], table.entries[path].keys))
  {
    Dicts.FlattenKeysStep(table, i);
    var path := table.keys[i];
    ExportedAppend(templates, Dicts.FlattenKeys(table, table.keys[..i]), Dicts.Row(path, table.entries[path], table.entries[path].keys));
  }

  /** The inner loop: the methods of one path, in order. */
  method ExportPath(templates: Templates, path: string, endpoint: Dicts.Dict<Method, Handler>, rs0: seq<Routing.RouteEntry>)
    returns (rs: seq<Routing.RouteEntry>)
    requires forall m :: m in endpoint.entries ==> endpoint.entries[m] in templates
    ensures rs == rs0 + Exported(templates, Dicts.Row(path, endpoint, endpoint.keys))
  {
    rs := rs0;
    var j := 0;
    while j < |endpoint.keys|
      invariant 0 <= j <= |endpoint.keys|
      invariant forall m :: m in endpoint.keys[..j] ==> m in endpoint.entries
      invariant rs == rs0 + Exported(templates, Dicts.Row(path, endpoint, endpoint.keys[..j]))
    {
      var m := endpoint.keys[j];
      var fn := endpoint.entries[m];
      ExportRowStep(templates, path, endpoint, j);
      rs := rs + [Routing.RouteEntry(fn, path, m, ExportedConfig(templates[fn]))];
      j := j + 1;
    }
    assert endpoint.keys[..j] == endpoint.keys;
  }

  /** The nested loops over the whole table. */
  method ExportRoutes(table: RouteTable, templates: Templates) returns (rs: seq<Routing.RouteEntry>)
    requires Complete(table, templates)
    ensures rs == AppRoutes(table, templates)
  {
    rs := [];
    var i := 0;
    while i < |table.keys|
      invariant 0 <= i <= |table.keys|
      invariant forall k :: k in table.keys[..i] ==> k in table.entries
      invariant rs == Exported(templates, Dicts.FlattenKeys(table, table.keys[..i]))
    {
      var path := table.keys[i];
      rs := ExportPath(templates, path, table.entries[path], rs);
      ExportTableStep(templates, table, i);
      i := i + 1;
    }
    assert table.keys[..i] == table.keys;
  }
}
