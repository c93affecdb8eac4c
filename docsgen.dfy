/**
 * OpenAPI 3 document assembly (`OpenApiGenerator`): one Operation Object per
 * (path, method) of an application's route table, under the
 * documentation-only prefix, with header and query Parameter Objects, a
 * Request Body Object and a response referring into `#/components/schemas`,
 * and a shared components map where later writes win.
 *
 * The JSON Schema documents the validation library produces for a model
 * class are abstract inputs, supplied by a `SchemaEnv`.
 */
module Docs {
  import opened Wrappers
  import opened Types
  import Dicts
  import Text
  import App

  // ---------------------------------------------------------------- inputs

  /** `Model.model_json_schema()`: title, properties in order, the `required` list and the `$defs` map. */
  datatype JsonSchema = JsonSchema(
    title: string,
    properties: Dicts.Dict<string, Json>,
    required: seq<string>,
    defs: Dicts.Dict<string, Json>)

  /**
   * What the generator asks the validation library: the schema of a model
   * class, the schema of a request model's `headers` field, and the
   * `auth_name` of a request model's `request_config` (None when there is no
   * configuration or no such entry).
   */
  datatype SchemaEnv = SchemaEnv(
    schemaOf: ModelType -> JsonSchema,
    headersOf: ModelType -> JsonSchema,
    authName: ModelType -> Option<string>)

  // ---------------------------------------------------------------- the document

  datatype Location = Header | Query

  /** A Parameter Object; `required` false stands for the absent key. */
  datatype Parameter = Parameter(location: Location, name: string, schema: Json, required: bool)

  /**
   * An Operation Object, its keys in the order the generator creates them;
   * `None` is an absent key. `security` holds the one `{auth_name: []}`
   * requirement, `requestBody` the `$ref` of the body schema and
   * `responses` the one (status, `$ref`) pair.
   */
  datatype Operation = Operation(
    description: Option<string>,
    parameters: Option<seq<Parameter>>,
    security: Option<string>,
    requestBody: Option<string>,
    responses: Option<(string, string)>,
    tags: Option<seq<string>>)

  const EmptyOperation := Operation(None, None, None, None, None, None)

  /** An entry of `components/schemas`: a model's own schema (its `$defs` popped), or one merged definition. */
  datatype Component =
    | ModelSchema(title: string, properties: Dicts.Dict<string, Json>, required: seq<string>)
    | Definition(schema: Json)

  type Paths = Dicts.Dict<string, Dicts.Dict<string, Operation>>
  type Components = Dicts.Dict<string, Component>

  /** The document before serialization: the optional `id`, `paths` and `components/schemas`. */
  datatype Document = Document(id: Option<string>, paths: Paths, components: Components)

  // ---------------------------------------------------------------- names

  /** The key of an operation under its path: the method's name in lower case. */
  function MethodKey(m: Method): string {
    match m
    case GET => "get"
    case POST => "post"
    case PUT => "put"
    case PATCH => "patch"
    case DELETE => "delete"
    case OPTIONS => "options"
  }

  /** The key is `method.lower()`, the method's string value lower-cased. */
  lemma MethodKeyIsLower(m: Method)
    ensures MethodKey(m) == Text.Lower(MethodName(m))
  {
    Text.LowerIs(MethodName(m), MethodKey(m));
  }

  /** Different methods are documented under different keys. */
  lemma MethodKeyInjective(a: Method, b: Method)
    ensures MethodKey(a) == MethodKey(b) <==> a == b
  {
  }

  /** A header's documented name: `k.replace("_", "-").title()`. */
  function HeaderName(k: string): (r: string)
    ensures |r| == |k| && '_' !in r
  {
    var dashed := Text.ReplaceChar(k, '_', '-');
    Text.TitleFromShape(dashed, false);
    Text.Title(dashed)
  }

  /**
   * A header's documented name character by character: an underscore becomes
   * a dash, a letter after a letter is lower-cased, any other letter (at the
   * start or after `_`, `-` or a digit) is upper-cased, and the rest is kept;
   * so `x_custom_header` is documented as `X-Custom-Header`.
   */
  lemma HeaderNameAt(k: string, i: int)
    requires 0 <= i < |k|
    ensures HeaderName(k)[i] == Text.TitleChar(if k[i] == '_' then '-' else k[i], i > 0 && Text.IsLetter(k[i - 1]))
  {
    var dashed := Text.ReplaceChar(k, '_', '-');
    Text.TitleFromAt(dashed, false);
    assert HeaderName(k) == Text.TitleFrom(dashed, false);
    if i > 0 {
      assert Text.IsLetter(dashed[i - 1]) == Text.IsLetter(k[i - 1]);
    }
  }

  /** Documenting a documented name again changes nothing. */
  lemma HeaderNameIdempotent(k: string)
    ensures HeaderName(HeaderName(k)) == HeaderName(k)
  {
    var h := HeaderName(k);
    var dashed := Text.ReplaceChar(k, '_', '-');
    assert Text.ReplaceChar(h, '_', '-') == h;
    Text.TitleFromIdempotent(dashed, false);
  }

  function RefTo(title: string): string {
    "#/components/schemas/" + title
  }

  // ---------------------------------------------------------------- descriptors

  /**
   * The header or query Parameter Objects for a schema's properties, in
   * property order: a header name is title-cased, and `required` is set
   * exactly for the properties the schema lists as required.
   */
  function Descriptors(loc: Location, s: JsonSchema): (r: seq<Parameter>)
    ensures |r| == |s.properties.keys|
    ensures forall i :: 0 <= i < |r| ==>
      var k := s.properties.keys[i];
      && r[i].location == loc
      && r[i].name == (if loc == Header then HeaderName(k) else k)
      && r[i].schema == s.properties.entries[k]
      && (r[i].required <==> k in s.required)
  {
    seq(|s.properties.keys|, i requires 0 <= i < |s.properties.keys| =>
      var k := s.properties.keys[i];
      Parameter(loc, if loc == Header then HeaderName(k) else k, s.properties.entries[k], k in s.required))
  }

  // ---------------------------------------------------------------- components

  /** `components.update(defs)` over the keys `ks` of `defs`, in order. */
  function UpdateKeys(c: Components, defs: Dicts.Dict<string, Json>, ks: seq<string>): (r: Components)
    requires forall k :: k in ks ==> k in defs.entries
    ensures forall k :: k in r.entries <==> k in c.entries || k in ks
    ensures forall k :: k in ks ==> r.entries[k] == Definition(defs.entries[k])
    ensures forall k :: k in c.entries && k !in ks ==> r.entries[k] == c.entries[k]
    decreases |ks|
  {
    if ks == [] then c
    else
      var init := ks[..|ks| - 1];
      var k := ks[|ks| - 1];
      InSnoc(ks);
      Dicts.Set(UpdateKeys(c, defs, init), k, Definition(defs.entries[k]))
  }

  function UpdateAll(c: Components, defs: Dicts.Dict<string, Json>): Components {
    UpdateKeys(c, defs, defs.keys)
  }

  /**
   * `components[title] = schema` then `components.update(schema.pop("$defs"))`:
   * the schema is stored without its definitions, which are merged after it
   * and so win over it on a name clash.
   */
  function StoreSchema(c: Components, s: JsonSchema): (r: Components)
    ensures forall k :: k in r.entries <==> k in c.entries || k == s.title || k in s.defs.entries
    ensures forall k :: k in s.defs.entries ==> r.entries[k] == Definition(s.defs.entries[k])
    ensures s.title !in s.defs.entries ==> r.entries[s.title] == ModelSchema(s.title, s.properties, s.required)
    ensures forall k :: k in c.entries && k != s.title && k !in s.defs.entries ==> r.entries[k] == c.entries[k]
  {
    UpdateAll(Dicts.Set(c, s.title, ModelSchema(s.title, s.properties, s.required)), s.defs)
  }

  function QueryDefs(c: Components, t: InvokeTemplate, env: SchemaEnv): Components {
    if t.params.Some? then UpdateAll(c, env.schemaOf(t.params.value).defs) else c
  }

  function BodyComponents(c: Components, t: InvokeTemplate, env: SchemaEnv): Components {
    if t.body.Some? then StoreSchema(c, env.schemaOf(t.body.value)) else c
  }

  function ResponseComponents(c: Components, t: InvokeTemplate, env: SchemaEnv): Components {
    if t.response.Some? then StoreSchema(c, env.schemaOf(t.response.value)) else c
  }

  /** The components after one endpoint: query definitions, then the body schema, then the response schema. */
  function EndpointComponents(c: Components, t: InvokeTemplate, env: SchemaEnv): Components {
    ResponseComponents(BodyComponents(QueryDefs(c, t, env), t, env), t, env)
  }

  /** An endpoint only adds or overwrites components; none disappears. */
  lemma EndpointComponentsGrow(c: Components, t: InvokeTemplate, env: SchemaEnv)
    ensures forall k :: k in c.entries ==> k in EndpointComponents(c, t, env).entries
    ensures t.response.Some? ==> env.schemaOf(t.response.value).title in EndpointComponents(c, t, env).entries
    ensures t.body.Some? ==> env.schemaOf(t.body.value).title in EndpointComponents(c, t, env).entries
  {
  }

  // ---------------------------------------------------------------- one operation

  /** The `auth_name` of a request model's configuration, when it is truthy. */
  function AuthOf(t: InvokeTemplate, env: SchemaEnv): Option<string> {
    if t.request.Some? && env.authName(t.request.value).Some? && env.authName(t.request.value).value != ""
    then env.authName(t.request.value) else None
  }

  // The stages of `_add_endpoint_to_schema`, each updating the operation.

  function Described(op: Operation, fn: Handler): Operation {
    if fn.doc != "" then op.(description := Some(fn.doc)) else op
  }

  function WithHeaders(op: Operation, t: InvokeTemplate, env: SchemaEnv): Operation {
    if t.request.None? then op
    else
      var op1 := op.(parameters := Some(op.parameters.GetOr([]) + Descriptors(Header, env.headersOf(t.request.value))));
      if AuthOf(t, env).Some? then op1.(security := AuthOf(t, env)) else op1
  }

  function WithQuery(op: Operation, t: InvokeTemplate, env: SchemaEnv): Operation {
    if t.params.None? then op
    else op.(parameters := Some(op.parameters.GetOr([]) + Descriptors(Query, env.schemaOf(t.params.value))))
  }

  function WithBody(op: Operation, t: InvokeTemplate, env: SchemaEnv): Operation {
    if t.body.None? then op else op.(requestBody := Some(RefTo(env.schemaOf(t.body.value).title)))
  }

  function WithResponse(op: Operation, t: InvokeTemplate, env: SchemaEnv): Operation {
    if t.response.None? then op
    else op.(responses := Some((Text.IntToString(t.status), RefTo(env.schemaOf(t.response.value).title))))
  }

  function WithTags(op: Operation, t: InvokeTemplate): Operation {
    if t.tags != [] then op.(tags := Some(t.tags)) else op
  }

  /**
   * The operation `_add_endpoint_to_schema` leaves at
   * `paths[prefix + path][method.lower()]`, starting from what was there.
   */
  function EndpointOperation(op: Operation, fn: Handler, t: InvokeTemplate, env: SchemaEnv): Operation {
    WithTags(WithResponse(WithBody(WithQuery(WithHeaders(Described(op, fn), t, env), t, env), t, env), t, env), t)
  }

  /**
   * A freshly documented endpoint: `responses` exists exactly when a
   * response type is declared and its one key parses back to the status;
   * `security`, `tags`, `description` and `requestBody` exist exactly when
   * their source is truthy; parameters are the header descriptors, then the
   * query descriptors.
   */
  lemma FreshOperation(fn: Handler, t: InvokeTemplate, env: SchemaEnv)
    ensures var r := EndpointOperation(EmptyOperation, fn, t, env);
      && (r.responses.Some? <==> t.response.Some?)
      && (r.responses.Some? ==>
            var code := r.responses.value.0;
            && |code| >= 1
            && (forall i :: (if code[0] == '-' then 1 else 0) <= i < |code| ==> '0' <= code[i] <= '9')
            && Text.ParseInt(code) == t.status)
      && (r.security.Some? <==> t.request.Some? && env.authName(t.request.value).Some? && env.authName(t.request.value).value != "")
      && (r.tags.Some? <==> t.tags != [])
      && (r.description.Some? <==> fn.doc != "")
      && (r.requestBody.Some? <==> t.body.Some?)
      && (r.parameters.Some? <==> t.request.Some? || t.params.Some?)
      && (r.parameters.Some? ==>
            (r.parameters.value ==
              (if t.request.Some? then Descriptors(Header, env.headersOf(t.request.value)) else []) +
              (if t.params.Some? then Descriptors(Query, env.schemaOf(t.params.value)) else [])))
      && (r.requestBody.Some? ==> r.requestBody.value == RefTo(env.schemaOf(t.body.value).title))
      && (r.tags.Some? ==> r.tags.value == t.tags)
  {
    FreshParameters(fn, t, env);
    FreshResponses(fn, t, env);
  }

  /** The parameters of a freshly documented endpoint: header descriptors, then query descriptors. */
  lemma FreshParameters(fn: Handler, t: InvokeTemplate, env: SchemaEnv)
    ensures var r := EndpointOperation(EmptyOperation, fn, t, env);
      && (r.parameters.Some? <==> t.request.Some? || t.params.Some?)
      && (r.parameters.Some? ==>
            (r.parameters.value ==
              (if t.request.Some? then Descriptors(Header, env.headersOf(t.request.value)) else []) +
              (if t.params.Some? then Descriptors(Query, env.schemaOf(t.params.value)) else [])))
  {
    var op1 := Described(EmptyOperation, fn);
    var op2 := WithHeaders(op1, t, env);
    if t.request.Some? {
      var h := Descriptors(Header, env.headersOf(t.request.value));
      assert op1.parameters.GetOr([]) + h == h;
    }
    assert op2.parameters == if t.request.Some? then Some(Descriptors(Header, env.headersOf(t.request.value))) else None;
    var op3 := WithQuery(op2, t, env);
    if t.params.Some? {
      var h := if t.request.Some? then Descriptors(Header, env.headersOf(t.request.value)) else [];
      assert op3.parameters == Some(h + Descriptors(Query, env.schemaOf(t.params.value)));
    } else {
      assert op3.parameters == op2.parameters;
      if t.request.Some? {
        assert Descriptors(Header, env.headersOf(t.request.value)) + [] == Descriptors(Header, env.headersOf(t.request.value));
      }
    }
    assert EndpointOperation(EmptyOperation, fn, t, env).parameters == op3.parameters;
  }

  /** The one response key of a freshly documented endpoint is the status in decimal. */
  lemma FreshResponses(fn: Handler, t: InvokeTemplate, env: SchemaEnv)
    ensures var r := EndpointOperation(EmptyOperation, fn, t, env);
      && (r.responses.Some? <==> t.response.Some?)
      && (r.responses.Some? ==>
            var code := r.responses.value.0;
            && |code| >= 1
            && (forall i :: (if code[0] == '-' then 1 else 0) <= i < |code| ==> '0' <= code[i] <= '9')
            && Text.ParseInt(code) == t.status)
  {
    if t.response.Some? {
      Text.IntToStringRoundTrip(t.status);
    }
  }

  // ---------------------------------------------------------------- the folds get_schema performs

  datatype Draft = Draft(paths: Paths, components: Components)

  const EmptyDraft: Draft := Draft(Dicts.Empty(), Dicts.Empty())

  function OperationAt(paths: Paths, full: string, key: string): Operation {
    if full in paths.entries && key in paths.entries[full].entries then paths.entries[full].entries[key] else EmptyOperation
  }

  /** One call of `_add_endpoint_to_schema`. */
  function Step(d: Draft, prefix: string, path: string, m: Method, fn: Handler, t: InvokeTemplate, env: SchemaEnv): Draft {
    var full := prefix + path;
    var key := MethodKey(m);
    Draft(Dicts.SetNested(d.paths, full, key, EndpointOperation(OperationAt(d.paths, full, key), fn, t, env)),
          EndpointComponents(d.components, t, env))
  }

  /** The inner loop: the methods `ms` of one path, in order. */
  function RowFold(d: Draft, prefix: string, path: string, endpoint: Dicts.Dict<Method, Handler>, ms: seq<Method>,
                   templates: Templates, env: SchemaEnv): Draft
    requires forall m :: m in ms ==> m in endpoint.entries
    requires forall m :: m in endpoint.entries ==> endpoint.entries[m] in templates
    decreases |ms|
  {
    if ms == [] then d
    else
      var m := ms[|ms| - 1];
      var fn := endpoint.entries[m];
      Step(RowFold(d, prefix, path, endpoint, ms[..|ms| - 1], templates, env), prefix, path, m, fn, templates[fn], env)
  }

  /** The outer loop: the paths `ks` of the table, in order. */
  function TableFold(d: Draft, prefix: string, table: RouteTable, ks: seq<string>, templates: Templates, env: SchemaEnv): Draft
    requires forall k :: k in ks ==> k in table.entries
    requires App.Complete(table, templates)
    decreases |ks|
  {
    if ks == [] then d
    else
      var p := ks[|ks| - 1];
      var endpoint := table.entries[p];
      RowFold(TableFold(d, prefix, table, ks[..|ks| - 1], templates, env), prefix, p, endpoint, endpoint.keys, templates, env)
  }

  /** The members of a non-empty sequence: those of its front, and its last element. */
  lemma InSnoc<T>(s: seq<T>)
    requires |s| > 0
    ensures forall x :: x in s <==> x in s[..|s| - 1] || x == s[|s| - 1]
  {
    assert s == s[..|s| - 1] + [s[|s| - 1]];
  }

  lemma PrefixSnoc<T>(s: seq<T>, i: int)
    requires 0 <= i < |s|
    ensures s[..i + 1][..i] == s[..i] && s[..i + 1][i] == s[i]
  {
  }

  lemma RowFoldSnoc(d: Draft, prefix: string, path: string, endpoint: Dicts.Dict<Method, Handler>, ms: seq<Method>,
                    templates: Templates, env: SchemaEnv)
    requires |ms| > 0
    requires forall m :: m in ms ==> m in endpoint.entries
    requires forall m :: m in endpoint.entries ==> endpoint.entries[m] in templates
    ensures var m := ms[|ms| - 1];
      RowFold(d, prefix, path, endpoint, ms, templates, env) ==
      Step(RowFold(d, prefix, path, endpoint, ms[..|ms| - 1], templates, env), prefix, path, m, endpoint.entries[m], templates[endpoint.entries[m]], env)
  {
  }

  lemma TableFoldSnoc(d: Draft, prefix: string, table: RouteTable, ks: seq<string>, templates: Templates, env: SchemaEnv)
    requires |ks| > 0
    requires forall k :: k in ks ==> k in table.entries
    requires App.Complete(table, templates)
    ensures var p := ks[|ks| - 1];
      TableFold(d, prefix, table, ks, templates, env) ==
      RowFold(TableFold(d, prefix, table, ks[..|ks| - 1], templates, env), prefix, p, table.entries[p], table.entries[p].keys, templates, env)
  {
  }

  /** One more method of the endpoint's key order: one more `Step`. */
  lemma RowStep(d: Draft, prefix: string, path: string, endpoint: Dicts.Dict<Method, Handler>, j: nat,
                templates: Templates, env: SchemaEnv)
    requires j < |endpoint.keys|
    requires forall m :: m in endpoint.entries ==> endpoint.entries[m] in templates
    ensures forall m :: m in endpoint.keys[..j + 1] ==> m in endpoint.entries
    ensures var m := endpoint.keys[j];
      RowFold(d, prefix, path, endpoint, endpoint.keys[..j + 1], templates, env) ==
      Step(RowFold(d, prefix, path, endpoint, endpoint.keys[..j], templates, env), prefix, path, m, endpoint.entries[m], templates[endpoint.entries[m]], env)
  {
    Dicts.KeysInEntries(endpoint, j + 1);
    PrefixSnoc(endpoint.keys, j);
    RowFoldSnoc(d, prefix, path, endpoint, endpoint.keys[..j + 1], templates, env);
  }

  /** One more path of the table's key order: one more row fold. */
  lemma TableStep(prefix: string, table: RouteTable, i: nat, templates: Templates, env: SchemaEnv)
    requires i < |table.keys|
    requires App.Complete(table, templates)
    ensures forall k :: k in table.keys[..i + 1] ==> k in table.entries
    ensures var p := table.keys[i];
      TableFold(EmptyDraft, prefix, table, table.keys[..i + 1], templates, env) ==
      RowFold(TableFold(EmptyDraft, prefix, table, table.keys[..i], templates, env), prefix, p, table.entries[p], table.entries[p].keys, templates, env)
  {
    Dicts.KeysInEntries(table, i + 1);
    PrefixSnoc(table.keys, i);
    TableFoldSnoc(EmptyDraft, prefix, table, table.keys[..i + 1], templates, env);
  }

  /** Python truthiness of the optional schema id. */
  predicate Truthy(id: Option<string>) {
    id.Some? && id.value != ""
  }

  /** The document `get_schema` returns (before the `$defs` text rewrite). */
  function DocumentFor(prefix: string, schemaId: Option<string>, table: RouteTable, templates: Templates, env: SchemaEnv): (r: Document)
    requires App.Complete(table, templates)
    ensures r.id.Some? <==> Truthy(schemaId)
    ensures r.id.Some? ==> r.id == schemaId
  {
    var d := TableFold(EmptyDraft, prefix, table, table.keys, templates, env);
    Document(if Truthy(schemaId) then schemaId else None, d.paths, d.components)
  }

  // ---------------------------------------------------------------- the shape of the document

  /** The keys `method.lower()` of the methods `ms`, in order. */
  function MethodKeys(ms: seq<Method>): (r: seq<string>)
    ensures |r| == |ms| && forall i :: 0 <= i < |ms| ==> r[i] == MethodKey(ms[i])
  {
    seq(|ms|, i requires 0 <= i < |ms| => MethodKey(ms[i]))
  }

  /** The keys `prefix + path` of the paths `ks`, in order. */
  function PrefixedPaths(prefix: string, ks: seq<string>): (r: seq<string>)
    ensures |r| == |ks| && forall i :: 0 <= i < |ks| ==> r[i] == prefix + ks[i]
  {
    seq(|ks|, i requires 0 <= i < |ks| => prefix + ks[i])
  }

  /**
   * One path's entry of `paths` documents the methods `ms` of `endpoint` from
   * scratch: its keys are their lowered names in order, and under each is
   * the operation documented for the method's handler and template.
   */
  ghost predicate RowDocumented(row: Dicts.Dict<string, Operation>, endpoint: Dicts.Dict<Method, Handler>, ms: seq<Method>,
                                templates: Templates, env: SchemaEnv)
    requires forall m :: m in ms ==> m in endpoint.entries
    requires forall m :: m in endpoint.entries ==> endpoint.entries[m] in templates
  {
    && row.keys == MethodKeys(ms)
    && forall i :: 0 <= i < |ms| ==>
         row.entries[MethodKey(ms[i])] == EndpointOperation(EmptyOperation, endpoint.entries[ms[i]], templates[endpoint.entries[ms[i]]], env)
  }

  /** The inner fold touches only the entry `prefix + path`, which it creates when there is a method to document. */
  lemma {:induction false} RowFoldOthers(d: Draft, prefix: string, path: string, endpoint: Dicts.Dict<Method, Handler>, ms: seq<Method>,
                                         templates: Templates, env: SchemaEnv)
    requires forall m :: m in ms ==> m in endpoint.entries
    requires forall m :: m in endpoint.entries ==> endpoint.entries[m] in templates
    ensures var r := RowFold(d, prefix, path, endpoint, ms, templates, env);
      && (ms == [] ==> r.paths == d.paths)
      && (ms != [] ==> r.paths.keys == if prefix + path in d.paths.entries then d.paths.keys else d.paths.keys + [prefix + path])
      && (forall q :: q in d.paths.entries && q != prefix + path ==> q in r.paths.entries && r.paths.entries[q] == d.paths.entries[q])
    decreases |ms|
  {
    if ms != [] {
      var init := ms[..|ms| - 1];
      var m := ms[|ms| - 1];
      InSnoc(ms);
      RowFoldOthers(d, prefix, path, endpoint, init, templates, env);
      var before := RowFold(d, prefix, path, endpoint, init, templates, env);
      var fn := endpoint.entries[m];
      var full := prefix + path;
      var key := MethodKey(m);
      Dicts.SetNestedRow(before.paths, full, key, EndpointOperation(OperationAt(before.paths, full, key), fn, templates[fn], env));
    }
  }

  /** Documenting distinct methods under a path not yet in `paths` documents each from scratch. */
  lemma {:induction false} RowFoldRow(d: Draft, prefix: string, path: string, endpoint: Dicts.Dict<Method, Handler>, ms: seq<Method>,
                                      templates: Templates, env: SchemaEnv)
    requires forall m :: m in ms ==> m in endpoint.entries
    requires forall m :: m in endpoint.entries ==> endpoint.entries[m] in templates
    requires forall i, j :: 0 <= i < j < |ms| ==> ms[i] != ms[j]
    requires prefix + path !in d.paths.entries
    ensures var r := RowFold(d, prefix, path, endpoint, ms, templates, env);
      ms != [] ==> prefix + path in r.paths.entries && RowDocumented(r.paths.entries[prefix + path], endpoint, ms, templates, env)
    decreases |ms|
  {
    if ms != [] {
      var init := ms[..|ms| - 1];
      var m := ms[|ms| - 1];
      InSnoc(ms);
      RowFoldOthers(d, prefix, path, endpoint, init, templates, env);
      RowFoldRow(d, prefix, path, endpoint, init, templates, env);
      var before := RowFold(d, prefix, path, endpoint, init, templates, env);
      var fn := endpoint.entries[m];
      var full := prefix + path;
      var key := MethodKey(m);
      var old_row := Dicts.GetOr(before.paths, full, Dicts.Empty());
      assert old_row.keys == MethodKeys(init);
      NewMethodKey(ms);
      assert key !in old_row.entries;
      assert OperationAt(before.paths, full, key) == EmptyOperation;
      var op := EndpointOperation(EmptyOperation, fn, templates[fn], env);
      Dicts.SetNestedRow(before.paths, full, key, op);
      var r := RowFold(d, prefix, path, endpoint, ms, templates, env);
      assert r.paths == Dicts.SetNested(before.paths, full, key, op);
      var row := r.paths.entries[full];
      assert row.keys == old_row.keys + [key];
      MethodKeysSnoc(ms);
      assert init != [] ==> full in before.paths.entries && old_row == before.paths.entries[full];
      RowSnoc(old_row, row, endpoint, ms, templates, env);
      assert RowDocumented(row, endpoint, ms, templates, env);
    }
  }

  /** Documenting one more method, from scratch, under a documented row. */
  lemma RowSnoc(row0: Dicts.Dict<string, Operation>, row: Dicts.Dict<string, Operation>, endpoint: Dicts.Dict<Method, Handler>,
                ms: seq<Method>, templates: Templates, env: SchemaEnv)
    requires |ms| > 0
    requires forall m :: m in ms ==> m in endpoint.entries
    requires forall m :: m in endpoint.entries ==> endpoint.entries[m] in templates
    requires forall i, j :: 0 <= i < j < |ms| ==> ms[i] != ms[j]
    requires |ms| > 1 ==> RowDocumented(row0, endpoint, ms[..|ms| - 1], templates, env)
    requires row.keys == MethodKeys(ms)
    requires var m := ms[|ms| - 1];
      row.entries == row0.entries[MethodKey(m) := EndpointOperation(EmptyOperation, endpoint.entries[m], templates[endpoint.entries[m]], env)]
    ensures RowDocumented(row, endpoint, ms, templates, env)
  {
    var init := ms[..|ms| - 1];
    var m := ms[|ms| - 1];
    forall i | 0 <= i < |ms|
      ensures row.entries[MethodKey(ms[i])] == EndpointOperation(EmptyOperation, endpoint.entries[ms[i]], templates[endpoint.entries[ms[i]]], env)
    {
      if i < |init| {
        assert ms[i] == init[i] && ms[i] != m;
        MethodKeyInjective(ms[i], m);
      }
    }
  }

  lemma MethodKeysSnoc(ms: seq<Method>)
    requires |ms| > 0
    ensures MethodKeys(ms) == MethodKeys(ms[..|ms| - 1]) + [MethodKey(ms[|ms| - 1])]
  {
    assert MethodKeys(ms)[..|ms| - 1] == MethodKeys(ms[..|ms| - 1]);
  }

  /** The last of distinct methods has a key none of the others has. */
  lemma NewMethodKey(ms: seq<Method>)
    requires |ms| > 0
    requires forall i, j :: 0 <= i < j < |ms| ==> ms[i] != ms[j]
    ensures MethodKey(ms[|ms| - 1]) !in MethodKeys(ms[..|ms| - 1])
  {
  }

  /**
   * `paths` documents the paths `ks` of the table from scratch: its keys are
   * `prefix + path` for each, in order, and each entry documents every
   * method of the path in the endpoint's order.
   */
  ghost predicate TableDocumented(paths: Paths, prefix: string, table: RouteTable, ks: seq<string>, templates: Templates, env: SchemaEnv)
    requires forall k :: k in ks ==> k in table.entries
    requires App.Complete(table, templates)
  {
    && paths.keys == PrefixedPaths(prefix, ks)
    && forall i :: 0 <= i < |ks| ==>
         RowDocumented(paths.entries[prefix + ks[i]], table.entries[ks[i]], table.entries[ks[i]].keys, templates, env)
  }

  lemma {:induction false} TableFoldDocuments(prefix: string, table: RouteTable, ks: seq<string>, templates: Templates, env: SchemaEnv)
    requires forall k :: k in ks ==> k in table.entries
    requires forall i, j :: 0 <= i < j < |ks| ==> ks[i] != ks[j]
    requires App.Complete(table, templates) && App.NoEmptyEndpoints(table)
    ensures TableDocumented(TableFold(EmptyDraft, prefix, table, ks, templates, env).paths, prefix, table, ks, templates, env)
    decreases |ks|
  {
    if ks != [] {
      var init := ks[..|ks| - 1];
      var p := ks[|ks| - 1];
      InSnoc(ks);
      TableFoldDocuments(prefix, table, init, templates, env);
      var before := TableFold(EmptyDraft, prefix, table, init, templates, env);
      var endpoint := table.entries[p];
      NewPrefixedPath(prefix, ks);
      assert prefix + p !in before.paths.entries;
      RowFoldOthers(before, prefix, p, endpoint, endpoint.keys, templates, env);
      RowFoldRow(before, prefix, p, endpoint, endpoint.keys, templates, env);
      var r := TableFold(EmptyDraft, prefix, table, ks, templates, env);
      assert r.paths.keys == before.paths.keys + [prefix + p];
      PrefixedPathsSnoc(prefix, ks);
      TableSnoc(before.paths, r.paths, prefix, table, ks, templates, env);
    }
  }

  /** Documenting one more path, from scratch, after documented ones. */
  lemma TableSnoc(paths0: Paths, paths: Paths, prefix: string, table: RouteTable, ks: seq<string>, templates: Templates, env: SchemaEnv)
    requires |ks| > 0
    requires forall k :: k in ks ==> k in table.entries
    requires App.Complete(table, templates)
    requires TableDocumented(paths0, prefix, table, ks[..|ks| - 1], templates, env)
    requires paths.keys == PrefixedPaths(prefix, ks)
    requires forall q :: q in paths0.entries && q != prefix + ks[|ks| - 1] ==> q in paths.entries && paths.entries[q] == paths0.entries[q]
    requires var p := ks[|ks| - 1];
      prefix + p in paths.entries && RowDocumented(paths.entries[prefix + p], table.entries[p], table.entries[p].keys, templates, env)
    requires forall i, j :: 0 <= i < j < |ks| ==> ks[i] != ks[j]
    ensures TableDocumented(paths, prefix, table, ks, templates, env)
  {
    var init := ks[..|ks| - 1];
    var p := ks[|ks| - 1];
    forall i | 0 <= i < |ks|
      ensures RowDocumented(paths.entries[prefix + ks[i]], table.entries[ks[i]], table.entries[ks[i]].keys, templates, env)
    {
      if i < |init| {
        assert ks[i] == init[i];
        assert paths0.keys[i] == prefix + init[i];
      }
    }
  }

  lemma PrefixedPathsSnoc(prefix: string, ks: seq<string>)
    requires |ks| > 0
    ensures PrefixedPaths(prefix, ks) == PrefixedPaths(prefix, ks[..|ks| - 1]) + [prefix + ks[|ks| - 1]]
  {
    assert PrefixedPaths(prefix, ks)[..|ks| - 1] == PrefixedPaths(prefix, ks[..|ks| - 1]);
  }

  /** The last of distinct paths has a documented key none of the others has. */
  lemma NewPrefixedPath(prefix: string, ks: seq<string>)
    requires |ks| > 0
    requires forall i, j :: 0 <= i < j < |ks| ==> ks[i] != ks[j]
    ensures prefix + ks[|ks| - 1] !in PrefixedPaths(prefix, ks[..|ks| - 1])
  {
    var keys := PrefixedPaths(prefix, ks[..|ks| - 1]);
    if prefix + ks[|ks| - 1] in keys {
      var i :| 0 <= i < |keys| && keys[i] == prefix + ks[|ks| - 1];
      Text.ConcatInjective(prefix, ks[i], ks[|ks| - 1]);
      assert false;
    }
  }

  /**
   * The document's `paths`: exactly the keys `prefix + path` of the table's
   * paths, in table order; under each, exactly the lowered names of its
   * methods, in the endpoint's order; and at each the operation documented
   * from scratch for its handler and template.
   */
  lemma DocumentPaths(prefix: string, schemaId: Option<string>, table: RouteTable, templates: Templates, env: SchemaEnv)
    requires App.Complete(table, templates) && App.NoEmptyEndpoints(table)
    ensures TableDocumented(DocumentFor(prefix, schemaId, table, templates, env).paths, prefix, table, table.keys, templates, env)
  {
    TableFoldDocuments(prefix, table, table.keys, templates, env);
  }

  /** The body and response references of an endpoint's operation name entries of `components/schemas`. */
  ghost predicate RefsResolve(c: Components, t: InvokeTemplate, env: SchemaEnv) {
    && (t.body.Some? ==> env.schemaOf(t.body.value).title in c.entries)
    && (t.response.Some? ==> env.schemaOf(t.response.value).title in c.entries)
  }

  lemma {:induction false} RowFoldComponents(d: Draft, prefix: string, path: string, endpoint: Dicts.Dict<Method, Handler>, ms: seq<Method>,
                                             templates: Templates, env: SchemaEnv)
    requires forall m :: m in ms ==> m in endpoint.entries
    requires forall m :: m in endpoint.entries ==> endpoint.entries[m] in templates
    ensures var r := RowFold(d, prefix, path, endpoint, ms, templates, env);
      && d.components.entries.Keys <= r.components.entries.Keys
      && forall m :: m in ms ==> RefsResolve(r.components, templates[endpoint.entries[m]], env)
    decreases |ms|
  {
    if ms != [] {
      var init := ms[..|ms| - 1];
      var m := ms[|ms| - 1];
      InSnoc(ms);
      RowFoldComponents(d, prefix, path, endpoint, init, templates, env);
      var before := RowFold(d, prefix, path, endpoint, init, templates, env);
      RowFoldLastComponents(d, prefix, path, endpoint, ms, templates, env);
      EndpointComponentsGrow(before.components, templates[endpoint.entries[m]], env);
    }
  }

  /** The inner fold's last step adds the last method's components. */
  lemma RowFoldLastComponents(d: Draft, prefix: string, path: string, endpoint: Dicts.Dict<Method, Handler>, ms: seq<Method>,
                              templates: Templates, env: SchemaEnv)
    requires |ms| > 0
    requires forall m :: m in ms ==> m in endpoint.entries
    requires forall m :: m in endpoint.entries ==> endpoint.entries[m] in templates
    ensures RowFold(d, prefix, path, endpoint, ms, templates, env).components ==
      EndpointComponents(RowFold(d, prefix, path, endpoint, ms[..|ms| - 1], templates, env).components,
                         templates[endpoint.entries[ms[|ms| - 1]]], env)
  {
  }

  lemma {:induction false} TableFoldComponents(prefix: string, table: RouteTable, ks: seq<string>, templates: Templates, env: SchemaEnv)
    requires forall k :: k in ks ==> k in table.entries
    requires App.Complete(table, templates)
    ensures var r := TableFold(EmptyDraft, prefix, table, ks, templates, env);
      forall p, m :: p in ks && m in table.entries[p].entries ==> RefsResolve(r.components, templates[table.entries[p].entries[m]], env)
    decreases |ks|
  {
    if ks != [] {
      var init := ks[..|ks| - 1];
      var p := ks[|ks| - 1];
      InSnoc(ks);
      TableFoldComponents(prefix, table, init, templates, env);
      var before := TableFold(EmptyDraft, prefix, table, init, templates, env);
      var endpoint := table.entries[p];
      RowFoldComponents(before, prefix, p, endpoint, endpoint.keys, templates, env);
    }
  }

  /**
   * Every `$ref` the document's operations make into `components/schemas`
   * resolves: the body and response schema titles of each documented
   * endpoint are keys of the components map.
   */
  lemma DocumentRefsResolve(prefix: string, schemaId: Option<string>, table: RouteTable, templates: Templates, env: SchemaEnv)
    requires App.Complete(table, templates)
    ensures var doc := DocumentFor(prefix, schemaId, table, templates, env);
      forall p, m :: p in table.entries && m in table.entries[p].entries ==>
        RefsResolve(doc.components, templates[table.entries[p].entries[m]], env)
  {
    TableFoldComponents(prefix, table, table.keys, templates, env);
  }

  // ---------------------------------------------------------------- the generator

  /** The `schema` dict that `get_schema` fills in place. */
  class SchemaDraft {
    var paths: Paths
    var components: Components

    constructor()
      ensures paths == Dicts.Empty() && components == Dicts.Empty()
    {
      paths := Dicts.Empty();
      components := Dicts.Empty();
    }
  }

  class OpenApiGenerator {
    const schemaId: Option<string>
    const prefix: string
    /** The route table is shared with the application, so later `add_route` calls are seen. */
    const app: App.LambdaAPI

    constructor(app: App.LambdaAPI)
      ensures schemaId == app.schemaId && prefix == app.prefix && this.app == app
    {
      schemaId := app.schemaId;
      prefix := app.prefix;
      this.app := app;
    }

    /** `_add_endpoint_to_schema`: documents one (path, method) into `schema`. */
    method AddEndpointToSchema(schema: SchemaDraft, path: string, verb: Method, fn: Handler, env: SchemaEnv)
      requires fn in app.registry.templates
      modifies schema
      ensures Draft(schema.paths, schema.components) ==
        Step(Draft(old(schema.paths), old(schema.components)), prefix, path, verb, fn, app.registry.templates[fn], env)
    {
      var t := app.registry.templates[fn];
      var full := prefix + path;
      var key := MethodKey(verb);
      var op := OperationAt(schema.paths, full, key);
      op := FillOperation(op, fn, t, env);
      AddComponents(schema, t, env);
      schema.paths := Dicts.SetNested(schema.paths, full, key, op);
    }

    /** The inner loop of `get_schema`: documents every method of one path, in the endpoint's order. */
    method AddPathToSchema(schema: SchemaDraft, path: string, endpoint: Dicts.Dict<Method, Handler>, env: SchemaEnv)
      requires forall m :: m in endpoint.entries ==> endpoint.entries[m] in app.registry.templates
      modifies schema
      ensures Draft(schema.paths, schema.components) ==
        RowFold(Draft(old(schema.paths), old(schema.components)), prefix, path, endpoint, endpoint.keys, app.registry.templates, env)
    {
      ghost var start := Draft(schema.paths, schema.components);
      ghost var templates := app.registry.templates;
      var j := 0;
      while j < |endpoint.keys|
        invariant 0 <= j <= |endpoint.keys|
        invariant forall m :: m in endpoint.keys[..j] ==> m in endpoint.entries
        invariant Draft(schema.paths, schema.components) == RowFold(start, prefix, path, endpoint, endpoint.keys[..j], templates, env)
      {
        var m := endpoint.keys[j];
        AddEndpointToSchema(schema, path, m, endpoint.entries[m], env);
        RowStep(start, prefix, path, endpoint, j, templates, env);
        j := j + 1;
      }
      assert endpoint.keys[..j] == endpoint.keys;
    }

    /** `get_schema`: documents every (path, method) of the table, in table order. */
    method GetSchema(env: SchemaEnv) returns (doc: Document)
      requires app.Valid()
      ensures doc == DocumentFor(prefix, schemaId, app.routeTable, app.registry.templates, env)
    {
      var schema := new SchemaDraft();
      var table := app.routeTable;
      ghost var templates := app.registry.templates;
      assert App.Complete(table, templates);
      var i := 0;
      while i < |table.keys|
        invariant 0 <= i <= |table.keys|
        invariant app.registry.templates == templates
        invariant forall k :: k in table.keys[..i] ==> k in table.entries
        invariant Draft(schema.paths, schema.components) == TableFold(EmptyDraft, prefix, table, table.keys[..i], templates, env)
      {
        var path := table.keys[i];
        AddPathToSchema(schema, path, table.entries[path], env);
        TableStep(prefix, table, i, templates, env);
        i := i + 1;
      }
      assert table.keys[..i] == table.keys;
      doc := Document(if Truthy(schemaId) then schemaId else None, schema.paths, schema.components);
    }
  }

  /** The updates `_add_endpoint_to_schema` makes to the operation, in order. */
  method FillOperation(op0: Operation, fn: Handler, t: InvokeTemplate, env: SchemaEnv) returns (op: Operation)
    ensures op == EndpointOperation(op0, fn, t, env)
  {
    op := op0;
    if fn.doc != "" {
      op := op.(description := Some(fn.doc));
    }
    ghost var op1 := op;

    if t.request.Some? {
      var headers := env.headersOf(t.request.value);
      op := op.(parameters := Some(op.parameters.GetOr([]) + Descriptors(Header, headers)));
      var auth := env.authName(t.request.value);
      if auth.Some? && auth.value != "" {
        op := op.(security := Some(auth.value));
      }
    }
    assert op == WithHeaders(op1, t, env);
    ghost var op2 := op;

    if t.params.Some? {
      op := op.(parameters := Some(op.parameters.GetOr([]) + Descriptors(Query, env.schemaOf(t.params.value))));
    }
    ghost var op3 := op;

    if t.body.Some? {
      op := op.(requestBody := Some(RefTo(env.schemaOf(t.body.value).title)));
    }
    ghost var op4 := op;

    if t.response.Some? {
      op := op.(responses := Some((Text.IntToString(t.status), RefTo(env.schemaOf(t.response.value).title))));
    }
    ghost var op5 := op;

    if t.tags != [] {
      op := op.(tags := Some(t.tags));
    }
    assert op == WithTags(WithResponse(WithBody(WithQuery(op2, t, env), t, env), t, env), t);
  }

  /** The updates `_add_endpoint_to_schema` makes to `components/schemas`, in order. */
  method AddComponents(schema: SchemaDraft, t: InvokeTemplate, env: SchemaEnv)
    modifies schema`components
    ensures schema.components == EndpointComponents(old(schema.components), t, env)
  {
    if t.params.Some? {
      schema.components := UpdateAll(schema.components, env.schemaOf(t.params.value).defs);
    }
    if t.body.Some? {
      schema.components := StoreSchema(schema.components, env.schemaOf(t.body.value));
    }
    if t.response.Some? {
      schema.components := StoreSchema(schema.components, env.schemaOf(t.response.value));
    }
  }

  /**
   * `get_schema` is deterministic: two calls on one generator, and a call on
   * a fresh generator over the same application, give equal documents.
   */
  method SchemaIsDeterministic(app: App.LambdaAPI, env: SchemaEnv) returns (first: Document, again: Document, other: Document)
    requires app.Valid()
    ensures first == again && again == other
  {
    var g := new OpenApiGenerator(app);
    first := g.GetSchema(env);
    again := g.GetSchema(env);
    var h := new OpenApiGenerator(app);
    other := h.GetSchema(env);
  }
}
