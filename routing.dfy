/**
 * `Router`: a composable unit holding its own path -> method -> (handler,
 * config) table, a base prefix and a set of nested routers, flattened by
 * `get_routes` with accumulated prefixes.
 */
module Routing {
  import opened Wrappers
  import opened Types
  import Dicts
  import Text

  /** What a router stores for one (path, method): `(fn, config)`. */
  datatype RouteTarget = RouteTarget(fn: Handler, config: RouteParams)

  /** One `(fn, full_path, method, config)` tuple yielded by `get_routes`. */
  datatype RouteEntry = RouteEntry(fn: Handler, path: string, verb: Method, config: RouteParams)

  type RouterRoutes = Dicts.Dict<string, Dicts.Dict<Method, RouteTarget>>

  /** Nested (path, method, target) items as route tuples under the full prefix `prefix`. */
  function Prefixed(prefix: string, items: seq<(string, Method, RouteTarget)>): (r: seq<RouteEntry>)
    ensures |r| == |items|
    ensures forall i :: 0 <= i < |r| ==>
      r[i] == RouteEntry(items[i].2.fn, prefix + items[i].0, items[i].1, items[i].2.config)
  {
    seq(|items|, i requires 0 <= i < |items| => RouteEntry(items[i].2.fn, prefix + items[i].0, items[i].1, items[i].2.config))
  }

  lemma PrefixedSnoc(prefix: string, items: seq<(string, Method, RouteTarget)>, x: (string, Method, RouteTarget))
    ensures Prefixed(prefix, items + [x]) == Prefixed(prefix, items) + [RouteEntry(x.2.fn, prefix + x.0, x.1, x.2.config)]
  {
    var a := Prefixed(prefix, items + [x]);
    var b := Prefixed(prefix, items) + [RouteEntry(x.2.fn, prefix + x.0, x.1, x.2.config)];
    assert |a| == |b|;
    forall i | 0 <= i < |a| ensures a[i] == b[i] {
      if i < |items| {
        assert (items + [x])[i] == items[i];
      }
    }
  }

  /** A router's own routes, in registration order, as `get_routes` yields them first. */
  function OwnRoutes(prefix: string, routes: RouterRoutes): seq<RouteEntry> {
    Prefixed(prefix, Dicts.Flatten(routes))
  }

  /**
   * Each own (path, method) is yielded exactly once, with the full path
   * `prefix + path` and the stored handler and config, and nothing else is.
   */
  lemma OwnRoutesExactlyOnce(prefix: string, routes: RouterRoutes)
    ensures forall p, m :: p in routes.entries && m in routes.entries[p].entries ==>
      var t := routes.entries[p].entries[m];
      RouteEntry(t.fn, prefix + p, m, t.config) in OwnRoutes(prefix, routes)
    ensures forall e :: e in OwnRoutes(prefix, routes) ==>
      exists p :: p in routes.entries && e.path == prefix + p && e.verb in routes.entries[p].entries &&
        routes.entries[p].entries[e.verb] == RouteTarget(e.fn, e.config)
    ensures var own := OwnRoutes(prefix, routes);
      forall i, j :: 0 <= i < j < |own| ==> own[i].path != own[j].path || own[i].verb != own[j].verb
  {
    OwnRoutesComplete(prefix, routes);
    OwnRoutesSound(prefix, routes);
    OwnRoutesDistinct(prefix, routes);
  }

  /** Every stored (path, method) is among the own routes. */
  lemma OwnRoutesComplete(prefix: string, routes: RouterRoutes)
    ensures forall p, m :: p in routes.entries && m in routes.entries[p].entries ==>
      var t := routes.entries[p].entries[m];
      RouteEntry(t.fn, prefix + p, m, t.config) in OwnRoutes(prefix, routes)
  {
    var flat := Dicts.Flatten(routes);
    var own := OwnRoutes(prefix, routes);
    forall p, m | p in routes.entries && m in routes.entries[p].entries
      ensures RouteEntry(routes.entries[p].entries[m].fn, prefix + p, m, routes.entries[p].entries[m].config) in own
    {
      var t := routes.entries[p].entries[m];
      Dicts.FlattenMember(routes, (p, m, t));
      var i :| 0 <= i < |flat| && flat[i] == (p, m, t);
      assert own[i] == RouteEntry(t.fn, prefix + p, m, t.config);
    }
  }

  /** Every own route is a stored (path, method) under the prefix. */
  lemma OwnRoutesSound(prefix: string, routes: RouterRoutes)
    ensures forall e :: e in OwnRoutes(prefix, routes) ==>
      exists p :: p in routes.entries && e.path == prefix + p && e.verb in routes.entries[p].entries &&
        routes.entries[p].entries[e.verb] == RouteTarget(e.fn, e.config)
  {
    var flat := Dicts.Flatten(routes);
    var own := OwnRoutes(prefix, routes);
    forall e | e in own
      ensures exists p :: (p in routes.entries && e.path == prefix + p && e.verb in routes.entries[p].entries &&
        routes.entries[p].entries[e.verb] == RouteTarget(e.fn, e.config))
    {
      var i :| 0 <= i < |own| && own[i] == e;
      Dicts.FlattenMember(routes, flat[i]);
      assert flat[i].2 == RouteTarget(e.fn, e.config);
    }
  }

  /** No (path, method) is among the own routes twice. */
  lemma OwnRoutesDistinct(prefix: string, routes: RouterRoutes)
    ensures var own := OwnRoutes(prefix, routes);
      forall i, j :: 0 <= i < j < |own| ==> own[i].path != own[j].path || own[i].verb != own[j].verb
  {
    var flat := Dicts.Flatten(routes);
    var own := OwnRoutes(prefix, routes);
    Dicts.FlattenDistinct(routes);
    forall i, j | 0 <= i < j < |own| ensures own[i].path != own[j].path || own[i].verb != own[j].verb {
      if own[i].path == own[j].path {
        Text.ConcatInjective(prefix, flat[i].0, flat[j].0);
      }
    }
  }

  lemma PrefixedAppend(prefix: string, a: seq<(string, Method, RouteTarget)>, b: seq<(string, Method, RouteTarget)>)
    ensures Prefixed(prefix, a + b) == Prefixed(prefix, a) + Prefixed(prefix, b)
  {
    var l := Prefixed(prefix, a + b);
    var r := Prefixed(prefix, a) + Prefixed(prefix, b);
    assert |l| == |r|;
    forall i | 0 <= i < |l| ensures l[i] == r[i] {
      if i < |a| {
        assert (a + b)[i] == a[i];
      } else {
        assert (a + b)[i] == b[i - |a|];
      }
    }
  }

  /** The inner loop of `get_routes`: the methods of one path, in order. */
  method AppendPathRoutes(prefix: string, path: string, endpoint: Dicts.Dict<Method, RouteTarget>, rs0: seq<RouteEntry>)
    returns (rs: seq<RouteEntry>)
    ensures rs == rs0 + Prefixed(prefix, Dicts.Row(path, endpoint, endpoint.keys))
  {
    rs := rs0;
    var j := 0;
    while j < |endpoint.keys|
      invariant 0 <= j <= |endpoint.keys|
      invariant forall m :: m in endpoint.keys[..j] ==> m in endpoint.entries
      invariant rs == rs0 + Prefixed(prefix, Dicts.Row(path, endpoint, endpoint.keys[..j]))
    {
      var m := endpoint.keys[j];
      var target := endpoint.entries[m];
      RowStep(prefix, path, endpoint, j);
      rs := rs + [RouteEntry(target.fn, prefix + path, m, target.config)];
      j := j + 1;
    }
    assert endpoint.keys[..j] == endpoint.keys;
  }

  /** One more method of a path appends its route tuple. */
  lemma RowStep(prefix: string, path: string, endpoint: Dicts.Dict<Method, RouteTarget>, j: nat)
    requires j < |endpoint.keys|
    ensures forall m :: m in endpoint.keys[..j + 1] ==> m in endpoint.entries
    ensures var m := endpoint.keys[j];
      Prefixed(prefix, Dicts.Row(path, endpoint, endpoint.keys[..j + 1])) ==
      Prefixed(prefix, Dicts.Row(path, endpoint, endpoint.keys[..j])) +
      [RouteEntry(endpoint.entries[m].fn, prefix + path, m, endpoint.entries[m].config)]
  {
    Dicts.RowKeysStep(path, endpoint, j);
    var m := endpoint.keys[j];
    PrefixedSnoc(prefix, Dicts.Row(path, endpoint, endpoint.keys[..j]), (path, m, endpoint.entries[m]));
  }

  /** One more path of the table appends that path's routes. */
  lemma FlattenStep(prefix: string, routes: RouterRoutes, i: nat)
    requires i < |routes.keys|
    ensures forall k :: k in routes.keys[..i + 1] ==> k in routes.entries
    ensures var path := routes.keys[i];
      Prefixed(prefix, Dicts.FlattenKeys(routes, routes.keys[..i + 1])) ==
      Prefixed(prefix, Dicts.FlattenKeys(routes, routes.keys[..i])) +
      Prefixed(prefix, Dicts.Row(path, routes.entries[path], routes.entries[path].keys))
  {
    Dicts.FlattenKeysStep(routes, i);
    var path := routes.keys[i];
    PrefixedAppend(prefix, Dicts.FlattenKeys(routes, routes.keys[..i]), Dicts.Row(path, routes.entries[path], routes.entries[path].keys));
  }

  /** The nested loops of `get_routes` over the router's own table. */
  method FlattenRoutes(prefix: string, routes: RouterRoutes) returns (rs: seq<RouteEntry>)
    ensures rs == OwnRoutes(prefix, routes)
  {
    rs := [];
    var i := 0;
    while i < |routes.keys|
      invariant 0 <= i <= |routes.keys|
      invariant forall k :: k in routes.keys[..i] ==> k in routes.entries
      invariant rs == Prefixed(prefix, Dicts.FlattenKeys(routes, routes.keys[..i]))
    {
      var path := routes.keys[i];
      rs := AppendPathRoutes(prefix, path, routes.entries[path], rs);
      FlattenStep(prefix, routes, i);
      i := i + 1;
    }
    assert routes.keys[..i] == routes.keys;
  }

  /** The set of values a sequence yields. */
  ghost function Elements<T>(xs: seq<T>): set<T>
  {
    set x | x in xs
  }

  lemma ElementsAppend<T>(a: seq<T>, b: seq<T>)
    ensures Elements(a + b) == Elements(a) + Elements(b)
  {
  }

  /** Moving one element from the set still to visit to the set visited. */
  lemma VisitOne<T>(all: set<T>, rest: set<T>, done: set<T>, c: T)
    requires rest <= all && done == all - rest && c in rest
    ensures rest - {c} <= all && done + {c} == all - (rest - {c})
  {
  }

  // ---------------------------------------------------------------- add_router as written

  /** Who was added to whom, by router number: `g[a]` holds the routers added to router `a`. */
  type Composition = map<nat, set<nat>>

  /** `add_router` as written: it refuses only `router is self`, whatever `router` already holds. */
  function AddRouterAsWritten(g: Composition, a: nat, b: nat): (r: Result<Composition, string>)
    ensures r.Failure? <==> a == b
    ensures r.Success? ==> a in r.value && b in r.value[a]
    ensures r.Success? ==> forall x :: x in g && x != a ==> x in r.value && r.value[x] == g[x]
  {
    if a == b then Failure("A router cannot be added to itself")
    else Success(g[a := (if a in g then g[a] else {}) + {b}])
  }

  /** `c` is a chain of nested `get_routes` calls: each router's call recurses into the next one. */
  ghost predicate CallChain(g: Composition, c: seq<nat>)
  {
    forall i :: 0 <= i < |c| - 1 ==> c[i] in g && c[i + 1] in g[c[i]]
  }

  /**
   * `a.add_router(b)` then `b.add_router(a)` are both accepted, and then
   * `a.get_routes()` nests calls `n` deep for every `n`: the nesting has no
   * bound of its own, so in CPython it stops only at the recursion limit,
   * with a `RecursionError`.
   */
  lemma MutualAddRouterNestsWithoutBound(n: nat)
    ensures AddRouterAsWritten(map[], 0, 1).Success?
    ensures var g1 := AddRouterAsWritten(map[], 0, 1).value;
      && AddRouterAsWritten(g1, 1, 0).Success?
      && exists c :: |c| == n + 1 && c[0] == 0 && CallChain(AddRouterAsWritten(g1, 1, 0).value, c)
  {
    var g := AddRouterAsWritten(AddRouterAsWritten(map[], 0, 1).value, 1, 0).value;
    assert 0 in g && g[0] == {1} && 1 in g && g[1] == {0};
    var c := seq(n + 1, i => i % 2);
    forall i | 0 <= i < |c| - 1
      ensures c[i] in g && c[i + 1] in g[c[i]]
    {
      assert c[i] == i % 2 && c[i + 1] == (i + 1) % 2;
    }
    assert CallChain(g, c);
  }

  class Router {
    const base: string
    const tags: seq<string>
    var routes: RouterRoutes
    var routers: set<Router>
    /** This router and every router reachable from it. */
    ghost var Repr: set<Router>

    /** The composition below this router is acyclic: each nested footprint is strictly smaller. */
    ghost predicate Valid()
      reads `routers, `Repr, Repr`routers, Repr`Repr
      ensures Valid() ==> this in Repr
      decreases Repr
    {
      && this in Repr
      && routers <= Repr
      && forall c :: c in routers ==> c.Repr <= Repr && this !in c.Repr && c.Valid()
    }

    /** `Router(base="", tags=None)`: `tags or []`, no routes, no nested routers. */
    constructor(base: string := "", tags: Option<seq<string>> := None)
      ensures Valid() && Repr == {this}
      ensures this.base == base && this.tags == tags.GetOr([])
      ensures routes == Dicts.Empty() && routers == {}
    {
      this.base := base;
      this.tags := tags.GetOr([]);
      routes := Dicts.Empty();
      routers := {};
      Repr := {this};
    }

    /** `add_route`: sets `routes[path][method] = (fn, config)`, last write wins, and returns `fn`. */
    method AddRoute(fn: Handler, path: string, verb: Method, config: RouteParams) returns (r: Handler)
      modifies `routes
      ensures r == fn
      ensures routes == Dicts.SetNested(old(routes), path, verb, RouteTarget(fn, config))
    {
      var endpoint := Dicts.GetOr(routes, path, Dicts.Empty());
      routes := Dicts.Set(routes, path, Dicts.Set(endpoint, verb, RouteTarget(fn, config)));
      r := fn;
    }

    /**
     * `add_router`: a router cannot be added to itself (state unchanged);
     * otherwise the only effect is `routers := routers + {r}`.
     */
    method AddRouter(r: Router) returns (res: Result<(), string>)
      requires Valid() && r.Valid()
      requires r == this || this !in r.Repr
      modifies `routers, `Repr
      ensures Valid()
      ensures r == this ==>
        res == Failure("A router cannot be added to itself") && routers == old(routers) && Repr == old(Repr)
      ensures r != this ==> res == Success(()) && routers == old(routers) + {r} && Repr == old(Repr) + r.Repr
    {
      if r == this {
        return Failure("A router cannot be added to itself");
      }
      routers := routers + {r};
      Repr := Repr + r.Repr;
      res := Success(());
    }

    /**
     * Every tuple `get_routes(root)` can yield: the own routes under
     * `root + base`, and everything the nested routers yield under that prefix.
     */
    ghost function AllRoutes(root: string): set<RouteEntry>
      reads this, Repr
      requires Valid()
      decreases Repr, 1
    {
      Elements(OwnRoutes(root + base, routes)) + NestedRoutes(routers, root + base)
    }

    /** What the nested routers in `s` yield under `prefix`. */
    ghost function NestedRoutes(s: set<Router>, prefix: string): set<RouteEntry>
      reads this, Repr
      requires Valid() && s <= routers
      decreases Repr, 0
    {
      set c, e | c in s && e in c.AllRoutes(prefix) :: e
    }

    lemma NestedRoutesAdd(s: set<Router>, c: Router, prefix: string)
      requires Valid() && s <= routers && c in routers
      ensures NestedRoutes(s + {c}, prefix) == NestedRoutes(s, prefix) + c.AllRoutes(prefix)
    {
    }

    /** Every path yielded under `root` starts with `root + base`. */
    lemma {:induction false} AllRoutesUnderPrefix(root: string)
      requires Valid()
      ensures forall e :: e in AllRoutes(root) ==> root + base <= e.path
      decreases Repr
    {
      var full := root + base;
      forall e | e in AllRoutes(root) ensures full <= e.path {
        if e in OwnRoutes(full, routes) {
          OwnRoutesExactlyOnce(full, routes);
          var p :| p in routes.entries && e.path == full + p;
        } else {
          assert e in NestedRoutes(routers, full);
          var c :| c in routers && e in c.AllRoutes(full);
          c.AllRoutesUnderPrefix(full);
          assert full + c.base <= e.path;
          assert (full + c.base)[..|full|] == full;
        }
      }
    }

    /**
     * `get_routes(root)`: first every own route exactly once, in registration
     * order, with full path `root + base + path`; then the routes of each
     * nested router under prefix `root + base`, routers in unspecified order.
     */
    method GetRoutes(root: string) returns (rs: seq<RouteEntry>)
      requires Valid()
      ensures |OwnRoutes(root + base, routes)| <= |rs|
      ensures rs[..|OwnRoutes(root + base, routes)|] == OwnRoutes(root + base, routes)
      ensures Elements(rs) == AllRoutes(root)
      decreases Repr, 1
    {
      var full := root + base;
      var own := FlattenRoutes(full, routes);
      var nested := NestedGetRoutes(full);
      rs := own + nested;
      ElementsAppend(own, nested);
      assert rs[..|own|] == own;
    }

    /** The second loop of `get_routes`: each nested router's routes under `prefix`, routers in any order. */
    method NestedGetRoutes(prefix: string) returns (nested: seq<RouteEntry>)
      requires Valid()
      ensures Elements(nested) == NestedRoutes(routers, prefix)
      decreases Repr, 0
    {
      nested := [];
      var rest := routers;
      ghost var done: set<Router> := {};
      while rest != {}
        invariant rest <= routers && done == routers - rest
        invariant Elements(nested) == NestedRoutes(done, prefix)
        decreases rest
      {
        var c :| c in rest;
        ghost var known := NestedRoutes(done, prefix);
        var sub := c.GetRoutes(prefix);
        assert known == NestedRoutes(done, prefix);
        ElementsAppend(nested, sub);
        NestedRoutesAdd(done, c, prefix);
        VisitOne(routers, rest, done, c);
        nested := nested + sub;
        rest := rest - {c};
        done := done + {c};
      }
    }
  }
}
