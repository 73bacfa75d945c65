/** The request router (router.py): exact static routes, prefix routes tried in the order they were added,
    and a default route. Every route a router stores is its base route followed by the route it was given. */
module Routing {
  import opened Wrappers
  import opened Util

  /** What `handle_request` passes to a handler: how the route matched ("static", "prefix" or "default"),
      the route that matched, and the part of the path after it. */
  datatype RouterContext = RouterContext(kind: string, route: string, additional: string)

  /** A route handler. Application handlers are opaque callables, told apart by name; the handler
      `add_sub_router` registers is the sub-router's `handle_subrouter_request`. */
  datatype Handler = Endpoint(name: string) | SubRouterHandler(router: Router)

  /** The handler `handle_request` calls and the context it calls it with. */
  datatype Dispatch = Dispatch(handler: Handler, context: RouterContext)

  /** The `for` loop of `handle_request`: the position of the first prefix route that starts the path. */
  function FirstPrefix(routes: seq<(string, Handler)>, path: string): (r: Option<nat>)
    ensures r.Some? ==> r.value < |routes| && StartsWith(path, routes[r.value].0)
    ensures r.Some? ==> forall j :: 0 <= j < r.value ==> !StartsWith(path, routes[j].0)
    ensures r.None? ==> forall j :: 0 <= j < |routes| ==> !StartsWith(path, routes[j].0)
  {
    if routes == [] then None
    else if StartsWith(path, routes[0].0) then Some(0)
    else
      match FirstPrefix(routes[1..], path)
      case None => None
      case Some(i) => Some(i + 1)
  }

  /** Route `i` is the first of `routes` whose prefix starts the path. */
  predicate FirstMatch(routes: seq<(string, Handler)>, path: string, i: int)
  {
    0 <= i < |routes| && StartsWith(path, routes[i].0) && forall j :: 0 <= j < i ==> !StartsWith(path, routes[j].0)
  }

  /** The earlier prefixes that start `route`, in order: `add_prefix_route` logs a warning for each, since a
      request for `route` will be taken by them first. */
  function Hiding(routes: seq<(string, Handler)>, route: string): (r: seq<string>)
    ensures |r| <= |routes|
  {
    if routes == [] then []
    else
      var last := routes[|routes| - 1];
      Hiding(routes[..|routes| - 1], route) + (if StartsWith(route, last.0) then [last.0] else [])
  }

  /** The warnings name exactly the stored prefixes that start the new route. */
  lemma {:induction false} HidingMembers(routes: seq<(string, Handler)>, route: string, p: string)
    ensures p in Hiding(routes, route) <==> StartsWith(route, p) && exists i :: 0 <= i < |routes| && routes[i].0 == p
  {
    if routes != [] {
      var init, last := routes[..|routes| - 1], routes[|routes| - 1];
      HidingMembers(init, route, p);
      if exists i :: 0 <= i < |routes| && routes[i].0 == p {
        var i :| 0 <= i < |routes| && routes[i].0 == p;
        if i < |init| {
          assert init[i].0 == p;
        }
      }
      if exists i :: 0 <= i < |init| && init[i].0 == p {
        var i :| 0 <= i < |init| && init[i].0 == p;
        assert routes[i].0 == p;
      }
    }
  }

  /** A prefix of a prefix of `s` is a prefix of `s`. */
  lemma StartsWithTrans(s: string, p: string, q: string)
    requires StartsWith(s, p) && StartsWith(p, q)
    ensures StartsWith(s, q)
  {
    assert s[..|q|] == s[..|p|][..|q|];
  }

  class Router {
    const baseRoute: string
    var staticRoutes: map<string, Handler>
    var prefixRoutes: seq<(string, Handler)>
    var defaultRoute: Option<Handler>

    /** Every stored route lies under the base route: the `add_*` methods prepend it. */
    ghost predicate Valid()
      reads this
    {
      && (forall key :: key in staticRoutes ==> StartsWith(key, baseRoute))
      && (forall i :: 0 <= i < |prefixRoutes| ==> StartsWith(prefixRoutes[i].0, baseRoute))
    }

    constructor (baseRoute: string := "")
      ensures Valid()
      ensures this.baseRoute == baseRoute
      ensures staticRoutes == map[] && prefixRoutes == [] && defaultRoute == None
    {
      this.baseRoute := baseRoute;
      staticRoutes := map[];
      prefixRoutes := [];
      defaultRoute := None;
    }

    /** `add_static_route`: file the handler under the base route plus `route`, replacing any handler there.
        `duplicate` says whether one was replaced (the source logs a warning then). */
    method AddStaticRoute(route: string, handler: Handler) returns (duplicate: bool)
      requires Valid()
      modifies this
      ensures Valid()
      ensures duplicate <==> baseRoute + route in old(staticRoutes)
      ensures staticRoutes == old(staticRoutes)[baseRoute + route := handler]
      ensures prefixRoutes == old(prefixRoutes) && defaultRoute == old(defaultRoute)
    {
      var key := baseRoute + route;
      assert StartsWith(key, baseRoute);
      duplicate := key in staticRoutes;
      staticRoutes := staticRoutes[key := handler];
    }

    /** The warning loop of `add_prefix_route`: the stored prefixes, in order, that start `key`. A request for
        `key` is taken by them first; the source logs one warning for each. */
    method HiddenBy(key: string) returns (hiddenBy: seq<string>)
      ensures hiddenBy == Hiding(prefixRoutes, key)
    {
      hiddenBy := [];
      var i := 0;
      while i < |prefixRoutes|
        invariant 0 <= i <= |prefixRoutes|
        invariant hiddenBy == Hiding(prefixRoutes[..i], key)
      {
        assert prefixRoutes[..i + 1][..i] == prefixRoutes[..i];
        var (prefix, _) := prefixRoutes[i];
        if StartsWith(key, prefix) {
          hiddenBy := hiddenBy + [prefix];
        }
        i := i + 1;
      }
      assert prefixRoutes[..i] == prefixRoutes;
    }

    /** `add_prefix_route`: append the base route plus `route` to the prefix routes, even when an earlier
        prefix hides it. `hiddenBy` lists those earlier prefixes (the source logs a warning for each). */
    method AddPrefixRoute(route: string, handler: Handler) returns (hiddenBy: seq<string>)
      requires Valid()
      modifies this
      ensures Valid()
      ensures hiddenBy == Hiding(old(prefixRoutes), baseRoute + route)
      ensures prefixRoutes == old(prefixRoutes) + [(baseRoute + route, handler)]
      ensures staticRoutes == old(staticRoutes) && defaultRoute == old(defaultRoute)
    {
      var key := baseRoute + route;
      assert StartsWith(key, baseRoute);
      hiddenBy := HiddenBy(key);
      prefixRoutes := prefixRoutes + [(key, handler)];
    }

    /** `add_default_route`: the handler becomes the default, replacing any earlier one; `replaced` says
        whether there was one (the source logs a warning then). */
    method AddDefaultRoute(handler: Handler) returns (replaced: bool)
      requires Valid()
      modifies this
      ensures Valid()
      ensures replaced <==> old(defaultRoute).Some?
      ensures defaultRoute == Some(handler)
      ensures staticRoutes == old(staticRoutes) && prefixRoutes == old(prefixRoutes)
    {
      replaced := defaultRoute.Some?;
      defaultRoute := Some(handler);
    }

    /** `add_sub_router`: a new, empty router based at this router's base plus `baseRoute`, registered here as
        a prefix route at that same full route. */
    method AddSubRouter(baseRoute: string) returns (sub: Router)
      requires Valid()
      modifies this
      ensures Valid() && sub.Valid()
      ensures fresh(sub)
      ensures sub.baseRoute == this.baseRoute + baseRoute
      ensures sub.staticRoutes == map[] && sub.prefixRoutes == [] && sub.defaultRoute == None
      ensures prefixRoutes == old(prefixRoutes) + [(this.baseRoute + baseRoute, SubRouterHandler(sub))]
      ensures staticRoutes == old(staticRoutes) && defaultRoute == old(defaultRoute)
    {
      sub := new Router(this.baseRoute + baseRoute);
      var _ := AddPrefixRoute(baseRoute, SubRouterHandler(sub));
    }

    /** `handle_request`: an exact static route first; otherwise the first prefix route, in the order they
        were added, that starts the path; otherwise the default route; otherwise nothing handles it. */
    function HandleRequest(path: string): (r: Option<Dispatch>)
      reads this
      ensures path in staticRoutes ==> r == Some(Dispatch(staticRoutes[path], RouterContext("static", path, "")))
      ensures path !in staticRoutes ==>
        forall i :: FirstMatch(prefixRoutes, path, i) ==>
          r == Some(Dispatch(prefixRoutes[i].1, RouterContext("prefix", prefixRoutes[i].0, path[|prefixRoutes[i].0|..])))
      ensures path !in staticRoutes && (forall i :: 0 <= i < |prefixRoutes| ==> !StartsWith(path, prefixRoutes[i].0)) ==>
        r == if defaultRoute.Some? then Some(Dispatch(defaultRoute.value, RouterContext("default", "", path))) else None
      ensures r.Some? && r.value.context.kind == "prefix" ==> r.value.context.route + r.value.context.additional == path
    {
      if path in staticRoutes then
        Some(Dispatch(staticRoutes[path], RouterContext("static", path, "")))
      else
        match FirstPrefix(prefixRoutes, path)
        case Some(i) =>
          var prefix := prefixRoutes[i].0;
          assert prefix + path[|prefix|..] == path;
          Some(Dispatch(prefixRoutes[i].1, RouterContext("prefix", prefix, path[|prefix|..])))
        case None =>
          if defaultRoute.Some? then Some(Dispatch(defaultRoute.value, RouterContext("default", "", path))) else None
    }

    /** `handle_subrouter_request`: the context from the parent router is dropped and the full path is routed
        afresh by this router. A static or prefix route can only take a path under this router's base, and
        the route it matched then lies under that base too. */
    function HandleSubrouterRequest(path: string, context: RouterContext): (r: Option<Dispatch>)
      requires Valid()
      reads this
      ensures r.Some? && r.value.context.kind != "default" ==> StartsWith(path, baseRoute)
      ensures r.Some? && r.value.context.kind == "static" ==> r.value.context.route == path && path in staticRoutes
      ensures r.Some? && r.value.context.kind == "prefix" ==>
        && StartsWith(r.value.context.route, baseRoute)
        && r.value.context.route + r.value.context.additional == path
      ensures r.Some? && r.value.context.kind == "default" ==> r.value.context.additional == path && defaultRoute.Some?
      ensures r.None? ==> defaultRoute.None?
    {
      if path in staticRoutes then HandleRequest(path)
      else
        match FirstPrefix(prefixRoutes, path)
        case Some(i) =>
          StartsWithTrans(path, prefixRoutes[i].0, baseRoute);
          HandleRequest(path)
        case None => HandleRequest(path)
    }

    /** A path outside the base route reaches neither a static nor a prefix route, only the default. */
    lemma OutsideBase(path: string)
      requires Valid() && !StartsWith(path, baseRoute)
      ensures HandleRequest(path) == if defaultRoute.Some? then Some(Dispatch(defaultRoute.value, RouterContext("default", "", path))) else None
    {
      assert path !in staticRoutes;
      forall i | 0 <= i < |prefixRoutes|
        ensures !StartsWith(path, prefixRoutes[i].0)
      {
        if StartsWith(path, prefixRoutes[i].0) {
          StartsWithTrans(path, prefixRoutes[i].0, baseRoute);
        }
      }
    }
  }

  /** Routing through a sub-router (how `main.py` mounts the API): when the parent's dispatch picks the prefix
      route that `add_sub_router` registered for `sub`, the matched route is the sub-router's base, the path
      lies under it, and the sub-router routes the full path, not just the part after the match. */
  lemma SubRouterDispatch(parent: Router, sub: Router, path: string)
    requires parent.Valid() && sub.Valid()
    requires forall i :: 0 <= i < |parent.prefixRoutes| && parent.prefixRoutes[i].1 == SubRouterHandler(sub) ==>
      parent.prefixRoutes[i].0 == sub.baseRoute
    requires parent.HandleRequest(path).Some?
    requires parent.HandleRequest(path).value.handler == SubRouterHandler(sub)
    requires parent.HandleRequest(path).value.context.kind == "prefix"
    ensures var context := parent.HandleRequest(path).value.context;
      && context.route == sub.baseRoute && StartsWith(path, sub.baseRoute)
      && sub.baseRoute + context.additional == path
      && sub.HandleSubrouterRequest(path, context) == sub.HandleRequest(path)
  {
    assert path !in parent.staticRoutes;
    match FirstPrefix(parent.prefixRoutes, path)
    case Some(i) =>
      assert FirstMatch(parent.prefixRoutes, path, i);
    case None =>
      assert false;
  }
}
