/**
 What GetSrvs and Discover return. Neither query has an ORDER BY: `srvOrder` and `routeOrder` stand for
 whatever order the database scans the two tables in, so every statement below holds for every order.
 */
module SrvQueries {
  import opened Wrappers
  import opened Selections
  import opened SrvTables
  import opened SrvRefinement

  datatype SrvQuery = SrvQuery(inIds: Option<seq<nat>>, onlyHealthChecked: bool, eqName: Option<string>, limit: nat,
      offset: nat)

  predicate Matches(t: Tables, q: SrvQuery, s: nat) {
    && LiveSrv(t, s)
    && (q.inIds.Some? ==> s in q.inIds.value)
    && (q.onlyHealthChecked ==> t.srvs[s].hasEnableHealthCheck)
    && (q.eqName.Some? ==> t.srvs[s].name == q.eqName.value)
  }

  predicate Shown(t: Tables, only: bool, s: nat, r: nat) {
    LiveRoute(t, r, s) && (only ==> t.routes[r].enableHealthCheck)
  }

  /** The predicates above as row filters. */
  function Matching(t: Tables, q: SrvQuery): nat -> bool {
    (s: nat) => Matches(t, q, s)
  }

  function ShownBy(t: Tables, only: bool, s: nat): nat -> bool {
    (r: nat) => Shown(t, only, s, r)
  }

  function RouteEntity(t: Tables, r: nat): Route
    requires r in t.routes
  {
    Route(r, t.routes[r].addr, t.routes[r].timeoutSec, t.routes[r].enableHealthCheck)
  }

  function RouteEntities(t: Tables, rs: seq<nat>): (out: seq<Route>)
    requires forall r :: r in rs ==> r in t.routes
    ensures |out| == |rs| && forall i :: 0 <= i < |rs| ==> out[i] == RouteEntity(t, rs[i])
  {
    seq(|rs|, i requires 0 <= i < |rs| => assert rs[i] in rs; RouteEntity(t, rs[i]))
  }

  function RoutesOf(t: Tables, only: bool, s: nat, routeOrder: seq<nat>): seq<Route> {
    RouteEntities(t, Filter(routeOrder, ShownBy(t, only, s)))
  }

  function SrvEntity(t: Tables, only: bool, s: nat, routeOrder: seq<nat>): Srv
    requires s in t.srvs
  {
    Srv(s, t.srvs[s].name, RoutesOf(t, only, s, routeOrder), t.srvs[s].hasEnableHealthCheck)
  }

  function SrvEntities(t: Tables, only: bool, ss: seq<nat>, routeOrder: seq<nat>): (out: seq<Srv>)
    requires forall s :: s in ss ==> s in t.srvs
    ensures |out| == |ss| && forall i :: 0 <= i < |ss| ==> out[i] == SrvEntity(t, only, ss[i], routeOrder)
  {
    seq(|ss|, i requires 0 <= i < |ss| => assert ss[i] in ss; SrvEntity(t, only, ss[i], routeOrder))
  }

  function MatchingIds(t: Tables, q: SrvQuery, srvOrder: seq<nat>): (ss: seq<nat>)
    ensures forall s :: s in ss <==> s in srvOrder && Matches(t, q, s)
  {
    Filter(srvOrder, Matching(t, q))
  }

  function PageIds(t: Tables, q: SrvQuery, srvOrder: seq<nat>): (ss: seq<nat>)
    ensures forall s :: s in ss ==> s in srvOrder && Matches(t, q, s)
  {
    Page(MatchingIds(t, q, srvOrder), q.limit, q.offset)
  }

  /** GetSrvs as one step. */
  function Select(t: Tables, q: SrvQuery, srvOrder: seq<nat>, routeOrder: seq<nat>): seq<Srv> {
    SrvEntities(t, q.onlyHealthChecked, PageIds(t, q, srvOrder), routeOrder)
  }

  function ByIds(ids: seq<nat>): SrvQuery {
    SrvQuery(Some(ids), false, None, |ids|, 0)
  }

  function ByName(name: string): SrvQuery {
    SrvQuery(None, false, Some(name), 1, 0)
  }

  function HealthPage(size: nat, offset: nat): SrvQuery {
    SrvQuery(None, true, None, size, offset)
  }

  function Discover(t: Tables, name: string, srvOrder: seq<nat>, routeOrder: seq<nat>): Result<Srv, SrvError> {
    var found := Select(t, ByName(name), srvOrder, routeOrder);
    if found == [] then Failure(SrvNotFound) else Success(found[0])
  }

  // ---------------------------------------------------------------- what the results mean

  ghost predicate Scans(t: Tables, srvOrder: seq<nat>, routeOrder: seq<nat>) {
    Enumerates(srvOrder, t.srvs.Keys) && Enumerates(routeOrder, t.routes.Keys)
  }

  /** The route list says of every address exactly what the registry says. */
  ghost predicate ListsRegistry(m: RouteMap, name: string, routes: seq<Route>) {
    && (forall i :: 0 <= i < |routes| ==>
          Key(name, routes[i].addr) in m
          && m[Key(name, routes[i].addr)] == Info(routes[i].timeoutSec, routes[i].enableHealthCheck))
    && (forall a :: Key(name, a) in m ==> exists i :: 0 <= i < |routes| && routes[i].addr == a)
    && (forall i, j :: 0 <= i < j < |routes| ==> routes[i].addr != routes[j].addr)
  }

  /** Each listed route carries the id of its own row. */
  ghost predicate RoutesBelong(t: Tables, s: nat, routes: seq<Route>) {
    forall i :: 0 <= i < |routes| ==>
      routes[i].id in t.routes && KeyOfRow(t.routes[routes[i].id]) == RouteKey(s, routes[i].addr)
  }

  lemma RoutesOfBelong(t: Tables, only: bool, s: nat, routeOrder: seq<nat>)
    ensures RoutesBelong(t, s, RoutesOf(t, only, s, routeOrder))
  {
    var ids := Filter(routeOrder, ShownBy(t, only, s));
    forall i | 0 <= i < |ids|
      ensures Shown(t, only, s, ids[i])
    {
      assert ids[i] in ids;
    }
  }

  /** Every listed route is an entry of the registry. */
  lemma ListedIsEntry(t: Tables, s: nat, ids: seq<nat>, i: nat)
    requires Valid(t) && s in t.srvs && i < |ids| && Shown(t, false, s, ids[i])
    requires forall k :: 0 <= k < |ids| ==> ids[k] in t.routes
    ensures var route, key := RouteEntities(t, ids)[i], Key(t.srvs[s].name, t.routes[ids[i]].addr);
      && key == Key(t.srvs[s].name, route.addr) && RouteAt(t, key) == Some(ids[i]) && key in Abs(t)
      && Abs(t)[key] == Info(route.timeoutSec, route.enableHealthCheck)
  {
    RouteOfKey(t, ids[i]);
  }

  /** Every entry of the registry has a row that is shown. */
  lemma EntryIsShown(t: Tables, s: nat, a: Addr) returns (r: nat)
    requires Valid(t) && s in t.srvs && Key(t.srvs[s].name, a) in Abs(t)
    ensures r in t.routes && Shown(t, false, s, r) && t.routes[r].addr == a
  {
    assert SrvIndexed(t, s);
    r := RouteAt(t, Key(t.srvs[s].name, a)).value;
  }

  lemma RoutesOfListRegistry(t: Tables, s: nat, routeOrder: seq<nat>)
    requires Valid(t) && s in t.srvs && Enumerates(routeOrder, t.routes.Keys)
    ensures ListsRegistry(Abs(t), t.srvs[s].name, RoutesOf(t, false, s, routeOrder))
  {
    var p := ShownBy(t, false, s);
    var ids := Filter(routeOrder, p);
    var routes := RoutesOf(t, false, s, routeOrder);
    var name := t.srvs[s].name;
    FilterDistinct(routeOrder, p);
    assert forall k :: 0 <= k < |ids| ==> ids[k] in ids;
    forall i | 0 <= i < |routes|
      ensures Key(name, routes[i].addr) in Abs(t) && RouteAt(t, Key(name, routes[i].addr)) == Some(ids[i])
      ensures Abs(t)[Key(name, routes[i].addr)] == Info(routes[i].timeoutSec, routes[i].enableHealthCheck)
    {
      ListedIsEntry(t, s, ids, i);
    }
    forall a | Key(name, a) in Abs(t)
      ensures exists i :: 0 <= i < |routes| && routes[i].addr == a
    {
      var r := EntryIsShown(t, s, a);
      var i :| 0 <= i < |ids| && ids[i] == r;
      assert routes[i].addr == a;
    }
  }

  /** The route is a live row of the server, column by column. */
  predicate StandsFor(t: Tables, s: nat, route: Route) {
    && LiveRoute(t, route.id, s)
    && route.addr == t.routes[route.id].addr && route.timeoutSec == t.routes[route.id].timeoutSec
    && route.enableHealthCheck == t.routes[route.id].enableHealthCheck
  }

  /** The server is live and lists its live routes, or only the health-checked ones, each once and no other. */
  ghost predicate ListsRoutes(t: Tables, only: bool, srv: Srv) {
    && LiveSrv(t, srv.id) && srv.name == t.srvs[srv.id].name
    && srv.hasEnableHealthCheck == t.srvs[srv.id].hasEnableHealthCheck
    && (forall i :: 0 <= i < |srv.routes| ==>
          StandsFor(t, srv.id, srv.routes[i]) && (only ==> srv.routes[i].enableHealthCheck))
    && (forall i, j :: 0 <= i < j < |srv.routes| ==> srv.routes[i].id != srv.routes[j].id)
    && (forall r :: LiveRoute(t, r, srv.id) && (only ==> t.routes[r].enableHealthCheck) ==>
          exists i :: 0 <= i < |srv.routes| && srv.routes[i].id == r)
  }

  lemma EntityListsRoutes(t: Tables, only: bool, s: nat, routeOrder: seq<nat>)
    requires LiveSrv(t, s) && Enumerates(routeOrder, t.routes.Keys)
    ensures ListsRoutes(t, only, SrvEntity(t, only, s, routeOrder))
  {
    var ids := Filter(routeOrder, ShownBy(t, only, s));
    FilterDistinct(routeOrder, ShownBy(t, only, s));
    assert forall i :: 0 <= i < |ids| ==> ids[i] in ids;
    forall r | LiveRoute(t, r, s) && (only ==> t.routes[r].enableHealthCheck)
      ensures exists i :: 0 <= i < |ids| && ids[i] == r
    {
      assert r in ids;
    }
  }

  lemma SelectListsRoutes(t: Tables, q: SrvQuery, srvOrder: seq<nat>, routeOrder: seq<nat>)
    requires Scans(t, srvOrder, routeOrder)
    ensures var found := Select(t, q, srvOrder, routeOrder);
      forall i :: 0 <= i < |found| ==> ListsRoutes(t, q.onlyHealthChecked, found[i])
  {
    var ids := PageIds(t, q, srvOrder);
    forall i | 0 <= i < |ids|
      ensures ListsRoutes(t, q.onlyHealthChecked, SrvEntity(t, q.onlyHealthChecked, ids[i], routeOrder))
    {
      assert ids[i] in ids;
      EntityListsRoutes(t, q.onlyHealthChecked, ids[i], routeOrder);
    }
  }

  /** A live server always shows at least one route. */
  lemma LiveSrvHasRoutes(t: Tables, s: nat, routeOrder: seq<nat>)
    requires Inv(t) && LiveSrv(t, s) && Enumerates(routeOrder, t.routes.Keys)
    ensures RoutesOf(t, false, s, routeOrder) != []
  {
    var r :| LiveRoute(t, r, s);
    assert r in Filter(routeOrder, ShownBy(t, false, s));
  }

  lemma NameMatchesOnce(t: Tables, name: string, srvOrder: seq<nat>)
    requires Valid(t) && Enumerates(srvOrder, t.srvs.Keys)
    ensures MatchingIds(t, ByName(name), srvOrder) ==
      if name in t.byName && LiveSrv(t, t.byName[name]) then [t.byName[name]] else []
  {
    var ids := MatchingIds(t, ByName(name), srvOrder);
    FilterDistinct(srvOrder, Matching(t, ByName(name)));
    forall s | s in ids
      ensures name in t.byName && s == t.byName[name]
    {
      assert SrvIndexed(t, s);
    }
    if name in t.byName {
      DistinctBound(ids, [t.byName[name]]);
      assert t.byName[name] in ids <==> LiveSrv(t, t.byName[name]);
      assert ids != [] ==> ids[0] in ids;
    } else {
      DistinctBound(ids, []);
    }
  }

  /** Discover fails exactly on names the registry does not know, and otherwise returns the registry's routes. */
  lemma DiscoverIsLookup(t: Tables, name: string, srvOrder: seq<nat>, routeOrder: seq<nat>)
    requires Inv(t) && Scans(t, srvOrder, routeOrder)
    ensures Discover(t, name, srvOrder, routeOrder).Failure? <==> !Knows(Abs(t), name)
    ensures Discover(t, name, srvOrder, routeOrder).Success? ==>
      var srv := Discover(t, name, srvOrder, routeOrder).value;
      LiveSrv(t, srv.id) && srv.name == name && srv.routes != [] && ListsRegistry(Abs(t), name, srv.routes)
      && name in t.byName && t.byName[name] == srv.id && RoutesBelong(t, srv.id, srv.routes)
  {
    KnowsIffLive(t, name);
    NameMatchesOnce(t, name, srvOrder);
    if name in t.byName && LiveSrv(t, t.byName[name]) {
      var s := t.byName[name];
      assert PageIds(t, ByName(name), srvOrder) == [s];
      RoutesOfListRegistry(t, s, routeOrder);
      RoutesOfBelong(t, false, s, routeOrder);
      LiveSrvHasRoutes(t, s, routeOrder);
    } else {
      assert PageIds(t, ByName(name), srvOrder) == [];
    }
  }

  /** LIMIT len(ids) loses no server: the query by distinct ids returns every live one of them, and only those. */
  lemma ByIdsLosesNone(t: Tables, ids: seq<nat>, srvOrder: seq<nat>, s: nat)
    requires Enumerates(srvOrder, t.srvs.Keys)
    ensures s in PageIds(t, ByIds(ids), srvOrder) <==> s in ids && LiveSrv(t, s)
  {
    var all := MatchingIds(t, ByIds(ids), srvOrder);
    FilterDistinct(srvOrder, Matching(t, ByIds(ids)));
    DistinctBound(all, ids);
    assert PageIds(t, ByIds(ids), srvOrder) == all;
  }

  /** Every live health-checked route is shown under its flagged server by an unlimited health query. */
  lemma FlagShowsEveryCheckedRoute(t: Tables, srvOrder: seq<nat>, routeOrder: seq<nat>, r: nat, s: nat)
    requires Inv(t) && Scans(t, srvOrder, routeOrder)
    requires LiveRoute(t, r, s) && t.routes[r].enableHealthCheck
    ensures s in MatchingIds(t, HealthPage(0, 0), srvOrder)
    ensures RouteEntity(t, r) in RoutesOf(t, true, s, routeOrder)
  {
    assert RouteIndexed(t, r);
    var ids := Filter(routeOrder, ShownBy(t, true, s));
    assert r in ids;
    var i :| 0 <= i < |ids| && ids[i] == r;
    assert RoutesOf(t, true, s, routeOrder)[i] == RouteEntity(t, r);
  }
}
