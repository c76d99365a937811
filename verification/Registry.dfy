/**
 Who calls the server repository: the API (internal/apihandler/service/service.go) and the health checker
 (internal/registry/registry.go). A health check works on servers read earlier; what it then deletes are route ids.
 */
module RegistryService {
  import opened Wrappers
  import opened Selections
  import opened SrvTables
  import opened SrvRefinement
  import opened SrvQueries
  import opened SrvRepo

  const PAGE_SIZE := 1000

  /** Every flagged live server once, with its health-checked routes. */
  function AllToCheck(t: Tables, srvOrder: seq<nat>, routeOrder: seq<nat>): seq<Srv> {
    SrvEntities(t, true, MatchingIds(t, HealthPage(0, 0), srvOrder), routeOrder)
  }

  /** The health query's pages are consecutive slices of that list. */
  lemma HealthPages(t: Tables, size: nat, offset: nat, srvOrder: seq<nat>, routeOrder: seq<nat>)
    ensures Select(t, HealthPage(size, offset), srvOrder, routeOrder)
      == Page(AllToCheck(t, srvOrder, routeOrder), size, offset)
  {
    FilterSame(srvOrder, Matching(t, HealthPage(size, offset)), Matching(t, HealthPage(0, 0)));
  }

  function Min(a: nat, b: nat): nat {
    if a < b then a else b
  }

  lemma PageStep<T>(sent: seq<T>, xs: seq<T>, size: nat, offset: nat)
    ensures sent + xs[..Min(offset, |xs|)] + Page(xs, size, offset) == sent + xs[..Min(offset + size, |xs|)]
  {
    assert xs[..Min(offset, |xs|)] + Page(xs, size, offset) == xs[..Min(offset + size, |xs|)];
  }

  class Registry {
    const srvRepo: TaskSrvRepo
    /** What has been sent to the check workers, in order. */
    var queue: seq<Srv>

    constructor (srvRepo: TaskSrvRepo)
      ensures this.srvRepo == srvRepo && queue == []
    {
      this.srvRepo := srvRepo;
      queue := [];
    }

    method Lookup(name: string, srvOrder: seq<nat>, routeOrder: seq<nat>) returns (r: Result<Srv, SrvError>)
      requires Valid(srvRepo.Tab())
      ensures r == Discover(srvRepo.Tab(), name, srvOrder, routeOrder)
    {
      var found := srvRepo.GetSrvs(ByName(name), srvOrder, routeOrder);
      if |found| == 0 {
        return Failure(SrvNotFound);
      }
      return Success(found[0]);
    }

    /** The RPC that registers one route. */
    method RegisterTaskCallbackSrv(name: string, addr: Addr, timeoutSec: int, enableHealthCheck: bool)
      requires Inv(srvRepo.Tab())
      modifies srvRepo
      ensures Inv(srvRepo.Tab())
      ensures Abs(srvRepo.Tab()) == old(Abs(srvRepo.Tab()))[Key(name, addr) := Info(timeoutSec, enableHealthCheck)]
    {
      var route := Route(0, addr, timeoutSec, enableHealthCheck);
      AddRefines(srvRepo.Tab(), name, [route]);
      assert [route][..0] == [];
      srvRepo.AddSrvRoutes(Srv(0, name, [route], enableHealthCheck));
    }

    /** The RPC that removes one route: discover, pick the routes at the address, delete them by id. */
    method UnregisterTaskCallbackSrv(name: string, addr: Addr, srvOrder: seq<nat>, routeOrder: seq<nat>)
      returns (failed: Option<SrvError>)
      requires Inv(srvRepo.Tab()) && Scans(srvRepo.Tab(), srvOrder, routeOrder)
      modifies srvRepo
      ensures Inv(srvRepo.Tab())
      ensures failed.Some? <==> !Knows(old(Abs(srvRepo.Tab())), name)
      ensures Abs(srvRepo.Tab()) == RemoveAll(old(Abs(srvRepo.Tab())), name, {addr})
    {
      ghost var t := srvRepo.Tab();
      DiscoverIsLookup(t, name, srvOrder, routeOrder);
      var r := Lookup(name, srvOrder, routeOrder);
      if r.Failure? {
        assert Abs(t) == RemoveAll(Abs(t), name, {addr});
        return Some(r.error);
      }
      var srv := r.value;
      var readyDelRoutes := RoutesAt(srv.routes, addr);
      ReadyRoutesRemoveAddr(t, name, addr, srv.routes, readyDelRoutes);
      failed := srvRepo.DelSrvRoutes(Srv(srv.id, srv.name, readyDelRoutes, srv.hasEnableHealthCheck));
    }

    static lemma ReadyRoutesRemoveAddr(t: Tables, name: string, addr: Addr, routes: seq<Route>, ready: seq<Route>)
      requires Inv(t) && name in t.byName && Knows(Abs(t), name)
      requires ListsRegistry(Abs(t), name, routes) && RoutesBelong(t, t.byName[name], routes)
      requires forall r :: r in ready <==> r in routes && r.addr == addr
      ensures var u := Unregister(t, name, RouteIds(ready));
        u.Success? && Inv(u.value) && Abs(u.value) == RemoveAll(Abs(t), name, {addr})
    {
      ReadyIdsStandForAddr(t, name, addr, routes, ready);
      DeleteRefines(t, name, {addr}, RouteIds(ready));
      UnregisterRefines(t, name, RouteIds(ready));
    }

    /** The loop of UnregisterTaskCallbackSrv. */
    static method RoutesAt(routes: seq<Route>, addr: Addr) returns (readyDelRoutes: seq<Route>)
      ensures forall route :: route in readyDelRoutes <==> route in routes && route.addr == addr
    {
      readyDelRoutes := [];
      for i := 0 to |routes|
        invariant forall route :: route in readyDelRoutes <==> route in routes[..i] && route.addr == addr
      {
        assert routes[..i + 1] == routes[..i] + [routes[i]];
        if routes[i].addr == addr {
          readyDelRoutes := readyDelRoutes + [routes[i]];
        }
      }
      assert routes[..|routes|] == routes;
    }

    static lemma ReadyIdsStandForAddr(t: Tables, name: string, addr: Addr, routes: seq<Route>, ready: seq<Route>)
      requires Valid(t) && name in t.byName
      requires ListsRegistry(Abs(t), name, routes) && RoutesBelong(t, t.byName[name], routes)
      requires forall r :: r in ready <==> r in routes && r.addr == addr
      ensures IdsOf(t, name, {addr}, RouteIds(ready))
    {
      var s, ids := t.byName[name], RouteIds(ready);
      forall i | 0 <= i < |ids|
        ensures ids[i] in t.routes && KeyOfRow(t.routes[ids[i]]) == RouteKey(s, addr)
      {
        assert ready[i] in ready;
      }
      if Key(name, addr) in Abs(t) {
        var i :| 0 <= i < |routes| && routes[i].addr == addr;
        assert routes[i] in routes && routes[i] in ready;
        var k :| 0 <= k < |ready| && ready[k] == routes[i];
        assert ids[k] in ids && addr in AddrsOf(t, s, ids);
      }
    }

    /** The sweep: pages of flagged servers by offset until a page is empty. */
    method HealthCheck(isMaster: bool, srvOrder: seq<nat>, routeOrder: seq<nat>) returns (ok: bool)
      requires Valid(srvRepo.Tab())
      modifies this`queue
      ensures ok == isMaster
      ensures queue == old(queue) + if isMaster then AllToCheck(srvRepo.Tab(), srvOrder, routeOrder) else []
      ensures Scans(srvRepo.Tab(), srvOrder, routeOrder) ==>
        forall i :: |old(queue)| <= i < |queue| ==> ListsRoutes(srvRepo.Tab(), true, queue[i])
    {
      if !isMaster {
        return false;
      }
      SendAll(srvOrder, routeOrder);
      AllSentList(srvRepo.Tab(), srvOrder, routeOrder, old(queue), queue);
      return true;
    }

    static lemma AllSentList(t: Tables, srvOrder: seq<nat>, routeOrder: seq<nat>, before: seq<Srv>, queue: seq<Srv>)
      requires queue == before + AllToCheck(t, srvOrder, routeOrder)
      ensures Scans(t, srvOrder, routeOrder) ==>
        forall i :: |before| <= i < |queue| ==> ListsRoutes(t, true, queue[i])
    {
      if Scans(t, srvOrder, routeOrder) {
        forall i | |before| <= i < |queue|
          ensures ListsRoutes(t, true, queue[i])
        {
          SentLists(t, srvOrder, routeOrder, i - |before|);
        }
      }
    }

    /** Its loop. */
    method SendAll(srvOrder: seq<nat>, routeOrder: seq<nat>)
      requires Valid(srvRepo.Tab())
      modifies this`queue
      ensures queue == old(queue) + AllToCheck(srvRepo.Tab(), srvOrder, routeOrder)
    {
      ghost var all := AllToCheck(srvRepo.Tab(), srvOrder, routeOrder);
      var offset := 0;
      while true
        invariant 0 <= offset && queue == old(queue) + all[..Min(offset, |all|)]
        decreases |all| - offset
      {
        var page := HealthPageAt(offset, srvOrder, routeOrder);
        if |page| == 0 {
          break;
        }
        PageStep(old(queue), all, PAGE_SIZE, offset);
        offset := offset + PAGE_SIZE;
        Send(page);
      }
      assert all[..|all|] == all;
    }

    method HealthPageAt(offset: nat, srvOrder: seq<nat>, routeOrder: seq<nat>) returns (page: seq<Srv>)
      requires Valid(srvRepo.Tab())
      ensures page == Page(AllToCheck(srvRepo.Tab(), srvOrder, routeOrder), PAGE_SIZE, offset)
    {
      HealthPages(srvRepo.Tab(), PAGE_SIZE, offset, srvOrder, routeOrder);
      page := srvRepo.GetSrvs(HealthPage(PAGE_SIZE, offset), srvOrder, routeOrder);
    }

    /** The inner loop of HealthCheck: one channel send per server of the page. */
    method Send(page: seq<Srv>)
      modifies this`queue
      ensures queue == old(queue) + page
    {
      for i := 0 to |page|
        invariant queue == old(queue) + page[..i]
      {
        queue := queue + [page[i]];
        assert page[..i + 1] == page[..i] + [page[i]];
      }
      assert page[..|page|] == page;
    }

    /** One check worker's turn, given which of the probed routes did not answer. */
    method CheckSrv(srv: Srv, noReply: seq<Route>)
      requires Inv(srvRepo.Tab())
      modifies srvRepo
      ensures Inv(srvRepo.Tab())
      ensures Knows(old(Abs(srvRepo.Tab())), srv.name) ==>
        Abs(srvRepo.Tab()) == RemoveAll(old(Abs(srvRepo.Tab())), srv.name,
          AddrsOf(old(srvRepo.Tab()), old(srvRepo.byName)[srv.name], RouteIds(noReply)))
      ensures !Knows(old(Abs(srvRepo.Tab())), srv.name) ==> srvRepo.Tab() == old(srvRepo.Tab())
    {
      ghost var t := srvRepo.Tab();
      KnowsIffLive(t, srv.name);
      UnregisterRefines(t, srv.name, RouteIds(noReply));
      if Unregister(t, srv.name, RouteIds(noReply)).Success? {
        UnregisterKeepsInv(t, srv.name, RouteIds(noReply));
      }
      if |noReply| > 0 {
        var failed := srvRepo.DelSrvRoutes(Srv(srv.id, srv.name, noReply, true));
      } else if srv.name in t.byName {
        assert AddrsOf(t, t.byName[srv.name], []) == {};
        assert RouteIds(noReply) == [];
        assert RemoveAll(Abs(t), srv.name, {}) == Abs(t);
      }
    }
  }

  lemma SentOnce(t: Tables, srvOrder: seq<nat>, routeOrder: seq<nat>)
    requires Inv(t) && Scans(t, srvOrder, routeOrder)
    ensures var sent := AllToCheck(t, srvOrder, routeOrder); forall i, j :: 0 <= i < j < |sent| ==>
        sent[i].id != sent[j].id
  {
    FilterDistinct(srvOrder, Matching(t, HealthPage(0, 0)));
  }

  /** The place of a flagged live server in the list. */
  lemma SentAt(t: Tables, srvOrder: seq<nat>, routeOrder: seq<nat>, s: nat) returns (i: nat)
    requires Inv(t) && Scans(t, srvOrder, routeOrder) && LiveSrv(t, s) && t.srvs[s].hasEnableHealthCheck
    ensures var sent := AllToCheck(t, srvOrder, routeOrder);
      i < |sent| && sent[i].id == s && sent[i].routes == RoutesOf(t, true, s, routeOrder)
  {
    var ids := MatchingIds(t, HealthPage(0, 0), srvOrder);
    assert s in ids;
    i :| 0 <= i < |ids| && ids[i] == s;
  }

  lemma SentAreFlagged(t: Tables, srvOrder: seq<nat>, routeOrder: seq<nat>, i: nat)
    requires Inv(t) && Scans(t, srvOrder, routeOrder) && i < |AllToCheck(t, srvOrder, routeOrder)|
    ensures var s := AllToCheck(t, srvOrder, routeOrder)[i].id; LiveSrv(t, s) && t.srvs[s].hasEnableHealthCheck
  {
    var ids := MatchingIds(t, HealthPage(0, 0), srvOrder);
    assert ids[i] in ids;
  }

  lemma SentLists(t: Tables, srvOrder: seq<nat>, routeOrder: seq<nat>, i: nat)
    requires Scans(t, srvOrder, routeOrder) && i < |AllToCheck(t, srvOrder, routeOrder)|
    ensures ListsRoutes(t, true, AllToCheck(t, srvOrder, routeOrder)[i])
  {
    var ids := MatchingIds(t, HealthPage(0, 0), srvOrder);
    assert ids[i] in ids;
    EntityListsRoutes(t, true, ids[i], routeOrder);
  }

  /**
   Coverage: a sweep over a table that stays still sends every flagged server exactly once, each with exactly its live
   health-checked routes, and no live health-checked route is missed.
   */
  lemma HealthCoverage(t: Tables, srvOrder: seq<nat>, routeOrder: seq<nat>)
    requires Inv(t) && Scans(t, srvOrder, routeOrder)
    ensures var sent := AllToCheck(t, srvOrder, routeOrder);
      && (forall i, j :: 0 <= i < j < |sent| ==> sent[i].id != sent[j].id)
      && (forall s :: LiveSrv(t, s) && t.srvs[s].hasEnableHealthCheck <==>
        exists i :: 0 <= i < |sent| && sent[i].id == s)
      && (forall i :: 0 <= i < |sent| ==> ListsRoutes(t, true, sent[i]))
      && (forall r, s :: LiveRoute(t, r, s) && t.routes[r].enableHealthCheck ==>
            exists i :: 0 <= i < |sent| && sent[i].id == s)
  {
    var sent := AllToCheck(t, srvOrder, routeOrder);
    SentOnce(t, srvOrder, routeOrder);
    forall s | LiveSrv(t, s) && t.srvs[s].hasEnableHealthCheck
      ensures exists i :: 0 <= i < |sent| && sent[i].id == s
    {
      var i := SentAt(t, srvOrder, routeOrder, s);
    }
    forall i | 0 <= i < |sent|
      ensures LiveSrv(t, sent[i].id) && t.srvs[sent[i].id].hasEnableHealthCheck && ListsRoutes(t, true, sent[i])
    {
      SentAreFlagged(t, srvOrder, routeOrder, i);
      SentLists(t, srvOrder, routeOrder, i);
    }
    forall r, s | LiveRoute(t, r, s) && t.routes[r].enableHealthCheck
      ensures exists i :: 0 <= i < |sent| && sent[i].id == s
    {
      FlagShowsEveryCheckedRoute(t, srvOrder, routeOrder, r, s);
      var i := SentAt(t, srvOrder, routeOrder, s);
    }
  }

  // ---------------------------------------------------------------- what a check removes

  /** Rows and their keys are still there, whatever else has happened to them. */
  ghost predicate Later(t: Tables, v: Tables) {
    && Valid(t) && Valid(v)
    && (forall name :: name in t.byName ==> name in v.byName && v.byName[name] == t.byName[name])
    && (forall r :: r in t.routes ==> r in v.routes && KeyOfRow(v.routes[r]) == KeyOfRow(t.routes[r]))
  }

  function AddrsIn(routes: seq<Route>): set<Addr> {
    set route | route in routes :: route.addr
  }

  /** What a check worker does to the tables that it finds, given the routes that did not answer. */
  function AfterCheck(v: Tables, srv: Srv, noReply: seq<Route>): (u: Tables)
    requires Valid(v)
    ensures Valid(u)
  {
    match Unregister(v, srv.name, RouteIds(noReply)) case Success(u) => u case Failure(_) => v
  }

  /** A sent route was a health-checked entry of the registry when it was read. */
  lemma SentIsChecked(t: Tables, srv: Srv, route: Route)
    requires Valid(t) && ListsRoutes(t, true, srv) && route in srv.routes
    ensures srv.name in t.byName && t.byName[srv.name] == srv.id
    ensures route.id in t.routes && KeyOfRow(t.routes[route.id]) == RouteKey(srv.id, route.addr)
    ensures Key(srv.name, route.addr) in Abs(t) && Abs(t)[Key(srv.name, route.addr)].enableHealthCheck
  {
    assert SrvIndexed(t, srv.id);
    RouteOfKey(t, route.id);
  }

  lemma SilentIdsOf(t: Tables, v: Tables, srv: Srv, noReply: seq<Route>)
    requires Later(t, v) && ListsRoutes(t, true, srv) && forall route :: route in noReply ==> route in srv.routes
    ensures IdsOf(v, srv.name, AddrsIn(noReply), RouteIds(noReply))
  {
    assert SrvIndexed(t, srv.id);
    var ids, s := RouteIds(noReply), srv.id;
    forall i | 0 <= i < |noReply|
      ensures ids[i] in v.routes && KeyOfRow(v.routes[ids[i]]) == RouteKey(s, noReply[i].addr)
    {
      assert noReply[i] in noReply;
      SentIsChecked(t, srv, noReply[i]);
    }
    forall a | Key(srv.name, a) in Abs(v)
      ensures a in AddrsOf(v, s, ids) <==> a in AddrsIn(noReply)
    {
      if a in AddrsIn(noReply) {
        var route :| route in noReply && route.addr == a;
        var i :| 0 <= i < |noReply| && noReply[i] == route;
        assert ids[i] in ids;
      }
      if a in AddrsOf(v, s, ids) {
        var r :| r in ids && r in v.routes && KeyOfRow(v.routes[r]) == RouteKey(s, a);
        var i :| 0 <= i < |ids| && ids[i] == r;
        assert noReply[i] in noReply;
      }
    }
  }

  lemma CheckRemovesSilent(t: Tables, v: Tables, srv: Srv, noReply: seq<Route>)
    requires Inv(v) && Later(t, v) && ListsRoutes(t, true, srv)
    requires forall route :: route in noReply ==> route in srv.routes
    ensures Inv(AfterCheck(v, srv, noReply))
    ensures Abs(AfterCheck(v, srv, noReply)) == RemoveAll(Abs(v), srv.name, AddrsIn(noReply))
  {
    SilentIdsOf(t, v, srv, noReply);
    DeleteRefines(v, srv.name, AddrsIn(noReply), RouteIds(noReply));
  }

  /**
   A check of a sent server, made whenever and on whatever tables have come of those that the sweep read, removes
   exactly the routes that did not answer, and each of them was health-checked when the sweep read it. In particular
   no entry without health checks is removed while the tables stay as they are.
   */
  lemma CheckRemovesOnlyChecked(t: Tables, v: Tables, srvOrder: seq<nat>, routeOrder: seq<nat>, i: nat,
                                noReply: seq<Route>)
    requires Inv(t) && Inv(v) && Scans(t, srvOrder, routeOrder) && Later(t, v)
    requires i < |AllToCheck(t, srvOrder, routeOrder)|
    requires forall route :: route in noReply ==> route in AllToCheck(t, srvOrder, routeOrder)[i].routes
    ensures var srv := AllToCheck(t, srvOrder, routeOrder)[i];
      && Inv(AfterCheck(v, srv, noReply))
      && Abs(AfterCheck(v, srv, noReply)) == RemoveAll(Abs(v), srv.name, AddrsIn(noReply))
      && (forall k :: k in Abs(v) && k !in Abs(AfterCheck(v, srv, noReply)) ==>
            k in Abs(t) && Abs(t)[k].enableHealthCheck)
      && (t == v ==> forall k :: k in Abs(t) && !Abs(t)[k].enableHealthCheck ==>
            k in Abs(AfterCheck(v, srv, noReply)) && Abs(AfterCheck(v, srv, noReply))[k] == Abs(t)[k])
  {
    var srv := AllToCheck(t, srvOrder, routeOrder)[i];
    SentLists(t, srvOrder, routeOrder, i);
    CheckRemovesSilent(t, v, srv, noReply);
    forall k | k in Abs(v) && k !in RemoveAll(Abs(v), srv.name, AddrsIn(noReply))
      ensures k in Abs(t) && Abs(t)[k].enableHealthCheck
    {
      var route :| route in noReply && route.addr == k.addr;
      SentIsChecked(t, srv, route);
    }
  }

  lemma StepKeepsNames(t: Tables, op: Op, u: Tables, name: string)
    requires Inv(t) && Step(t, op, u) && name in t.byName
    ensures name in u.byName && u.byName[name] == t.byName[name]
  {
    match op
    case Add(n, first, more) => RegisterKeepsNames(t, n, [first] + more, name);
    case Delete(n, addrs) =>
  }

  lemma RegisterKeepsNames(t: Tables, n: string, rs: seq<Route>, name: string)
    requires Valid(t) && name in t.byName
    ensures name in Register(t, n, rs).byName && Register(t, n, rs).byName[name] == t.byName[name]
  {
    var (t1, s) := EnsureSrv(t, n);
    assert PutRoutes(t1, s, rs).byName == t1.byName;
  }

  lemma StepIsLater(t: Tables, op: Op, u: Tables)
    requires Inv(t) && Step(t, op, u)
    ensures Inv(u) && Later(t, u)
  {
    StepRefines(t, op, u);
    LaterByRows(t, op, u);
  }

  lemma LaterByRows(t: Tables, op: Op, u: Tables)
    requires Inv(t) && Step(t, op, u) && Valid(u)
    ensures Later(t, u)
  {
    forall name | name in t.byName
      ensures name in u.byName && u.byName[name] == t.byName[name]
    {
      StepKeepsNames(t, op, u, name);
    }
    forall r | r in t.routes
      ensures r in u.routes && KeyOfRow(u.routes[r]) == KeyOfRow(t.routes[r])
    {
      StepKeepsIds(t, op, u, r);
    }
  }

  /** Every sequence of calls leads to such later tables. */
  lemma {:induction false} RunIsLater(ts: seq<Tables>, ops: seq<Op>, i: nat, j: nat)
    requires Run(ts, ops) && i <= j <= |ops|
    ensures Inv(ts[i]) && Inv(ts[j]) && Later(ts[i], ts[j])
    decreases j
  {
    if i < j {
      RunIsLater(ts, ops, i, j - 1);
      assert Step(ts[j - 1], ops[j - 1], ts[j]);
      StepIsLater(ts[j - 1], ops[j - 1], ts[j]);
    } else {
      assert Run(ts[..i + 1], ops[..i]);
      RunRefines(ts[..i + 1], ops[..i]);
    }
  }

  /**
   Between a sweep and its check the health checks of a route may be switched off; the check then removes an entry
   that no longer asks for any.
   */
  lemma LateCheckRemovesUnchecked(addr: Addr)
    returns (ts: seq<Tables>, srvOrder: seq<nat>, routeOrder: seq<nat>, srv: Srv, noReply: seq<Route>)
    ensures Run(ts, SwitchOff(addr)) && Inv(ts[1]) && Inv(ts[2]) && Scans(ts[1], srvOrder, routeOrder)
    ensures srv in AllToCheck(ts[1], srvOrder, routeOrder) && forall route :: route in noReply ==> route in srv.routes
    ensures Abs(ts[2]) == map[Key("srv", addr) := Info(5, false)] && Abs(AfterCheck(ts[2], srv, noReply)) == map[]
  {
    ts := RunSwitchOff(addr);
    var t, v, k := ts[1], ts[2], Key("srv", addr);
    srvOrder, routeOrder := SomeOrders(t);
    srv, noReply := EntryIsSilent(t, srvOrder, routeOrder, k);
    LastEntryRemoved(t, v, srv, noReply, k, Info(5, false));
  }

  lemma LastEntryRemoved(t: Tables, v: Tables, srv: Srv, noReply: seq<Route>, k: Key, info: Info)
    requires Inv(v) && Later(t, v) && Abs(v) == map[k := info] && srv.name == k.name && AddrsIn(noReply) == {k.addr}
    requires ListsRoutes(t, true, srv) && forall route :: route in noReply ==> route in srv.routes
    ensures Abs(AfterCheck(v, srv, noReply)) == map[]
  {
    CheckRemovesSilent(t, v, srv, noReply);
    OneEntryRemoved(k, info);
  }

  lemma RunSwitchOff(addr: Addr) returns (ts: seq<Tables>)
    ensures Run(ts, SwitchOff(addr)) && Inv(ts[1]) && Inv(ts[2]) && Later(ts[1], ts[2])
    ensures Abs(ts[1]) == map[Key("srv", addr) := Info(5, true)]
    ensures Abs(ts[2]) == map[Key("srv", addr) := Info(5, false)]
  {
    var ops := SwitchOff(addr);
    ts := RunExists(ops);
    AfterSwitchOff(addr);
    RunRefines(ts, ops);
    assert Run(ts[..2], ops[..1]);
    RunRefines(ts[..2], ops[..1]);
    RunIsLater(ts, ops, 1, 2);
  }

  lemma OneEntryRemoved(k: Key, info: Info)
    ensures RemoveAll(map[k := info], k.name, {k.addr}) == map[]
  {
  }

  lemma SomeOrders(t: Tables) returns (srvOrder: seq<nat>, routeOrder: seq<nat>)
    ensures Scans(t, srvOrder, routeOrder)
  {
    srvOrder, routeOrder := Ascending(t.srvs.Keys), Ascending(t.routes.Keys);
  }

  /** The route of a health-checked entry may be the one that does not answer. */
  lemma EntryIsSilent(t: Tables, srvOrder: seq<nat>, routeOrder: seq<nat>, k: Key)
    returns (srv: Srv, noReply: seq<Route>)
    requires Inv(t) && Scans(t, srvOrder, routeOrder) && k in Abs(t) && Abs(t)[k].enableHealthCheck
    ensures srv in AllToCheck(t, srvOrder, routeOrder) && srv.name == k.name && ListsRoutes(t, true, srv)
    ensures (forall route :: route in noReply ==> route in srv.routes) && AddrsIn(noReply) == {k.addr}
  {
    var route;
    srv, route := SentForEntry(t, srvOrder, routeOrder, k);
    noReply := [route];
  }

  /** Every health-checked entry is sent under its name. */
  lemma SentForEntry(t: Tables, srvOrder: seq<nat>, routeOrder: seq<nat>, k: Key) returns (srv: Srv, route: Route)
    requires Inv(t) && Scans(t, srvOrder, routeOrder) && k in Abs(t) && Abs(t)[k].enableHealthCheck
    ensures srv in AllToCheck(t, srvOrder, routeOrder) && srv.name == k.name && ListsRoutes(t, true, srv)
    ensures route in srv.routes && route.addr == k.addr
  {
    var r := RouteAt(t, k).value;
    var s := t.routes[r].srvId;
    assert RouteIndexed(t, r);
    FlagShowsEveryCheckedRoute(t, srvOrder, routeOrder, r, s);
    var i := SentAt(t, srvOrder, routeOrder, s);
    SentLists(t, srvOrder, routeOrder, i);
    srv := AllToCheck(t, srvOrder, routeOrder)[i];
    var n :| 0 <= n < |srv.routes| && srv.routes[n].id == r;
    route := srv.routes[n];
  }

  function SwitchOff(addr: Addr): seq<Op> {
    [Add("srv", Route(0, addr, 5, true), []), Add("srv", Route(0, addr, 5, false), [])]
  }

  lemma AfterSwitchOff(addr: Addr)
    ensures AbsRun(SwitchOff(addr)[..1]) == map[Key("srv", addr) := Info(5, true)]
    ensures AbsRun(SwitchOff(addr)) == map[Key("srv", addr) := Info(5, false)]
  {
    var on, off := Route(0, addr, 5, true), Route(0, addr, 5, false);
    assert SwitchOff(addr)[..1] == [] + [Add("srv", on, [])];
    AbsRunSnoc([], Add("srv", on, []));
    AddAllOne(AbsRun([]), "srv", on);
    assert SwitchOff(addr) == SwitchOff(addr)[..1] + [Add("srv", off, [])];
    AbsRunSnoc(SwitchOff(addr)[..1], Add("srv", off, []));
    AddAllOne(AbsRun(SwitchOff(addr)[..1]), "srv", off);
  }
}
