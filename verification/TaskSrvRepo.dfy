/** The repository of callback servers, internal/task/impl/repo/mysql/task_srv_repo.go, over tables held in fields. */
module SrvRepo {
  import opened Wrappers
  import opened Selections
  import opened SrvTables
  import opened SrvQueries

  /** The value a Go map of slices has at `s`: the empty slice when the key is missing. */
  function Group(m: map<nat, seq<nat>>, s: nat): seq<nat> {
    if s in m then m[s] else []
  }

  function RouteIds(rs: seq<Route>): (ids: seq<nat>)
    ensures |ids| == |rs| && forall i :: 0 <= i < |rs| ==> ids[i] == rs[i].id
  {
    seq(|rs|, i requires 0 <= i < |rs| => rs[i].id)
  }

  function OfSrv(t: Tables, s: nat): nat -> bool {
    r => r in t.routes && t.routes[r].srvId == s
  }

  /** WHERE srv_id IN srvIds, live, and with health checks when only those are asked for. */
  function Fetched(t: Tables, only: bool, srvIds: seq<nat>): nat -> bool {
    r => r in t.routes && !t.routes[r].deleted && t.routes[r].srvId in srvIds && (only ==>
      t.routes[r].enableHealthCheck)
  }

  class TaskSrvRepo {
    var srvs: map<nat, SrvRow>
    var byName: map<string, nat>
    var nextSrvId: nat
    var routes: map<nat, RouteRow>
    var byAddr: map<RouteKey, nat>
    var nextRouteId: nat

    function Tab(): Tables
      reads this
    {
      Tables(srvs, byName, nextSrvId, routes, byAddr, nextRouteId)
    }

    constructor ()
      ensures Tab() == EMPTY_TABLES && Inv(Tab())
    {
      srvs, byName, nextSrvId, routes, byAddr, nextRouteId := map[], map[], 1, map[], map[], 1;
    }

    /** The server row of AddSrvRoutes: found by name, deleted rows included, or created; revived when deleted. */
    method FirstOrCreateSrv(name: string) returns (srvId: nat)
      requires Valid(Tab())
      modifies this
      ensures (Tab(), srvId) == EnsureSrv(old(Tab()), name)
    {
      var found := FindSrv(Tab(), name);
      if found.None? {
        srvId := nextSrvId;
        srvs, byName, nextSrvId := srvs[srvId := SrvRow(name, false, false)], byName[name := srvId], srvId + 1;
      } else {
        srvId := found.value;
        if srvs[srvId].deleted {
          srvs := srvs[srvId := srvs[srvId].(deleted := false)];
        } else {
          assert srvs == srvs[srvId := srvs[srvId].(deleted := false)];
        }
      }
    }

    /** The loop body of AddSrvRoutes: one route row created, or revived and updated. */
    method FirstOrCreateRoute(srvId: nat, route: Route)
      requires Valid(Tab()) && srvId in srvs
      modifies this
      ensures Tab() == PutRoute(old(Tab()), srvId, route)
    {
      var row := FindRoute(Tab(), srvId, route.addr);
      if row.None? {
        routes := routes[nextRouteId := RouteRow(srvId, route.addr, route.timeoutSec, route.enableHealthCheck, false)];
        byAddr := byAddr[RouteKey(srvId, route.addr) := nextRouteId];
        nextRouteId := nextRouteId + 1;
      } else {
        var model := routes[row.value];
        var update := model.(deleted := false, enableHealthCheck := route.enableHealthCheck);
        if route.timeoutSec != model.timeoutSec {
          update := update.(timeoutSec := route.timeoutSec);
        }
        routes := routes[row.value := update];
      }
    }

    method AddSrvRoutes(srv: Srv)
      requires Valid(Tab())
      modifies this
      ensures Tab() == Register(old(Tab()), srv.name, srv.routes)
    {
      var srvId := FirstOrCreateSrv(srv.name);
      var hasEnableHealthCheck := PutAll(srvId, srv.routes);
      if hasEnableHealthCheck {
        if !srvs[srvId].hasEnableHealthCheck {
          srvs := srvs[srvId := srvs[srvId].(hasEnableHealthCheck := true)];
        } else {
          assert srvs == srvs[srvId := srvs[srvId].(hasEnableHealthCheck := true)];
        }
      }
    }

    /** The loop of AddSrvRoutes; reports whether a route wants health checks. */
    method PutAll(srvId: nat, rs: seq<Route>) returns (hasEnableHealthCheck: bool)
      requires Valid(Tab()) && srvId in srvs
      modifies this
      ensures Tab() == PutRoutes(old(Tab()), srvId, rs)
      ensures hasEnableHealthCheck == AnyHealthChecked(rs)
    {
      ghost var t := Tab();
      hasEnableHealthCheck := false;
      for i := 0 to |rs|
        invariant Valid(Tab()) && srvId in srvs && Tab() == PutRoutes(t, srvId, rs[..i])
        invariant hasEnableHealthCheck == AnyHealthChecked(rs[..i])
      {
        AnyHealthCheckedNext(rs, i);
        if rs[i].enableHealthCheck && !hasEnableHealthCheck {
          hasEnableHealthCheck := true;
        }
        FirstOrCreateRoute(srvId, rs[i]);
        assert rs[..i + 1][..i] == rs[..i];
      }
      assert rs[..|rs|] == rs;
    }

    static lemma AnyHealthCheckedNext(rs: seq<Route>, i: nat)
      requires i < |rs|
      ensures AnyHealthChecked(rs[..i + 1]) <==> AnyHealthChecked(rs[..i]) || rs[i].enableHealthCheck
    {
      assert rs[..i + 1][i] == rs[i];
      assert forall k :: 0 <= k < i ==> rs[..i + 1][k] == rs[..i][k];
    }

    method DelSrvRoutes(srv: Srv) returns (failed: Option<SrvError>)
      requires Valid(Tab())
      modifies this
      ensures match Unregister(old(Tab()), srv.name, RouteIds(srv.routes))
        case Failure(e) => failed == Some(e) && Tab() == old(Tab())
        case Success(u) => failed == None && Tab() == u
    {
      var found := FindSrv(Tab(), srv.name);
      if found.None? {
        return Some(SrvNotFound);
      }
      var srvId := found.value;
      if srvs[srvId].deleted {
        return Some(SrvNotFound);
      }
      var routeIds := [];
      for i := 0 to |srv.routes|
        invariant routeIds == RouteIds(srv.routes[..i])
      {
        routeIds := routeIds + [srv.routes[i].id];
      }
      assert srv.routes[..|srv.routes|] == srv.routes;
      DropAndCount(srvId, routeIds);
      return None;
    }

    /** The statements of DelSrvRoutes after the server row was found. */
    method DropAndCount(srvId: nat, routeIds: seq<nat>)
      requires Valid(Tab()) && LiveSrv(Tab(), srvId)
      modifies this
      ensures Unregister(old(Tab()), old(srvs[srvId].name), routeIds) == Success(Tab())
    {
      assert SrvIndexed(Tab(), srvId);
      routes := DropRoutes(Tab(), srvId, routeIds).routes;
      var total := |LiveRoutes(Tab(), srvId)|;
      var healthChecked := |CountedAsHealthChecked(Tab(), srvId)|;
      if total == 0 {
        srvs := srvs[srvId := srvs[srvId].(deleted := true)];
      } else if healthChecked == 0 && srvs[srvId].hasEnableHealthCheck {
        srvs := srvs[srvId := srvs[srvId].(hasEnableHealthCheck := false)];
      }
    }

    /** The loop of GetSrvs that fills the map from a server to its route models. */
    static method GroupBySrv(t: Tables, routeIds: seq<nat>) returns (routesOfSrv: map<nat, seq<nat>>)
      requires forall r :: r in routeIds ==> r in t.routes
      ensures forall s :: Group(routesOfSrv, s) == Filter(routeIds, OfSrv(t, s))
    {
      routesOfSrv := map[];
      for i := 0 to |routeIds|
        invariant forall s :: Group(routesOfSrv, s) == Filter(routeIds[..i], OfSrv(t, s))
      {
        assert routeIds[i] in routeIds;
        var s := t.routes[routeIds[i]].srvId;
        ghost var before := routesOfSrv;
        routesOfSrv := routesOfSrv[s := Group(routesOfSrv, s) + [routeIds[i]]];
        assert routeIds[..i + 1] == routeIds[..i] + [routeIds[i]];
        forall o
          ensures Group(routesOfSrv, o) == Filter(routeIds[..i + 1], OfSrv(t, o))
        {
          assert Group(before, o) == Filter(routeIds[..i], OfSrv(t, o));
          FilterAppend(routeIds[..i], routeIds[i], OfSrv(t, o));
        }
      }
      assert routeIds[..|routeIds|] == routeIds;
    }

    /** The last loop of GetSrvs: one entity per server model. */
    static method BuildSrvs(t: Tables, only: bool, srvIds: seq<nat>, routeOrder: seq<nat>, routesOfSrv: map<nat,
                            seq<nat>>)
      returns (found: seq<Srv>)
      requires forall s :: s in srvIds ==> s in t.srvs
      requires forall s :: s in srvIds ==> Group(routesOfSrv, s) == Filter(routeOrder, ShownBy(t, only, s))
      ensures found == SrvEntities(t, only, srvIds, routeOrder)
    {
      found := [];
      for i := 0 to |srvIds|
        invariant |found| == i
        invariant forall k :: 0 <= k < i ==> found[k] == SrvEntities(t, only, srvIds, routeOrder)[k]
      {
        var s := srvIds[i];
        assert s in srvIds;
        found := found + [Srv(s, t.srvs[s].name, RouteEntities(t, Group(routesOfSrv, s)),
            t.srvs[s].hasEnableHealthCheck)];
      }
    }

    method GetSrvs(q: SrvQuery, srvOrder: seq<nat>, routeOrder: seq<nat>) returns (found: seq<Srv>)
      requires Valid(Tab())
      ensures found == Select(Tab(), q, srvOrder, routeOrder)
      ensures Scans(Tab(), srvOrder, routeOrder) ==>
        forall i :: 0 <= i < |found| ==> ListsRoutes(Tab(), q.onlyHealthChecked, found[i])
    {
      var t := Tab();
      if Scans(t, srvOrder, routeOrder) {
        SelectListsRoutes(t, q, srvOrder, routeOrder);
      }
      var srvIds := PageIds(t, q, srvOrder);
      if |srvIds| == 0 {
        return [];
      }
      var routeIds := Filter(routeOrder, Fetched(t, q.onlyHealthChecked, srvIds));
      var routesOfSrv := GroupBySrv(t, routeIds);
      forall s | s in srvIds {
        GroupIsRoutesOf(t, q.onlyHealthChecked, srvIds, s, routeOrder);
      }
      found := BuildSrvs(t, q.onlyHealthChecked, srvIds, routeOrder, routesOfSrv);
    }

    /** Grouping the fetched routes by server gives each server its own shown routes, in scan order. */
    static lemma GroupIsRoutesOf(t: Tables, only: bool, srvIds: seq<nat>, s: nat, routeOrder: seq<nat>)
      requires s in srvIds
      ensures Filter(Filter(routeOrder, Fetched(t, only, srvIds)), OfSrv(t, s))
        == Filter(routeOrder, ShownBy(t, only, s))
    {
      FilterFilter(routeOrder, Fetched(t, only, srvIds), OfSrv(t, s), ShownBy(t, only, s));
    }

    method GetSrvsByIds(ids: seq<nat>, srvOrder: seq<nat>, routeOrder: seq<nat>) returns (found: seq<Srv>)
      requires Valid(Tab())
      ensures found == Select(Tab(), ByIds(ids), srvOrder, routeOrder)
    {
      found := GetSrvs(ByIds(ids), srvOrder, routeOrder);
    }
  }
}
