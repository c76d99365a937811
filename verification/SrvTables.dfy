/**
 The tombstoned tables of callback servers and of their routes, and what the SQL of
 internal/task/impl/repo/mysql/task_srv_repo.go does to them.
 Rows are never removed: a delete sets `deleted_at`, an add of the same key clears it again.
 */
module SrvTables {
  import opened Wrappers

  datatype Addr = Addr(schema: string, host: string, port: int)

  /** `deleted` stands for `deleted_at > 0`. */
  datatype SrvRow = SrvRow(name: string, deleted: bool, hasEnableHealthCheck: bool)

  datatype RouteRow = RouteRow(srvId: nat, addr: Addr, timeoutSec: int, enableHealthCheck: bool, deleted: bool)

  datatype RouteKey = RouteKey(srvId: nat, addr: Addr)

  /** `byName` and `byAddr` are the two unique indexes; like the indexes they cover deleted rows too. */
  datatype Tables = Tables(
    srvs: map<nat, SrvRow>, byName: map<string, nat>, nextSrvId: nat,
    routes: map<nat, RouteRow>, byAddr: map<RouteKey, nat>, nextRouteId: nat)

  /** The entities handed to and from the repository; `id` is ignored when a route is registered. */
  datatype Route = Route(id: nat, addr: Addr, timeoutSec: int, enableHealthCheck: bool)

  datatype Srv = Srv(id: nat, name: string, routes: seq<Route>, hasEnableHealthCheck: bool)

  const EMPTY_TABLES := Tables(map[], map[], 1, map[], map[], 1)

  // ---------------------------------------------------------------- invariants

  /** Primary keys, foreign keys, and indexes that agree with the rows. */
  ghost predicate Valid(t: Tables) {
    && 0 < t.nextSrvId && 0 < t.nextRouteId
    && (forall s :: s in t.srvs ==> SrvIndexed(t, s))
    && (forall n :: n in t.byName ==> t.byName[n] in t.srvs && t.srvs[t.byName[n]].name == n)
    && (forall r :: r in t.routes ==> RouteIndexed(t, r))
    && (forall k :: k in t.byAddr ==> t.byAddr[k] in t.routes && KeyOfRow(t.routes[t.byAddr[k]]) == k)
  }

  function KeyOfRow(row: RouteRow): RouteKey {
    RouteKey(row.srvId, row.addr)
  }

  ghost predicate SrvIndexed(t: Tables, s: nat)
    requires s in t.srvs
  {
    0 < s < t.nextSrvId && t.srvs[s].name in t.byName && t.byName[t.srvs[s].name] == s
  }

  ghost predicate RouteIndexed(t: Tables, r: nat)
    requires r in t.routes
  {
    && 0 < r < t.nextRouteId && t.routes[r].srvId in t.srvs
    && KeyOfRow(t.routes[r]) in t.byAddr && t.byAddr[KeyOfRow(t.routes[r])] == r
  }

  predicate LiveSrv(t: Tables, s: nat) {
    s in t.srvs && !t.srvs[s].deleted
  }

  predicate LiveRoute(t: Tables, r: nat, s: nat) {
    r in t.routes && t.routes[r].srvId == s && !t.routes[r].deleted
  }

  ghost predicate HasLiveRoute(t: Tables, s: nat) {
    exists r :: LiveRoute(t, r, s)
  }

  /** A server row is live exactly when it has a live route. */
  ghost predicate LiveTogether(t: Tables) {
    forall s :: s in t.srvs ==> (LiveSrv(t, s) <==> HasLiveRoute(t, s))
  }

  /** A server with a live health-checked route has its flag set. */
  ghost predicate FlagCovers(t: Tables) {
    forall s, r :: s in t.srvs && LiveRoute(t, r, s) && t.routes[r].enableHealthCheck
      ==> t.srvs[s].hasEnableHealthCheck
  }

  ghost predicate Inv(t: Tables) {
    Valid(t) && LiveTogether(t) && FlagCovers(t)
  }

  // ---------------------------------------------------------------- the statements

  /** SELECT over the unique name index, deleted rows included. */
  function FindSrv(t: Tables, name: string): Option<nat> {
    if name in t.byName then Some(t.byName[name]) else None
  }

  /** SELECT over the unique (server, schema, host, port) index, deleted rows included. */
  function FindRoute(t: Tables, s: nat, addr: Addr): Option<nat> {
    if RouteKey(s, addr) in t.byAddr then Some(t.byAddr[RouteKey(s, addr)]) else None
  }

  /** First-or-create of the server row, revived when it was deleted. */
  function EnsureSrv(t: Tables, name: string): (r: (Tables, nat))
    requires Valid(t)
    ensures Valid(r.0) && LiveSrv(r.0, r.1) && r.0.srvs[r.1].name == name
  {
    match FindSrv(t, name)
    case None =>
      (t.(srvs := t.srvs[t.nextSrvId := SrvRow(name, false, false)], byName := t.byName[name := t.nextSrvId],
          nextSrvId := t.nextSrvId + 1),
       t.nextSrvId)
    case Some(s) => (t.(srvs := t.srvs[s := t.srvs[s].(deleted := false)]), s)
  }

  /** First-or-create of one route row; an existing row is revived and takes the new settings. */
  function PutRoute(t: Tables, s: nat, r: Route): (u: Tables)
    requires Valid(t) && s in t.srvs
    ensures Valid(u) && u.srvs == t.srvs && u.byName == t.byName
  {
    match FindRoute(t, s, r.addr)
    case None =>
      t.(routes := t.routes[t.nextRouteId := RouteRow(s, r.addr, r.timeoutSec, r.enableHealthCheck, false)],
         byAddr := t.byAddr[RouteKey(s, r.addr) := t.nextRouteId],
         nextRouteId := t.nextRouteId + 1)
    case Some(q) =>
      var row := t.routes[q].(deleted := false, timeoutSec := r.timeoutSec, enableHealthCheck := r.enableHealthCheck);
      t.(routes := t.routes[q := row])
  }

  function PutRoutes(t: Tables, s: nat, rs: seq<Route>): (u: Tables)
    requires Valid(t) && s in t.srvs
    ensures Valid(u) && u.srvs == t.srvs && u.byName == t.byName
  {
    if rs == [] then t else PutRoute(PutRoutes(t, s, rs[..|rs| - 1]), s, rs[|rs| - 1])
  }

  predicate AnyHealthChecked(rs: seq<Route>) {
    exists i :: 0 <= i < |rs| && rs[i].enableHealthCheck
  }

  function RaiseFlag(t: Tables, s: nat, raise: bool): (u: Tables)
    requires s in t.srvs
    ensures Valid(t) ==> Valid(u)
  {
    if raise then t.(srvs := t.srvs[s := t.srvs[s].(hasEnableHealthCheck := true)]) else t
  }

  /** AddSrvRoutes as one step. */
  function Register(t: Tables, name: string, rs: seq<Route>): (u: Tables)
    requires Valid(t)
    ensures Valid(u)
  {
    var (t1, s) := EnsureSrv(t, name);
    RaiseFlag(PutRoutes(t1, s, rs), s, AnyHealthChecked(rs))
  }

  /** UPDATE .. SET deleted_at WHERE srv_id = s AND id IN ids AND deleted_at = 0. */
  function DropRoutes(t: Tables, s: nat, ids: seq<nat>): (u: Tables)
    ensures Valid(t) ==> Valid(u)
  {
    t.(routes := map r | r in t.routes ::
      if t.routes[r].srvId == s && r in ids then t.routes[r].(deleted := true) else t.routes[r])
  }

  function LiveRoutes(t: Tables, s: nat): set<nat> {
    set r | r in t.routes && LiveRoute(t, r, s)
  }

  /** IF(cond, 1, 0): a value, never NULL, on both branches. */
  function SqlIf(cond: bool): Option<int> {
    Some(if cond then 1 else 0)
  }

  /** COUNT(IF(enable_health_check > 0, 1, 0)): the rows whose expression is not NULL. */
  function CountedAsHealthChecked(t: Tables, s: nat): set<nat> {
    set r | r in t.routes && LiveRoute(t, r, s) && SqlIf(t.routes[r].enableHealthCheck).Some?
  }

  datatype SrvError = SrvNotFound

  /** UPDATE .. SET deleted_at = 0 of one server row. */
  function ReviveSrv(t: Tables, s: nat): (u: Tables)
    requires s in t.srvs
    ensures Valid(t) ==> Valid(u)
  {
    t.(srvs := t.srvs[s := t.srvs[s].(deleted := false)])
  }

  /** UPDATE .. SET has_enable_health_check = 0 of one server row. */
  function ClearFlag(t: Tables, s: nat): (u: Tables)
    requires s in t.srvs
    ensures Valid(t) ==> Valid(u)
  {
    t.(srvs := t.srvs[s := t.srvs[s].(hasEnableHealthCheck := false)])
  }

  /** DELETE of one server row. */
  function DropSrv(t: Tables, s: nat): (u: Tables)
    requires s in t.srvs
    ensures Valid(t) ==> Valid(u)
  {
    t.(srvs := t.srvs[s := t.srvs[s].(deleted := true)])
  }

  /** The tail of DelSrvRoutes: without live routes the server goes too, without counted ones its flag is cleared. */
  function Settle(t: Tables, s: nat): (u: Tables)
    requires s in t.srvs
    ensures Valid(t) ==> Valid(u)
  {
    if |LiveRoutes(t, s)| == 0 then DropSrv(t, s)
    else if |CountedAsHealthChecked(t, s)| == 0 && t.srvs[s].hasEnableHealthCheck then ClearFlag(t, s)
    else t
  }

  /** DelSrvRoutes as one step. */
  function Unregister(t: Tables, name: string, ids: seq<nat>): (u: Result<Tables, SrvError>)
    requires Valid(t)
    ensures u.Success? ==> Valid(u.value)
    ensures u.Failure? <==> (forall s :: LiveSrv(t, s) ==> t.srvs[s].name != name)
  {
    match FindSrv(t, name)
    case None => Failure(SrvNotFound)
    case Some(s) =>
      if t.srvs[s].deleted then Failure(SrvNotFound) else Success(Settle(DropRoutes(t, s, ids), s))
  }
}
