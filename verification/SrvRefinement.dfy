/**
 The registry tables refine a plain map from (server name, address) to the settings of a live route,
 and keep their invariants, over every sequence of registrations and deletions.
 */
module SrvRefinement {
  import opened Wrappers
  import opened Selections
  import opened SrvTables

  datatype Info = Info(timeoutSec: int, enableHealthCheck: bool)

  datatype Key = Key(name: string, addr: Addr)

  type RouteMap = map<Key, Info>

  function KeyOf(t: Tables, r: nat): Key
    requires r in t.routes && t.routes[r].srvId in t.srvs
  {
    Key(t.srvs[t.routes[r].srvId].name, t.routes[r].addr)
  }

  function RouteAt(t: Tables, k: Key): Option<nat>
    requires Valid(t)
  {
    if k.name in t.byName then FindRoute(t, t.byName[k.name], k.addr) else None
  }

  /** What the live rows say about one key. */
  function Lookup(t: Tables, k: Key): Option<Info>
    requires Valid(t)
  {
    match RouteAt(t, k)
    case None => None
    case Some(r) =>
      if t.routes[r].deleted then None else Some(Info(t.routes[r].timeoutSec, t.routes[r].enableHealthCheck))
  }

  /** The registry that the live rows stand for. */
  function Abs(t: Tables): (m: RouteMap)
    requires Valid(t)
    ensures forall k :: if Lookup(t, k).Some? then k in m && m[k] == Lookup(t, k).value else k !in m
  {
    var keys := set r | r in t.routes :: KeyOf(t, r);
    assert forall k :: RouteAt(t, k).Some? ==> KeyOf(t, RouteAt(t, k).value) == k;
    map k | k in keys && Lookup(t, k).Some? :: Lookup(t, k).value
  }

  /** Route rows and the keys of the registry name each other. */
  lemma RouteOfKey(t: Tables, r: nat)
    requires Valid(t) && r in t.routes
    ensures RouteAt(t, KeyOf(t, r)) == Some(r)
  {
    assert SrvIndexed(t, t.routes[r].srvId) && RouteIndexed(t, r);
  }

  // ---------------------------------------------------------------- the plain registry

  function AddOne(m: RouteMap, name: string, r: Route): RouteMap {
    m[Key(name, r.addr) := Info(r.timeoutSec, r.enableHealthCheck)]
  }

  function AddAll(m: RouteMap, name: string, rs: seq<Route>): RouteMap {
    if rs == [] then m else AddOne(AddAll(m, name, rs[..|rs| - 1]), name, rs[|rs| - 1])
  }

  function RemoveAll(m: RouteMap, name: string, addrs: set<Addr>): RouteMap {
    map k | k in m && !(k.name == name && k.addr in addrs) :: m[k]
  }

  ghost predicate Knows(m: RouteMap, name: string) {
    exists k :: k in m && k.name == name
  }

  // ---------------------------------------------------------------- adding routes

  lemma PutRouteLookup(t: Tables, s: nat, r: Route, k: Key)
    requires Valid(t) && s in t.srvs
    ensures Lookup(PutRoute(t, s, r), k) ==
      if k == Key(t.srvs[s].name, r.addr) then Some(Info(r.timeoutSec, r.enableHealthCheck)) else Lookup(t, k)
  {
    assert SrvIndexed(t, s);
  }

  lemma PutRouteRefines(t: Tables, s: nat, r: Route)
    requires Valid(t) && s in t.srvs
    ensures Abs(PutRoute(t, s, r)) == AddOne(Abs(t), t.srvs[s].name, r)
  {
    forall k {
      PutRouteLookup(t, s, r, k);
    }
  }

  lemma {:induction false} PutRoutesRefines(t: Tables, s: nat, rs: seq<Route>)
    requires Valid(t) && s in t.srvs
    ensures Abs(PutRoutes(t, s, rs)) == AddAll(Abs(t), t.srvs[s].name, rs)
  {
    if rs != [] {
      var front := rs[..|rs| - 1];
      PutRoutesRefines(t, s, front);
      PutRouteRefines(PutRoutes(t, s, front), s, rs[|rs| - 1]);
    }
  }

  lemma EnsureSrvLookup(t: Tables, name: string, k: Key)
    requires Valid(t)
    ensures Lookup(EnsureSrv(t, name).0, k) == Lookup(t, k)
  {
    var u := EnsureSrv(t, name).0;
    if k.name == name && FindSrv(t, name).None? {
      assert forall r :: r in t.routes ==> RouteIndexed(t, r);
      assert t.nextSrvId !in t.srvs;
      assert FindRoute(u, t.nextSrvId, k.addr).None?;
    }
  }

  /** Creating or reviving a server row changes nothing the registry shows. */
  lemma EnsureSrvRefines(t: Tables, name: string)
    requires Valid(t)
    ensures Abs(EnsureSrv(t, name).0) == Abs(t)
  {
    forall k {
      EnsureSrvLookup(t, name, k);
    }
  }

  lemma AbsSameIndexes(t: Tables, u: Tables)
    requires Valid(t) && Valid(u)
    requires u.routes == t.routes && u.byAddr == t.byAddr && u.byName == t.byName
    ensures Abs(u) == Abs(t)
  {
    assert forall k :: Lookup(u, k) == Lookup(t, k);
  }

  /** AddSrvRoutes adds exactly the given routes, later ones winning over earlier ones of the same address. */
  lemma RegisterRefines(t: Tables, name: string, rs: seq<Route>)
    requires Valid(t)
    ensures Abs(Register(t, name, rs)) == AddAll(Abs(t), name, rs)
  {
    var (t1, s) := EnsureSrv(t, name);
    EnsureSrvRefines(t, name);
    PutRoutesRefines(t1, s, rs);
    AbsSameIndexes(PutRoutes(t1, s, rs), Register(t, name, rs));
  }

  // ---------------------------------------------------------------- deleting routes

  /** The addresses that route ids of server `s` stand for. */
  ghost function AddrsOf(t: Tables, s: nat, ids: seq<nat>): set<Addr> {
    set r | r in t.routes && t.routes[r].srvId == s && r in ids :: t.routes[r].addr
  }

  lemma DropRoutesLookup(t: Tables, s: nat, ids: seq<nat>, k: Key)
    requires Valid(t) && s in t.srvs
    ensures Lookup(DropRoutes(t, s, ids), k)
      == if k.name == t.srvs[s].name && k.addr in AddrsOf(t, s, ids) then None else Lookup(t, k)
  {
    assert SrvIndexed(t, s);
    if k.name == t.srvs[s].name && k.addr in AddrsOf(t, s, ids) {
      var q :| q in t.routes && t.routes[q].srvId == s && q in ids && t.routes[q].addr == k.addr;
      RouteOfKey(t, q);
    } else if RouteAt(t, k).Some? {
      var r := RouteAt(t, k).value;
      assert t.srvs[t.routes[r].srvId].name == k.name && t.routes[r].addr == k.addr;
    }
  }

  lemma DropRoutesRefines(t: Tables, s: nat, ids: seq<nat>)
    requires Valid(t) && s in t.srvs
    ensures Abs(DropRoutes(t, s, ids)) == RemoveAll(Abs(t), t.srvs[s].name, AddrsOf(t, s, ids))
  {
    forall k
      ensures Lookup(DropRoutes(t, s, ids), k)
        == if k.name == t.srvs[s].name && k.addr in AddrsOf(t, s, ids) then None else Lookup(t, k)
    {
      DropRoutesLookup(t, s, ids, k);
    }
  }

  /** With live servers and live routes going together, a name is known to the registry iff its row is live. */
  lemma KnowsIffLive(t: Tables, name: string)
    requires Valid(t) && LiveTogether(t)
    ensures Knows(Abs(t), name) <==> name in t.byName && LiveSrv(t, t.byName[name])
  {
    if Knows(Abs(t), name) {
      var k :| k in Abs(t) && k.name == name;
      assert Lookup(t, k).Some?;
      assert LiveRoute(t, RouteAt(t, k).value, t.byName[name]);
    }
    if name in t.byName && LiveSrv(t, t.byName[name]) {
      var r :| LiveRoute(t, r, t.byName[name]);
      RouteOfKey(t, r);
      assert KeyOf(t, r) in Abs(t);
    }
  }

  lemma SettleRefines(t: Tables, s: nat)
    requires Valid(t) && s in t.srvs
    ensures Abs(Settle(t, s)) == Abs(t)
  {
    AbsSameIndexes(t, Settle(t, s));
  }

  /** DelSrvRoutes fails exactly on an unknown name, and otherwise removes exactly the named addresses. */
  lemma UnregisterRefines(t: Tables, name: string, ids: seq<nat>)
    requires Inv(t)
    ensures Unregister(t, name, ids).Failure? <==> !Knows(Abs(t), name)
    ensures Unregister(t, name, ids).Success? ==>
      Abs(Unregister(t, name, ids).value) == RemoveAll(Abs(t), name, AddrsOf(t, t.byName[name], ids))
  {
    KnowsIffLive(t, name);
    if Unregister(t, name, ids).Success? {
      var s := t.byName[name];
      DropRoutesRefines(t, s, ids);
      SettleRefines(DropRoutes(t, s, ids), s);
    }
  }

  // ---------------------------------------------------------------- the invariants

  /** How one registered route changes which rows are live, row by row. */
  lemma PutRouteLive(t: Tables, s: nat, added: Route, r: nat, o: nat)
    requires Valid(t) && s in t.srvs
    ensures LiveRoute(t, r, o) ==> LiveRoute(PutRoute(t, s, added), r, o)
    ensures o != s ==> (LiveRoute(PutRoute(t, s, added), r, o) <==> LiveRoute(t, r, o))
    ensures o != s && LiveRoute(t, r, o) ==> PutRoute(t, s, added).routes[r] == t.routes[r]
    ensures LiveRoute(PutRoute(t, s, added), r, s) && PutRoute(t, s, added).routes[r].enableHealthCheck ==>
      added.enableHealthCheck || (LiveRoute(t, r, s) && t.routes[r].enableHealthCheck)
  {
    if r in t.routes {
      assert RouteIndexed(t, r);
    }
  }

  lemma {:induction false} PutRoutesLive(t: Tables, s: nat, rs: seq<Route>, r: nat, o: nat)
    requires Valid(t) && s in t.srvs
    ensures LiveRoute(t, r, o) ==> LiveRoute(PutRoutes(t, s, rs), r, o)
    ensures o != s ==> (LiveRoute(PutRoutes(t, s, rs), r, o) <==> LiveRoute(t, r, o))
    ensures o != s && LiveRoute(t, r, o) ==> PutRoutes(t, s, rs).routes[r] == t.routes[r]
    ensures LiveRoute(PutRoutes(t, s, rs), r, s) && PutRoutes(t, s, rs).routes[r].enableHealthCheck ==>
      AnyHealthChecked(rs) || (LiveRoute(t, r, s) && t.routes[r].enableHealthCheck)
  {
    if rs != [] {
      var front, last := rs[..|rs| - 1], rs[|rs| - 1];
      PutRoutesLive(t, s, front, r, o);
      PutRouteLive(PutRoutes(t, s, front), s, last, r, o);
      if AnyHealthChecked(front) {
        var i :| 0 <= i < |front| && front[i].enableHealthCheck;
        assert rs[i].enableHealthCheck;
      }
    }
  }

  lemma PutRoutesSome(t: Tables, s: nat, rs: seq<Route>)
    requires Valid(t) && s in t.srvs && rs != []
    ensures HasLiveRoute(PutRoutes(t, s, rs), s)
  {
    var before := PutRoutes(t, s, rs[..|rs| - 1]);
    var r := match FindRoute(before, s, rs[|rs| - 1].addr) case None => before.nextRouteId case Some(q) => q;
    assert LiveRoute(PutRoutes(t, s, rs), r, s);
  }

  /** The row that holds server `name` once it has been registered. */
  function SrvIdOf(t: Tables, name: string): nat
    requires Valid(t)
  {
    EnsureSrv(t, name).1
  }

  lemma RegisterLive(t: Tables, name: string, rs: seq<Route>, r: nat, o: nat)
    requires Valid(t)
    ensures LiveRoute(t, r, o) ==> LiveRoute(Register(t, name, rs), r, o)
    ensures o != SrvIdOf(t, name) ==> (LiveRoute(Register(t, name, rs), r, o) <==> LiveRoute(t, r, o))
    ensures o != SrvIdOf(t, name) && LiveRoute(t, r, o) ==> Register(t, name, rs).routes[r] == t.routes[r]
    ensures var u, s := Register(t, name, rs), SrvIdOf(t, name);
      LiveRoute(u, r, s) && u.routes[r].enableHealthCheck ==>
        AnyHealthChecked(rs) || (LiveRoute(t, r, s) && t.routes[r].enableHealthCheck)
  {
    var (t1, s) := EnsureSrv(t, name);
    PutRoutesLive(t1, s, rs, r, o);
  }

  /** Registering touches one server row: it is live afterwards, and its flag is only ever raised. */
  lemma RegisterSrvRows(t: Tables, name: string, rs: seq<Route>, o: nat)
    requires Valid(t)
    ensures var u, s := Register(t, name, rs), SrvIdOf(t, name);
      && LiveSrv(u, s) && u.srvs[s].name == name
      && (o != s ==> (o in u.srvs <==> o in t.srvs) && (o in t.srvs ==> u.srvs[o] == t.srvs[o]))
      && (s in t.srvs <==> name in t.byName)
      && (u.srvs[s].hasEnableHealthCheck <==>
          AnyHealthChecked(rs) || (s in t.srvs && t.srvs[s].hasEnableHealthCheck))
  {
    assert forall i :: i in t.srvs ==> SrvIndexed(t, i);
  }

  lemma RegisterFlagCovers(t: Tables, name: string, rs: seq<Route>)
    requires Inv(t)
    ensures FlagCovers(Register(t, name, rs))
  {
    var u, s := Register(t, name, rs), SrvIdOf(t, name);
    forall o, r | o in u.srvs && LiveRoute(u, r, o) && u.routes[r].enableHealthCheck
      ensures u.srvs[o].hasEnableHealthCheck
    {
      RegisterLive(t, name, rs, r, o);
      RegisterSrvRows(t, name, rs, o);
      if LiveRoute(t, r, o) {
        assert RouteIndexed(t, r);
      }
    }
  }

  /**
   A registration keeps the invariants exactly when it adds a route or the server is already live.
   The API always adds one route.
   */
  lemma RegisterKeepsInv(t: Tables, name: string, rs: seq<Route>)
    requires Inv(t)
    ensures Inv(Register(t, name, rs)) <==> rs != [] || Knows(Abs(t), name)
  {
    var u, s := Register(t, name, rs), SrvIdOf(t, name);
    KnowsIffLive(t, name);
    RegisterFlagCovers(t, name, rs);
    forall o | o in u.srvs && o != s
      ensures LiveSrv(u, o) <==> HasLiveRoute(u, o)
    {
      RegisterSrvRows(t, name, rs, o);
      forall r
        ensures LiveRoute(u, r, o) <==> LiveRoute(t, r, o)
      {
        RegisterLive(t, name, rs, r, o);
      }
      assert HasLiveRoute(u, o) <==> HasLiveRoute(t, o);
    }
    RegisterSrvRows(t, name, rs, s);
    assert LiveTogether(u) <==> HasLiveRoute(u, s);
    if rs != [] {
      PutRoutesSome(EnsureSrv(t, name).0, s, rs);
      var r :| LiveRoute(PutRoutes(EnsureSrv(t, name).0, s, rs), r, s);
      assert LiveRoute(u, r, s);
    } else if Knows(Abs(t), name) {
      var r :| LiveRoute(t, r, s);
      RegisterLive(t, name, rs, r, s);
    } else if HasLiveRoute(u, s) {
      var r :| LiveRoute(u, r, s);
      assert u.routes == t.routes;
      assert LiveRoute(t, r, s) && RouteIndexed(t, r);
    }
  }

  lemma DropRoutesLive(t: Tables, s: nat, ids: seq<nat>, r: nat, o: nat)
    ensures LiveRoute(DropRoutes(t, s, ids), r, o) <==> LiveRoute(t, r, o) && !(o == s && r in ids)
  {
  }

  lemma UnregisterRoutes(t: Tables, name: string, ids: seq<nat>, r: nat, o: nat)
    requires Valid(t) && Unregister(t, name, ids).Success?
    ensures LiveRoute(Unregister(t, name, ids).value, r, o)
      <==> LiveRoute(t, r, o) && !(o == t.byName[name] && r in ids)
  {
    DropRoutesLive(t, t.byName[name], ids, r, o);
  }

  lemma UnregisterRows(t: Tables, name: string, ids: seq<nat>)
    requires Valid(t) && Unregister(t, name, ids).Success?
    ensures var u := Unregister(t, name, ids).value;
      && u.srvs.Keys == t.srvs.Keys && u.routes.Keys == t.routes.Keys
      && (forall o :: o in t.srvs ==> u.srvs[o] == t.srvs[o].(deleted := u.srvs[o].deleted))
      && (forall r :: r in t.routes ==> u.routes[r] == t.routes[r].(deleted := u.routes[r].deleted))
  {
    var t1 := DropRoutes(t, t.byName[name], ids);
    assert CountedAsHealthChecked(t1, t.byName[name]) == LiveRoutes(t1, t.byName[name]);
  }

  lemma UnregisterTogether(t: Tables, name: string, ids: seq<nat>, o: nat)
    requires Inv(t) && Unregister(t, name, ids).Success? && o in t.srvs
    ensures LiveSrv(Unregister(t, name, ids).value, o) <==> HasLiveRoute(Unregister(t, name, ids).value, o)
  {
    var s, u := t.byName[name], Unregister(t, name, ids).value;
    var t1 := DropRoutes(t, s, ids);
    assert CountedAsHealthChecked(t1, s) == LiveRoutes(t1, s);
    if o == s {
      assert forall r :: LiveRoute(u, r, s) <==> r in LiveRoutes(t1, s);
    } else {
      assert forall r :: LiveRoute(u, r, o) <==> LiveRoute(t, r, o) by {
        forall r: nat
          ensures LiveRoute(u, r, o) <==> LiveRoute(t, r, o)
        {
          UnregisterRoutes(t, name, ids, r, o);
        }
      }
    }
  }

  /** A deletion keeps the invariants; it never clears the flag of a server, because COUNT(IF(..)) counts every row. */
  lemma UnregisterKeepsInv(t: Tables, name: string, ids: seq<nat>)
    requires Inv(t) && Unregister(t, name, ids).Success?
    ensures Inv(Unregister(t, name, ids).value)
    ensures forall s :: s in t.srvs ==>
      Unregister(t, name, ids).value.srvs[s] == t.srvs[s].(deleted := Unregister(t, name, ids).value.srvs[s].deleted)
  {
    var u := Unregister(t, name, ids).value;
    forall o | o in u.srvs
      ensures LiveSrv(u, o) <==> HasLiveRoute(u, o)
    {
      UnregisterTogether(t, name, ids, o);
    }
    UnregisterRows(t, name, ids);
    forall o, r | o in u.srvs && LiveRoute(u, r, o) && u.routes[r].enableHealthCheck
      ensures u.srvs[o].hasEnableHealthCheck
    {
      UnregisterRoutes(t, name, ids, r, o);
      assert LiveRoute(t, r, o);
    }
  }

  // ---------------------------------------------------------------- every sequence of calls

  /** A registration with at least one route, or a deletion of some addresses of a server. */
  datatype Op = Add(name: string, first: Route, more: seq<Route>) | Delete(name: string, addrs: set<Addr>)

  /**
   The route ids stand for these addresses of the named server. Ids may come from an earlier read and may
   belong to rows deleted since; an id keeps its server and its address for ever.
   */
  ghost predicate IdsOf(t: Tables, name: string, addrs: set<Addr>, ids: seq<nat>)
    requires Valid(t)
  {
    forall a :: name in t.byName && Key(name, a) in Abs(t) ==> (a in AddrsOf(t, t.byName[name], ids) <==> a in addrs)
  }

  /** One call on the tables. A failed deletion leaves them as they were. */
  ghost predicate Step(t: Tables, op: Op, u: Tables)
    requires Valid(t)
  {
    match op
    case Add(name, first, more) => u == Register(t, name, [first] + more)
    case Delete(name, addrs) =>
      exists ids :: IdsOf(t, name, addrs, ids) &&
        u == (match Unregister(t, name, ids) case Success(v) => v case Failure(_) => t)
  }

  function AbsStep(m: RouteMap, op: Op): RouteMap {
    match op
    case Add(name, first, more) => AddAll(m, name, [first] + more)
    case Delete(name, addrs) => RemoveAll(m, name, addrs)
  }

  function AbsRun(ops: seq<Op>): RouteMap {
    if ops == [] then map[] else AbsStep(AbsRun(ops[..|ops| - 1]), ops[|ops| - 1])
  }

  ghost predicate Run(ts: seq<Tables>, ops: seq<Op>) {
    && |ts| == |ops| + 1
    && ts[0] == EMPTY_TABLES
    && forall i :: 0 <= i < |ops| ==> Valid(ts[i]) && Step(ts[i], ops[i], ts[i + 1])
  }

  lemma AddRefines(t: Tables, name: string, rs: seq<Route>)
    requires Inv(t) && rs != []
    ensures Inv(Register(t, name, rs)) && Abs(Register(t, name, rs)) == AddAll(Abs(t), name, rs)
  {
    RegisterKeepsInv(t, name, rs);
    RegisterRefines(t, name, rs);
  }

  lemma RemoveAllAgrees(m: RouteMap, name: string, these: set<Addr>, those: set<Addr>)
    requires forall a :: Key(name, a) in m ==> (a in these <==> a in those)
    ensures RemoveAll(m, name, these) == RemoveAll(m, name, those)
  {
    forall k | k in m && k.name == name
      ensures k.addr in these <==> k.addr in those
    {
      assert k == Key(name, k.addr);
    }
  }

  lemma DeleteRefines(t: Tables, name: string, addrs: set<Addr>, ids: seq<nat>)
    requires Inv(t) && IdsOf(t, name, addrs, ids)
    ensures Unregister(t, name, ids).Failure? ==> RemoveAll(Abs(t), name, addrs) == Abs(t)
    ensures Unregister(t, name, ids).Success? ==>
      Inv(Unregister(t, name, ids).value) && Abs(Unregister(t, name, ids).value) == RemoveAll(Abs(t), name, addrs)
  {
    UnregisterRefines(t, name, ids);
    if Unregister(t, name, ids).Success? {
      UnregisterKeepsInv(t, name, ids);
      RemoveAllAgrees(Abs(t), name, AddrsOf(t, t.byName[name], ids), addrs);
    }
  }

  lemma StepRefines(t: Tables, op: Op, u: Tables)
    requires Inv(t) && Step(t, op, u)
    ensures Inv(u) && Abs(u) == AbsStep(Abs(t), op)
  {
    match op
    case Add(name, first, more) =>
      AddRefines(t, name, [first] + more);
    case Delete(name, addrs) =>
      var ids :| IdsOf(t, name, addrs, ids) &&
        u == (match Unregister(t, name, ids) case Success(v) => v case Failure(_) => t);
      DeleteRefines(t, name, addrs, ids);
  }

  /** After every sequence of calls the live rows are the plain registry's entries, and the invariants hold. */
  lemma {:induction false} RunRefines(ts: seq<Tables>, ops: seq<Op>)
    requires Run(ts, ops)
    ensures Inv(ts[|ops|]) && Abs(ts[|ops|]) == AbsRun(ops)
  {
    if ops == [] {
      assert Abs(EMPTY_TABLES) == map[];
    } else {
      var n := |ops| - 1;
      assert Run(ts[..n + 1], ops[..n]);
      RunRefines(ts[..n + 1], ops[..n]);
      StepRefines(ts[n], ops[n], ts[n + 1]);
    }
  }

  lemma AllIdsOf(t: Tables, name: string, addrs: set<Addr>, ids: seq<nat>)
    requires Valid(t) && forall r :: r in ids <==> r in t.routes && t.routes[r].addr in addrs
    ensures IdsOf(t, name, addrs, ids)
  {
    forall a | name in t.byName && Key(name, a) in Abs(t)
      ensures a in AddrsOf(t, t.byName[name], ids) <==> a in addrs
    {
      var r := RouteAt(t, Key(name, a)).value;
      assert KeyOfRow(t.routes[r]) == RouteKey(t.byName[name], a);
    }
  }

  lemma StepExists(t: Tables, op: Op) returns (u: Tables)
    requires Valid(t)
    ensures Step(t, op, u)
  {
    match op
    case Add(name, first, more) =>
      u := Register(t, name, [first] + more);
    case Delete(name, addrs) =>
      var ids := Listing(set r | r in t.routes && t.routes[r].addr in addrs);
      AllIdsOf(t, name, addrs, ids);
      u := match Unregister(t, name, ids) case Success(v) => v case Failure(_) => t;
  }

  lemma RunExtends(ts: seq<Tables>, ops: seq<Op>, op: Op, u: Tables)
    requires Run(ts, ops) && Valid(ts[|ops|]) && Step(ts[|ops|], op, u)
    ensures Run(ts + [u], ops + [op])
  {
    var more, calls := ts + [u], ops + [op];
    forall i | 0 <= i < |calls|
      ensures Valid(more[i]) && Step(more[i], calls[i], more[i + 1])
    {
      if i < |ops| {
        assert more[i] == ts[i] && more[i + 1] == ts[i + 1] && calls[i] == ops[i];
      } else {
        assert more[i] == ts[|ops|] && more[i + 1] == u && calls[i] == op;
      }
    }
  }

  lemma RunOneMore(ts: seq<Tables>, ops: seq<Op>, op: Op) returns (more: seq<Tables>)
    requires Run(ts, ops)
    ensures Run(more, ops + [op])
  {
    RunRefines(ts, ops);
    var u := StepExists(ts[|ops|], op);
    RunExtends(ts, ops, op, u);
    more := ts + [u];
  }

  /** Every sequence of calls has a run. */
  lemma {:induction false} RunExists(ops: seq<Op>) returns (ts: seq<Tables>)
    ensures Run(ts, ops)
  {
    if ops == [] {
      ts := [EMPTY_TABLES];
    } else {
      var n := |ops| - 1;
      var front := RunExists(ops[..n]);
      ts := RunOneMore(front, ops[..n], ops[n]);
      assert ops == ops[..n] + [ops[n]];
    }
  }

  /** An id keeps its server and its address through every call, so ids read earlier still mean the same route. */
  lemma StepKeepsIds(t: Tables, op: Op, u: Tables, r: nat)
    requires Inv(t) && Step(t, op, u) && r in t.routes
    ensures r in u.routes && KeyOfRow(u.routes[r]) == KeyOfRow(t.routes[r])
  {
    match op
    case Add(name, first, more) =>
      var (t1, s) := EnsureSrv(t, name);
      PutRoutesKeepsIds(t1, s, [first] + more, r);
    case Delete(name, addrs) =>
      var ids :| IdsOf(t, name, addrs, ids)
        && u == (match Unregister(t, name, ids) case Success(v) => v case Failure(_) => t);
      if Unregister(t, name, ids).Success? {
        UnregisterRows(t, name, ids);
      }
  }

  lemma {:induction false} PutRoutesKeepsIds(t: Tables, s: nat, rs: seq<Route>, r: nat)
    requires Valid(t) && s in t.srvs && r in t.routes
    ensures r in PutRoutes(t, s, rs).routes && KeyOfRow(PutRoutes(t, s, rs).routes[r]) == KeyOfRow(t.routes[r])
  {
    if rs != [] {
      var front := rs[..|rs| - 1];
      PutRoutesKeepsIds(t, s, front, r);
      assert RouteIndexed(PutRoutes(t, s, front), r);
    }
  }

  // ---------------------------------------------------------------- the first and the last route

  /** A new server with one plain route. */
  lemma RegisterNew(t: Tables, name: string, r: Route)
    requires Valid(t) && name !in t.byName && RouteKey(t.nextSrvId, r.addr) !in t.byAddr && !r.enableHealthCheck
    ensures var s := t.nextSrvId;
      Register(t, name, [r] + []) == Tables(
        t.srvs[s := SrvRow(name, false, false)], t.byName[name := s], s + 1,
        t.routes[t.nextRouteId := RouteRow(s, r.addr, r.timeoutSec, false, false)],
        t.byAddr[RouteKey(s, r.addr) := t.nextRouteId], t.nextRouteId + 1)
  {
    var rs := [r] + [];
    assert rs[..|rs| - 1] == [] && rs[|rs| - 1] == r;
    assert !AnyHealthChecked(rs);
    var (t1, s) := EnsureSrv(t, name);
    assert PutRoutes(t1, s, []) == t1;
    assert PutRoutes(t1, s, rs) == PutRoute(t1, s, r);
  }

  /** Deleting the only route of a server takes that server away and leaves the others. */
  lemma LastRouteTakesServer(t: Tables, name: string, r: nat)
    requires Valid(t) && name in t.byName && LiveSrv(t, t.byName[name])
    requires forall q :: LiveRoute(t, q, t.byName[name]) ==> q == r
    ensures var u := Unregister(t, name, [r]);
      && u.Success? && !LiveSrv(u.value, t.byName[name]) && !HasLiveRoute(u.value, t.byName[name])
      && forall s :: s != t.byName[name] ==> (LiveSrv(u.value, s) <==> LiveSrv(t, s))
  {
    var s := t.byName[name];
    var u := DropRoutes(t, s, [r]);
    forall q
      ensures !LiveRoute(u, q, s)
    {
      assert LiveRoute(t, q, s) ==> q == r;
    }
    assert LiveRoutes(u, s) == {};
    var after := Unregister(t, name, [r]).value;
    assert after.routes == u.routes;
    assert forall q :: LiveRoute(after, q, s) ==> LiveRoute(u, q, s);
  }

  // ---------------------------------------------------------------- what the flag really says

  predicate AddsHealthChecked(op: Op, name: string) {
    op.Add? && op.name == name && AnyHealthChecked([op.first] + op.more)
  }

  ghost predicate EverHealthChecked(ops: seq<Op>, name: string) {
    exists i :: 0 <= i < |ops| && AddsHealthChecked(ops[i], name)
  }

  ghost predicate Flagged(t: Tables, name: string)
    requires Valid(t)
  {
    name in t.byName && t.srvs[t.byName[name]].hasEnableHealthCheck
  }

  lemma RegisterFlag(t: Tables, n: string, rs: seq<Route>, name: string)
    requires Inv(t)
    ensures Flagged(Register(t, n, rs), name) <==> Flagged(t, name) || (n == name && AnyHealthChecked(rs))
  {
    if name in t.byName {
      RegisterSrvRows(t, n, rs, t.byName[name]);
    }
    RegisterSrvRows(t, n, rs, SrvIdOf(t, n));
  }

  lemma StepFlag(t: Tables, op: Op, u: Tables, name: string)
    requires Inv(t) && Step(t, op, u) && Valid(u)
    ensures Flagged(u, name) <==> Flagged(t, name) || AddsHealthChecked(op, name)
  {
    match op
    case Add(n, first, more) =>
      RegisterFlag(t, n, [first] + more, name);
    case Delete(n, addrs) =>
      var ids :| IdsOf(t, n, addrs, ids) &&
        u == (match Unregister(t, n, ids) case Success(v) => v case Failure(_) => t);
      if Unregister(t, n, ids).Success? {
        UnregisterKeepsInv(t, n, ids);
      }
  }

  /** The flag of a name is set exactly when a health-checked route was ever registered for it. */
  lemma {:induction false} FlagIsHistory(ts: seq<Tables>, ops: seq<Op>, name: string)
    requires Run(ts, ops)
    ensures Valid(ts[|ops|]) && (Flagged(ts[|ops|], name) <==> EverHealthChecked(ops, name))
  {
    RunRefines(ts, ops);
    if ops != [] {
      var n := |ops| - 1;
      assert Run(ts[..n + 1], ops[..n]);
      FlagIsHistory(ts[..n + 1], ops[..n], name);
      RunRefines(ts[..n + 1], ops[..n]);
      StepFlag(ts[n], ops[n], ts[n + 1], name);
      if EverHealthChecked(ops[..n], name) {
        var i :| 0 <= i < n && AddsHealthChecked(ops[..n][i], name);
        assert AddsHealthChecked(ops[i], name);
      }
      if AddsHealthChecked(ops[n], name) {
        assert EverHealthChecked(ops, name);
      }
      if i :| 0 <= i < |ops| && AddsHealthChecked(ops[i], name) {
        if i < n {
          assert AddsHealthChecked(ops[..n][i], name);
        }
      }
    }
  }

  ghost predicate HoldsChecked(m: RouteMap, name: string) {
    exists k :: k in m && k.name == name && m[k].enableHealthCheck
  }

  lemma CheckedIsFlagged(t: Tables, name: string)
    requires Inv(t) && HoldsChecked(Abs(t), name)
    ensures Flagged(t, name)
  {
    var k :| k in Abs(t) && k.name == name && Abs(t)[k].enableHealthCheck;
    var r := RouteAt(t, k).value;
    assert LiveRoute(t, r, t.byName[name]);
  }

  /**
   The flag tells whether the server has a live health-checked route if and only if no such route was ever registered,
   or one still is.
   */
  lemma FlagExactIff(ts: seq<Tables>, ops: seq<Op>, name: string)
    requires Run(ts, ops)
    ensures Valid(ts[|ops|])
    ensures (Flagged(ts[|ops|], name) <==> HoldsChecked(AbsRun(ops), name))
      <==> (!EverHealthChecked(ops, name) || HoldsChecked(AbsRun(ops), name))
  {
    FlagIsHistory(ts, ops, name);
    RunRefines(ts, ops);
    if HoldsChecked(AbsRun(ops), name) {
      CheckedIsFlagged(ts[|ops|], name);
    }
  }

  lemma AbsRunSnoc(ops: seq<Op>, op: Op)
    ensures AbsRun(ops + [op]) == AbsStep(AbsRun(ops), op)
  {
    assert (ops + [op])[..|ops|] == ops;
  }

  lemma AddAllOne(m: RouteMap, name: string, r: Route)
    ensures AddAll(m, name, [r] + []) == AddOne(m, name, r)
  {
    assert [r] + [] == [r] && [r][..0] == [];
  }

  /** Add one health-checked route and one plain route to a server, then delete the health-checked one. */
  function AddAddDelete(a: Addr, b: Addr): seq<Op> {
    [] + [Add("srv", Route(0, a, 5, true), [])] + [Add("srv", Route(0, b, 5, false), [])] + [Delete("srv", {a})]
  }

  lemma AfterAddAddDelete(a: Addr, b: Addr)
    requires a != b
    ensures AbsRun(AddAddDelete(a, b)) == map[Key("srv", b) := Info(5, false)]
    ensures EverHealthChecked(AddAddDelete(a, b), "srv")
  {
    var first, second := Add("srv", Route(0, a, 5, true), []), Add("srv", Route(0, b, 5, false), []);
    AbsRunSnoc([], first);
    AbsRunSnoc([] + [first], second);
    AbsRunSnoc([] + [first] + [second], Delete("srv", {a}));
    AddAllOne(map[], "srv", first.first);
    AddAllOne(AddOne(map[], "srv", first.first), "srv", second.first);
    assert AddsHealthChecked(AddAddDelete(a, b)[0], "srv") by {
      assert ([first.first] + first.more)[0].enableHealthCheck;
    }
  }

  /** The flag is not "has a live health-checked route": two registrations and a deletion already tell them apart. */
  lemma FlagOutlivesItsRoutes(a: Addr, b: Addr) returns (ts: seq<Tables>)
    requires a != b
    ensures Run(ts, AddAddDelete(a, b)) && Valid(ts[3]) && Flagged(ts[3], "srv")
    ensures Abs(ts[3]) == map[Key("srv", b) := Info(5, false)]
  {
    ts := RunExists(AddAddDelete(a, b));
    RunRefines(ts, AddAddDelete(a, b));
    AfterAddAddDelete(a, b);
    FlagIsHistory(ts, AddAddDelete(a, b), "srv");
  }
}
