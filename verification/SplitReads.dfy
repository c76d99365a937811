/**
 What the registry's missing transactions do to the workers. GetSrvs reads the servers and then their routes in two
 statements, and AddSrvRoutes and DelSrvRoutes are several statements each. Module Cluster takes every such call as one
 step; here they are under way at the same time, any number of them, with any steps of the system in between.
 */
module SplitReads {
  import opened Wrappers
  import opened Selections
  import opened SrvTables
  import Refine = SrvRefinement
  import opened SrvQueries
  import opened TaskTables
  import opened L = LockProtocol
  import E = Engine
  import opened C = Cluster
  import opened P = ClusterProofs
  import CT = ClusterTheorems
  import ST = SrvStatements
  import opened SmallRuns

  // ---------------------------------------------------------------- the split join

  /** The server as the first statement saw it, with its routes as the second one sees them. */
  function SplitEntity(seen: Tables, reg: Tables, s: nat, routeOrder: seq<nat>): Srv
    requires s in seen.srvs
  {
    Srv(s, seen.srvs[s].name, RoutesOf(reg, false, s, routeOrder), seen.srvs[s].hasEnableHealthCheck)
  }

  function SplitJoin(rows: map<nat, TaskRow>, ids: seq<nat>, seen: Tables, reg: Tables,
                     routeOrder: seq<nat>): (tasks: seq<Task>)
    requires forall id :: id in ids ==> id in rows
    ensures |tasks| <= |ids|
  {
    if ids == [] then []
    else
      var front, last := ids[..|ids| - 1], ids[|ids| - 1];
      assert last in ids;
      SplitJoin(rows, front, seen, reg, routeOrder) +
      if LiveSrv(seen, rows[last].srvId) then
        [ToTask(last, rows[last], SplitEntity(seen, reg, rows[last].srvId, routeOrder))]
      else []
  }

  /** With nothing in between the split join is the join. */
  lemma {:induction false} SplitJoinTogether(rows: map<nat, TaskRow>, ids: seq<nat>, reg: Tables, routeOrder: seq<nat>)
    requires forall id :: id in ids ==> id in rows
    ensures SplitJoin(rows, ids, reg, reg, routeOrder) == Join(rows, ids, reg, routeOrder)
  {
    if ids != [] {
      assert ids[|ids| - 1] in ids;
      SplitJoinTogether(rows, ids[..|ids| - 1], reg, routeOrder);
    }
  }

  lemma {:induction false} SplitSource(rows: map<nat, TaskRow>, ids: seq<nat>, seen: Tables, reg: Tables,
                                       routeOrder: seq<nat>, task: Task)
    requires (forall id :: id in ids ==> id in rows) && task in SplitJoin(rows, ids, seen, reg, routeOrder)
    ensures task.id in ids && LiveSrv(seen, rows[task.id].srvId)
    ensures task == ToTask(task.id, rows[task.id], SplitEntity(seen, reg, rows[task.id].srvId, routeOrder))
  {
    var front, last := ids[..|ids| - 1], ids[|ids| - 1];
    assert ids == front + [last];
    if task in SplitJoin(rows, front, seen, reg, routeOrder) {
      SplitSource(rows, front, seen, reg, routeOrder, task);
    }
  }

  lemma NoRoutesIff(reg: Tables, s: nat, routeOrder: seq<nat>)
    requires Enumerates(routeOrder, reg.routes.Keys)
    ensures RoutesOf(reg, false, s, routeOrder) == [] <==> !HasLiveRoute(reg, s)
  {
    var shown := Filter(routeOrder, ShownBy(reg, false, s));
    if r :| LiveRoute(reg, r, s) {
      assert r in shown;
    }
    if shown != [] {
      assert shown[0] in shown && LiveRoute(reg, shown[0], s);
    }
  }

  /** A delivered task has no routes if and only if its server had no live route when the routes were read. */
  lemma RoutelessIff(rows: map<nat, TaskRow>, ids: seq<nat>, seen: Tables, reg: Tables, routeOrder: seq<nat>,
                     task: Task)
    requires (forall id :: id in ids ==> id in rows) && task in SplitJoin(rows, ids, seen, reg, routeOrder)
    requires Enumerates(routeOrder, reg.routes.Keys)
    ensures task.id in rows && task.srv.id == rows[task.id].srvId
    ensures task.srv.routes == [] <==> !HasLiveRoute(reg, task.srv.id)
  {
    SplitSource(rows, ids, seen, reg, routeOrder, task);
    NoRoutesIff(reg, task.srv.id, routeOrder);
  }

  // ---------------------------------------------------------------- runs with split reads

  /** A delivery whose servers were read from `seen`, and whose routes are read now. */
  ghost predicate StepSplitDeliver(seen: Tables, s: Sys, u: Sys, n: nat, routeOrder: seq<nat>) {
    && n in s.nodes && s.nodes[n].eng.sched.Selected? && Enumerates(routeOrder, s.reg.routes.Keys)
    && var sel := s.nodes[n].eng.sched;
    && sel.snap < |s.p.trace| && s.p.trace[sel.snap].Read?
    && (forall id :: id in sel.ids ==> id in s.p.trace[sel.snap].page)
    && JoinedRowsOk(s.p.trace[sel.snap].page, sel.ids, seen)
    && var a := SplitAction(seen, s, n, routeOrder);
    && E.Enabled(s.nodes[n].eng, a)
    && u == Act(s, n, a, s.nodes[n].clock)
  }

  function SplitAction(seen: Tables, s: Sys, n: nat, routeOrder: seq<nat>): E.Action
    requires n in s.nodes && s.nodes[n].eng.sched.Selected?
    requires s.nodes[n].eng.sched.snap < |s.p.trace| && s.p.trace[s.nodes[n].eng.sched.snap].Read?
    requires forall id :: id in s.nodes[n].eng.sched.ids ==> id in s.p.trace[s.nodes[n].eng.sched.snap].page
  {
    var sel := s.nodes[n].eng.sched;
    var tasks := SplitJoin(s.p.trace[sel.snap].page, sel.ids, seen, s.reg, routeOrder);
    E.Deliver(ToJobs(tasks, sel.snap), NextCursor(tasks))
  }

  // ---------------------------------------------------------------- the system

  /** The system with the registry calls under way, each named by a number. */
  datatype SplitSys = SplitSys(s: Sys, regCalls: map<nat, ST.RegCall>)

  datatype SplitMove =
    /** A step of the system outside the registry; mastership and all else as there. */
    | Plain(m: Move)
    /** A delivery whose servers were read in state `seen`. */
    | Deliver(n: nat, seen: nat, routeOrder: seq<nat>)
    /** A registry call begins, runs its next statement, or ends with an error. */
    | OpenCall(c: nat, call: ST.RegCall)
    | RunStatement(c: nat)
    | DropCall(c: nat)

  ghost predicate StepStatement(v: SplitSys, u: SplitSys, c: nat) {
    && c in v.regCalls && Valid(v.s.reg) && ST.CallOk(v.s.reg, v.regCalls[c])
    && var (reg, next) := ST.Statement(v.s.reg, v.regCalls[c]);
    u == SplitSys(v.s.(reg := reg), if next.Some? then v.regCalls[c := next.value] else v.regCalls - {c})
  }

  predicate OutsideRegistry(m: Move) {
    !m.DeliverPage? && !m.AddSrv? && !m.DelSrv?
  }

  /** One step from state `i` of a run. */
  ghost predicate SplitStep(cal: Calendar, vs: seq<SplitSys>, i: nat, u: SplitSys, m: SplitMove)
    requires i < |vs|
  {
    var v := vs[i];
    match m
    case Plain(p) => OutsideRegistry(p) && C.Step(cal, v.s, u.s, p) && u.regCalls == v.regCalls
    case Deliver(n, seen, routeOrder) =>
      && seen <= i && n in vs[seen].s.nodes && n in v.s.nodes && u.regCalls == v.regCalls
      && vs[seen].s.nodes[n].eng.sched == v.s.nodes[n].eng.sched
      && StepSplitDeliver(vs[seen].s.reg, v.s, u.s, n, routeOrder)
    case OpenCall(c, call) =>
      c !in v.regCalls && (call.Looking? || call.Taking?) && u == v.(regCalls := v.regCalls[c := call])
    case RunStatement(c) => StepStatement(v, u, c)
    case DropCall(c) => u == v.(regCalls := v.regCalls - {c})
  }

  ghost predicate SplitStepAt(cal: Calendar, vs: seq<SplitSys>, ms: seq<SplitMove>, i: int)
    requires |vs| == |ms| + 1 && 0 <= i < |ms|
  {
    SplitStep(cal, vs, i, vs[i + 1], ms[i])
  }

  ghost predicate SplitBehaviour(cal: Calendar, vs: seq<SplitSys>, ms: seq<SplitMove>) {
    && |vs| == |ms| + 1 && Start(vs[0].s) && vs[0].regCalls == map[]
    && forall i :: 0 <= i < |ms| ==> SplitStepAt(cal, vs, ms, i)
  }

  // ---------------------------------------------------------------- which deliveries are routed

  /** Every selected task whose server was live at the server read has a live route at the route read. */
  ghost predicate RoutesThere(seen: Tables, s: Sys, n: nat)
    requires n in s.nodes && s.nodes[n].eng.sched.Selected?
    requires s.nodes[n].eng.sched.snap < |s.p.trace| && s.p.trace[s.nodes[n].eng.sched.snap].Read?
  {
    var page := s.p.trace[s.nodes[n].eng.sched.snap].page;
    forall id :: id in s.nodes[n].eng.sched.ids && id in page && LiveSrv(seen, page[id].srvId) ==>
      HasLiveRoute(s.reg, page[id].srvId)
  }

  /** A delivery hands over only tasks with routes if and only if that is so. */
  lemma SplitDeliversRoutedIff(seen: Tables, s: Sys, u: Sys, n: nat, routeOrder: seq<nat>)
    requires StepSplitDeliver(seen, s, u, n, routeOrder)
    ensures E.DeliversRouted(SplitAction(seen, s, n, routeOrder)) <==> RoutesThere(seen, s, n)
  {
    var sel := s.nodes[n].eng.sched;
    var page := s.p.trace[sel.snap].page;
    var tasks := SplitJoin(page, sel.ids, seen, s.reg, routeOrder);
    forall task | task in tasks
      ensures task.id in sel.ids && task.id in page && LiveSrv(seen, page[task.id].srvId)
      ensures task.srv.routes == [] <==> !HasLiveRoute(s.reg, page[task.id].srvId)
    {
      SplitSource(page, sel.ids, seen, s.reg, routeOrder, task);
      RoutelessIff(page, sel.ids, seen, s.reg, routeOrder, task);
    }
    forall id | id in sel.ids && LiveSrv(seen, page[id].srvId) && E.DeliversRouted(SplitAction(seen, s, n, routeOrder))
      ensures HasLiveRoute(s.reg, page[id].srvId)
    {
      var i := SplitFinds(page, sel.ids, seen, s.reg, routeOrder, id);
      assert tasks[i] in tasks;
    }
  }

  lemma {:induction false} SplitFinds(rows: map<nat, TaskRow>, ids: seq<nat>, seen: Tables, reg: Tables,
                                      routeOrder: seq<nat>, id: nat)
    returns (i: nat)
    requires (forall k :: k in ids ==> k in rows) && id in ids && LiveSrv(seen, rows[id].srvId)
    ensures i < |SplitJoin(rows, ids, seen, reg, routeOrder)|
    ensures SplitJoin(rows, ids, seen, reg, routeOrder)[i] == ToTask(id, rows[id],
        SplitEntity(seen, reg, rows[id].srvId, routeOrder))
  {
    var front, last := ids[..|ids| - 1], ids[|ids| - 1];
    assert ids == front + [last];
    if id in front {
      i := SplitFinds(rows, front, seen, reg, routeOrder, id);
    } else {
      i := |SplitJoin(rows, front, seen, reg, routeOrder)|;
    }
  }

  // ---------------------------------------------------------------- when no worker is lost

  lemma SplitPageOk(tr: Trace, n: nat, clock: int, ids: seq<nat>, snap: nat, seen: Tables, reg: Tables,
                    routeOrder: seq<nat>)
    requires SchedOk(tr, n, clock, E.Selected(ids, snap))
    ensures SchedOk(tr, n, clock, E.Sending(ToJobs(SplitJoin(tr[snap].page, ids, seen, reg, routeOrder), snap)))
  {
    var tasks := SplitJoin(tr[snap].page, ids, seen, reg, routeOrder);
    forall i | 0 <= i < |tasks|
      ensures JobOk(tr, n, clock, E.Job(tasks[i], snap))
    {
      assert tasks[i] in tasks;
      SplitSource(tr[snap].page, ids, seen, reg, routeOrder, tasks[i]);
    }
  }

  lemma SplitDeliverNodes(cal: Calendar, seen: Tables, s: Sys, u: Sys, n: nat, routeOrder: seq<nat>)
    requires NodesOk(cal, s) && UniqueOwners(s.p.trace) && StepSplitDeliver(seen, s, u, n, routeOrder)
    ensures NodesOk(cal, u)
  {
    var sel := s.nodes[n].eng.sched;
    assert NodeOk(cal, s, n, s.nodes[n]);
    SplitPageOk(s.p.trace, n, s.nodes[n].clock, sel.ids, sel.snap, seen, s.reg, routeOrder);
    SameMarksIfSame(s, u);
    NodesKept(cal, s, u, n, SplitAction(seen, s, n, routeOrder), s.nodes[n].clock);
  }

  /** The invariant of the system without that of the registry. */
  ghost predicate CoreInv(cal: Calendar, s: Sys) {
    L.Inv(cal, s.p) && EnginesOk(s) && NodesOk(cal, s) && LogsOk(s) && CallsOk(s.notes) && AddCallsOk(s)
  }

  lemma EmptyInv()
    ensures SrvTables.Inv(EMPTY_TABLES)
  {
  }

  /** It is the whole invariant once the registry is put aside. */
  lemma CoreIsInv(cal: Calendar, s: Sys)
    ensures CoreInv(cal, s) <==> C.Inv(cal, s.(reg := EMPTY_TABLES))
  {
    EmptyInv();
    var z := s.(reg := EMPTY_TABLES);
    assert NodesOk(cal, z) <==> NodesOk(cal, s) by {
      forall n | n in s.nodes
        ensures NodeOk(cal, z, n, s.nodes[n]) <==> NodeOk(cal, s, n, s.nodes[n])
      {
      }
    }
    assert LogsOk(z) <==> LogsOk(s);
  }

  /** Steps outside the registry do not look at it. */
  lemma StepWithoutRegistry(cal: Calendar, s: Sys, u: Sys, m: Move)
    requires OutsideRegistry(m) && C.Step(cal, s, u, m)
    ensures u.reg == s.reg && C.Step(cal, s.(reg := EMPTY_TABLES), u.(reg := EMPTY_TABLES), m)
  {
  }

  lemma PlainKeeps(cal: Calendar, s: Sys, u: Sys, m: Move)
    requires CoreInv(cal, s) && OutsideRegistry(m) && C.Step(cal, s, u, m)
    ensures CoreInv(cal, u)
  {
    CoreIsInv(cal, s);
    StepWithoutRegistry(cal, s, u, m);
    P.StepKeeps(cal, s.(reg := EMPTY_TABLES), u.(reg := EMPTY_TABLES), m);
    CoreIsInv(cal, u);
  }

  lemma SplitDeliverKeeps(cal: Calendar, seen: Tables, s: Sys, u: Sys, n: nat, routeOrder: seq<nat>)
    requires CoreInv(cal, s) && StepSplitDeliver(seen, s, u, n, routeOrder) && RoutesThere(seen, s, n)
    ensures CoreInv(cal, u)
  {
    OwnersUnique(cal, s.p);
    SplitDeliverNodes(cal, seen, s, u, n, routeOrder);
    SplitDeliversRoutedIff(seen, s, u, n, routeOrder);
    EnginesKept(s, u, n, SplitAction(seen, s, n, routeOrder), s.nodes[n].clock);
    LogsOkExtends(s, u);
  }

  lemma RegistryStepKeeps(cal: Calendar, s: Sys, u: Sys)
    requires CoreInv(cal, s) && u == s.(reg := u.reg)
    ensures CoreInv(cal, u)
  {
    CoreIsInv(cal, s);
    CoreIsInv(cal, u);
  }

  /** If position `i` is a delivery, the routes of its servers are there. */
  ghost predicate RoutedAt(vs: seq<SplitSys>, ms: seq<SplitMove>, i: int)
    requires |vs| == |ms| + 1 && 0 <= i < |ms|
  {
    ms[i].Deliver? ==>
      && ms[i].seen < |vs| && ms[i].n in vs[i].s.nodes && vs[i].s.nodes[ms[i].n].eng.sched.Selected?
      && vs[i].s.nodes[ms[i].n].eng.sched.snap < |vs[i].s.p.trace|
      && vs[i].s.p.trace[vs[i].s.nodes[ms[i].n].eng.sched.snap].Read?
      && RoutesThere(vs[ms[i].seen].s.reg, vs[i].s, ms[i].n)
  }

  /**
   As long as every delivery finds its routes, everything but the registry keeps its invariant, whatever calls are
   under way.
   */
  lemma {:induction false} SplitInvAlways(cal: Calendar, vs: seq<SplitSys>, ms: seq<SplitMove>, i: nat)
    requires SplitBehaviour(cal, vs, ms) && i < |vs| && forall k :: 0 <= k < i ==> RoutedAt(vs, ms, k)
    ensures CoreInv(cal, vs[i].s)
  {
    if i == 0 {
      StartOk(cal, vs[0].s);
    } else {
      SplitInvAlways(cal, vs, ms, i - 1);
      assert SplitStepAt(cal, vs, ms, i - 1) && RoutedAt(vs, ms, i - 1);
      var v, u := vs[i - 1].s, vs[i].s;
      match ms[i - 1]
      case Plain(m) => PlainKeeps(cal, v, u, m);
      case Deliver(n, seen, routeOrder) => SplitDeliverKeeps(cal, vs[seen].s.reg, v, u, n, routeOrder);
      case _ => RegistryStepKeeps(cal, v, u);
    }
  }

  /** Then no worker is lost. */
  lemma SplitPoolNeverLosesWorker(cal: Calendar, vs: seq<SplitSys>, ms: seq<SplitMove>, i: nat, n: nat)
    requires SplitBehaviour(cal, vs, ms) && i < |vs| && n in vs[i].s.nodes
    requires forall k :: 0 <= k < i ==> RoutedAt(vs, ms, k)
    ensures var eng := vs[i].s.nodes[n].eng;
      && E.NoneLost(eng) && eng.wg == E.Total(eng.workers, E.Alive())
      && forall w :: !E.Enabled(eng, E.DropRouteless(w))
  {
    SplitInvAlways(cal, vs, ms, i);
    CT.EngineRouted(vs[i].s, n);
  }

  // ---------------------------------------------------------------- what an unrouted delivery costs

  lemma SplitEngineMove(cal: Calendar, vs: seq<SplitSys>, ms: seq<SplitMove>, i: nat, n: nat)
    returns (a: Option<E.Action>)
    requires SplitBehaviour(cal, vs, ms) && i < |ms| && n in vs[i].s.nodes
    ensures n in vs[i + 1].s.nodes && CT.ActsBy(vs[i].s.nodes[n].eng, vs[i + 1].s.nodes[n].eng, a)
  {
    assert SplitStepAt(cal, vs, ms, i);
    a := None;
    match ms[i]
    case Plain(m) => a := CT.EngineMove(cal, vs[i].s, vs[i + 1].s, m, n);
    case Deliver(k, seen, order) =>
      a := if k == n then Some(SplitAction(vs[seen].s.reg, vs[i].s, n, order)) else None;
    case _ =>
  }

  /** What an engine shows in any run: its own invariant, routes past the check, and a history that only grows. */
  ghost predicate EngineShows(e: E.State, f: E.State) {
    E.Inv(f) && E.RoutedPastCheck(f) && |e.emitted| <= |f.emitted| && f.emitted[..|e.emitted|] == e.emitted
  }

  /** The history of emitted tasks only grows. */
  lemma EmittedGrows(f: E.State, a: E.Action)
    requires E.Enabled(f, a)
    ensures |f.emitted| <= |E.Next(f, a).emitted| && E.Next(f, a).emitted[..|f.emitted|] == f.emitted
  {
  }

  lemma PrefixOfPrefix(xs: seq<E.Job>, ys: seq<E.Job>, zs: seq<E.Job>)
    requires |xs| <= |ys| <= |zs| && ys[..|xs|] == xs && zs[..|ys|] == ys
    ensures zs[..|xs|] == xs
  {
    assert zs[..|xs|] == zs[..|ys|][..|xs|];
  }

  lemma EngineGoesOn(e: E.State, f: E.State, g: E.State, a: Option<E.Action>)
    requires EngineShows(e, f) && CT.ActsBy(f, g, a)
    ensures EngineShows(e, g)
  {
    if a.Some? {
      E.InvKept(f, a.value);
      E.RoutedPastCheckKept(f, a.value);
      EmittedGrows(f, a.value);
      PrefixOfPrefix(e.emitted, f.emitted, g.emitted);
    }
  }

  lemma {:induction false} EngineShowsOn(cal: Calendar, vs: seq<SplitSys>, ms: seq<SplitMove>, n: nat, from: nat,
                                         i: nat)
    requires SplitBehaviour(cal, vs, ms) && from <= i < |vs| && n in vs[from].s.nodes
    requires E.Inv(vs[from].s.nodes[n].eng) && E.RoutedPastCheck(vs[from].s.nodes[n].eng)
    ensures n in vs[i].s.nodes && EngineShows(vs[from].s.nodes[n].eng, vs[i].s.nodes[n].eng)
    decreases i
  {
    if from < i {
      EngineShowsOn(cal, vs, ms, n, from, i - 1);
      var a := SplitEngineMove(cal, vs, ms, i - 1, n);
      EngineGoesOn(vs[from].s.nodes[n].eng, vs[i - 1].s.nodes[n].eng, vs[i].s.nodes[n].eng, a);
    } else {
      var emitted := vs[i].s.nodes[n].eng.emitted;
      assert emitted[..|emitted|] == emitted;
    }
  }

  lemma {:induction false} NodesAtStart(cal: Calendar, vs: seq<SplitSys>, ms: seq<SplitMove>, n: nat, i: nat)
    requires SplitBehaviour(cal, vs, ms) && i < |vs| && n in vs[i].s.nodes
    ensures n in vs[0].s.nodes && E.Inv(vs[0].s.nodes[n].eng) && E.RoutedPastCheck(vs[0].s.nodes[n].eng)
  {
    if i > 0 {
      assert SplitStepAt(cal, vs, ms, i - 1);
      NodeWasThere(cal, vs, ms, n, i - 1);
      NodesAtStart(cal, vs, ms, n, i - 1);
    } else {
      var pool: nat :| pool > 0 && vs[0].s.nodes[n].eng == E.Init(pool);
      E.InitInv(pool);
    }
  }

  lemma NodeWasThere(cal: Calendar, vs: seq<SplitSys>, ms: seq<SplitMove>, n: nat, i: nat)
    requires SplitBehaviour(cal, vs, ms) && i < |ms| && n in vs[i + 1].s.nodes
    ensures n in vs[i].s.nodes
  {
    assert SplitStepAt(cal, vs, ms, i);
  }

  lemma DeliveryOnRecord(cal: Calendar, vs: seq<SplitSys>, ms: seq<SplitMove>, k: nat)
    requires SplitBehaviour(cal, vs, ms) && k < |ms| && ms[k].Deliver? && !RoutedAt(vs, ms, k)
    ensures ms[k].n in vs[k + 1].s.nodes
    ensures var f := vs[k + 1].s.nodes[ms[k].n].eng;
      exists i :: 0 <= i < |f.emitted| && f.emitted[i].task.srv.routes == []
  {
    assert SplitStepAt(cal, vs, ms, k);
    var n, seen, order, s := ms[k].n, vs[ms[k].seen].s.reg, ms[k].routeOrder, vs[k].s;
    var a, e, f := SplitAction(seen, s, n, order), s.nodes[n].eng, vs[k + 1].s.nodes[n].eng;
    SplitDeliversRoutedIff(seen, s, vs[k + 1].s, n, order);
    E.Effects(e, a);
    var i :| 0 <= i < |a.jobs| && a.jobs[i].task.srv.routes == [];
    assert f.emitted[|e.emitted| + i] == a.jobs[i];
  }

  /**
   Stop returns on a node only if every delivery the node ever made found its routes: one task without routes, whether
   or not a worker has met it yet, keeps Stop from returning for ever.
   */
  lemma StopReturnsOnlyIfRouted(cal: Calendar, vs: seq<SplitSys>, ms: seq<SplitMove>, k: nat, i: nat)
    requires SplitBehaviour(cal, vs, ms) && k < i < |vs| && ms[k].Deliver? && ms[k].n in vs[i].s.nodes
    requires vs[i].s.nodes[ms[k].n].eng.stop == E.Returned
    ensures RoutedAt(vs, ms, k)
  {
    var n := ms[k].n;
    NodesAtStart(cal, vs, ms, n, i);
    EngineShowsOn(cal, vs, ms, n, 0, k + 1);
    EngineShowsOn(cal, vs, ms, n, k + 1, i);
    var e, f := vs[k + 1].s.nodes[n].eng, vs[i].s.nodes[n].eng;
    if !RoutedAt(vs, ms, k) {
      DeliveryOnRecord(cal, vs, ms, k);
      var j :| 0 <= j < |e.emitted| && e.emitted[j].task.srv.routes == [];
      assert f.emitted[j] == f.emitted[..|e.emitted|][j];
      E.ReturnedOnlyRouted(f, j);
    }
  }

  lemma LostStep(e: E.State, f: E.State, a: Option<E.Action>, w: nat)
    requires E.Inv(e) && w < |e.workers| && e.workers[w].Lost? && CT.ActsBy(e, f, a)
    ensures E.Inv(f) && w < |f.workers| && f.workers[w].Lost? && f.stop != E.Returned
  {
    if a.Some? {
      E.InvKept(e, a.value);
      E.LostStays(e, a.value, w);
    }
    E.LostBlocksStop(f, w);
  }

  /** The engine's own invariant holds in every state, whatever has been delivered. */
  lemma EngineInvAlways(cal: Calendar, vs: seq<SplitSys>, ms: seq<SplitMove>, i: nat, n: nat)
    requires SplitBehaviour(cal, vs, ms) && i < |vs| && n in vs[i].s.nodes
    ensures E.Inv(vs[i].s.nodes[n].eng)
  {
    NodesAtStart(cal, vs, ms, n, i);
    EngineShowsOn(cal, vs, ms, n, 0, i);
  }

  /** A worker that is lost stays lost, and Stop never returns on its node. */
  lemma {:induction false} LostForEver(cal: Calendar, vs: seq<SplitSys>, ms: seq<SplitMove>, from: nat, i: nat,
                                       n: nat, w: nat)
    requires SplitBehaviour(cal, vs, ms) && from <= i < |vs| && Has(vs[from].s, n, w) && Pc(vs[from].s, n, w).Lost?
    ensures Has(vs[i].s, n, w) && Pc(vs[i].s, n, w).Lost? && E.Inv(vs[i].s.nodes[n].eng)
    ensures vs[i].s.nodes[n].eng.stop != E.Returned
    decreases i
  {
    if from < i {
      LostForEver(cal, vs, ms, from, i - 1, n, w);
      var a := SplitEngineMove(cal, vs, ms, i - 1, n);
      LostStep(vs[i - 1].s.nodes[n].eng, vs[i].s.nodes[n].eng, a, w);
    } else {
      EngineInvAlways(cal, vs, ms, from, n);
      LostStep(vs[i].s.nodes[n].eng, vs[i].s.nodes[n].eng, None, w);
    }
  }

  // ---------------------------------------------------------------- building runs

  lemma SplitStep1(cal: Calendar, vs: seq<SplitSys>, ms: seq<SplitMove>, u: SplitSys, m: SplitMove)
    returns (ws: seq<SplitSys>, ns: seq<SplitMove>)
    requires SplitBehaviour(cal, vs, ms) && SplitStep(cal, vs, |ms|, u, m)
    ensures SplitBehaviour(cal, ws, ns) && ws == vs + [u] && ns == ms + [m]
  {
    ws, ns := vs + [u], ms + [m];
    forall i | 0 <= i < |ns|
      ensures SplitStepAt(cal, ws, ns, i)
    {
      if i < |ms| {
        assert SplitStepAt(cal, vs, ms, i);
      }
    }
  }

  lemma PlainStep(cal: Calendar, vs: seq<SplitSys>, ms: seq<SplitMove>, u: Sys, m: Move)
    returns (ws: seq<SplitSys>, ns: seq<SplitMove>)
    requires SplitBehaviour(cal, vs, ms) && OutsideRegistry(m) && C.Step(cal, vs[|ms|].s, u, m)
    ensures SplitBehaviour(cal, ws, ns) && ws == vs + [vs[|ms|].(s := u)] && ns == ms + [Plain(m)]
  {
    ws, ns := SplitStep1(cal, vs, ms, vs[|ms|].(s := u), Plain(m));
  }

  /** One registry call, from statement `j` on, with nothing in between. */
  lemma {:induction false} RunCallFrom(cal: Calendar, vs: seq<SplitSys>, ms: seq<SplitMove>, c: nat, ts: seq<Tables>,
                                       cs: seq<ST.RegCall>, j: nat, others: map<nat, ST.RegCall>)
    returns (ws: seq<SplitSys>, ns: seq<SplitMove>)
    requires SplitBehaviour(cal, vs, ms) && ST.Uninterrupted(ts, cs) && j < |cs| && c !in others
    requires vs[|ms|].s.reg == ts[j] && vs[|ms|].regCalls == others[c := cs[j]]
    ensures SplitBehaviour(cal, ws, ns) && vs <= ws
    ensures ws[|ns|] == SplitSys(vs[|ms|].s.(reg := ts[|cs|]), others)
    decreases |cs| - j
  {
    assert ST.RunsAt(ts, cs, j);
    var calls := if j + 1 < |cs| then others[c := cs[j + 1]] else others;
    assert others[c := cs[j]] - {c} == others;
    var u := SplitSys(vs[|ms|].s.(reg := ts[j + 1]), calls);
    assert StepStatement(vs[|ms|], u, c);
    ws, ns := SplitStep1(cal, vs, ms, u, RunStatement(c));
    if j + 1 < |cs| {
      ws, ns := RunCallFrom(cal, ws, ns, c, ts, cs, j + 1, others);
    }
  }

  lemma RunCall(cal: Calendar, vs: seq<SplitSys>, ms: seq<SplitMove>, c: nat, ts: seq<Tables>, cs: seq<ST.RegCall>)
    returns (ws: seq<SplitSys>, ns: seq<SplitMove>)
    requires SplitBehaviour(cal, vs, ms) && ST.Uninterrupted(ts, cs) && c !in vs[|ms|].regCalls
    requires vs[|ms|].s.reg == ts[0] && (cs[0].Looking? || cs[0].Taking?)
    ensures SplitBehaviour(cal, ws, ns) && vs <= ws && ws[|ns|] == vs[|ms|].(s := vs[|ms|].s.(reg := ts[|cs|]))
  {
    var v := vs[|ms|];
    ws, ns := SplitStep1(cal, vs, ms, v.(regCalls := v.regCalls[c := cs[0]]), OpenCall(c, cs[0]));
    ws, ns := RunCallFrom(cal, ws, ns, c, ts, cs, 0, v.regCalls);
  }

  /** A registration, uninterrupted. */
  lemma RunAdd(cal: Calendar, vs: seq<SplitSys>, ms: seq<SplitMove>, name: string, rs: seq<Route>)
    returns (ws: seq<SplitSys>, ns: seq<SplitMove>)
    requires SplitBehaviour(cal, vs, ms) && vs[|ms|].regCalls == map[] && Valid(vs[|ms|].s.reg)
    ensures SplitBehaviour(cal, ws, ns) && vs <= ws
    ensures ws[|ns|] == vs[|ms|].(s := vs[|ms|].s.(reg := Register(vs[|ms|].s.reg, name, rs)))
  {
    var ts, cs := ST.AddTogether(vs[|ms|].s.reg, name, rs);
    ws, ns := RunCall(cal, vs, ms, 0, ts, cs);
  }

  /** A deletion, uninterrupted. */
  lemma RunDelete(cal: Calendar, vs: seq<SplitSys>, ms: seq<SplitMove>, name: string, ids: seq<nat>)
    returns (ws: seq<SplitSys>, ns: seq<SplitMove>)
    requires SplitBehaviour(cal, vs, ms) && vs[|ms|].regCalls == map[] && Valid(vs[|ms|].s.reg)
    ensures SplitBehaviour(cal, ws, ns) && vs <= ws
    ensures ws[|ns|] == vs[|ms|].(s := vs[|ms|].s.(reg := ST.Unregistered(vs[|ms|].s.reg, name, ids)))
  {
    var ts, cs := ST.DeleteTogether(vs[|ms|].s.reg, name, ids);
    ws, ns := RunCall(cal, vs, ms, 0, ts, cs);
  }

  // ---------------------------------------------------------------- two runs that lose a worker

  const REQ := AddReq(TaskKey("job", ""), "", "", 1, Sched(TimeInterval, "", 60, 0))

  function JobRow(): TaskRow {
    NewRow(REQ, DB_TIME_INTERVAL, 60)
  }

  lemma AddTheTask(cal: Calendar, vs: seq<SplitSys>, ms: seq<SplitMove>) returns (ws: seq<SplitSys>, ns: seq<SplitMove>)
    requires SplitBehaviour(cal, vs, ms) && vs[|ms|].s.p.tab == NO_TASKS && vs[|ms|].s.calls == map[]
    ensures SplitBehaviour(cal, ws, ns) && ws[0] == vs[0]
    ensures var v, u := vs[|ms|], ws[|ns|];
      u.regCalls == v.regCalls && u.s == v.s.(p := u.s.p, replies := u.s.replies) && u.s.p.tab == OneRow(JobRow())
  {
    var s := vs[|ms|].s;
    var looked := s.(calls := map[0 := AddCall(REQ, DB_TIME_INTERVAL, 60, None)]);
    ws, ns := PlainStep(cal, vs, ms, looked, AddLook(0, REQ, 0, None));
    var added := looked.(p := L.State(OneRow(JobRow()), s.p.trace + [Added(1, JobRow())]), calls := looked.calls - {0},
                         replies := s.replies + [Reply(0, REQ.key, Some(1))]);
    ws, ns := PlainStep(cal, ws, ns, added, AddWrite(0));
  }

  /** The node's clock comes to the plan and its loop is about to read. */
  lemma PollTheTask(cal: Calendar, vs: seq<SplitSys>, ms: seq<SplitMove>, n: nat)
    returns (ws: seq<SplitSys>, ns: seq<SplitMove>)
    requires SplitBehaviour(cal, vs, ms) && Resting(vs[|ms|].s, n)
    ensures SplitBehaviour(cal, ws, ns) && ws[0] == vs[0]
    ensures ws[|ns|].regCalls == vs[|ms|].regCalls && OnlyNode(vs[|ms|].s, ws[|ns|].s, n)
    ensures ws[|ns|].s.p == vs[|ms|].s.p
    ensures var node := ws[|ns|].s.nodes[n];
      && node.clock >= 60 && node.eng.sched == E.Checked && node.eng.cursor == 0
      && |node.eng.workers| > 0 && node.eng.workers[0] == E.Ready
  {
    var s := vs[|ms|].s;
    var t := if s.nodes[n].clock < 60 then 60 else s.nodes[n].clock;
    var u := s.(nodes := s.nodes[n := s.nodes[n].(clock := t)]);
    ws, ns := PlainStep(cal, vs, ms, u, ClockTick(n, t));
    var v := LocalStep(u, n, E.Poll);
    ws, ns := PlainStep(cal, ws, ns, v, Local(n, E.Poll));
  }

  lemma JobIsDue(t: TaskTab, clock: int)
    requires t == OneRow(JobRow()) && clock >= 60
    ensures DuePage(t, 0, clock, E.PAGE_SIZE) == [1] && t.rows == map[1 := JobRow()]
  {
    OnlyDue(t, clock, E.PAGE_SIZE, 1);
  }

  lemma SelectedIsRead(s: Sys, u: Sys, n: nat, row: TaskRow)
    requires n in s.nodes && s.p.tab.rows == map[1 := row]
    requires u == s.(p := L.State(s.p.tab, s.p.trace + [Read(n, s.p.tab.rows, s.nodes[n].clock)]),
                     nodes := s.nodes[n := Node(s.nodes[n].clock,
                         s.nodes[n].eng.(sched := E.Selected([1], |s.p.trace|)))])
    ensures HasRead(u, n, row) && u.reg == s.reg && u.nodes[n].eng.workers == s.nodes[n].eng.workers
  {
  }

  /** And it selects the task. */
  lemma SelectTheTask(cal: Calendar, vs: seq<SplitSys>, ms: seq<SplitMove>, n: nat)
    returns (ws: seq<SplitSys>, ns: seq<SplitMove>)
    requires SplitBehaviour(cal, vs, ms) && Resting(vs[|ms|].s, n) && vs[|ms|].s.p.tab == OneRow(JobRow())
    ensures SplitBehaviour(cal, ws, ns) && ws[0] == vs[0] && HasRead(ws[|ns|].s, n, JobRow())
    ensures ws[|ns|].regCalls == vs[|ms|].regCalls && ws[|ns|].s.reg == vs[|ms|].s.reg
    ensures var e := ws[|ns|].s.nodes[n].eng; |e.workers| > 0 && e.workers[0] == E.Ready
  {
    ws, ns := PollTheTask(cal, vs, ms, n);
    JobIsDue(ws[|ns|].s.p.tab, ws[|ns|].s.nodes[n].clock);
    var w := SelectsOneRow(ws[|ns|].s, n);
    SelectedIsRead(ws[|ns|].s, w, n, JobRow());
    ws, ns := PlainStep(cal, ws, ns, w, SelectDue(n, ws[|ns|].s.nodes[n].clock));
  }

  lemma RoutelessTask(rows: map<nat, TaskRow>, ids: seq<nat>, seen: Tables, reg: Tables, order: seq<nat>)
    requires rows == map[1 := JobRow()] && ids == [1] && LiveSrv(seen, 1)
    requires !HasLiveRoute(reg, 1) && Enumerates(order, reg.routes.Keys)
    ensures JoinedRowsOk(rows, ids, seen)
    ensures var tasks := SplitJoin(rows, ids, seen, reg, order); |tasks| == 1 && tasks[0].srv.routes == []
  {
    NoRoutesIff(reg, 1, order);
    assert ids[..|ids| - 1] == [] && SplitJoin(rows, [], seen, reg, order) == [];
  }

  /** At position `k` node `n` joins, with routes as they are now, servers as they were in state `seen`. */
  ghost predicate JoinsAt(ms: seq<SplitMove>, k: nat, n: nat, seen: nat) {
    k < |ms| && ms[k].Deliver? && ms[k].n == n && ms[k].seen == seen
  }

  /** The join finds the task, and no route. */
  lemma DeliverRouteless(cal: Calendar, vs: seq<SplitSys>, ms: seq<SplitMove>, n: nat, seen: nat)
    returns (ws: seq<SplitSys>, ns: seq<SplitMove>)
    requires SplitBehaviour(cal, vs, ms) && HasRead(vs[|ms|].s, n, JobRow()) && seen < |vs| && n in vs[seen].s.nodes
    requires vs[seen].s.nodes[n].eng.sched == vs[|ms|].s.nodes[n].eng.sched
    requires LiveSrv(vs[seen].s.reg, 1) && !HasLiveRoute(vs[|ms|].s.reg, 1)
    ensures SplitBehaviour(cal, ws, ns) && vs <= ws && |ns| == |ms| + 1 && JoinsAt(ns, |ms|, n, seen)
    ensures OnlyNode(vs[|ms|].s, ws[|ns|].s, n)
    ensures var e, f := vs[|ms|].s.nodes[n].eng, ws[|ns|].s.nodes[n].eng;
      && f.workers == e.workers && f.sched.Sending? && |f.sched.jobs| == 1 && f.sched.jobs[0].task.srv.routes == []
  {
    var s := vs[|ms|].s;
    var order := Ascending(s.reg.routes.Keys);
    var page := s.p.trace[|s.p.trace| - 1].page;
    RoutelessTask(page, [1], vs[seen].s.reg, s.reg, order);
    var u := Act(s, n, SplitAction(vs[seen].s.reg, s, n, order), s.nodes[n].clock);
    ws, ns := SplitStep1(cal, vs, ms, vs[|ms|].(s := u), Deliver(n, seen, order));
  }

  /** A worker receives a task without routes and returns early. */
  lemma LoseWorker(cal: Calendar, vs: seq<SplitSys>, ms: seq<SplitMove>, n: nat)
    returns (ws: seq<SplitSys>, ns: seq<SplitMove>)
    requires SplitBehaviour(cal, vs, ms) && n in vs[|ms|].s.nodes
    requires var e := vs[|ms|].s.nodes[n].eng;
      && |e.workers| > 0 && e.workers[0] == E.Ready
      && e.sched.Sending? && |e.sched.jobs| == 1 && e.sched.jobs[0].task.srv.routes == []
    ensures SplitBehaviour(cal, ws, ns) && vs <= ws && ms <= ns && Has(ws[|ns|].s, n, 0) && Pc(ws[|ns|].s, n, 0).Lost?
  {
    var v := LocalStep(vs[|ms|].s, n, E.Handoff(0));
    ws, ns := PlainStep(cal, vs, ms, v, Local(n, E.Handoff(0)));
    var w := LocalStep(v, n, E.DropRouteless(0));
    ws, ns := PlainStep(cal, ws, ns, w, Local(n, E.DropRouteless(0)));
  }

  lemma DeliverAndLose(cal: Calendar, vs: seq<SplitSys>, ms: seq<SplitMove>, n: nat, seen: nat)
    returns (ws: seq<SplitSys>, ns: seq<SplitMove>)
    requires SplitBehaviour(cal, vs, ms) && HasRead(vs[|ms|].s, n, JobRow()) && seen < |vs| && n in vs[seen].s.nodes
    requires vs[seen].s.nodes[n].eng.sched == vs[|ms|].s.nodes[n].eng.sched
    requires LiveSrv(vs[seen].s.reg, 1) && !HasLiveRoute(vs[|ms|].s.reg, 1)
    requires var e := vs[|ms|].s.nodes[n].eng; |e.workers| > 0 && e.workers[0] == E.Ready
    ensures SplitBehaviour(cal, ws, ns) && vs <= ws && Has(ws[|ns|].s, n, 0) && Pc(ws[|ns|].s, n, 0).Lost?
    ensures JoinsAt(ns, |ms|, n, seen)
  {
    ws, ns := DeliverRouteless(cal, vs, ms, n, seen);
    ws, ns := LoseWorker(cal, ws, ns, n);
  }

  /** A server with one route, one task of it, and a node at rest. */
  lemma SetUp(cal: Calendar, v: SplitSys) returns (vs: seq<SplitSys>, ms: seq<SplitMove>)
    requires Start(v.s) && v.regCalls == map[]
    ensures SplitBehaviour(cal, vs, ms) && vs[0] == v && vs[|ms|].regCalls == map[] && vs[|ms|].s.nodes == v.s.nodes
    ensures vs[|ms|].s.reg == OneServer() && vs[|ms|].s.p.tab == OneRow(JobRow())
  {
    vs, ms := [v], [];
    vs, ms := RunAdd(cal, vs, ms, "srv", [ROUTE] + []);
    vs, ms := AddTheTask(cal, vs, ms);
  }

  lemma OneServerGone(t: Tables)
    requires t == OneServer()
    ensures Valid(t) && LiveSrv(t, 1) && "srv" in t.byName && t.byName["srv"] == 1
    ensures var u := ST.Unregistered(t, "srv", [1]);
      Valid(u) && !LiveSrv(u, 1) && !HasLiveRoute(u, 1) && u.byName == t.byName
  {
    OneServerRows();
    Refine.LastRouteTakesServer(t, "srv", 1);
  }

  lemma UnregisterTheServer(cal: Calendar, vs: seq<SplitSys>, ms: seq<SplitMove>)
    returns (ws: seq<SplitSys>, ns: seq<SplitMove>)
    requires SplitBehaviour(cal, vs, ms) && vs[|ms|].regCalls == map[] && vs[|ms|].s.reg == OneServer()
    ensures SplitBehaviour(cal, ws, ns) && vs <= ws && ws[|ns|].s == vs[|ms|].s.(reg := ws[|ns|].s.reg)
    ensures !LiveSrv(ws[|ns|].s.reg, 1) && !HasLiveRoute(ws[|ns|].s.reg, 1)
  {
    OneServerGone(vs[|ms|].s.reg);
    ws, ns := RunDelete(cal, vs, ms, "srv", [1]);
  }

  lemma GoesOn(vs: seq<SplitSys>, ms: seq<SplitMove>, ws: seq<SplitSys>, ns: seq<SplitMove>)
    requires |vs| == |ms| + 1 && |ws| == |ns| + 1 && vs <= ws && vs[|ms|] != ws[|ns|]
    ensures |ms| < |ns| && ws[|ms|] == vs[|ms|]
  {
    assert |vs| == |ws| ==> vs == ws;
  }

  lemma UnregisterAndLose(cal: Calendar, vs: seq<SplitSys>, ms: seq<SplitMove>, n: nat)
    returns (ws: seq<SplitSys>, ns: seq<SplitMove>, k: nat)
    requires SplitBehaviour(cal, vs, ms) && HasRead(vs[|ms|].s, n, JobRow())
    requires vs[|ms|].regCalls == map[] && vs[|ms|].s.reg == OneServer()
    requires var e := vs[|ms|].s.nodes[n].eng; |e.workers| > 0 && e.workers[0] == E.Ready
    ensures SplitBehaviour(cal, ws, ns) && ws[0] == vs[0] && Has(ws[|ns|].s, n, 0) && Pc(ws[|ns|].s, n, 0).Lost?
    ensures JoinsAt(ns, k, n, |ms|) && |ms| < k && LiveSrv(ws[|ms|].s.reg, 1) && !LiveSrv(ws[k].s.reg, 1)
  {
    OneServerRows();
    ws, ns := UnregisterTheServer(cal, vs, ms);
    GoesOn(vs, ms, ws, ns);
    k := |ns|;
    ws, ns := DeliverAndLose(cal, ws, ns, n, |ms|);
  }

  lemma StillResting(s: Sys, u: Sys, n: nat)
    requires Start(s) && n in s.nodes && u.nodes == s.nodes
    ensures Resting(u, n)
  {
    FreshNodeRests(s, n);
  }

  /** The server is unregistered between the two reads of the join, which is made at position `k`. */
  lemma LostBetweenReads(cal: Calendar, v: SplitSys, n: nat)
    returns (vs: seq<SplitSys>, ms: seq<SplitMove>, seen: nat, k: nat)
    requires Start(v.s) && v.regCalls == map[] && n in v.s.nodes
    ensures SplitBehaviour(cal, vs, ms) && vs[0] == v && Has(vs[|ms|].s, n, 0) && Pc(vs[|ms|].s, n, 0).Lost?
    ensures JoinsAt(ms, k, n, seen) && seen < k && LiveSrv(vs[seen].s.reg, 1) && !LiveSrv(vs[k].s.reg, 1)
  {
    vs, ms := SetUp(cal, v);
    StillResting(v.s, vs[|ms|].s, n);
    vs, ms := SelectTheTask(cal, vs, ms, n);
    seen := |ms|;
    vs, ms, k := UnregisterAndLose(cal, vs, ms, n);
  }

  lemma RevivedWithoutRoutes(t: Tables)
    requires Valid(t) && "srv" in t.byName && t.byName["srv"] == 1 && !LiveSrv(t, 1) && !HasLiveRoute(t, 1)
    ensures ST.Statement(t, ST.Looking("srv", [ROUTE])) == (t, Some(ST.Reviving(1, [ROUTE])))
    ensures 1 in t.srvs
    ensures ST.Statement(t, ST.Reviving(1, [ROUTE])) == (ReviveSrv(t, 1), Some(ST.Putting(1, [ROUTE], 0)))
    ensures LiveSrv(ReviveSrv(t, 1), 1) && !HasLiveRoute(ReviveSrv(t, 1), 1)
  {
    assert forall r :: LiveRoute(ReviveSrv(t, 1), r, 1) <==> LiveRoute(t, r, 1);
  }

  /** The server is registered again: its row is revived, and no route is put yet. */
  lemma BeginRevival(cal: Calendar, vs: seq<SplitSys>, ms: seq<SplitMove>)
    returns (ws: seq<SplitSys>, ns: seq<SplitMove>)
    requires SplitBehaviour(cal, vs, ms) && vs[|ms|].regCalls == map[] && Valid(vs[|ms|].s.reg)
    requires var t := vs[|ms|].s.reg; "srv" in t.byName && t.byName["srv"] == 1 && !LiveSrv(t, 1) && !HasLiveRoute(t, 1)
    ensures SplitBehaviour(cal, ws, ns) && vs <= ws && ws[|ns|].s == vs[|ms|].s.(reg := ws[|ns|].s.reg)
    ensures LiveSrv(ws[|ns|].s.reg, 1) && !HasLiveRoute(ws[|ns|].s.reg, 1)
  {
    var v := vs[|ms|];
    var t := v.s.reg;
    RevivedWithoutRoutes(t);
    ws, ns := SplitStep1(cal, vs, ms, v.(regCalls := map[0 := ST.Looking("srv", [ROUTE])]),
        OpenCall(0, ST.Looking("srv", [ROUTE])));
    ws, ns := SplitStep1(cal, ws, ns, v.(regCalls := map[0 := ST.Reviving(1, [ROUTE])]), RunStatement(0));
    var u := SplitSys(v.s.(reg := ReviveSrv(t, 1)), map[0 := ST.Putting(1, [ROUTE], 0)]);
    ws, ns := SplitStep1(cal, ws, ns, u, RunStatement(0));
  }

  /** Both reads of the join, made at position `k`, fall between the revival of the server row and its first route. */
  lemma LostInRevival(cal: Calendar, v: SplitSys, n: nat) returns (vs: seq<SplitSys>, ms: seq<SplitMove>, k: nat)
    requires Start(v.s) && v.regCalls == map[] && n in v.s.nodes
    ensures SplitBehaviour(cal, vs, ms) && vs[0] == v && Has(vs[|ms|].s, n, 0) && Pc(vs[|ms|].s, n, 0).Lost?
    ensures JoinsAt(ms, k, n, k) && LiveSrv(vs[k].s.reg, 1)
  {
    vs, ms := SetUp(cal, v);
    OneServerGone(vs[|ms|].s.reg);
    vs, ms := RunDelete(cal, vs, ms, "srv", [1]);
    vs, ms := BeginRevival(cal, vs, ms);
    StillResting(v.s, vs[|ms|].s, n);
    vs, ms := SelectTheTask(cal, vs, ms, n);
    k := |ms|;
    vs, ms := DeliverAndLose(cal, vs, ms, n, |ms|);
  }

  // ---------------------------------------------------------------- half a registration

  /**
   Between the first-or-create of a server row and its first route the invariant holds only if the server had routes
   before.
   */
  lemma HalfRegisteredIff(t: Tables, name: string)
    requires SrvTables.Inv(t)
    ensures LiveTogether(EnsureSrv(t, name).0) <==> Refine.Knows(Refine.Abs(t), name)
  {
    Refine.KnowsIffLive(t, name);
    var (u, s) := EnsureSrv(t, name);
    if name in t.byName {
      assert SrvIndexed(t, t.byName[name]);
      assert forall o :: HasLiveRoute(u, o) <==> HasLiveRoute(t, o) by {
        assert forall r, o :: LiveRoute(u, r, o) <==> LiveRoute(t, r, o);
      }
    } else {
      forall r
        ensures !LiveRoute(u, r, s)
      {
        if r in t.routes {
          assert RouteIndexed(t, r);
        }
      }
    }
  }
}
