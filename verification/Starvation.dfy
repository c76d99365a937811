/** A run of the system into a state where a due task with a live server is never sent again, for every page size. */
module Starvation {
  import opened Wrappers
  import opened Selections
  import opened SrvTables
  import opened SrvRefinement
  import opened TaskTables
  import opened L = LockProtocol
  import E = Engine
  import opened C = Cluster
  import P = ClusterProofs
  import opened CT = ClusterTheorems
  import opened W = Sweep
  import SS = SystemSweep

  const INTERVAL := 60
  const SEED_ROUTE := Route(0, Addr("http", "localhost", 80), 5, false)

  // ---------------------------------------------------------------- the backlog

  /** One task of each business id; ids up to `size` belong to server 1, later ones to server 2. */
  function BacklogReq(id: nat, size: nat): AddReq {
    AddReq(TaskKey("job", seq(id, _ => 'x')), "", "", if id <= size then 1 else 2, Sched(TimeInterval, "", INTERVAL, 0))
  }

  function BacklogRow(id: nat, size: nat): TaskRow {
    NewRow(BacklogReq(id, size), DB_TIME_INTERVAL, INTERVAL)
  }

  /** The task table after the first `n` of them were added. */
  function Backlog(n: nat, size: nat): (t: TaskTab)
    ensures t.nextId == n + 1
    ensures forall id :: id in t.rows <==> 0 < id <= n
    ensures forall id :: 0 < id <= n ==> t.rows[id] == BacklogRow(id, size)
    ensures forall key :: key in t.byKey ==> |key.bizId| <= n
  {
    if n == 0 then NO_TASKS else Insert(Backlog(n - 1, size), BacklogRow(n, size)).value.0
  }

  /** The first `n` tasks are in the table, no call is pending, and nothing else of interest has changed. */
  ghost predicate BacklogAdded(s: Sys, u: Sys, n: nat, size: nat) {
    u.p.tab == Backlog(n, size) && u.calls == map[] && u.nodes == s.nodes && u.reg == s.reg
  }

  lemma BacklogGrows(n: nat, size: nat)
    ensures var t, req := Backlog(n, size), BacklogReq(n + 1, size);
      && FindTask(t, req.key) == None
      && Insert(t, NewRow(req, DB_TIME_INTERVAL, INTERVAL)) == Some((Backlog(n + 1, size), n + 1))
  {
  }

  lemma AddOneLooks(s: Sys, n: nat, size: nat, cal: Calendar) returns (u: Sys)
    requires s.p.tab == Backlog(n, size) && s.calls == map[]
    ensures C.Step(cal, s, u, AddLook(0, BacklogReq(n + 1, size), 0, None))
    ensures u == s.(calls := map[0 := AddCall(BacklogReq(n + 1, size), DB_TIME_INTERVAL, INTERVAL, None)])
  {
    BacklogGrows(n, size);
    u := s.(calls := s.calls[0 := AddCall(BacklogReq(n + 1, size), DB_TIME_INTERVAL, INTERVAL, None)]);
  }

  lemma AddOneWrites(s: Sys, n: nat, size: nat, cal: Calendar) returns (u: Sys)
    requires s.p.tab == Backlog(n, size)
    requires s.calls == map[0 := AddCall(BacklogReq(n + 1, size), DB_TIME_INTERVAL, INTERVAL, None)]
    ensures C.Step(cal, s, u, AddWrite(0)) && BacklogAdded(s, u, n + 1, size)
  {
    BacklogGrows(n, size);
    var tab := Backlog(n + 1, size);
    u := s.(p := L.State(tab, s.p.trace + [Added(n + 1, tab.rows[n + 1])]), calls := s.calls - {0},
            replies := s.replies + [Reply(0, BacklogReq(n + 1, size).key, Some(n + 1))]);
  }

  lemma AddOne(cal: Calendar, ss: seq<Sys>, ms: seq<Move>, n: nat, size: nat) returns (rs: seq<Sys>, ns: seq<Move>)
    requires C.Behaviour(cal, ss, ms) && ss[|ms|].p.tab == Backlog(n, size) && ss[|ms|].calls == map[]
    ensures C.Behaviour(cal, rs, ns) && rs[0] == ss[0] && BacklogAdded(ss[|ms|], rs[|ns|], n + 1, size)
  {
    var look := AddLook(0, BacklogReq(n + 1, size), 0, None);
    var u := AddOneLooks(ss[|ms|], n, size, cal);
    BehaviourGrows(cal, ss, ms, u, look);
    var v := AddOneWrites(u, n, size, cal);
    BehaviourGrows(cal, ss + [u], ms + [look], v, AddWrite(0));
    rs, ns := ss + [u] + [v], ms + [look] + [AddWrite(0)];
  }

  lemma {:induction false} AddBacklog(cal: Calendar, ss: seq<Sys>, ms: seq<Move>, n: nat, size: nat)
    returns (rs: seq<Sys>, ns: seq<Move>)
    requires C.Behaviour(cal, ss, ms) && BacklogAdded(ss[|ms|], ss[|ms|], 0, size)
    ensures C.Behaviour(cal, rs, ns) && rs[0] == ss[0] && BacklogAdded(ss[|ms|], rs[|ns|], n, size)
  {
    rs, ns := ss, ms;
    if n > 0 {
      rs, ns := AddBacklog(cal, ss, ms, n - 1, size);
      rs, ns := AddOne(cal, rs, ns, n - 1, size);
    }
  }

  // ---------------------------------------------------------------- the registry

  /** Two servers with one route each. */
  function TwoServers(): Tables {
    Tables(
      map[1 := SrvRow("gone", false, false), 2 := SrvRow("live", false, false)], map["gone" := 1, "live" := 2], 3,
      map[1 := RouteRow(1, SEED_ROUTE.addr, 5, false, false), 2 := RouteRow(2, SEED_ROUTE.addr, 5, false, false)],
      map[RouteKey(1, SEED_ROUTE.addr) := 1, RouteKey(2, SEED_ROUTE.addr) := 2], 3)
  }

  lemma TwoServersRegistered()
    ensures Valid(EMPTY_TABLES) && Valid(TwoServers())
    ensures Register(Register(EMPTY_TABLES, "gone", [SEED_ROUTE] + []), "live", [SEED_ROUTE] + []) == TwoServers()
  {
    RegisterNew(EMPTY_TABLES, "gone", SEED_ROUTE);
    RegisterNew(Register(EMPTY_TABLES, "gone", [SEED_ROUTE] + []), "live", SEED_ROUTE);
  }

  // ---------------------------------------------------------------- the run

  /** The state reached: a full page of tasks without a live server, and one due task behind it whose server is live. */
  ghost predicate Starved(s: Sys, size: nat) {
    && s.p.tab == Backlog(size + 1, size)
    && !LiveSrv(s.reg, 1) && LiveSrv(s.reg, 2)
  }

  lemma BothRegistered(cal: Calendar, s: Sys) returns (ss: seq<Sys>, ms: seq<Move>)
    requires Start(s)
    ensures C.Behaviour(cal, ss, ms) && ss[0] == s && ss[|ms|] == s.(reg := TwoServers())
  {
    TwoServersRegistered();
    Begin(cal, s);
    var s1 := s.(reg := Register(s.reg, "gone", [SEED_ROUTE] + []));
    BehaviourGrows(cal, [s], [], s1, AddSrv("gone", SEED_ROUTE, []));
    ss, ms := [s] + [s1], [] + [AddSrv("gone", SEED_ROUTE, [])];
    var s2 := s.(reg := TwoServers());
    BehaviourGrows(cal, ss, ms, s2, AddSrv("live", SEED_ROUTE, []));
    ss, ms := ss + [s2], ms + [AddSrv("live", SEED_ROUTE, [])];
  }

  lemma FirstUnregistered(cal: Calendar, ss: seq<Sys>, ms: seq<Move>) returns (rs: seq<Sys>, ns: seq<Move>)
    requires C.Behaviour(cal, ss, ms) && ss[|ms|].reg == TwoServers()
    ensures C.Behaviour(cal, rs, ns) && rs[0] == ss[0]
    ensures var s, u := ss[|ms|], rs[|ns|];
      u == s.(reg := u.reg) && !LiveSrv(u.reg, 1) && LiveSrv(u.reg, 2)
  {
    TwoServersRegistered();
    LastRouteTakesServer(TwoServers(), "gone", 1);
    assert LiveSrv(TwoServers(), 2);
    var last := ss[|ms|].(reg := Unregister(TwoServers(), "gone", [1]).value);
    BehaviourGrows(cal, ss, ms, last, DelSrv("gone", [1]));
    rs, ns := ss + [last], ms + [DelSrv("gone", [1])];
  }

  /** Register two servers, add `size` tasks of the first and one of the second, and unregister the first. */
  lemma StarvedIsReached(cal: Calendar, s: Sys, size: nat) returns (ss: seq<Sys>, ms: seq<Move>)
    requires Start(s)
    ensures C.Behaviour(cal, ss, ms) && ss[0] == s && Starved(ss[|ms|], size) && ss[|ms|].nodes == s.nodes
  {
    ss, ms := BothRegistered(cal, s);
    ss, ms := AddBacklog(cal, ss, ms, size + 1, size);
    ss, ms := FirstUnregistered(cal, ss, ms);
  }

  // ---------------------------------------------------------------- never sent

  function FirstIds(n: nat): (ids: seq<nat>)
    ensures |ids| == n && Distinct(ids) && forall id :: id in ids <==> 0 < id <= n
  {
    if n == 0 then []
    else
      var rest := FirstIds(n - 1);
      assert forall i :: 0 <= i < |rest| ==> rest[i] in rest;
      rest + [n]
  }

  /** When the due ids are exactly those up to `size + 1`, a page that reached the last of them would be too long. */
  lemma PageStopsShort(t: TaskTab, now: int, size: nat)
    requires forall id: nat :: DueAfter(t, 0, now, id) <==> 0 < id <= size + 1
    ensures size + 1 !in DuePage(t, 0, now, size)
  {
    var page, ids := DuePage(t, 0, now, size), FirstIds(size + 1);
    if size + 1 in page {
      forall id | id in ids
        ensures id in page
      {
        PageIsPrefix(t, 0, now, size, id, size + 1);
      }
      DistinctBound(ids, page);
    }
  }

  lemma PageIsFull(t: TaskTab, now: int, size: nat)
    requires forall id: nat :: DueAfter(t, 0, now, id) <==> 0 < id <= size + 1
    ensures |DuePage(t, 0, now, size)| == size
  {
    var page, ids := DuePage(t, 0, now, size), FirstIds(size + 1);
    if |page| < size {
      ShortPageIsAll(t, 0, now, size);
      DistinctBound(ids, page);
    }
  }

  lemma FirstPage(t: TaskTab, now: int, size: nat)
    requires forall id: nat :: DueAfter(t, 0, now, id) <==> 0 < id <= size + 1
    ensures var page := DuePage(t, 0, now, size);
      |page| == size && forall id :: id in page ==> 0 < id <= size
  {
    PageStopsShort(t, now, size);
    PageIsFull(t, now, size);
    var page := DuePage(t, 0, now, size);
    forall id | id in page
      ensures 0 < id <= size
    {
      assert DueAfter(t, 0, now, id);
    }
  }

  lemma BacklogIsDue(t: TaskTab, size: nat, now: int)
    requires t == Backlog(size + 1, size) && now >= INTERVAL
    ensures forall id: nat :: DueAfter(t, 0, now, id) <==> 0 < id <= size + 1
  {
  }

  lemma StarvedIsBlocked(s: Sys, size: nat, now: int, routeOrder: seq<nat>)
    requires Starved(s, size) && size > 0 && now >= INTERVAL
    ensures BlockedAt(View(s.p.tab, now, s.reg, routeOrder), size, 0, size + 1)
  {
    BacklogIsDue(s.p.tab, size, now);
    FirstPage(s.p.tab, now, size);
  }

  /** At any time from its plan on, the task is due on a live server, and no sweep over these tables sends it. */
  ghost predicate NeverSent(s: Sys, size: nat, id: nat) {
    forall v: View, turns: seq<Turn> :: v.tab == s.p.tab && v.reg == s.reg && v.now >= INTERVAL ==>
      NotSentBy(turns, v, size, id)
  }

  ghost predicate NotSentBy(turns: seq<Turn>, v: View, size: nat, id: nat) {
    LiveDue(v, id) && (Frozen(turns, v) ==> id !in Ids(Walk(turns, size).sent))
  }

  lemma StarvedIsNotSentBy(s: Sys, size: nat, v: View, turns: seq<Turn>, id: nat)
    requires Starved(s, size) && size > 0 && v.tab == s.p.tab && v.reg == s.reg && v.now >= INTERVAL && id == size + 1
    ensures NotSentBy(turns, v, size, id)
  {
    StarvedIsBlocked(s, size, v.now, v.routeOrder);
    if Frozen(turns, v) {
      BlockedIsNeverSent(turns, v, size, 0, id);
    }
  }

  lemma StarvedIsNeverSent(s: Sys, size: nat, id: nat)
    requires Starved(s, size) && size > 0 && id == size + 1
    ensures NeverSent(s, size, id)
  {
    forall v: View, turns: seq<Turn> | v.tab == s.p.tab && v.reg == s.reg && v.now >= INTERVAL
      ensures NotSentBy(turns, v, size, id)
    {
      StarvedIsNotSentBy(s, size, v, turns, id);
    }
  }

  /**
   For every page size a run of the system ends with a due task on a live server that is never sent while the tables
   stay.
   */
  lemma StarvationExists(cal: Calendar, s: Sys, size: nat) returns (ss: seq<Sys>, ms: seq<Move>)
    requires Start(s) && size > 0
    ensures C.Behaviour(cal, ss, ms) && ss[0] == s
    ensures ValidTasks(ss[|ms|].p.tab) && SrvTables.Inv(ss[|ms|].reg) && NeverSent(ss[|ms|], size, size + 1)
  {
    ss, ms := StarvedIsReached(cal, s, size);
    TablesValid(cal, ss, ms);
    StarvedIsNeverSent(ss[|ms|], size, size + 1);
  }

  lemma TablesValid(cal: Calendar, ss: seq<Sys>, ms: seq<Move>)
    requires C.Behaviour(cal, ss, ms)
    ensures ValidTasks(ss[|ms|].p.tab) && SrvTables.Inv(ss[|ms|].reg)
  {
    P.InvAlways(cal, ss, ms, |ms|);
  }

  // ---------------------------------------------------------------- never sent by any node

  /** A step that is no API call on tasks or servers. */
  predicate OfNodes(m: Move) {
    !m.AddLook? && !m.AddWrite? && !m.AddAbort? && !m.StopTask? && !m.AddSrv? && !m.DelSrv?
  }

  /** At clock `now` the first page of the table has no task but those of `gone`. */
  ghost predicate OrphanedPage(t: TaskTab, now: int, gone: nat) {
    forall id :: id in DuePage(t, 0, now, E.PAGE_SIZE) ==> id in t.rows && t.rows[id].srvId == gone
  }

  /** The rows selected are tasks of `gone`. */
  ghost predicate OrphansOnly(e: Event, gone: nat, ids: seq<nat>) {
    e.Read? && forall id :: id in ids ==> id in e.page && e.page[id].srvId == gone
  }

  /** The node holds no task, and has selected only tasks of `gone`. */
  ghost predicate HoldsNothing(tr: Trace, gone: nat, eng: E.State) {
    && eng.cursor == 0 && eng.emitted == [] && !eng.sched.Sending?
    && (forall w :: 0 <= w < |eng.workers| ==> !E.Busy(eng.workers[w]))
    && (eng.sched.Selected? ==> eng.sched.snap < |tr| && OrphansOnly(tr[eng.sched.snap], gone, eng.sched.ids))
  }

  ghost predicate NodesIdle(s: Sys, gone: nat) {
    forall n :: n in s.nodes ==> HoldsNothing(s.p.trace, gone, s.nodes[n].eng)
  }

  lemma IdleAtStart(s: Sys, u: Sys, gone: nat)
    requires Start(s) && u.nodes == s.nodes
    ensures NodesIdle(u, gone)
  {
    forall n | n in u.nodes
      ensures HoldsNothing(u.p.trace, gone, u.nodes[n].eng)
    {
      var pool: nat :| pool > 0 && s.nodes[n].eng == E.Init(pool);
    }
  }

  lemma BacklogDue(t: TaskTab, size: nat, now: int, id: nat)
    requires t == Backlog(size + 1, size)
    ensures DueAfter(t, 0, now, id) <==> 0 < id <= size + 1 && now >= INTERVAL
    ensures 0 < id <= size ==> id in t.rows && t.rows[id].srvId == 1
  {
  }

  lemma BacklogPage(t: TaskTab, size: nat, now: int, id: nat)
    requires size > 0 && t == Backlog(size + 1, size) && id in DuePage(t, 0, now, size)
    ensures id in t.rows && t.rows[id].srvId == 1
  {
    forall k: nat
      ensures DueAfter(t, 0, now, k) <==> 0 < k <= size + 1 && now >= INTERVAL
    {
      BacklogDue(t, size, now, k);
    }
    assert DueAfter(t, 0, now, id);
    FirstPage(t, now, size);
    BacklogDue(t, size, now, id);
  }

  lemma StarvedPages(t: TaskTab, size: nat, now: int)
    requires size == E.PAGE_SIZE && t == Backlog(size + 1, size)
    ensures OrphanedPage(t, now, 1)
  {
    forall id | id in DuePage(t, 0, now, E.PAGE_SIZE)
      ensures id in t.rows && t.rows[id].srvId == 1
    {
      BacklogPage(t, size, now, id);
    }
  }

  lemma {:induction false} JoinOfOrphans(rows: map<nat, TaskRow>, ids: seq<nat>, reg: Tables, routeOrder: seq<nat>)
    requires forall id :: id in ids ==> id in rows && !LiveSrv(reg, rows[id].srvId)
    ensures Join(rows, ids, reg, routeOrder) == []
  {
    if ids != [] {
      assert ids[|ids| - 1] in ids;
      JoinOfOrphans(rows, ids[..|ids| - 1], reg, routeOrder);
    }
  }

  lemma HoldsKept(tr: Trace, more: Trace, gone: nat, eng: E.State)
    requires HoldsNothing(tr, gone, eng) && P.Extends(tr, more)
    ensures HoldsNothing(more, gone, eng)
  {
    if eng.sched.Selected? {
      P.ExtendsAt(tr, more, eng.sched.snap);
    }
  }

  /** The node that acts still holds nothing, and nothing changes for the others. */
  lemma IdlesOn(s: Sys, u: Sys, n: nat, gone: nat)
    requires NodesIdle(s, gone) && P.Extends(s.p.trace, u.p.trace)
    requires u.nodes.Keys == s.nodes.Keys && forall k :: k in s.nodes && k != n ==> u.nodes[k] == s.nodes[k]
    requires n in u.nodes ==> HoldsNothing(u.p.trace, gone, u.nodes[n].eng)
    ensures NodesIdle(u, gone)
  {
    forall k | k in u.nodes
      ensures HoldsNothing(u.p.trace, gone, u.nodes[k].eng)
    {
      if k != n {
        HoldsKept(s.p.trace, u.p.trace, gone, u.nodes[k].eng);
      }
    }
  }

  lemma SelectHolds(s: Sys, u: Sys, n: nat, at: int, gone: nat)
    requires StepSelect(s, u, n, at) && HoldsNothing(s.p.trace, gone, s.nodes[n].eng) && OrphanedPage(s.p.tab, at, gone)
    ensures HoldsNothing(u.p.trace, gone, u.nodes[n].eng) && P.Extends(s.p.trace, u.p.trace)
    ensures u.p.tab == s.p.tab && u.reg == s.reg
  {
    var ids := DuePage(s.p.tab, 0, at, E.PAGE_SIZE);
    assert u.p.trace[|s.p.trace|] == Read(n, Copies(s.p.tab, IdSet(ids)), at);
  }

  lemma SelectIdles(s: Sys, u: Sys, n: nat, at: int, gone: nat)
    requires NodesIdle(s, gone) && StepSelect(s, u, n, at) && OrphanedPage(s.p.tab, at, gone)
    ensures NodesIdle(u, gone) && u.p.tab == s.p.tab && u.reg == s.reg
  {
    SelectHolds(s, u, n, at, gone);
    IdlesOn(s, u, n, gone);
  }

  lemma DeliverIdles(s: Sys, u: Sys, n: nat, routeOrder: seq<nat>, gone: nat)
    requires NodesIdle(s, gone) && StepDeliver(s, u, n, routeOrder) && !LiveSrv(s.reg, gone)
    ensures NodesIdle(u, gone) && u.p.tab == s.p.tab && u.reg == s.reg
  {
    var sel := s.nodes[n].eng.sched;
    assert HoldsNothing(s.p.trace, gone, s.nodes[n].eng);
    JoinOfOrphans(s.p.trace[sel.snap].page, sel.ids, s.reg, routeOrder);
    SS.DeliverEffect(s, u, n, routeOrder);
    IdlesOn(s, u, n, gone);
  }

  lemma LocalHolds(s: Sys, u: Sys, n: nat, a: E.Action, gone: nat)
    requires StepLocal(s, u, n, a) && HoldsNothing(s.p.trace, gone, s.nodes[n].eng)
    ensures HoldsNothing(u.p.trace, gone, u.nodes[n].eng) && u.p == s.p && u.reg == s.reg
  {
  }

  lemma LocalIdles(s: Sys, u: Sys, n: nat, a: E.Action, gone: nat)
    requires NodesIdle(s, gone) && StepLocal(s, u, n, a)
    ensures NodesIdle(u, gone) && u.p.tab == s.p.tab && u.reg == s.reg
  {
    LocalHolds(s, u, n, a, gone);
    IdlesOn(s, u, n, gone);
  }

  lemma NoWorkerBusy(s: Sys, n: nat, w: nat, gone: nat)
    requires NodesIdle(s, gone) && Has(s, n, w)
    ensures !E.Busy(Pc(s, n, w))
  {
    assert HoldsNothing(s.p.trace, gone, s.nodes[n].eng);
  }

  lemma EarlyStepIsBusy(cal: Calendar, s: Sys, u: Sys, m: Move)
    requires C.Step(cal, s, u, m) && (m.ReadNow? || m.ReadNext? || m.Lock? || m.InsertLog?)
    ensures Has(s, m.n, m.w) && E.Busy(Pc(s, m.n, m.w))
  {
  }

  lemma LateStepIsBusy(cal: Calendar, s: Sys, u: Sys, m: Move)
    requires C.Step(cal, s, u, m) && (m.CallBack? || m.WriteCallbackLog? || m.WriteConfirmedLog?)
    ensures Has(s, m.n, m.w) && E.Busy(Pc(s, m.n, m.w))
  {
  }

  lemma StepIdles(cal: Calendar, s: Sys, u: Sys, m: Move, gone: nat)
    requires NodesIdle(s, gone) && C.Step(cal, s, u, m) && OfNodes(m) && !LiveSrv(s.reg, gone)
    requires forall now :: OrphanedPage(s.p.tab, now, gone)
    ensures NodesIdle(u, gone) && u.p.tab == s.p.tab && u.reg == s.reg
  {
    if m.SelectDue? {
      SelectIdles(s, u, m.n, m.at, gone);
    } else if m.DeliverPage? {
      DeliverIdles(s, u, m.n, m.routeOrder, gone);
    } else if m.Local? {
      LocalIdles(s, u, m.n, m.a, gone);
    } else if m.ClockTick? {
      assert HoldsNothing(s.p.trace, gone, s.nodes[m.n].eng);
      IdlesOn(s, u, m.n, gone);
    } else if m.ConfirmByApi? {
      assert u.nodes == s.nodes && u.p == s.p;
    } else if m.ReadNow? || m.ReadNext? || m.Lock? || m.InsertLog? {
      EarlyStepIsBusy(cal, s, u, m);
      NoWorkerBusy(s, m.n, m.w, gone);
    } else {
      LateStepIsBusy(cal, s, u, m);
      NoWorkerBusy(s, m.n, m.w, gone);
    }
  }

  /** While only nodes act, idle nodes before an orphaned first page stay idle and the tables stay as they are. */
  lemma {:induction false} IdleForEver(cal: Calendar, ss: seq<Sys>, ms: seq<Move>, from: nat, i: nat, gone: nat)
    requires C.Behaviour(cal, ss, ms) && from <= i < |ss| && NodesIdle(ss[from], gone) && !LiveSrv(ss[from].reg, gone)
    requires forall now :: OrphanedPage(ss[from].p.tab, now, gone)
    requires forall k :: from <= k < i ==> OfNodes(ms[k])
    ensures NodesIdle(ss[i], gone) && ss[i].p.tab == ss[from].p.tab && ss[i].reg == ss[from].reg
    decreases i
  {
    if from < i {
      IdleForEver(cal, ss, ms, from, i - 1, gone);
      assert C.StepAt(cal, ss, ms, i - 1);
      StepIdles(cal, ss[i - 1], ss[i], ms[i - 1], gone);
    }
  }

  lemma StarvedIsRunnable(s: Sys, size: nat)
    requires Starved(s, size)
    ensures SS.Runnable(s, size + 1, 2)
  {
  }

  /**
   The starved state is for ever at the real page size: however a run goes on by steps of the nodes, at whatever times,
   no node emits any task, though the last one is due on a live server.
   */
  lemma StarvedForEver(cal: Calendar, s: Sys, size: nat) returns (ss: seq<Sys>, ms: seq<Move>)
    requires Start(s) && size == 1000
    ensures C.Behaviour(cal, ss, ms) && ss[0] == s && Starved(ss[|ms|], size) && SS.Runnable(ss[|ms|], size + 1, 2)
    ensures forall rs, ns, i :: OnlyNodesFrom(cal, ss, ms, rs, ns) && |ms| <= i < |rs| ==> Emitless(rs[i])
  {
    ss, ms := StarvedIsReached(cal, s, size);
    StarvedIsRunnable(ss[|ms|], size);
    var from, tab := |ms|, ss[|ms|].p.tab;
    IdleAtStart(s, ss[from], 1);
    forall now
      ensures OrphanedPage(tab, now, 1)
    {
      StarvedPages(tab, size, now);
    }
    forall rs, ns, i | OnlyNodesFrom(cal, ss, ms, rs, ns) && from <= i < |rs|
      ensures Emitless(rs[i])
    {
      assert rs[from] == rs[..|ss|][from];
      IdleForEver(cal, rs, ns, from, i, 1);
      IdleEmitsNothing(rs[i], 1);
    }
  }

  /** The run goes on from `ss` by steps of nodes alone. */
  ghost predicate OnlyNodesFrom(cal: Calendar, ss: seq<Sys>, ms: seq<Move>, rs: seq<Sys>, ns: seq<Move>) {
    C.Behaviour(cal, rs, ns) && Continues(ss, ms, rs, ns) && forall k :: |ms| <= k < |ns| ==> OfNodes(ns[k])
  }

  ghost predicate Emitless(s: Sys) {
    forall n :: n in s.nodes ==> s.nodes[n].eng.emitted == []
  }

  lemma IdleEmitsNothing(s: Sys, gone: nat)
    requires NodesIdle(s, gone)
    ensures Emitless(s)
  {
    forall n | n in s.nodes
      ensures s.nodes[n].eng.emitted == []
    {
      assert HoldsNothing(s.p.trace, gone, s.nodes[n].eng);
    }
  }
}
