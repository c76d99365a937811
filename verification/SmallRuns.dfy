/** Building blocks for short runs of the system: one server with one route, one task, and a node that runs it. */
module SmallRuns {
  import opened Wrappers
  import opened Selections
  import opened SrvTables
  import Refine = SrvRefinement
  import opened SrvQueries
  import opened TaskTables
  import opened RunLog
  import opened L = LockProtocol
  import E = Engine
  import opened C = Cluster
  import P = ClusterProofs
  import opened CT = ClusterTheorems

  // ---------------------------------------------------------------- one server, one task

  const ROUTE := Route(0, Addr("http", "localhost", 80), 5, false)

  function OneServer(): Tables {
    Register(EMPTY_TABLES, "srv", [ROUTE] + [])
  }

  lemma OneServerRows()
    ensures Valid(OneServer()) && OneServer().byName == map["srv" := 1] && LiveSrv(OneServer(), 1)
    ensures forall q :: LiveRoute(OneServer(), q, 1) ==> q == 1
  {
    Refine.RegisterNew(EMPTY_TABLES, "srv", ROUTE);
  }

  /** A table with one task. */
  function OneRow(row: TaskRow): TaskTab {
    TaskTab(map[1 := row], map[row.key := 1], 2)
  }

  lemma OnlyOne(ids: seq<nat>, id: nat)
    requires Increasing(ids) && id in ids && forall k :: k in ids ==> k == id
    ensures ids == [id]
  {
    assert forall i :: 0 <= i < |ids| ==> ids[i] in ids;
    var k := |ids| - 1;
    assert ids[0] == id && ids[k] == id;
  }

  lemma OnlyDue(t: TaskTab, now: int, size: nat, id: nat)
    requires size > 0 && forall k: nat :: DueAfter(t, 0, now, k) <==> k == id
    ensures DuePage(t, 0, now, size) == [id]
  {
    FilterIncreasing(Ascending(t.rows.Keys), DueBy(t, 0, now));
    var all := AllDue(t, 0, now);
    assert id in all;
    OnlyOne(all, id);
  }

  lemma CopiesOne(t: TaskTab)
    requires t.rows.Keys == {1}
    ensures IdSet([1]) == {1} && Copies(t, IdSet([1])) == t.rows
  {
  }

  /** A SELECT by the node's own clock that finds the one row of the table. */
  lemma SelectsOneRow(s: Sys, n: nat) returns (u: Sys)
    requires n in s.nodes && s.nodes[n].eng.sched == E.Checked
    requires DuePage(s.p.tab, s.nodes[n].eng.cursor, s.nodes[n].clock, E.PAGE_SIZE) == [1] && s.p.tab.rows.Keys == {1}
    ensures StepSelect(s, u, n, s.nodes[n].clock)
    ensures u == s.(p := L.State(s.p.tab, s.p.trace + [Read(n, s.p.tab.rows, s.nodes[n].clock)]),
                    nodes := s.nodes[n := Node(s.nodes[n].clock,
                        s.nodes[n].eng.(sched := E.Selected([1], |s.p.trace|)))])
  {
    var eng, clock, a := s.nodes[n].eng, s.nodes[n].clock, E.Select([1], |s.p.trace|);
    CopiesOne(s.p.tab);
    assert E.Enabled(eng, a) && E.Next(eng, a) == eng.(sched := E.Selected([1], |s.p.trace|));
    var p := L.State(s.p.tab, s.p.trace + [Read(n, s.p.tab.rows, clock)]);
    u := Act(s, n, a, clock).(p := p);
  }

  // ---------------------------------------------------------------- an add without interruption

  lemma Step1(cal: Calendar, ss: seq<Sys>, ms: seq<Move>, u: Sys, m: Move) returns (rs: seq<Sys>, ns: seq<Move>)
    requires C.Behaviour(cal, ss, ms) && C.Step(cal, ss[|ms|], u, m)
    ensures C.Behaviour(cal, rs, ns) && rs[0] == ss[0] && rs[|ns|] == u && rs == ss + [u]
  {
    BehaviourGrows(cal, ss, ms, u, m);
    rs, ns := ss + [u], ms + [m];
  }

  /** The add goes into row 1 of a table with at most that row. */
  predicate Stores(t: TaskTab, req: AddReq, dbMode: int, next: int) {
    && (FindTask(t, req.key) == None ==> t == NO_TASKS)
    && (FindTask(t, req.key).Some? ==> FindTask(t, req.key).value.0 == 1)
    && req.key.name != "" && ToDbMode(req.sched.mode) == Some(dbMode) && req.sched.mode != TimeCron
    && GetSchedNextAt(req.sched, 0, None) == Some(next)
  }

  /** What the add makes of the table. */
  function AfterAdd(t: TaskTab, req: AddReq, dbMode: int, next: int): (u: TaskTab)
    requires Stores(t, req, dbMode, next)
    ensures 1 in u.rows
  {
    WriteTask(t, req, dbMode, next, FindTask(t, req.key)).0
  }

  lemma AddNow(cal: Calendar, ss: seq<Sys>, ms: seq<Move>, req: AddReq, dbMode: int, next: int)
    returns (rs: seq<Sys>, ns: seq<Move>)
    requires C.Behaviour(cal, ss, ms) && ss[|ms|].calls == map[] && Stores(ss[|ms|].p.tab, req, dbMode, next)
    ensures C.Behaviour(cal, rs, ns) && rs[0] == ss[0]
    ensures var s, u := ss[|ms|], rs[|ns|];
      && u == s.(p := u.p, replies := u.replies) && u.p.tab == AfterAdd(s.p.tab, req, dbMode, next)
      && u.p.trace == s.p.trace + [Added(1, u.p.tab.rows[1])]
  {
    var s := ss[|ms|];
    var found := FindTask(s.p.tab, req.key);
    var looked := s.(calls := map[0 := AddCall(req, dbMode, next, found)]);
    rs, ns := Step1(cal, ss, ms, looked, AddLook(0, req, 0, None));
    var (tab, id) := WriteTask(s.p.tab, req, dbMode, next, found);
    var added := looked.(p := L.State(tab, s.p.trace + [Added(1, tab.rows[1])]), calls := looked.calls - {0},
                         replies := s.replies + [Reply(0, req.key, id)]);
    rs, ns := Step1(cal, rs, ns, added, AddWrite(0));
  }

  lemma RegisterOne(cal: Calendar, s: Sys) returns (ss: seq<Sys>, ms: seq<Move>)
    requires Start(s)
    ensures C.Behaviour(cal, ss, ms) && ss[0] == s && ss[|ms|] == s.(reg := OneServer()) && LiveSrv(ss[|ms|].reg, 1)
  {
    OneServerRows();
    Begin(cal, s);
    ss, ms := Step1(cal, [s], [], s.(reg := OneServer()), AddSrv("srv", ROUTE, []));
  }

  // ---------------------------------------------------------------- a turn of a node at rest

  /** The loop is at its top and at the start of a sweep, no stop was requested, and the first worker waits. */
  predicate AtRest(e: E.State) {
    e.sched == E.Top && e.cursor == 0 && e.stop == E.Idle && |e.workers| > 0 && e.workers[0] == E.Ready
  }

  predicate Resting(s: Sys, n: nat) {
    n in s.nodes && AtRest(s.nodes[n].eng)
  }

  /** A node that has done nothing yet is at rest. */
  lemma FreshNodeRests(s: Sys, n: nat)
    requires Start(s) && n in s.nodes
    ensures AtRest(s.nodes[n].eng)
  {
    assert exists pool: nat :: pool > 0 && s.nodes[n].eng == E.Init(pool);
  }

  /** In the middle of a sweep whose page is sent, with the first worker at `pc`. */
  predicate MidSweep(e: E.State, pc: E.WorkerPc) {
    e.sched == E.Top && e.cursor == 1 && e.stop == E.Idle && |e.workers| > 0 && e.workers[0] == pc
  }

  /** The other nodes, the registry, the logs and the calls are as before. */
  ghost predicate OnlyNode(s: Sys, u: Sys, n: nat) {
    && n in s.nodes && n in u.nodes && u == s.(p := u.p, nodes := u.nodes)
    && u.nodes.Keys == s.nodes.Keys && forall k :: k in s.nodes && k != n ==> u.nodes[k] == s.nodes[k]
  }

  /** The clock has come to `t` and the loop is about to read. */
  lemma PollAt(cal: Calendar, ss: seq<Sys>, ms: seq<Move>, n: nat, t: int) returns (rs: seq<Sys>, ns: seq<Move>)
    requires C.Behaviour(cal, ss, ms) && Resting(ss[|ms|], n) && ss[|ms|].nodes[n].clock <= t
    ensures C.Behaviour(cal, rs, ns) && rs[0] == ss[0]
    ensures var s, u := ss[|ms|], rs[|ns|];
      && OnlyNode(s, u, n) && u.p == s.p && u.nodes[n] == Node(t, s.nodes[n].eng.(sched := E.Checked))
  {
    var s := ss[|ms|];
    var u := s.(nodes := s.nodes[n := s.nodes[n].(clock := t)]);
    rs, ns := Step1(cal, ss, ms, u, ClockTick(n, t));
    var v := Act(u, n, E.Poll, t);
    rs, ns := Step1(cal, rs, ns, v, Local(n, E.Poll));
  }

  lemma SelectAt(cal: Calendar, ss: seq<Sys>, ms: seq<Move>, n: nat, t: int) returns (rs: seq<Sys>, ns: seq<Move>)
    requires C.Behaviour(cal, ss, ms) && n in ss[|ms|].nodes && ss[|ms|].nodes[n].clock == t
    requires ss[|ms|].nodes[n].eng.sched == E.Checked && ss[|ms|].nodes[n].eng.cursor == 0
    requires DuePage(ss[|ms|].p.tab, 0, t, E.PAGE_SIZE) == [1] && ss[|ms|].p.tab.rows.Keys == {1}
    ensures C.Behaviour(cal, rs, ns) && rs[0] == ss[0]
    ensures var s, u := ss[|ms|], rs[|ns|];
      && OnlyNode(s, u, n) && u.p == L.State(s.p.tab, s.p.trace + [Read(n, s.p.tab.rows, t)])
      && u.nodes[n] == Node(t, s.nodes[n].eng.(sched := E.Selected([1], |s.p.trace|)))
  {
    var u := SelectsOneRow(ss[|ms|], n);
    rs, ns := Step1(cal, ss, ms, u, SelectDue(n, t));
  }

  /** The task as the join builds it. */
  function JoinedTask(reg: Tables, row: TaskRow, order: seq<nat>): Task
    requires row.srvId in reg.srvs
  {
    ToTask(1, row, SrvEntity(reg, false, row.srvId, order))
  }

  lemma JoinOne(rows: map<nat, TaskRow>, ids: seq<nat>, reg: Tables, order: seq<nat>)
    requires ids == [1] && 1 in rows && LiveSrv(reg, rows[1].srvId) && RowOk(rows[1])
    ensures var r := Timeout(rows, ids, reg, order);
      r.Success? && r.value.0 == [JoinedTask(reg, rows[1], order)] && r.value.1 == 1
  {
    assert ids[..|ids| - 1] == [] && ids[|ids| - 1] == 1;
    assert Join(rows, [], reg, order) == [];
    assert Join(rows, ids, reg, order) == [] + [JoinedTask(reg, rows[1], order)];
  }

  /** What is known of the one task when it is delivered. */
  predicate IsJobOf(job: E.Job, row: TaskRow) {
    && job.task.id == 1 && IsCopyOf(job.task, row) && job.task.sched == RowSched(row) && job.task.srv.routes != []
  }

  lemma TheJob(reg: Tables, row: TaskRow, snap: nat) returns (order: seq<nat>, job: E.Job)
    requires SrvTables.Inv(reg) && LiveSrv(reg, row.srvId) && RowOk(row)
    ensures Enumerates(order, reg.routes.Keys) && IsJobOf(job, row) && job.snap == snap
    ensures var r := Timeout(map[1 := row], [1], reg, order);
      r.Success? && ToJobs(r.value.0, snap) == [job] && r.value.1 == 1
  {
    order := Ascending(reg.routes.Keys);
    JoinOne(map[1 := row], [1], reg, order);
    LiveSrvHasRoutes(reg, row.srvId, order);
    job := E.Job(JoinedTask(reg, row, order), snap);
    assert ToJobs([job.task], snap) == [job];
  }

  /** The one row is selected and about to be joined. */
  ghost predicate HasRead(s: Sys, n: nat, row: TaskRow) {
    && n in s.nodes && |s.p.trace| > 0 && s.nodes[n].eng.sched == E.Selected([1], |s.p.trace| - 1)
    && s.p.trace[|s.p.trace| - 1].Read? && s.p.trace[|s.p.trace| - 1].page == map[1 := row]
  }

  lemma DeliverOneStep(s: Sys, n: nat, row: TaskRow) returns (u: Sys, order: seq<nat>, job: E.Job)
    requires HasRead(s, n, row) && SrvTables.Inv(s.reg) && LiveSrv(s.reg, row.srvId) && RowOk(row)
    ensures StepDeliver(s, u, n, order) && IsJobOf(job, row) && job.snap == |s.p.trace| - 1
    ensures OnlyNode(s, u, n) && u.p == s.p
    ensures u.nodes[n] == Node(s.nodes[n].clock,
      s.nodes[n].eng.(sched := E.Sending([job]), cursor := 1, emitted := s.nodes[n].eng.emitted + [job]))
  {
    order, job := TheJob(s.reg, row, |s.p.trace| - 1);
    u := Act(s, n, E.Deliver([job], 1), s.nodes[n].clock);
  }

  lemma DeliverOne(cal: Calendar, ss: seq<Sys>, ms: seq<Move>, n: nat, row: TaskRow)
    returns (rs: seq<Sys>, ns: seq<Move>, job: E.Job)
    requires C.Behaviour(cal, ss, ms) && HasRead(ss[|ms|], n, row)
    requires SrvTables.Inv(ss[|ms|].reg) && LiveSrv(ss[|ms|].reg, row.srvId) && RowOk(row)
    ensures C.Behaviour(cal, rs, ns) && rs[0] == ss[0] && IsJobOf(job, row) && job.snap == |ss[|ms|].p.trace| - 1
    ensures var s, u := ss[|ms|], rs[|ns|];
      && OnlyNode(s, u, n) && u.p == s.p
      && u.nodes[n] == Node(s.nodes[n].clock,
           s.nodes[n].eng.(sched := E.Sending([job]), cursor := 1, emitted := s.nodes[n].eng.emitted + [job]))
  {
    var u, order;
    u, order, job := DeliverOneStep(ss[|ms|], n, row);
    rs, ns := Step1(cal, ss, ms, u, DeliverPage(n, order));
  }

  /** One action of the engine that touches nothing outside it. */
  lemma LocalStep(s: Sys, n: nat, a: E.Action) returns (u: Sys)
    requires n in s.nodes && E.Enabled(s.nodes[n].eng, a) && IsLocal(s.nodes[n].eng, a)
    ensures StepLocal(s, u, n, a) && OnlyNode(s, u, n) && u.p == s.p
    ensures u.nodes[n] == Node(s.nodes[n].clock, E.Next(s.nodes[n].eng, a))
  {
    u := Act(s, n, a, s.nodes[n].clock);
  }

  lemma HandOver(cal: Calendar, ss: seq<Sys>, ms: seq<Move>, n: nat, job: E.Job) returns (rs: seq<Sys>, ns: seq<Move>)
    requires C.Behaviour(cal, ss, ms) && n in ss[|ms|].nodes && ss[|ms|].nodes[n].eng.sched == E.Sending([job])
    requires |ss[|ms|].nodes[n].eng.workers| > 0 && ss[|ms|].nodes[n].eng.workers[0] == E.Ready
    requires ss[|ms|].nodes[n].eng.cursor == 1 && ss[|ms|].nodes[n].eng.stop == E.Idle
    ensures C.Behaviour(cal, rs, ns) && rs[0] == ss[0]
    ensures var s, u := ss[|ms|], rs[|ns|];
      && OnlyNode(s, u, n) && u.p == s.p && MidSweep(u.nodes[n].eng, E.Got(job))
      && u.nodes[n].clock == s.nodes[n].clock
  {
    var u := LocalStep(ss[|ms|], n, E.Handoff(0));
    rs, ns := Step1(cal, ss, ms, u, Local(n, E.Handoff(0)));
  }

  /** Worker 0 takes the task and reads the clock twice. */
  lemma TakeOne(cal: Calendar, ss: seq<Sys>, ms: seq<Move>, n: nat, job: E.Job, next: int)
    returns (rs: seq<Sys>, ns: seq<Move>)
    requires C.Behaviour(cal, ss, ms) && n in ss[|ms|].nodes && job.task.srv.routes != []
    requires ss[|ms|].nodes[n].eng.sched == E.Sending([job])
    requires |ss[|ms|].nodes[n].eng.workers| > 0 && ss[|ms|].nodes[n].eng.workers[0] == E.Ready
    requires ss[|ms|].nodes[n].eng.cursor == 1 && ss[|ms|].nodes[n].eng.stop == E.Idle
    requires PlannedAt(cal, job.task.sched, ss[|ms|].nodes[n].clock, next)
    ensures C.Behaviour(cal, rs, ns) && rs[0] == ss[0]
    ensures var s, u := ss[|ms|], rs[|ns|];
      && OnlyNode(s, u, n) && u.p == s.p && u.nodes[n].clock == s.nodes[n].clock
      && MidSweep(u.nodes[n].eng, E.Planned(job, s.nodes[n].clock, s.nodes[n].clock, next))
  {
    var t := ss[|ms|].nodes[n].clock;
    rs, ns := HandOver(cal, ss, ms, n, job);
    var v := Act(rs[|ns|], n, E.ReadNow(0, t), t);
    rs, ns := Step1(cal, rs, ns, v, ReadNow(n, 0, t));
    var w := Act(v, n, E.ReadNext(0, t, next), t);
    rs, ns := Step1(cal, rs, ns, w, ReadNext(n, 0, t, next));
  }

  lemma LockOne(cal: Calendar, ss: seq<Sys>, ms: seq<Move>, n: nat, row: TaskRow) returns (rs: seq<Sys>, ns: seq<Move>)
    requires C.Behaviour(cal, ss, ms) && Has(ss[|ms|], n, 0) && Pc(ss[|ms|], n, 0).Planned?
    requires var task := Pc(ss[|ms|], n, 0).job.task;
      task.id == 1 && task.lastRunAt == row.lastRunAt && task.runTimes == row.runTimes
    requires ss[|ms|].p.tab.rows == map[1 := row] && !row.deleted
    ensures C.Behaviour(cal, rs, ns) && rs[0] == ss[0]
    ensures var s, u, pc := ss[|ms|], rs[|ns|], Pc(ss[|ms|], n, 0);
      && OnlyNode(s, u, n) && Has(u, n, 0) && Pc(u, n, 0) == E.Holding(pc.job)
      && (MidSweep(s.nodes[n].eng, pc) ==> MidSweep(u.nodes[n].eng, E.Holding(pc.job)))
      && u.p.tab == s.p.tab.(rows := map[1 := row.(lastRunAt := pc.now, runTimes := row.runTimes + 1, plan := pc.next)])
      && u.p.trace == s.p.trace + [Won(n, 0, 1, row.runTimes + 1, pc.job.snap, pc.now, pc.next)]
      && u.nodes[n].clock == s.nodes[n].clock
  {
    var s, pc := ss[|ms|], Pc(ss[|ms|], n, 0);
    var p := L.State(CasLock(s.p.tab, 1, row.lastRunAt, row.runTimes, pc.now, pc.next),
                     s.p.trace + [Won(n, 0, 1, row.runTimes + 1, pc.job.snap, pc.now, pc.next)]);
    var u := Act(s, n, E.WinLock(0), s.nodes[n].clock).(p := p);
    rs, ns := Step1(cal, ss, ms, u, Lock(n, 0));
  }

  /** The loop comes to the point where row 1 is selected. */
  lemma ReadOnce(cal: Calendar, ss: seq<Sys>, ms: seq<Move>, n: nat, row: TaskRow, t: int)
    returns (rs: seq<Sys>, ns: seq<Move>)
    requires C.Behaviour(cal, ss, ms) && Resting(ss[|ms|], n) && ss[|ms|].nodes[n].clock <= t
    requires ss[|ms|].p.tab.rows == map[1 := row] && Due(row, t)
    ensures C.Behaviour(cal, rs, ns) && rs[0] == ss[0]
    ensures var s, u := ss[|ms|], rs[|ns|];
      && OnlyNode(s, u, n) && u.p == L.State(s.p.tab, s.p.trace + [Read(n, map[1 := row], t)])
      && u.nodes[n] == Node(t, s.nodes[n].eng.(sched := E.Selected([1], |s.p.trace|)))
      && |u.nodes[n].eng.workers| > 0 && u.nodes[n].eng.workers[0] == E.Ready
  {
    OnlyDue(ss[|ms|].p.tab, t, E.PAGE_SIZE, 1);
    rs, ns := PollAt(cal, ss, ms, n, t);
    rs, ns := SelectAt(cal, rs, ns, n, t);
  }

  /** A node at rest takes the one task, if it is due, up to where the lock is tried. */
  lemma RunToLock(cal: Calendar, ss: seq<Sys>, ms: seq<Move>, n: nat, row: TaskRow, t: int, next: int)
    returns (rs: seq<Sys>, ns: seq<Move>, job: E.Job)
    requires C.Behaviour(cal, ss, ms) && Resting(ss[|ms|], n) && ss[|ms|].nodes[n].clock <= t
    requires ss[|ms|].p.tab.rows == map[1 := row] && Due(row, t) && RowOk(row) && LiveSrv(ss[|ms|].reg, row.srvId)
    requires PlannedAt(cal, RowSched(row), t, next)
    ensures C.Behaviour(cal, rs, ns) && rs[0] == ss[0] && IsJobOf(job, row) && job.snap == |ss[|ms|].p.trace|
    ensures var s, u := ss[|ms|], rs[|ns|];
      && OnlyNode(s, u, n) && u.p == L.State(s.p.tab, s.p.trace + [Read(n, map[1 := row], t)])
      && MidSweep(u.nodes[n].eng, E.Planned(job, t, t, next)) && u.nodes[n].clock == t
  {
    InvOfReg(cal, ss, ms);
    rs, ns := ReadOnce(cal, ss, ms, n, row, t);
    rs, ns, job := DeliverOne(cal, rs, ns, n, row);
    rs, ns := TakeOne(cal, rs, ns, n, job, next);
  }

  lemma InvOfReg(cal: Calendar, ss: seq<Sys>, ms: seq<Move>)
    requires C.Behaviour(cal, ss, ms)
    ensures SrvTables.Inv(ss[|ms|].reg)
  {
    P.InvAlways(cal, ss, ms, |ms|);
  }
}
