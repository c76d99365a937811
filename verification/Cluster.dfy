/**
 The whole system: any number of nodes, each with a clock and a worker engine, over one task table, one log table and
 one registry, with API calls in between. Every SQL statement is one step; registry calls are one step each.
 Mastership is not consulted: a node may take itself for the master at any time.
 */
module Cluster {
  import opened Wrappers
  import opened Selections
  import opened SrvTables
  import opened SrvQueries
  import opened TaskTables
  import opened RunLog
  import opened L = LockProtocol
  import E = Engine

  /** `clock` is the node's last clock reading; it never goes back. */
  datatype Node = Node(clock: int, eng: E.State)

  /** An AddTask call between its SELECT and its write. */
  datatype AddCall = AddCall(req: AddReq, dbMode: int, next: int, found: Option<(nat, TaskRow)>)

  /** The history of the log inserts and callbacks. */
  datatype Note = Saved(key: LogKey) | Called(key: LogKey)

  /** What a finished AddTask call returned: the id, or nothing and no error. */
  datatype Reply = Reply(c: nat, key: TaskKey, id: Option<nat>)

  datatype Sys = Sys(
    p: L.State, nodes: map<nat, Node>, reg: Tables, logs: Logs, logOps: seq<LogOp>, notes: seq<Note>,
    calls: map<nat, AddCall>, replies: seq<Reply>)

  datatype Move =
    /** Steps inside one engine: stop sequence, polling, handoff, ticker, a lost race or an error. */
    | Local(n: nat, a: E.Action)
    | ClockTick(n: nat, now: int)
    | SelectDue(n: nat, at: int)
    | DeliverPage(n: nat, routeOrder: seq<nat>)
    | ReadNow(n: nat, w: nat, now: int)
    | ReadNext(n: nat, w: nat, now: int, next: int)
    | Lock(n: nat, w: nat)
    | InsertLog(n: nat, w: nat, at: int)
    | CallBack(n: nat, w: nat, answer: Answer, failed: bool)
    | WriteCallbackLog(n: nat, w: nat, ok: bool, at: int)
    | WriteConfirmedLog(n: nat, w: nat, ok: bool, at: int)
    | AddLook(c: nat, req: AddReq, now: int, cronNext: Option<int>)
    | AddWrite(c: nat)
    | AddAbort(c: nat)
    | StopTask(id: nat)
    | ConfirmByApi(key: LogKey, isSuccess: bool, extra: string, ok: bool, at: int)
    | AddSrv(name: string, first: Route, more: seq<Route>)
    | DelSrv(name: string, ids: seq<nat>)

  // ---------------------------------------------------------------- steps

  function KeyOf(job: E.Job): LogKey {
    LogKey(job.task.id, job.task.runTimes + 1)
  }

  predicate Has(s: Sys, n: nat, w: nat) {
    n in s.nodes && w < |s.nodes[n].eng.workers|
  }

  function Pc(s: Sys, n: nat, w: nat): E.WorkerPc
    requires Has(s, n, w)
  {
    s.nodes[n].eng.workers[w]
  }

  /** Node `n` takes engine action `a` and shows clock `now`; nothing else changes. */
  function Act(s: Sys, n: nat, a: E.Action, now: int): Sys
    requires n in s.nodes && E.Enabled(s.nodes[n].eng, a)
  {
    s.(nodes := s.nodes[n := Node(now, E.Next(s.nodes[n].eng, a))])
  }

  /** The actions that touch nothing outside the engine. */
  predicate IsLocal(e: E.State, a: E.Action) {
    || a.RequestStop? || a.TakeExit? || a.SetPaused? || a.WaitReturn?
    || a.Poll? || a.NotMaster? || a.ReadError?
    || a.Handoff? || a.Tick? || a.DropRouteless? || a.Mark?
    || (a.Finish? && E.At(e, a.w) && !e.workers[a.w].Confirming?)
  }

  function WriteLog(s: Sys, op: LogOp, ok: bool): Sys {
    if ok then s.(logs := Apply(s.logs, op), logOps := s.logOps + [op]) else s
  }

  ghost predicate StepLocal(s: Sys, u: Sys, n: nat, a: E.Action) {
    && n in s.nodes && E.Enabled(s.nodes[n].eng, a) && IsLocal(s.nodes[n].eng, a)
    && u == Act(s, n, a, s.nodes[n].clock)
  }

  ghost predicate StepClock(s: Sys, u: Sys, n: nat, now: int) {
    && n in s.nodes && s.nodes[n].clock <= now
    && u == s.(nodes := s.nodes[n := s.nodes[n].(clock := now)])
  }

  function IdSet(ids: seq<nat>): set<nat> {
    set id | id in ids
  }

  /** The due-row SELECT with the clock reading `at`, taken at some earlier moment of this iteration. */
  ghost predicate StepSelect(s: Sys, u: Sys, n: nat, at: int) {
    && n in s.nodes && at <= s.nodes[n].clock
    && var ids := DuePage(s.p.tab, s.nodes[n].eng.cursor, at, E.PAGE_SIZE);
    && var a := E.Select(ids, |s.p.trace|);
    && E.Enabled(s.nodes[n].eng, a)
    && var p := L.State(s.p.tab, s.p.trace + [Read(n, Copies(s.p.tab, IdSet(ids)), at)]);
    && u == Act(s, n, a, s.nodes[n].clock).(p := p)
  }

  function ToJobs(tasks: seq<Task>, snap: nat): (jobs: seq<E.Job>)
    ensures |jobs| == |tasks| && forall i :: 0 <= i < |jobs| ==> jobs[i] == E.Job(tasks[i], snap)
  {
    seq(|tasks|, i requires 0 <= i < |tasks| => E.Job(tasks[i], snap))
  }

  /** The join of the selected rows with the registry as it is now. */
  ghost predicate StepDeliver(s: Sys, u: Sys, n: nat, routeOrder: seq<nat>) {
    && n in s.nodes && s.nodes[n].eng.sched.Selected? && Enumerates(routeOrder, s.reg.routes.Keys)
    && var sel := s.nodes[n].eng.sched;
    && sel.snap < |s.p.trace| && s.p.trace[sel.snap].Read?
    && (forall id :: id in sel.ids ==> id in s.p.trace[sel.snap].page)
    && var r := Timeout(s.p.trace[sel.snap].page, sel.ids, s.reg, routeOrder);
    && r.Success?
    && var a := E.Deliver(ToJobs(r.value.0, sel.snap), r.value.1);
    && E.Enabled(s.nodes[n].eng, a)
    && u == Act(s, n, a, s.nodes[n].clock)
  }

  ghost predicate StepReadNow(s: Sys, u: Sys, n: nat, w: nat, now: int) {
    && n in s.nodes && s.nodes[n].clock <= now && E.Enabled(s.nodes[n].eng, E.ReadNow(w, now))
    && u == Act(s, n, E.ReadNow(w, now), now)
  }

  ghost predicate StepReadNext(cal: Calendar, s: Sys, u: Sys, n: nat, w: nat, now: int, next: int) {
    && n in s.nodes && s.nodes[n].clock <= now && E.Enabled(s.nodes[n].eng, E.ReadNext(w, now, next))
    && PlannedAt(cal, Pc(s, n, w).job.task.sched, now, next)
    && u == Act(s, n, E.ReadNext(w, now, next), now)
  }

  /** The compare-and-set of LockTask on the worker's copy, when it updates the row. */
  ghost predicate StepWin(s: Sys, u: Sys, n: nat, w: nat) {
    && n in s.nodes && E.Enabled(s.nodes[n].eng, E.WinLock(w))
    && var pc := Pc(s, n, w); var task := pc.job.task;
    && CasMatches(s.p.tab, task.id, task.lastRunAt, task.runTimes)
    && var p := L.State(CasLock(s.p.tab, task.id, task.lastRunAt, task.runTimes, pc.now, pc.next),
                        s.p.trace + [Won(n, w, task.id, task.runTimes + 1, pc.job.snap, pc.now, pc.next)]);
    && u == Act(s, n, E.WinLock(w), s.nodes[n].clock).(p := p)
  }

  /** An accepted insert of the started log. A refused or failed one is a local `Finish`. */
  ghost predicate StepInsertLog(s: Sys, u: Sys, n: nat, w: nat, at: int) {
    && n in s.nodes && E.Enabled(s.nodes[n].eng, E.SaveLog(w))
    && var key := KeyOf(Pc(s, n, w).job);
    && key !in s.logs
    && u == WriteLog(Act(s, n, E.SaveLog(w), s.nodes[n].clock), Started(key, Pc(s, n, w).job.task.srv.id, at), true)
              .(notes := s.notes + [Saved(key)])
  }

  ghost predicate StepCallBack(s: Sys, u: Sys, n: nat, w: nat, answer: Answer, failed: bool) {
    && n in s.nodes && E.Enabled(s.nodes[n].eng, E.CallBack(w, answer, failed))
    && u == Act(s, n, E.CallBack(w, answer, failed), s.nodes[n].clock)
              .(notes := s.notes + [Called(KeyOf(Pc(s, n, w).job))])
  }

  /** The confirmation that follows a callback; an internal error is reported for run 0. */
  function ReportOf(job: E.Job, answer: Answer, failed: bool): (LogKey, Status, string) {
    if failed then (LogKey(job.task.id, 0), StatusFailed, "") else (KeyOf(job), Classify(answer), answer.extra)
  }

  ghost predicate StepCallbackLog(s: Sys, u: Sys, n: nat, w: nat, ok: bool, at: int) {
    && Has(s, n, w) && Pc(s, n, w).Answered?
    && var pc := Pc(s, n, w);
    && var (key, status, extra) := ReportOf(pc.job, pc.answer, pc.failed);
    && u == WriteLog(Act(s, n, E.Report(w, key, status, extra), s.nodes[n].clock),
                     CalledBack(KeyOf(pc.job), Classify(pc.answer), pc.answer.isRunInAsync, at), ok)
  }

  ghost predicate StepConfirmedLog(s: Sys, u: Sys, n: nat, w: nat, ok: bool, at: int) {
    && Has(s, n, w) && Pc(s, n, w).Confirming?
    && var pc := Pc(s, n, w);
    && u == WriteLog(Act(s, n, E.Finish(w), s.nodes[n].clock), Confirmed(pc.key, pc.status, pc.extra, at), ok)
  }

  /** AddTask up to its SELECT by the unique key. */
  ghost predicate StepAddLook(cal: Calendar, s: Sys, u: Sys, c: nat, req: AddReq, now: int, cronNext: Option<int>) {
    && c !in s.calls && req.key.name != ""
    && (req.sched.mode == TimeCron ==> CronAnswer(cal, req.sched.cronExpr, now, cronNext))
    && ToDbMode(req.sched.mode).Some? && GetSchedNextAt(req.sched, now, cronNext).Some?
    && u == s.(calls := s.calls[c := AddCall(req, ToDbMode(req.sched.mode).value,
                                             GetSchedNextAt(req.sched, now, cronNext).value,
                                             FindTask(s.p.tab, req.key))])
  }

  /**
   Its INSERT, or its UPDATE judged on the row seen earlier, and its return. When the unique index refuses the INSERT
   nothing is stored and no id is returned.
   */
  ghost predicate StepAddWrite(s: Sys, u: Sys, c: nat) {
    && c in s.calls
    && var call := s.calls[c];
    && (call.found.Some? ==> call.found.value.0 in s.p.tab.rows)
    && var id := WriteTask(s.p.tab, call.req, call.dbMode, call.next, call.found).1;
    && u == s.(p := u.p, calls := s.calls - {c}, replies := s.replies + [Reply(c, call.req.key, id)])
    && match call.found
       case None =>
         if id.Some? then StepInsert(s.p, u.p, call.req, call.dbMode, call.next) else u.p == s.p
       case Some(hit) =>
         StepUpdate(s.p, u.p, hit.0, call.req, call.dbMode, call.next, Bumps(hit.1, call.dbMode, call.next))
  }

  ghost predicate StepConfirmByApi(s: Sys, u: Sys, key: LogKey, isSuccess: bool, extra: string, ok: bool, at: int) {
    u == WriteLog(s, Confirmed(key, if isSuccess then StatusSuccess else StatusFailed, extra, at), ok)
  }

  ghost predicate Step(cal: Calendar, s: Sys, u: Sys, m: Move) {
    match m
    case Local(n, a) => StepLocal(s, u, n, a)
    case ClockTick(n, now) => StepClock(s, u, n, now)
    case SelectDue(n, at) => StepSelect(s, u, n, at)
    case DeliverPage(n, routeOrder) => StepDeliver(s, u, n, routeOrder)
    case ReadNow(n, w, now) => StepReadNow(s, u, n, w, now)
    case ReadNext(n, w, now, next) => StepReadNext(cal, s, u, n, w, now, next)
    case Lock(n, w) => StepWin(s, u, n, w)
    case InsertLog(n, w, at) => StepInsertLog(s, u, n, w, at)
    case CallBack(n, w, answer, failed) => StepCallBack(s, u, n, w, answer, failed)
    case WriteCallbackLog(n, w, ok, at) => StepCallbackLog(s, u, n, w, ok, at)
    case WriteConfirmedLog(n, w, ok, at) => StepConfirmedLog(s, u, n, w, ok, at)
    case AddLook(c, req, now, cronNext) => StepAddLook(cal, s, u, c, req, now, cronNext)
    case AddWrite(c) => StepAddWrite(s, u, c)
    case AddAbort(c) => u == s.(calls := s.calls - {c})
    case StopTask(id) => StepStop(s.p, u.p, id) && u == s.(p := u.p)
    case ConfirmByApi(key, isSuccess, extra, ok, at) => StepConfirmByApi(s, u, key, isSuccess, extra, ok, at)
    case AddSrv(name, first, more) => Valid(s.reg) && u == s.(reg := Register(s.reg, name, [first] + more))
    case DelSrv(name, ids) =>
      Valid(s.reg) && u == s.(reg := match Unregister(s.reg, name, ids) case Success(t) => t case Failure(_) => s.reg)
  }

  /** Some nodes with fresh pools and any clocks, over empty tables. */
  ghost predicate Start(s: Sys) {
    && s == Sys(L.State(NO_TASKS, []), s.nodes, EMPTY_TABLES, map[], [], [], map[], [])
    && forall n :: n in s.nodes ==> exists pool: nat :: pool > 0 && s.nodes[n].eng == E.Init(pool)
  }

  ghost predicate StepAt(cal: Calendar, ss: seq<Sys>, ms: seq<Move>, i: int)
    requires |ss| == |ms| + 1 && 0 <= i < |ms|
  {
    Step(cal, ss[i], ss[i + 1], ms[i])
  }

  ghost predicate Behaviour(cal: Calendar, ss: seq<Sys>, ms: seq<Move>) {
    |ss| == |ms| + 1 && Start(ss[0]) && forall i :: 0 <= i < |ms| ==> StepAt(cal, ss, ms, i)
  }

  // ---------------------------------------------------------------- the invariant

  /** A task in the hands of node `n` is a copy of a row of one of its own reads. */
  ghost predicate JobOk(tr: Trace, n: nat, clock: int, job: E.Job) {
    && job.snap < |tr| && IsRead(tr[job.snap], job.task.id) && tr[job.snap].node == n && tr[job.snap].at <= clock
    && var row := tr[job.snap].page[job.task.id];
    && job.task.runTimes == row.runTimes && job.task.lastRunAt == row.lastRunAt && job.task.sched == RowSched(row)
  }

  /** Worker `w` of node `n` won the run of its job. */
  ghost predicate Owns(tr: Trace, n: nat, w: nat, key: LogKey) {
    exists j :: 0 <= j < |tr| && WonBy(tr[j], n, w, key)
  }

  predicate WonBy(e: Event, n: nat, w: nat, key: LogKey) {
    e.Won? && e.node == n && e.worker == w && e.id == key.taskId && e.run == key.run
  }

  ghost predicate WasCalled(notes: seq<Note>, key: LogKey) {
    exists i :: 0 <= i < |notes| && notes[i] == Called(key)
  }

  ghost predicate WorkerOk(cal: Calendar, s: Sys, n: nat, clock: int, w: nat, pc: E.WorkerPc) {
    match pc
    case Got(job) => JobOk(s.p.trace, n, clock, job)
    case Timed(job, now) => JobOk(s.p.trace, n, clock, job) && s.p.trace[job.snap].at <= now <= clock
    case Planned(job, now, nowForNext, next) =>
      JobOk(s.p.trace, n, clock, job) && CanTry(cal, s.p.trace, n, job.task.id, job.snap, now, nowForNext, next)
    case Holding(job) => Owns(s.p.trace, n, w, KeyOf(job)) && KeyOf(job) !in s.logs && !WasCalled(s.notes, KeyOf(job))
    case Running(job) => Owns(s.p.trace, n, w, KeyOf(job)) && KeyOf(job) in s.logs && !WasCalled(s.notes, KeyOf(job))
    case _ => true
  }

  ghost predicate SchedOk(tr: Trace, n: nat, clock: int, sched: E.SchedPc) {
    match sched
    case Selected(ids, snap) =>
      && snap < |tr| && tr[snap].Read? && tr[snap].node == n && tr[snap].at <= clock
      && forall id :: id in ids ==> id in tr[snap].page
    case Sending(jobs) => forall i :: 0 <= i < |jobs| ==> JobOk(tr, n, clock, jobs[i])
    case _ => true
  }

  /** The engine's own invariants, with no worker lost. */
  ghost predicate EngineOk(eng: E.State) {
    E.Inv(eng) && E.NoneLost(eng) && E.Routed(eng) && |eng.workers| > 0
  }

  /** What the node holds agrees with the shared tables and the history. */
  ghost predicate NodeOk(cal: Calendar, s: Sys, n: nat, node: Node) {
    && SchedOk(s.p.trace, n, node.clock, node.eng.sched)
    && forall w :: 0 <= w < |node.eng.workers| ==> WorkerOk(cal, s, n, node.clock, w, node.eng.workers[w])
  }

  ghost predicate EnginesOk(s: Sys) {
    forall n :: n in s.nodes ==> EngineOk(s.nodes[n].eng)
  }

  ghost predicate NodesOk(cal: Calendar, s: Sys) {
    forall n :: n in s.nodes ==> NodeOk(cal, s, n, s.nodes[n])
  }

  /** Log rows belong to won runs and are exactly the saved ones. */
  ghost predicate LogsOk(s: Sys) {
    && (forall k :: k in s.logs ==> 1 <= k.run <= WinCount(s.p.trace, k.taskId))
    && (forall k :: k in s.logs <==> exists i :: 0 <= i < |s.notes| && s.notes[i] == Saved(k))
    && s.logs == Replay(s.logOps)
  }

  /** Every callback follows the save of its log row and is the only one for its key. */
  ghost predicate CallsOk(notes: seq<Note>) {
    && (forall j :: 0 <= j < |notes| && notes[j].Called? ==> exists i :: 0 <= i < j && notes[i] == Saved(notes[j].key))
    && (forall i, j :: 0 <= i < j < |notes| ==> notes[i] != notes[j])
  }

  ghost predicate AddCallsOk(s: Sys) {
    forall c :: c in s.calls ==>
      && AcceptedReq(s.calls[c].req, s.calls[c].dbMode)
      && (s.calls[c].found.Some? ==> s.calls[c].found.value.0 in s.p.tab.rows)
      && (s.calls[c].found.Some? ==> s.p.tab.rows[s.calls[c].found.value.0].key == s.calls[c].req.key)
  }

  ghost predicate Inv(cal: Calendar, s: Sys) {
    && L.Inv(cal, s.p)
    && SrvTables.Inv(s.reg)
    && EnginesOk(s) && NodesOk(cal, s)
    && LogsOk(s) && CallsOk(s.notes) && AddCallsOk(s)
  }
}
