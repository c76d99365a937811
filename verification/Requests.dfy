/**
 From the request to the callback: what a caller of AddTask asked for is what the callback carries, whatever stale
 copies, other adds and stops lie in between.
 */
module Requests {
  import opened Wrappers
  import opened SrvQueries
  import opened TaskTables
  import opened L = LockProtocol
  import E = Engine
  import opened C = Cluster
  import P = ClusterProofs
  import CT = ClusterTheorems
  import SS = SystemSweep
  import RunLog

  // ---------------------------------------------------------------- every stored row stands for a call

  /** The event stores the request of the call; all but one-shot tasks get the largest integer as their budget. */
  predicate StoresCall(e: Event, call: AddCall) {
    && e.Added? && Carries(e.row, call.req, call.next)
    && (call.req.sched.mode != TimeSpec ==> e.row.allow == 0x7FFF_FFFF_FFFF_FFFF)
  }

  lemma AddWriteAppends(s: Sys, u: Sys, c: nat)
    requires ValidTasks(s.p.tab) && AddCallsOk(s) && StepAddWrite(s, u, c)
    ensures P.Extends(s.p.trace, u.p.trace) && |u.p.trace| <= |s.p.trace| + 1
    ensures |s.p.trace| < |u.p.trace| ==> StoresCall(u.p.trace[|s.p.trace|], s.calls[c])
  {
    var call := s.calls[c];
    WriteTaskStores(s.p.tab, call.req, call.dbMode, call.next, call.found);
  }

  /** A step commits at most one statement on the task table, and only the write of AddTask commits an add. */
  lemma StepAppends(cal: Calendar, s: Sys, u: Sys, m: Move)
    requires C.Step(cal, s, u, m) && !m.AddWrite?
    ensures |s.p.trace| <= |u.p.trace| <= |s.p.trace| + 1
    ensures |s.p.trace| < |u.p.trace| ==> !u.p.trace[|s.p.trace|].Added?
  {
  }

  /** The call that a recorded add belongs to: it wrote at position `j`. */
  ghost predicate AddedAt(ss: seq<Sys>, ms: seq<Move>, j: nat, i: nat, a: nat) {
    && j < i < |ss| && i <= |ms| && ms[j].AddWrite? && ms[j].c in ss[j].calls
    && |ss[j].p.trace| == a < |ss[i].p.trace| && StoresCall(ss[i].p.trace[a], ss[j].calls[ms[j].c])
  }

  lemma {:induction false} AddHasCall(cal: Calendar, ss: seq<Sys>, ms: seq<Move>, i: nat, a: nat) returns (j: nat)
    requires C.Behaviour(cal, ss, ms) && i < |ss| && a < |ss[i].p.trace| && ss[i].p.trace[a].Added?
    ensures AddedAt(ss, ms, j, i, a)
    decreases i
  {
    assert i > 0;
    var s, u := ss[i - 1], ss[i];
    StepTrace(cal, ss, ms, i - 1);
    if a < |s.p.trace| {
      P.ExtendsAt(s.p.trace, u.p.trace, a);
      j := AddHasCall(cal, ss, ms, i - 1, a);
    } else {
      j := i - 1;
    }
  }

  lemma StepTrace(cal: Calendar, ss: seq<Sys>, ms: seq<Move>, i: nat)
    requires C.Behaviour(cal, ss, ms) && i < |ms|
    ensures P.Extends(ss[i].p.trace, ss[i + 1].p.trace) && |ss[i + 1].p.trace| <= |ss[i].p.trace| + 1
    ensures |ss[i].p.trace| < |ss[i + 1].p.trace| && ss[i + 1].p.trace[|ss[i].p.trace|].Added? ==>
      ms[i].AddWrite? && ms[i].c in ss[i].calls
      && StoresCall(ss[i + 1].p.trace[|ss[i].p.trace|], ss[i].calls[ms[i].c])
  {
    P.InvAlways(cal, ss, ms, i);
    assert C.StepAt(cal, ss, ms, i);
    if ms[i].AddWrite? {
      AddWriteAppends(ss[i], ss[i + 1], ms[i].c);
    } else {
      StepAppends(cal, ss[i], ss[i + 1], ms[i]);
      CT.StepExtends(cal, ss[i], ss[i + 1], ms[i]);
    }
  }

  /** The look that opened a pending call: it holds the request, and the plan was computed then. */
  ghost predicate OpenedAt(cal: Calendar, ms: seq<Move>, k: nat, c: nat, call: AddCall) {
    && k < |ms| && ms[k].AddLook? && ms[k].c == c && ms[k].req == call.req
    && PlannedAt(cal, call.req.sched, ms[k].now, call.next)
  }

  lemma LookOpens(cal: Calendar, s: Sys, u: Sys, m: Move, c: nat)
    requires C.Step(cal, s, u, m) && c in u.calls && !(c in s.calls && s.calls[c] == u.calls[c])
    ensures OpenedAt(cal, [m], 0, c, u.calls[c])
  {
    if m.AddLook? {
      AddLookOpens(cal, s, u, m.c, m.req, m.now, m.cronNext);
    }
  }

  lemma AddLookOpens(cal: Calendar, s: Sys, u: Sys, c: nat, req: AddReq, now: int, cronNext: Option<int>)
    requires StepAddLook(cal, s, u, c, req, now, cronNext)
    ensures u.calls.Keys == s.calls.Keys + {c} && forall d :: d in s.calls && d != c ==> u.calls[d] == s.calls[d]
    ensures u.calls[c].req == req && PlannedAt(cal, req.sched, now, u.calls[c].next)
  {
    if req.sched.mode == TimeCron {
      NextAtMeaning(cal, req.sched, now, cronNext);
    }
  }

  lemma {:induction false} CallHasLook(cal: Calendar, ss: seq<Sys>, ms: seq<Move>, j: nat, c: nat) returns (k: nat)
    requires C.Behaviour(cal, ss, ms) && j < |ss| && c in ss[j].calls
    ensures k < j && OpenedAt(cal, ms, k, c, ss[j].calls[c])
    decreases j
  {
    assert j > 0;
    assert C.StepAt(cal, ss, ms, j - 1);
    if c in ss[j - 1].calls && ss[j - 1].calls[c] == ss[j].calls[c] {
      k := CallHasLook(cal, ss, ms, j - 1, c);
    } else {
      LookOpens(cal, ss[j - 1], ss[j], ms[j - 1], c);
      k := j - 1;
    }
  }

  // ---------------------------------------------------------------- every task in hand is a copy of a row

  ghost predicate CopiesRead(tr: Trace, job: E.Job) {
    job.snap < |tr| && IsRead(tr[job.snap], job.task.id) && IsCopyOf(job.task, tr[job.snap].page[job.task.id])
  }

  /** The job was delivered in the step from state `d`, with the server as the registry had it then. */
  ghost predicate DeliveredAt(ss: seq<Sys>, ms: seq<Move>, d: nat, n: nat, job: E.Job) {
    && d < |ss| && d < |ms| && ms[d].DeliverPage? && ms[d].n == n
    && CopiesRead(ss[d].p.trace, job) && ListsRoutes(ss[d].reg, false, job.task.srv)
  }

  lemma DeliveredJob(s: Sys, u: Sys, n: nat, routeOrder: seq<nat>, i: nat)
    requires StepDeliver(s, u, n, routeOrder)
    requires |s.nodes[n].eng.emitted| <= i < |u.nodes[n].eng.emitted|
    ensures CopiesRead(s.p.trace, u.nodes[n].eng.emitted[i])
    ensures ListsRoutes(s.reg, false, u.nodes[n].eng.emitted[i].task.srv)
  {
    var sel, emitted := s.nodes[n].eng.sched, s.nodes[n].eng.emitted;
    var page := s.p.trace[sel.snap].page;
    var tasks := Join(page, sel.ids, s.reg, routeOrder);
    var task := tasks[i - |emitted|];
    assert u.nodes[n].eng.emitted == emitted + ToJobs(tasks, sel.snap);
    JoinSource(page, sel.ids, s.reg, routeOrder, task);
    EntityListsRoutes(s.reg, false, page[task.id].srvId, routeOrder);
  }

  lemma NodesStay(cal: Calendar, s: Sys, u: Sys, m: Move)
    requires C.Step(cal, s, u, m)
    ensures u.nodes.Keys == s.nodes.Keys
  {
  }

  lemma EmittedStep(cal: Calendar, s: Sys, u: Sys, m: Move, n: nat)
    requires C.Step(cal, s, u, m) && n in s.nodes && !(m.DeliverPage? && m.n == n)
    ensures n in u.nodes && u.nodes[n].eng.emitted == s.nodes[n].eng.emitted
  {
    NodesStay(cal, s, u, m);
    assert n in u.nodes.Keys;
    if m.SelectDue? {
      SelectEmitsNothing(s, u, m.n, m.at, n);
    } else {
      SS.NodeStep(cal, s, u, m, n);
    }
  }

  lemma SelectEmitsNothing(s: Sys, u: Sys, k: nat, at: int, n: nat)
    requires StepSelect(s, u, k, at) && n in s.nodes && n in u.nodes
    ensures u.nodes[n].eng.emitted == s.nodes[n].eng.emitted
  {
  }

  lemma NewJobIsDelivered(cal: Calendar, s: Sys, u: Sys, m: Move, n: nat, job: E.Job)
    requires C.Step(cal, s, u, m) && n in s.nodes && n in u.nodes
    requires job in u.nodes[n].eng.emitted && job !in s.nodes[n].eng.emitted
    ensures m.DeliverPage? && m.n == n && CopiesRead(s.p.trace, job) && ListsRoutes(s.reg, false, job.task.srv)
  {
    if m.DeliverPage? && m.n == n {
      var i :| 0 <= i < |u.nodes[n].eng.emitted| && u.nodes[n].eng.emitted[i] == job;
      DeliveredJob(s, u, n, m.routeOrder, i);
    } else {
      EmittedStep(cal, s, u, m, n);
    }
  }

  lemma {:induction false} EmittedWasDelivered(cal: Calendar, ss: seq<Sys>, ms: seq<Move>, i: nat, n: nat, job: E.Job)
    returns (d: nat)
    requires C.Behaviour(cal, ss, ms) && i < |ss| && n in ss[i].nodes && job in ss[i].nodes[n].eng.emitted
    ensures d < i && DeliveredAt(ss, ms, d, n, job)
    decreases i
  {
    assert i > 0;
    assert C.StepAt(cal, ss, ms, i - 1);
    NodesStay(cal, ss[i - 1], ss[i], ms[i - 1]);
    assert n in ss[i - 1].nodes.Keys;
    if job in ss[i - 1].nodes[n].eng.emitted {
      d := EmittedWasDelivered(cal, ss, ms, i - 1, n, job);
    } else {
      d := i - 1;
      NewJobIsDelivered(cal, ss[i - 1], ss[i], ms[i - 1], n, job);
    }
  }

  /** What a worker has in hand was emitted. */
  lemma HandIsEmitted(e: E.State, w: nat)
    requires E.Inv(e) && w < |e.workers| && E.Busy(e.workers[w])
    ensures e.workers[w].job in e.emitted
  {
    var job := e.workers[w].job;
    E.HandsPut(e.workers, w, e.workers[w]);
    assert job in E.Hands(e.workers);
    assert job in multiset(E.Jobs(e.received));
  }

  // ---------------------------------------------------------------- the callback carries the request

  /** The task is the one that the request describes. */
  predicate Requested(task: Task, req: AddReq) {
    && task.key == req.key && task.arg == req.arg && task.callbackPath == req.callbackPath
    && task.srv.id == req.srvId && task.sched.mode == req.sched.mode
    && task.sched.cronExpr == req.sched.cronExpr && task.sched.intervalSec == req.sched.intervalSec
  }

  lemma LastAdd(tr: Trace, id: nat, hi: nat) returns (a: nat)
    requires hi <= |tr| && WasAdded(tr[..hi], id)
    ensures a < hi && IsAdd(tr[a], id) && NoAdd(tr, id, a + 1, hi)
  {
    var k :| 0 <= k < hi && IsAdd(tr[..hi][k], id);
    if IsAdd(tr[hi - 1], id) {
      a := hi - 1;
    } else {
      assert tr[..hi - 1][k] == tr[..hi][k];
      a := LastAdd(tr, id, hi - 1);
    }
  }

  /** A copy says what the last add before its read stored. */
  lemma CopyFollowsAdd(cal: Calendar, p: L.State, job: E.Job) returns (a: nat)
    requires L.Inv(cal, p) && CopiesRead(p.trace, job)
    ensures a < job.snap && IsAdd(p.trace[a], job.task.id) && NoAdd(p.trace, job.task.id, a + 1, job.snap)
    ensures SameOrder(p.trace[job.snap].page[job.task.id], p.trace[a].row)
  {
    var tr, id := p.trace, job.task.id;
    ReadIsOfRow(cal, p, job.snap, id);
    a := LastAdd(tr, id, job.snap);
    var upTo := tr[..job.snap];
    assert upTo[a] == tr[a] && NoAddSince(upTo, id, a);
  }

  lemma CarriedIsRequested(task: Task, copy: TaskRow, added: TaskRow, req: AddReq, next: int)
    requires IsCopyOf(task, copy) && SameOrder(copy, added) && Carries(added, req, next)
    ensures Requested(task, req)
  {
  }

  /**
   Every callback carries the name, the argument, the path, the server and the schedule of one request, the one of the
   last add before the row was read; its server came with exactly the routes that were registered when it was joined.
   The request was made at position `k`, stored at `j`, and joined at `d`.
   */
  lemma CallbackCarriesRequest(cal: Calendar, ss: seq<Sys>, ms: seq<Move>, i: nat, n: nat, w: nat)
    returns (k: nat, j: nat, d: nat)
    requires C.Behaviour(cal, ss, ms) && i < |ms| && ms[i].CallBack? && ms[i].n == n && ms[i].w == w
    ensures Has(ss[i], n, w) && Pc(ss[i], n, w).Running?
    ensures k < j < d < i && ms[k].AddLook? && ms[j] == AddWrite(ms[k].c) && ms[d].DeliverPage?
    ensures var job := Pc(ss[i], n, w).job;
      && Requested(job.task, ms[k].req) && ListsRoutes(ss[d].reg, false, job.task.srv)
      && |ss[j].p.trace| < job.snap < |ss[d].p.trace|
      && NoAdd(ss[d].p.trace, job.task.id, |ss[j].p.trace| + 1, job.snap)
  {
    P.InvAlways(cal, ss, ms, i);
    assert C.StepAt(cal, ss, ms, i);
    var job := CallbackJob(ss[i], ss[i + 1], n, w, ms[i].answer, ms[i].failed);
    d := EmittedWasDelivered(cal, ss, ms, i, n, job);
    k, j := JobHasRequest(cal, ss, ms, d, job);
  }

  lemma CallbackJob(s: Sys, u: Sys, n: nat, w: nat, answer: RunLog.Answer, failed: bool) returns (job: E.Job)
    requires EnginesOk(s) && StepCallBack(s, u, n, w, answer, failed)
    ensures Has(s, n, w) && Pc(s, n, w).Running? && job == Pc(s, n, w).job && job in s.nodes[n].eng.emitted
  {
    job := Pc(s, n, w).job;
    assert EngineOk(s.nodes[n].eng);
    HandIsEmitted(s.nodes[n].eng, w);
  }

  lemma JobHasRequest(cal: Calendar, ss: seq<Sys>, ms: seq<Move>, d: nat, job: E.Job) returns (k: nat, j: nat)
    requires C.Behaviour(cal, ss, ms) && d < |ss| && CopiesRead(ss[d].p.trace, job)
    ensures k < j < d <= |ms| && ms[k].AddLook? && ms[j] == AddWrite(ms[k].c) && Requested(job.task, ms[k].req)
    ensures |ss[j].p.trace| < job.snap && NoAdd(ss[d].p.trace, job.task.id, |ss[j].p.trace| + 1, job.snap)
  {
    CT.LockingHolds(cal, ss, ms, d);
    var a := CopyFollowsAdd(cal, ss[d].p, job);
    j := AddHasCall(cal, ss, ms, d, a);
    var call := ss[j].calls[ms[j].c];
    k := CallHasLook(cal, ss, ms, j, ms[j].c);
    CarriedIsRequested(job.task, ss[d].p.trace[job.snap].page[job.task.id], ss[d].p.trace[a].row, call.req, call.next);
  }

  // ---------------------------------------------------------------- repeating tasks become due again

  /**
   In every state of every run a live task with an interval or a cron expression is due exactly from its plan on,
   until it has run as often as the largest integer says.
   */
  lemma RepeatingIsDue(cal: Calendar, ss: seq<Sys>, ms: seq<Move>, i: nat, id: nat, now: int)
    requires C.Behaviour(cal, ss, ms) && i < |ss| && id in ss[i].p.tab.rows
    requires var row := ss[i].p.tab.rows[id];
      !row.deleted && ToEntityMode(row.dbMode) != Some(TimeSpec) && row.runTimes < 0x7FFF_FFFF_FFFF_FFFF
    ensures Due(ss[i].p.tab.rows[id], now) <==> ss[i].p.tab.rows[id].plan <= now
  {
    CT.LockingHolds(cal, ss, ms, i);
    var a := RowFollowsAdd(cal, ss[i].p, id);
    var j := AddHasCall(cal, ss, ms, i, a);
  }

  lemma RowFollowsAdd(cal: Calendar, p: L.State, id: nat) returns (a: nat)
    requires L.Inv(cal, p) && id in p.tab.rows
    ensures a < |p.trace| && IsAdd(p.trace[a], id) && SameOrder(p.tab.rows[id], p.trace[a].row)
  {
    assert RowAgrees(p.trace, id, p.tab.rows[id]);
    assert p.trace[..|p.trace|] == p.trace;
    a := LastAdd(p.trace, id, |p.trace|);
  }

  /** After every lock that wins, such a task is live, and due again from the plan that the lock wrote. */
  lemma DueAgainAfterLock(cal: Calendar, ss: seq<Sys>, ms: seq<Move>, i: nat, n: nat, w: nat, now: int)
    requires C.Behaviour(cal, ss, ms) && i < |ms| && ms[i] == Lock(n, w)
    ensures Has(ss[i], n, w) && Pc(ss[i], n, w).Planned? && Pc(ss[i], n, w).job.task.id in ss[i + 1].p.tab.rows
    ensures var pc := Pc(ss[i], n, w);
      var row := ss[i + 1].p.tab.rows[pc.job.task.id];
      && !row.deleted && row.plan == pc.next && row.lastRunAt == pc.now && row.runTimes == pc.job.task.runTimes + 1
      && (ToEntityMode(row.dbMode) != Some(TimeSpec) && row.runTimes < 0x7FFF_FFFF_FFFF_FFFF ==>
            (Due(row, now) <==> pc.next <= now))
  {
    assert C.StepAt(cal, ss, ms, i);
    var id := Pc(ss[i], n, w).job.task.id;
    WinRow(ss[i], ss[i + 1], n, w);
    var row := ss[i + 1].p.tab.rows[id];
    if ToEntityMode(row.dbMode) != Some(TimeSpec) && row.runTimes < 0x7FFF_FFFF_FFFF_FFFF {
      RepeatingIsDue(cal, ss, ms, i + 1, id, now);
    }
  }

  lemma WinRow(s: Sys, u: Sys, n: nat, w: nat)
    requires StepWin(s, u, n, w)
    ensures Has(s, n, w) && Pc(s, n, w).Planned? && Pc(s, n, w).job.task.id in u.p.tab.rows
    ensures var pc := Pc(s, n, w);
      var row := u.p.tab.rows[pc.job.task.id];
      !row.deleted && row.plan == pc.next && row.lastRunAt == pc.now && row.runTimes == pc.job.task.runTimes + 1
  {
  }
}
