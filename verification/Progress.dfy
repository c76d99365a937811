/**
 Progress of the whole system when nothing fails: reads and log writes succeed, mastership holds, callbacks return,
 and a worker gives up a turn only when it has lost the race for the lock.
 */
module Progress {
  import opened Wrappers
  import opened Selections
  import opened SrvQueries
  import opened TaskTables
  import opened RunLog
  import opened L = LockProtocol
  import E = Engine
  import opened C = Cluster
  import P = ClusterProofs
  import opened CT = ClusterTheorems

  ghost predicate FiresAfter(fires: iset<int>, t: int) {
    exists f :: NextInstant(fires, t, f)
  }

  /** Every expression that parses fires again after every instant. */
  ghost predicate FiresForever(cal: Calendar) {
    forall expr, t :: expr in cal ==> FiresAfter(cal[expr], t)
  }

  // ---------------------------------------------------------------- stored schedules stay valid

  /** The row has a name and a schedule whose next time can be found. */
  ghost predicate Plannable(cal: Calendar, row: TaskRow) {
    RowOk(row) && (row.dbMode == DB_TIME_CRON ==> row.cronExpr in cal)
  }

  ghost predicate RowsPlannable(cal: Calendar, rows: map<nat, TaskRow>) {
    forall id :: id in rows ==> Plannable(cal, rows[id])
  }

  ghost predicate ReadsPlannable(cal: Calendar, tr: Trace) {
    forall i :: 0 <= i < |tr| && tr[i].Read? ==> RowsPlannable(cal, tr[i].page)
  }

  ghost predicate CallsPlannable(cal: Calendar, calls: map<nat, AddCall>) {
    forall c :: c in calls ==>
      && calls[c].req.key.name != "" && ToDbMode(calls[c].req.sched.mode) == Some(calls[c].dbMode)
      && (calls[c].dbMode == DB_TIME_CRON ==> calls[c].req.sched.cronExpr in cal)
  }

  ghost predicate AllPlannable(cal: Calendar, s: Sys) {
    RowsPlannable(cal, s.p.tab.rows) && ReadsPlannable(cal, s.p.trace) && CallsPlannable(cal, s.calls)
  }

  lemma ReadPlannable(cal: Calendar, tr: Trace, e: Event)
    requires ReadsPlannable(cal, tr) && (e.Read? ==> RowsPlannable(cal, e.page))
    ensures ReadsPlannable(cal, tr + [e])
  {
  }

  lemma WritePlannable(cal: Calendar, s: Sys, u: Sys, c: nat)
    requires AllPlannable(cal, s) && StepAddWrite(s, u, c)
    ensures AllPlannable(cal, u)
  {
    var call := s.calls[c];
    ModeRoundTrip(call.req.sched.mode, call.dbMode);
    if u.p != s.p {
      ReadPlannable(cal, s.p.trace, u.p.trace[|s.p.trace|]);
    }
  }

  lemma TableStepPlannable(cal: Calendar, s: Sys, u: Sys, m: Move)
    requires AllPlannable(cal, s) && C.Step(cal, s, u, m) && (m.SelectDue? || m.Lock? || m.StopTask?)
    ensures AllPlannable(cal, u)
  {
    ReadPlannable(cal, s.p.trace, u.p.trace[|s.p.trace|]);
  }

  lemma StepPlannable(cal: Calendar, s: Sys, u: Sys, m: Move)
    requires AllPlannable(cal, s) && C.Step(cal, s, u, m)
    ensures AllPlannable(cal, u)
  {
    if m.AddWrite? {
      WritePlannable(cal, s, u, m.c);
    } else if m.SelectDue? || m.Lock? || m.StopTask? {
      TableStepPlannable(cal, s, u, m);
    }
  }

  /** In every state every stored row, every copy of a row and every pending add has a name and a valid schedule. */
  lemma {:induction false} PlannableAlways(cal: Calendar, ss: seq<Sys>, ms: seq<Move>, i: nat)
    requires C.Behaviour(cal, ss, ms) && i < |ss|
    ensures AllPlannable(cal, ss[i])
  {
    if i > 0 {
      PlannableAlways(cal, ss, ms, i - 1);
      assert C.StepAt(cal, ss, ms, i - 1);
      StepPlannable(cal, ss[i - 1], ss[i], ms[i - 1]);
    }
  }

  lemma PlanFor(cal: Calendar, row: TaskRow, t: int) returns (next: int)
    requires FiresForever(cal) && Plannable(cal, row)
    ensures PlannedAt(cal, RowSched(row), t, next)
  {
    if row.dbMode == DB_TIME_CRON {
      assert FiresAfter(cal[row.cronExpr], t);
      next :| NextInstant(cal[row.cronExpr], t, next);
    } else if row.dbMode == DB_TIME_INTERVAL {
      next := t + row.intervalSec;
    } else {
      next := row.plan;
    }
  }

  // ---------------------------------------------------------------- steps in which nothing fails

  /** Another lock has won since the worker's copy was read, or the task was stopped. */
  predicate LostRace(s: Sys, n: nat, w: nat) {
    && Has(s, n, w) && Pc(s, n, w).Planned?
    && var task := Pc(s, n, w).job.task;
    !CasMatches(s.p.tab, task.id, task.lastRunAt, task.runTimes)
  }

  predicate Succeeds(s: Sys, m: Move) {
    match m
    case Local(n, a) => !a.NotMaster? && !a.ReadError? && !a.DropRouteless? && (a.Finish? ==> LostRace(s, n, a.w))
    case CallBack(_, _, _, failed) => !failed
    case WriteCallbackLog(_, _, ok, _) => ok
    case WriteConfirmedLog(_, _, ok, _) => ok
    case ConfirmByApi(_, _, _, ok, _) => ok
    case AddAbort(_) => false
    case _ => true
  }

  /** The step succeeds and takes node `n` by one engine action that changes it. */
  ghost predicate Advances(cal: Calendar, s: Sys, u: Sys, m: Move, n: nat, a: E.Action) {
    && C.Step(cal, s, u, m) && Succeeds(s, m)
    && n in s.nodes && n in u.nodes && E.Enabled(s.nodes[n].eng, a)
    && u.nodes[n].eng == E.Next(s.nodes[n].eng, a) && u.nodes[n].eng != s.nodes[n].eng
  }

  lemma WorkerChanged(e: E.State, a: E.Action)
    requires E.Enabled(e, a) && E.Moves(a) && E.Next(e, a).workers[a.w] != e.workers[a.w]
    ensures E.Next(e, a) != e
  {
  }

  lemma TimedMoves(cal: Calendar, s: Sys, n: nat, w: nat) returns (m: Move, u: Sys, a: E.Action)
    requires FiresForever(cal) && AllPlannable(cal, s) && NodesOk(cal, s) && Has(s, n, w) && Pc(s, n, w).Timed?
    ensures Advances(cal, s, u, m, n, a)
  {
    var clock, job := s.nodes[n].clock, Pc(s, n, w).job;
    assert NodeOk(cal, s, n, s.nodes[n]) && WorkerOk(cal, s, n, clock, w, Pc(s, n, w));
    assert RowsPlannable(cal, s.p.trace[job.snap].page);
    var next := PlanFor(cal, s.p.trace[job.snap].page[job.task.id], clock);
    m, a := ReadNext(n, w, clock, next), E.ReadNext(w, clock, next);
    u := Act(s, n, a, clock);
    WorkerChanged(s.nodes[n].eng, a);
  }

  lemma PlannedMoves(cal: Calendar, s: Sys, n: nat, w: nat) returns (m: Move, u: Sys, a: E.Action)
    requires Has(s, n, w) && Pc(s, n, w).Planned?
    ensures Advances(cal, s, u, m, n, a)
  {
    var pc := Pc(s, n, w);
    var task := pc.job.task;
    if CasMatches(s.p.tab, task.id, task.lastRunAt, task.runTimes) {
      m, a := Lock(n, w), E.WinLock(w);
      u := Act(s, n, a, s.nodes[n].clock).(p := L.State(
        CasLock(s.p.tab, task.id, task.lastRunAt, task.runTimes, pc.now, pc.next),
        s.p.trace + [Won(n, w, task.id, task.runTimes + 1, pc.job.snap, pc.now, pc.next)]));
    } else {
      m, a := Local(n, E.Finish(w)), E.Finish(w);
      u := Act(s, n, a, s.nodes[n].clock);
    }
    WorkerChanged(s.nodes[n].eng, a);
  }

  lemma HoldingMoves(cal: Calendar, s: Sys, n: nat, w: nat) returns (m: Move, u: Sys, a: E.Action)
    requires NodesOk(cal, s) && Has(s, n, w) && Pc(s, n, w).Holding?
    ensures Advances(cal, s, u, m, n, a)
  {
    HoldingIsFresh(cal, s, n, w);
    var job := Pc(s, n, w).job;
    m, a := InsertLog(n, w, s.nodes[n].clock), E.SaveLog(w);
    u := WriteLog(Act(s, n, a, s.nodes[n].clock), Started(KeyOf(job), job.task.srv.id, s.nodes[n].clock), true)
           .(notes := s.notes + [Saved(KeyOf(job))]);
    WorkerChanged(s.nodes[n].eng, a);
  }

  lemma OtherMoves(cal: Calendar, s: Sys, n: nat, w: nat) returns (m: Move, u: Sys, a: E.Action)
    requires Has(s, n, w) && E.Routed(s.nodes[n].eng)
    requires var pc := Pc(s, n, w); pc.Got? || pc.Running? || pc.Answered? || pc.Marking? || pc.Confirming?
    ensures Advances(cal, s, u, m, n, a)
  {
    var clock, pc := s.nodes[n].clock, Pc(s, n, w);
    if pc.Got? {
      m, a := ReadNow(n, w, clock), E.ReadNow(w, clock);
      u := Act(s, n, a, clock);
    } else if pc.Running? {
      m, a := CallBack(n, w, Answer(true, false, ""), false), E.CallBack(w, Answer(true, false, ""), false);
      u := Act(s, n, a, clock).(notes := s.notes + [Called(KeyOf(pc.job))]);
    } else if pc.Answered? {
      var (key, status, extra) := ReportOf(pc.job, pc.answer, pc.failed);
      m, a := WriteCallbackLog(n, w, true, clock), E.Report(w, key, status, extra);
      var op := CalledBack(KeyOf(pc.job), Classify(pc.answer), pc.answer.isRunInAsync, clock);
      u := WriteLog(Act(s, n, a, clock), op, true);
    } else if pc.Marking? {
      m, a := Local(n, E.Mark(w)), E.Mark(w);
      u := Act(s, n, a, clock);
    } else {
      m, a := WriteConfirmedLog(n, w, true, clock), E.Finish(w);
      u := WriteLog(Act(s, n, a, clock), Confirmed(pc.key, pc.status, pc.extra, clock), true);
    }
    WorkerChanged(s.nodes[n].eng, a);
  }

  /** A busy worker can always take a step in which nothing fails. */
  lemma WorkerMoves(cal: Calendar, s: Sys, n: nat, w: nat) returns (m: Move, u: Sys, a: E.Action)
    requires FiresForever(cal) && AllPlannable(cal, s) && NodesOk(cal, s) && Has(s, n, w) && E.Routed(s.nodes[n].eng)
    requires E.Busy(Pc(s, n, w)) && !Pc(s, n, w).Lost?
    ensures Advances(cal, s, u, m, n, a)
  {
    if Pc(s, n, w).Timed? {
      m, u, a := TimedMoves(cal, s, n, w);
    } else if Pc(s, n, w).Planned? {
      m, u, a := PlannedMoves(cal, s, n, w);
    } else if Pc(s, n, w).Holding? {
      m, u, a := HoldingMoves(cal, s, n, w);
    } else {
      m, u, a := OtherMoves(cal, s, n, w);
    }
  }

  lemma IncreasingIsDistinct(xs: seq<nat>)
    requires Increasing(xs)
    ensures Distinct(xs)
  {
  }

  lemma CheckedMoves(cal: Calendar, s: Sys, n: nat) returns (m: Move, u: Sys, a: E.Action)
    requires n in s.nodes && s.nodes[n].eng.sched == E.Checked
    ensures Advances(cal, s, u, m, n, a)
  {
    var node := s.nodes[n];
    var ids := DuePage(s.p.tab, node.eng.cursor, node.clock, E.PAGE_SIZE);
    m, a := SelectDue(n, node.clock), E.Select(ids, |s.p.trace|);
    var read := Read(n, Copies(s.p.tab, IdSet(ids)), node.clock);
    u := Act(s, n, a, node.clock).(p := L.State(s.p.tab, s.p.trace + [read]));
  }

  lemma SelectedMoves(cal: Calendar, s: Sys, n: nat) returns (m: Move, u: Sys, a: E.Action)
    requires AllPlannable(cal, s) && NodesOk(cal, s) && n in s.nodes && s.nodes[n].eng.sched.Selected?
    ensures Advances(cal, s, u, m, n, a)
  {
    var node := s.nodes[n];
    var sel := node.eng.sched;
    assert NodeOk(cal, s, n, node);
    var page := s.p.trace[sel.snap].page;
    assert RowsPlannable(cal, page);
    var order := Ascending(s.reg.routes.Keys);
    IncreasingIsDistinct(order);
    var r := Timeout(page, sel.ids, s.reg, order);
    a := E.Deliver(ToJobs(r.value.0, sel.snap), r.value.1);
    m, u := DeliverPage(n, order), Act(s, n, a, node.clock);
    assert !u.nodes[n].eng.sched.Selected?;
  }

  lemma LocalMoves(cal: Calendar, s: Sys, n: nat, a: E.Action) returns (m: Move, u: Sys)
    requires n in s.nodes && E.Enabled(s.nodes[n].eng, a) && IsLocal(s.nodes[n].eng, a)
    requires E.Next(s.nodes[n].eng, a) != s.nodes[n].eng
    requires !a.NotMaster? && !a.ReadError? && !a.DropRouteless? && !a.Finish?
    ensures Advances(cal, s, u, m, n, a)
  {
    m, u := Local(n, a), Act(s, n, a, s.nodes[n].clock);
  }

  // ---------------------------------------------------------------- the drain

  lemma LeftMoves(cal: Calendar, s: Sys, n: nat) returns (m: Move, u: Sys, a: E.Action)
    requires FiresForever(cal) && AllPlannable(cal, s) && NodesOk(cal, s) && n in s.nodes && EngineOk(s.nodes[n].eng)
    requires s.nodes[n].eng.sched == E.Left && s.nodes[n].eng.stop != E.Returned
    ensures Advances(cal, s, u, m, n, a)
  {
    var eng := s.nodes[n].eng;
    if eng.stop == E.Signalled {
      a := E.SetPaused;
      m, u := LocalMoves(cal, s, n, a);
    } else if eng.wg == 0 {
      a := E.WaitReturn;
      m, u := LocalMoves(cal, s, n, a);
    } else {
      var w := E.SomeoneAlive(eng.workers);
      if eng.workers[w] == E.Ready {
        a := E.Tick(w);
        WorkerChanged(eng, a);
        m, u := LocalMoves(cal, s, n, a);
      } else {
        m, u, a := WorkerMoves(cal, s, n, w);
      }
    }
  }

  lemma SendingMoves(cal: Calendar, s: Sys, n: nat) returns (m: Move, u: Sys, a: E.Action)
    requires FiresForever(cal) && AllPlannable(cal, s) && NodesOk(cal, s) && n in s.nodes && EngineOk(s.nodes[n].eng)
    requires s.nodes[n].eng.sched.Sending?
    ensures Advances(cal, s, u, m, n, a)
  {
    var eng := s.nodes[n].eng;
    if eng.workers[0] == E.Ready {
      a := E.Handoff(0);
      WorkerChanged(eng, a);
      m, u := LocalMoves(cal, s, n, a);
    } else {
      m, u, a := WorkerMoves(cal, s, n, 0);
    }
  }

  /** From the stop request to the return of Stop some step in which nothing fails always moves the node on. */
  lemma SystemDrainNotStuck(cal: Calendar, s: Sys, n: nat) returns (m: Move, u: Sys, a: E.Action)
    requires FiresForever(cal) && AllPlannable(cal, s) && NodesOk(cal, s) && EnginesOk(s)
    requires n in s.nodes && s.nodes[n].eng.stop != E.Idle && s.nodes[n].eng.stop != E.Returned
    ensures Advances(cal, s, u, m, n, a)
  {
    var eng := s.nodes[n].eng;
    assert EngineOk(eng);
    match eng.sched
    case Top =>
      a := E.TakeExit;
      m, u := LocalMoves(cal, s, n, a);
    case Checked => m, u, a := CheckedMoves(cal, s, n);
    case Selected(_, _) => m, u, a := SelectedMoves(cal, s, n);
    case Sending(_) => m, u, a := SendingMoves(cal, s, n);
    case Left => m, u, a := LeftMoves(cal, s, n);
  }

  lemma MeasureFalls(cal: Calendar, s: Sys, u: Sys, m: Move, n: nat, a: E.Action)
    requires EnginesOk(s) && Advances(cal, s, u, m, n, a) && s.nodes[n].eng.stop != E.Idle
    ensures E.Measure(u.nodes[n].eng) < E.Measure(s.nodes[n].eng) && u.nodes[n].eng.stop != E.Idle
  {
    assert EngineOk(s.nodes[n].eng);
    E.DrainDecreases(s.nodes[n].eng, a);
  }

  /** Node `n` was told to stop. */
  ghost predicate Draining(s: Sys, n: nat) {
    n in s.nodes && s.nodes[n].eng.stop != E.Idle
  }

  lemma PartsAlways(cal: Calendar, ss: seq<Sys>, ms: seq<Move>, i: nat)
    requires C.Behaviour(cal, ss, ms) && i < |ss|
    ensures AllPlannable(cal, ss[i]) && NodesOk(cal, ss[i]) && EnginesOk(ss[i])
  {
    PlannableAlways(cal, ss, ms, i);
    P.InvAlways(cal, ss, ms, i);
  }

  lemma DrainOnce(cal: Calendar, ss: seq<Sys>, ms: seq<Move>, n: nat) returns (u: Sys, m: Move)
    requires FiresForever(cal)
    requires C.Behaviour(cal, ss, ms) && Draining(ss[|ms|], n) && ss[|ms|].nodes[n].eng.stop != E.Returned
    ensures C.Behaviour(cal, ss + [u], ms + [m]) && Draining(u, n) && Succeeds(ss[|ms|], m)
    ensures E.Measure(u.nodes[n].eng) < E.Measure(ss[|ms|].nodes[n].eng)
  {
    PartsAlways(cal, ss, ms, |ms|);
    var a;
    m, u, a := SystemDrainNotStuck(cal, ss[|ms|], n);
    MeasureFalls(cal, ss[|ms|], u, m, n, a);
    BehaviourGrows(cal, ss, ms, u, m);
  }

  /** Nothing fails from position `from` of the run on. */
  ghost predicate SucceedsFrom(ss: seq<Sys>, ms: seq<Move>, from: nat)
    requires |ss| == |ms| + 1
  {
    forall i :: from <= i < |ms| ==> Succeeds(ss[i], ms[i])
  }

  lemma SucceedsFromOne(rs: seq<Sys>, ns: seq<Move>, from: nat)
    requires |rs| == |ns| + 1 && from < |ns| && Succeeds(rs[from], ns[from]) && SucceedsFrom(rs, ns, from + 1)
    ensures SucceedsFrom(rs, ns, from)
  {
  }

  /** Every run in which a node was told to stop can go on, with nothing failing, until that node's Stop returns. */
  lemma {:induction false} SystemDrainCompletes(cal: Calendar, ss: seq<Sys>, ms: seq<Move>, n: nat)
    returns (rs: seq<Sys>, ns: seq<Move>)
    requires FiresForever(cal) && C.Behaviour(cal, ss, ms) && Draining(ss[|ms|], n)
    ensures C.Behaviour(cal, rs, ns) && Continues(ss, ms, rs, ns) && SucceedsFrom(rs, ns, |ms|)
    ensures n in rs[|ns|].nodes && rs[|ns|].nodes[n].eng.stop == E.Returned
    decreases E.Measure(ss[|ms|].nodes[n].eng)
  {
    if ss[|ms|].nodes[n].eng.stop == E.Returned {
      rs, ns := ss, ms;
    } else {
      var u, m := DrainOnce(cal, ss, ms, n);
      rs, ns := SystemDrainCompletes(cal, ss + [u], ms + [m], n);
      ContinuesOne(ss, ms, u, m, rs, ns);
      assert rs[|ms|] == rs[..|ss|][|ms|];
      SucceedsFromOne(rs, ns, |ms|);
    }
  }

  /** The steps between two states that change the engine of node `n`. */
  function Changes(ss: seq<Sys>, n: nat, from: nat, till: nat): nat
    requires till < |ss|
  {
    if till <= from then 0
    else
      Changes(ss, n, from, till - 1)
      + if n in ss[till - 1].nodes && n in ss[till].nodes
        && ss[till - 1].nodes[n].eng == ss[till].nodes[n].eng then 0 else 1
  }

  lemma MeasureBounds(cal: Calendar, s: Sys, u: Sys, m: Move, n: nat)
    requires EnginesOk(s) && C.Step(cal, s, u, m) && Draining(s, n)
    ensures Draining(u, n)
    ensures u.nodes[n].eng == s.nodes[n].eng || E.Measure(u.nodes[n].eng) < E.Measure(s.nodes[n].eng)
  {
    var a := EngineMove(cal, s, u, m, n);
    assert EngineOk(s.nodes[n].eng);
    if a.Some? {
      E.DrainDecreases(s.nodes[n].eng, a.value);
    }
  }

  lemma MeasureBoundsAt(cal: Calendar, ss: seq<Sys>, ms: seq<Move>, n: nat, i: nat)
    requires C.Behaviour(cal, ss, ms) && i < |ms| && Draining(ss[i], n)
    ensures Draining(ss[i + 1], n)
    ensures Changes(ss, n, i, i + 1) + E.Measure(ss[i + 1].nodes[n].eng) <= E.Measure(ss[i].nodes[n].eng)
  {
    EnginesAlwaysOk(cal, ss, ms, i);
    assert C.StepAt(cal, ss, ms, i);
    MeasureBounds(cal, ss[i], ss[i + 1], ms[i], n);
  }

  /** However a run goes on after a node was told to stop, at most `Measure` of its steps change that node's engine. */
  lemma {:induction false} SystemDrainBounded(cal: Calendar, ss: seq<Sys>, ms: seq<Move>, n: nat, from: nat, till: nat)
    requires C.Behaviour(cal, ss, ms) && from <= till < |ss| && Draining(ss[from], n)
    ensures Draining(ss[till], n)
    ensures Changes(ss, n, from, till) + E.Measure(ss[till].nodes[n].eng) <= E.Measure(ss[from].nodes[n].eng)
    decreases till
  {
    if from < till {
      SystemDrainBounded(cal, ss, ms, n, from, till - 1);
      MeasureBoundsAt(cal, ss, ms, n, till - 1);
    }
  }
}
