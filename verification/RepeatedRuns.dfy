/** A run of the system in which an interval task runs as often as one likes, each time exactly when it is due. */
module RepeatedRuns {
  import opened Selections
  import opened SrvTables
  import opened TaskTables
  import opened RunLog
  import opened L = LockProtocol
  import E = Engine
  import opened C = Cluster
  import CT = ClusterTheorems
  import T = LockTheorems
  import opened SmallRuns

  // ---------------------------------------------------------------- the rest of a turn

  /** Only the node, the logs and the callbacks are not as before. */
  ghost predicate OnlyTurn(s: Sys, u: Sys, n: nat) {
    && n in s.nodes && n in u.nodes && u.nodes[n].clock == s.nodes[n].clock
    && u == s.(nodes := u.nodes, logs := u.logs, logOps := u.logOps, notes := u.notes)
  }

  const DONE := Answer(true, false, "")

  /** The lock is held: the log row is inserted and the callback answers. */
  lemma CallTheTask(cal: Calendar, ss: seq<Sys>, ms: seq<Move>, n: nat, job: E.Job)
    returns (rs: seq<Sys>, ns: seq<Move>)
    requires C.Behaviour(cal, ss, ms) && n in ss[|ms|].nodes && KeyOf(job) !in ss[|ms|].logs
    requires MidSweep(ss[|ms|].nodes[n].eng, E.Holding(job))
    ensures C.Behaviour(cal, rs, ns) && rs[0] == ss[0] && OnlyTurn(ss[|ms|], rs[|ns|], n)
    ensures MidSweep(rs[|ns|].nodes[n].eng, E.Answered(job, DONE, false))
  {
    var u, v;
    rs, ns, u := SaveTheLog(cal, ss, ms, n, job);
    v := Act(u, n, E.CallBack(0, DONE, false), u.nodes[n].clock).(notes := u.notes + [Called(KeyOf(job))]);
    rs, ns := Step1(cal, rs, ns, v, CallBack(n, 0, DONE, false));
  }

  lemma SaveTheLog(cal: Calendar, ss: seq<Sys>, ms: seq<Move>, n: nat, job: E.Job)
    returns (rs: seq<Sys>, ns: seq<Move>, u: Sys)
    requires C.Behaviour(cal, ss, ms) && n in ss[|ms|].nodes && KeyOf(job) !in ss[|ms|].logs
    requires MidSweep(ss[|ms|].nodes[n].eng, E.Holding(job))
    ensures C.Behaviour(cal, rs, ns) && rs[0] == ss[0] && rs[|ns|] == u && OnlyTurn(ss[|ms|], u, n)
    ensures MidSweep(u.nodes[n].eng, E.Running(job))
  {
    var s, key, clock := ss[|ms|], KeyOf(job), ss[|ms|].nodes[n].clock;
    u := WriteLog(Act(s, n, E.SaveLog(0), clock), Started(key, job.task.srv.id, clock), true)
           .(notes := s.notes + [Saved(key)]);
    rs, ns := Step1(cal, ss, ms, u, InsertLog(n, 0, clock));
  }

  /** The callback is logged. */
  lemma LogTheCall(cal: Calendar, ss: seq<Sys>, ms: seq<Move>, n: nat, job: E.Job)
    returns (rs: seq<Sys>, ns: seq<Move>)
    requires C.Behaviour(cal, ss, ms) && n in ss[|ms|].nodes
    requires MidSweep(ss[|ms|].nodes[n].eng, E.Answered(job, DONE, false))
    ensures C.Behaviour(cal, rs, ns) && rs[0] == ss[0] && OnlyTurn(ss[|ms|], rs[|ns|], n)
    ensures MidSweep(rs[|ns|].nodes[n].eng, E.Marking(job, KeyOf(job), StatusSuccess, ""))
  {
    var s := ss[|ms|];
    var clock := s.nodes[n].clock;
    var u := WriteLog(Act(s, n, E.Report(0, KeyOf(job), StatusSuccess, ""), clock),
        CalledBack(KeyOf(job), StatusSuccess, false, clock), true);
    rs, ns := Step1(cal, ss, ms, u, WriteCallbackLog(n, 0, true, clock));
  }

  /** The run is confirmed, and the worker waits again. */
  lemma ConfirmTheRun(cal: Calendar, ss: seq<Sys>, ms: seq<Move>, n: nat, job: E.Job)
    returns (rs: seq<Sys>, ns: seq<Move>)
    requires C.Behaviour(cal, ss, ms) && n in ss[|ms|].nodes
    requires MidSweep(ss[|ms|].nodes[n].eng, E.Marking(job, KeyOf(job), StatusSuccess, ""))
    ensures C.Behaviour(cal, rs, ns) && rs[0] == ss[0] && OnlyTurn(ss[|ms|], rs[|ns|], n)
    ensures MidSweep(rs[|ns|].nodes[n].eng, E.Ready)
  {
    var clock := ss[|ms|].nodes[n].clock;
    var v := LocalStep(ss[|ms|], n, E.Mark(0));
    rs, ns := Step1(cal, ss, ms, v, Local(n, E.Mark(0)));
    var w := WriteLog(Act(v, n, E.Finish(0), clock), Confirmed(KeyOf(job), StatusSuccess, "", clock), true);
    rs, ns := Step1(cal, rs, ns, w, WriteConfirmedLog(n, 0, true, clock));
  }

  // ---------------------------------------------------------------- the end of a sweep

  lemma NothingAfterOne(t: TaskTab, now: int)
    requires t.rows.Keys == {1}
    ensures DuePage(t, 1, now, E.PAGE_SIZE) == [] && Copies(t, IdSet([])) == map[]
  {
    SomeElement(DuePage(t, 1, now, E.PAGE_SIZE));
    assert forall id :: id in t.rows <==> id in t.rows.Keys;
  }

  lemma SomeElement(ids: seq<nat>)
    ensures ids == [] || exists id :: id in ids
  {
    assert ids != [] ==> ids[0] in ids;
  }

  /** The next page is empty, and the loop is at the start of a sweep again. */
  lemma EndSweep(cal: Calendar, ss: seq<Sys>, ms: seq<Move>, n: nat) returns (rs: seq<Sys>, ns: seq<Move>)
    requires C.Behaviour(cal, ss, ms) && n in ss[|ms|].nodes && MidSweep(ss[|ms|].nodes[n].eng, E.Ready)
    requires ss[|ms|].p.tab.rows.Keys == {1}
    ensures C.Behaviour(cal, rs, ns) && rs[0] == ss[0] && Resting(rs[|ns|], n)
    ensures var s, u := ss[|ms|], rs[|ns|];
      && OnlyNode(s, u, n) && u.nodes[n].clock == s.nodes[n].clock
      && u.p == L.State(s.p.tab, s.p.trace + [Read(n, map[], s.nodes[n].clock)])
  {
    var s := ss[|ms|];
    var clock := s.nodes[n].clock;
    var u := LocalStep(s, n, E.Poll);
    rs, ns := Step1(cal, ss, ms, u, Local(n, E.Poll));
    NothingAfterOne(s.p.tab, clock);
    var v := Act(u, n, E.Select([], |s.p.trace|), clock)
               .(p := L.State(s.p.tab, s.p.trace + [Read(n, map[], clock)]));
    rs, ns := Step1(cal, rs, ns, v, SelectDue(n, clock));
    rs, ns := DeliverNothing(cal, rs, ns, n);
  }

  lemma DeliverNothing(cal: Calendar, ss: seq<Sys>, ms: seq<Move>, n: nat) returns (rs: seq<Sys>, ns: seq<Move>)
    requires C.Behaviour(cal, ss, ms) && n in ss[|ms|].nodes && |ss[|ms|].p.trace| > 0
    requires ss[|ms|].p.trace[|ss[|ms|].p.trace| - 1].Read?
    requires ss[|ms|].nodes[n].eng.sched == E.Selected([], |ss[|ms|].p.trace| - 1)
    ensures C.Behaviour(cal, rs, ns) && rs[0] == ss[0]
    ensures var s, u := ss[|ms|], rs[|ns|];
      && OnlyNode(s, u, n) && u.p == s.p
      && u.nodes[n] == Node(s.nodes[n].clock, s.nodes[n].eng.(sched := E.Top, cursor := 0))
  {
    var s := ss[|ms|];
    var u := Act(s, n, E.Deliver([], 0), s.nodes[n].clock);
    rs, ns := Step1(cal, ss, ms, u, DeliverPage(n, Ascending(s.reg.routes.Keys)));
  }

  // ---------------------------------------------------------------- one run after the other

  const KEY := TaskKey("often", "")

  function Every(interval: nat): AddReq {
    AddReq(KEY, "", "", 1, Sched(TimeInterval, "", interval, 0))
  }

  /** The row after its runs: planned for `plan`, last run at `last`. */
  function OftenRow(interval: nat, plan: int, last: int, runs: nat): TaskRow {
    TaskRow(KEY, "", "", 1, DB_TIME_INTERVAL, "", interval, plan, last, runs, 0x7FFF_FFFF_FFFF_FFFF, false)
  }

  /** Between two runs: the node rests and the task is planned. */
  ghost predicate Between(s: Sys, n: nat, row: TaskRow) {
    && Resting(s, n) && s.nodes[n].clock <= row.plan
    && s.p.tab.rows == map[1 := row] && LiveSrv(s.reg, 1)
  }

  /** The task was added once, and the runs won so far were exactly one interval apart. */
  ghost predicate OnTime(tr: Trace, first: int, interval: nat) {
    && (forall j :: 0 <= j < |tr| && tr[j].Won? ==> tr[j].at == first + (tr[j].run - 1) * interval)
    && forall j :: 0 <= j < |tr| && tr[j].Added? ==> j == 0
  }

  lemma FreshKey(cal: Calendar, ss: seq<Sys>, ms: seq<Move>, key: LogKey)
    requires C.Behaviour(cal, ss, ms) && key.taskId in ss[|ms|].p.tab.rows
    requires key.run > ss[|ms|].p.tab.rows[key.taskId].runTimes
    ensures key !in ss[|ms|].logs
  {
    if key in ss[|ms|].logs {
      CT.LogKeysInRange(cal, ss, ms, |ms|, key);
    }
  }

  /** From the lock to the next sweep. */
  lemma EndTurn(cal: Calendar, ss: seq<Sys>, ms: seq<Move>, n: nat, job: E.Job) returns (rs: seq<Sys>, ns: seq<Move>)
    requires C.Behaviour(cal, ss, ms) && n in ss[|ms|].nodes && KeyOf(job) !in ss[|ms|].logs
    requires MidSweep(ss[|ms|].nodes[n].eng, E.Holding(job)) && ss[|ms|].p.tab.rows.Keys == {1}
    ensures C.Behaviour(cal, rs, ns) && rs[0] == ss[0] && Resting(rs[|ns|], n)
    ensures var s, u := ss[|ms|], rs[|ns|];
      && u.reg == s.reg && u.nodes[n].clock == s.nodes[n].clock
      && u.p == L.State(s.p.tab, s.p.trace + [Read(n, map[], s.nodes[n].clock)])
  {
    rs, ns := CallTheTask(cal, ss, ms, n, job);
    rs, ns := LogTheCall(cal, rs, ns, n, job);
    rs, ns := ConfirmTheRun(cal, rs, ns, n, job);
    rs, ns := EndSweep(cal, rs, ns, n);
  }

  /** One more run, at the planned time. */
  lemma RunOnPlan(cal: Calendar, ss: seq<Sys>, ms: seq<Move>, n: nat, interval: nat, plan: int, last: int, runs: nat)
    returns (rs: seq<Sys>, ns: seq<Move>)
    requires C.Behaviour(cal, ss, ms) && Between(ss[|ms|], n, OftenRow(interval, plan, last, runs))
    requires runs < 0x7FFF_FFFF_FFFF_FFFF
    ensures C.Behaviour(cal, rs, ns) && rs[0] == ss[0]
    ensures Between(rs[|ns|], n, OftenRow(interval, plan + interval, plan, runs + 1))
    ensures var tr, more := ss[|ms|].p.trace, rs[|ns|].p.trace;
      && |more| == |tr| + 3 && more[..|tr|] == tr && more[|tr|].Read? && more[|tr| + 2].Read?
      && more[|tr| + 1] == Won(n, 0, 1, runs + 1, |tr|, plan, plan + interval)
  {
    var row := OftenRow(interval, plan, last, runs);
    FreshKey(cal, ss, ms, LogKey(1, runs + 1));
    var job;
    rs, ns, job := RunToLock(cal, ss, ms, n, row, plan, plan + interval);
    rs, ns := LockOne(cal, rs, ns, n, row);
    rs, ns := EndTurn(cal, rs, ns, n, job);
  }

  lemma FirstOften(cal: Calendar, s: Sys, n: nat, interval: nat) returns (ss: seq<Sys>, ms: seq<Move>)
    requires Start(s) && n in s.nodes && s.nodes[n].clock <= interval
    ensures C.Behaviour(cal, ss, ms) && ss[0] == s && Between(ss[|ms|], n, OftenRow(interval, interval, 0, 0))
    ensures |ss[|ms|].p.trace| == 1 && ss[|ms|].p.trace[0].Added?
  {
    FreshNodeRests(s, n);
    ss, ms := RegisterOne(cal, s);
    ss, ms := AddNow(cal, ss, ms, Every(interval), DB_TIME_INTERVAL, interval);
  }

  lemma NextOnTime(tr: Trace, more: Trace, first: int, interval: nat, runs: nat, plan: int)
    requires OnTime(tr, first, interval) && |more| == |tr| + 3 && more[..|tr|] == tr
    requires more[|tr|].Read? && more[|tr| + 2].Read? && more[|tr| + 1].Won?
    requires more[|tr| + 1].run == runs + 1 && more[|tr| + 1].at == plan == first + runs * interval
    ensures OnTime(more, first, interval)
  {
    forall j | 0 <= j < |more|
      ensures more[j].Won? ==> more[j].at == first + (more[j].run - 1) * interval
      ensures more[j].Added? ==> j == 0
    {
      if j < |tr| {
        assert more[..|tr|][j] == tr[j];
      }
    }
  }

  lemma {:induction false} OftenRuns(cal: Calendar, s: Sys, n: nat, interval: nat, runs: nat)
    returns (ss: seq<Sys>, ms: seq<Move>, last: int)
    requires Start(s) && n in s.nodes && s.nodes[n].clock <= interval && runs <= 0x7FFF_FFFF_FFFF_FFFF
    ensures C.Behaviour(cal, ss, ms) && ss[0] == s
    ensures Between(ss[|ms|], n, OftenRow(interval, interval + runs * interval, last, runs))
    ensures OnTime(ss[|ms|].p.trace, interval, interval)
  {
    if runs == 0 {
      ss, ms := FirstOften(cal, s, n, interval);
      last := 0;
    } else {
      ss, ms, last := OftenRuns(cal, s, n, interval, runs - 1);
      var plan, tr := interval + (runs - 1) * interval, ss[|ms|].p.trace;
      ss, ms := RunOnPlan(cal, ss, ms, n, interval, plan, last, runs - 1);
      NextOnTime(tr, ss[|ms|].p.trace, interval, interval, runs - 1, plan);
      assert plan + interval == interval + runs * interval;
      last := plan;
    }
  }

  /**
   For every number of runs up to the largest integer and every interval there is a run of the system in which a task
   added once is run that often by one node, each time exactly one interval after the last: the bound of
   `IntervalSpacing` is attained, and the task is planned once more.
   */
  lemma RunsAsOftenAsItMay(cal: Calendar, s: Sys, n: nat, interval: nat, runs: nat)
    returns (ss: seq<Sys>, ms: seq<Move>)
    requires Start(s) && n in s.nodes && s.nodes[n].clock <= interval && runs <= 0x7FFF_FFFF_FFFF_FFFF
    ensures C.Behaviour(cal, ss, ms) && ss[0] == s
    ensures WinCount(ss[|ms|].p.trace, 1) == runs && OnTime(ss[|ms|].p.trace, interval, interval)
    ensures 1 in ss[|ms|].p.tab.rows && ss[|ms|].p.tab.rows[1].plan == (runs + 1) * interval
  {
    var last;
    ss, ms, last := OftenRuns(cal, s, n, interval, runs);
    CT.LockingHolds(cal, ss, ms, |ms|);
    T.RowCount(cal, ss[|ms|].p, 1);
  }
}
