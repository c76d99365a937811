/** Runs of the system in which it does not do what one would expect. */
module FailingRuns {
  import opened SrvTables
  import opened TaskTables
  import opened RunLog
  import opened L = LockProtocol
  import E = Engine
  import opened C = Cluster
  import opened CT = ClusterTheorems
  import opened SmallRuns

  const KEY := TaskKey("once", "")

  function Once(at: int): AddReq {
    AddReq(KEY, "", "", 1, Sched(TimeSpec, "", 0, at))
  }

  /** One task, added as one-shot for `plan`, not stopped. */
  function OnceRow(plan: int, runTimes: nat, lastRunAt: int, allow: int): TaskRow {
    TaskRow(KEY, "", "", 1, DB_TIME_SPEC, "", 0, plan, lastRunAt, runTimes, allow, false)
  }

  lemma AddsInARow(row: TaskRow, at: int)
    requires row == OnceRow(row.plan, row.runTimes, row.lastRunAt, row.allow).(deleted := row.deleted)
    ensures Stores(NO_TASKS, Once(at), DB_TIME_SPEC, at) && Stores(OneRow(row), Once(at), DB_TIME_SPEC, at)
    ensures AfterAdd(NO_TASKS, Once(at), DB_TIME_SPEC, at) == OneRow(OnceRow(at, 0, 0, 1))
    ensures AfterAdd(OneRow(row), Once(at), DB_TIME_SPEC, at)
      == OneRow(OnceRow(at, row.runTimes, row.lastRunAt, if row.plan != at then row.runTimes + 1 else 1))
  {
  }

  function Later(a: int, b: int): int {
    if a < b then b else a
  }

  /** A node at rest runs the due one-shot task. */
  lemma RunOnce(cal: Calendar, ss: seq<Sys>, ms: seq<Move>, n: nat, row: TaskRow, t: int)
    returns (rs: seq<Sys>, ns: seq<Move>)
    requires C.Behaviour(cal, ss, ms) && Resting(ss[|ms|], n) && ss[|ms|].nodes[n].clock <= t
    requires row == OnceRow(row.plan, row.runTimes, row.lastRunAt, row.allow) && Due(row, t)
    requires ss[|ms|].p.tab == OneRow(row) && LiveSrv(ss[|ms|].reg, 1)
    ensures C.Behaviour(cal, rs, ns) && rs[0] == ss[0] && OnlyNode(ss[|ms|], rs[|ns|], n)
    ensures rs[|ns|].p.tab == OneRow(row.(runTimes := row.runTimes + 1, lastRunAt := t))
    ensures Has(rs[|ns|], n, 0) && Pc(rs[|ns|], n, 0).Holding?
    ensures KeyOf(Pc(rs[|ns|], n, 0).job) == LogKey(1, row.runTimes + 1)
  {
    var job;
    rs, ns, job := RunToLock(cal, ss, ms, n, row, t, row.plan);
    rs, ns := LockOne(cal, rs, ns, n, row);
  }

  lemma FirstAdd(cal: Calendar, s: Sys, at: int) returns (ss: seq<Sys>, ms: seq<Move>)
    requires Start(s)
    ensures C.Behaviour(cal, ss, ms) && ss[0] == s && LiveSrv(ss[|ms|].reg, 1)
    ensures ss[|ms|] == s.(p := ss[|ms|].p, reg := ss[|ms|].reg, replies := ss[|ms|].replies)
    ensures ss[|ms|].p.tab == OneRow(OnceRow(at, 0, 0, 1))
  {
    ss, ms := RegisterOne(cal, s);
    AddsInARow(OnceRow(0, 0, 0, 0), at);
    ss, ms := AddNow(cal, ss, ms, Once(at), DB_TIME_SPEC, at);
  }

  /** The task is added for `at` and run once, at `t`, by node `n`. */
  lemma AddAndRun(cal: Calendar, s: Sys, n: nat, at: int, t: int) returns (ss: seq<Sys>, ms: seq<Move>)
    requires Start(s) && n in s.nodes && s.nodes[n].clock <= t && at <= t
    ensures C.Behaviour(cal, ss, ms) && ss[0] == s && LiveSrv(ss[|ms|].reg, 1)
    ensures ss[|ms|] == s.(p := ss[|ms|].p, reg := ss[|ms|].reg, nodes := ss[|ms|].nodes, replies := ss[|ms|].replies)
    ensures ss[|ms|].nodes.Keys == s.nodes.Keys && forall k :: k in s.nodes && k != n ==>
        ss[|ms|].nodes[k] == s.nodes[k]
    ensures ss[|ms|].p.tab == OneRow(OnceRow(at, 1, t, 1))
    ensures Has(ss[|ms|], n, 0) && Pc(ss[|ms|], n, 0).Holding? && KeyOf(Pc(ss[|ms|], n, 0).job) == LogKey(1, 1)
  {
    ss, ms := FirstAdd(cal, s, at);
    assert Resting(ss[|ms|], n) by {
      FreshNodeRests(s, n);
    }
    ss, ms := RunOnce(cal, ss, ms, n, OnceRow(at, 0, 0, 1), t);
  }

  // ---------------------------------------------------------------- more runs than allowed

  lemma RunAgain(cal: Calendar, ss: seq<Sys>, ms: seq<Move>, b: nat, last: int)
    returns (rs: seq<Sys>, ns: seq<Move>, t: int)
    requires C.Behaviour(cal, ss, ms) && LiveSrv(ss[|ms|].reg, 1) && ss[|ms|].calls == map[]
    requires ss[|ms|].p.tab == OneRow(OnceRow(100, 1, last, 1)) && Resting(ss[|ms|], b)
    ensures C.Behaviour(cal, rs, ns) && rs[0] == ss[0] && rs[|ns|].p.tab == OneRow(OnceRow(200, 2, t, 2))
    ensures rs[|ns|].calls == map[]
  {
    AddsInARow(OnceRow(100, 1, last, 1), 200);
    rs, ns := AddNow(cal, ss, ms, Once(200), DB_TIME_SPEC, 200);
    t := Later(ss[|ms|].nodes[b].clock, 200);
    rs, ns := RunOnce(cal, rs, ns, b, OnceRow(200, 1, last, 2), t);
  }

  /**
   Added for 100, run, added for 200, run, and added for 200 again, the row has run twice where one run is allowed:
   run_times <= allow_max_run_times does not hold in every state. The two runs are won by two nodes.
   */
  lemma AllowanceOverrun(cal: Calendar, s: Sys, a: nat, b: nat) returns (ss: seq<Sys>, ms: seq<Move>)
    requires Start(s) && a in s.nodes && b in s.nodes && a != b
    ensures C.Behaviour(cal, ss, ms) && ss[0] == s
    ensures 1 in ss[|ms|].p.tab.rows && ss[|ms|].p.tab.rows[1].runTimes == 2 && ss[|ms|].p.tab.rows[1].allow == 1
    ensures !WithinAllowance(ss[|ms|].p.tab.rows[1])
  {
    var t1, t2 := Later(s.nodes[a].clock, 100), 0;
    ss, ms := AddAndRun(cal, s, a, 100, t1);
    assert Resting(ss[|ms|], b) by {
      FreshNodeRests(s, b);
    }
    ss, ms, t2 := RunAgain(cal, ss, ms, b, t1);
    AddsInARow(OnceRow(200, 2, t2, 2), 200);
    ss, ms := AddNow(cal, ss, ms, Once(200), DB_TIME_SPEC, 200);
  }

  // ---------------------------------------------------------------- a stopped task that stays done

  /** A one-shot task that ran, was stopped, and is added again for the same time is live again and never due. */
  lemma StoppedOneShotIsDone(cal: Calendar, s: Sys, n: nat) returns (ss: seq<Sys>, ms: seq<Move>)
    requires Start(s) && n in s.nodes
    ensures C.Behaviour(cal, ss, ms) && ss[0] == s && 1 in ss[|ms|].p.tab.rows
    ensures !ss[|ms|].p.tab.rows[1].deleted && ss[|ms|].p.tab.rows[1].plan == 100
    ensures forall now :: !Due(ss[|ms|].p.tab.rows[1], now)
  {
    var t := Later(s.nodes[n].clock, 100);
    ss, ms := AddAndRun(cal, s, n, 100, t);
    var row := OnceRow(100, 1, t, 1);
    var stopped := ss[|ms|].(p := L.State(OneRow(row.(deleted := true)), ss[|ms|].p.trace + [Stopped(1)]));
    ss, ms := Step1(cal, ss, ms, stopped, StopTask(1));
    AddsInARow(row.(deleted := true), 100);
    ss, ms := AddNow(cal, ss, ms, Once(100), DB_TIME_SPEC, 100);
  }

  // ---------------------------------------------------------------- a late failure

  lemma LogAndConfirm(cal: Calendar, ss: seq<Sys>, ms: seq<Move>, n: nat, key: LogKey)
    returns (rs: seq<Sys>, ns: seq<Move>)
    requires C.Behaviour(cal, ss, ms) && Has(ss[|ms|], n, 0) && Pc(ss[|ms|], n, 0).Holding?
    requires KeyOf(Pc(ss[|ms|], n, 0).job) == key && key !in ss[|ms|].logs
    ensures C.Behaviour(cal, rs, ns) && rs[0] == ss[0] && Has(rs[|ns|], n, 0) && Pc(rs[|ns|], n, 0).Running?
    ensures KeyOf(Pc(rs[|ns|], n, 0).job) == key && key in rs[|ns|].logs && rs[|ns|].logs[key].status == DB_SUCCESS
  {
    var s := ss[|ms|];
    var clock, job := s.nodes[n].clock, Pc(ss[|ms|], n, 0).job;
    var u := WriteLog(Act(s, n, E.SaveLog(0), clock), Started(key, job.task.srv.id, clock), true)
               .(notes := s.notes + [Saved(key)]);
    rs, ns := Step1(cal, ss, ms, u, InsertLog(n, 0, clock));
    var v := WriteLog(u, Confirmed(key, StatusSuccess, "", clock), true);
    rs, ns := Step1(cal, rs, ns, v, ConfirmByApi(key, true, "", true, clock));
  }

  lemma FailLate(cal: Calendar, ss: seq<Sys>, ms: seq<Move>, n: nat, key: LogKey) returns (rs: seq<Sys>, ns: seq<Move>)
    requires C.Behaviour(cal, ss, ms) && Has(ss[|ms|], n, 0) && Pc(ss[|ms|], n, 0).Running?
    requires KeyOf(Pc(ss[|ms|], n, 0).job) == key && key in ss[|ms|].logs
    ensures C.Behaviour(cal, rs, ns) && |ss| <= |rs| && rs[..|ss|] == ss
    ensures key in rs[|ns|].logs && rs[|ns|].logs[key].status == DB_FAILED
  {
    var s := ss[|ms|];
    var clock, job, answer := s.nodes[n].clock, Pc(ss[|ms|], n, 0).job, Answer(false, false, "");
    var u := Act(s, n, E.CallBack(0, answer, true), clock).(notes := s.notes + [Called(key)]);
    rs, ns := Step1(cal, ss, ms, u, CallBack(n, 0, answer, true));
    var (zero, status, extra) := ReportOf(job, answer, true);
    var v := WriteLog(Act(u, n, E.Report(0, zero, status, extra), clock),
        CalledBack(key, Classify(answer), false, clock), true);
    rs, ns := Step1(cal, rs, ns, v, WriteCallbackLog(n, 0, true, clock));
  }

  /** The run was confirmed as a success by the API; then the callback's request fails, and the log says failed. */
  lemma LateFailureOverwrites(cal: Calendar, s: Sys, n: nat) returns (ss: seq<Sys>, ms: seq<Move>, i: nat)
    requires Start(s) && n in s.nodes
    ensures C.Behaviour(cal, ss, ms) && ss[0] == s && i <= |ms|
    ensures LogKey(1, 1) in ss[i].logs && ss[i].logs[LogKey(1, 1)].status == DB_SUCCESS
    ensures LogKey(1, 1) in ss[|ms|].logs && ss[|ms|].logs[LogKey(1, 1)].status == DB_FAILED
  {
    ss, ms := AddAndRun(cal, s, n, 100, Later(s.nodes[n].clock, 100));
    ss, ms := LogAndConfirm(cal, ss, ms, n, LogKey(1, 1));
    i := |ms|;
    var confirmed := ss;
    ss, ms := FailLate(cal, ss, ms, n, LogKey(1, 1));
    assert ss[i] == ss[..|confirmed|][i] && ss[0] == ss[..|confirmed|][0];
  }

  // ---------------------------------------------------------------- a stale copy that runs early

  const EVERY_MINUTE := AddReq(KEY, "", "", 1, Sched(TimeInterval, "", 60, 0))

  function MinuteRow(): TaskRow {
    NewRow(EVERY_MINUTE, DB_TIME_INTERVAL, 60)
  }

  lemma MinuteThenOnce(at: int)
    ensures Stores(NO_TASKS, EVERY_MINUTE, DB_TIME_INTERVAL, 60)
    ensures AfterAdd(NO_TASKS, EVERY_MINUTE, DB_TIME_INTERVAL, 60) == OneRow(MinuteRow())
    ensures Stores(OneRow(MinuteRow()), Once(at), DB_TIME_SPEC, at)
    ensures AfterAdd(OneRow(MinuteRow()), Once(at), DB_TIME_SPEC, at) == OneRow(OnceRow(at, 0, 0, 1))
  {
  }

  /** A worker has a copy of an interval task in hand while the task is added again as one-shot for a later time. */
  lemma CopyThenAdd(cal: Calendar, s: Sys, n: nat, t: int, at: int) returns (ss: seq<Sys>, ms: seq<Move>)
    requires Start(s) && n in s.nodes && s.nodes[n].clock <= t && 60 <= t
    ensures C.Behaviour(cal, ss, ms) && ss[0] == s && Has(ss[|ms|], n, 0) && Pc(ss[|ms|], n, 0).Planned?
    ensures var pc := Pc(ss[|ms|], n, 0);
      && pc.now == t && pc.next == t + 60 && pc.job.task.id == 1 && pc.job.task.runTimes == 0
        && pc.job.task.lastRunAt == 0
      && pc.job.snap < |ss[|ms|].p.trace| - 1
    ensures ss[|ms|].p.tab == OneRow(OnceRow(at, 0, 0, 1)) && |ss[|ms|].p.trace| > 0
    ensures ss[|ms|].p.trace[|ss[|ms|].p.trace| - 1] == Added(1, OnceRow(at, 0, 0, 1))
  {
    MinuteThenOnce(at);
    ss, ms := RegisterOne(cal, s);
    ss, ms := AddNow(cal, ss, ms, EVERY_MINUTE, DB_TIME_INTERVAL, 60);
    assert Resting(ss[|ms|], n) by {
      FreshNodeRests(s, n);
    }
    var job;
    ss, ms, job := RunToLock(cal, ss, ms, n, MinuteRow(), t, t + 60);
    ss, ms := AddNow(cal, ss, ms, Once(at), DB_TIME_SPEC, at);
  }

  /**
   A copy read before an add can win after it, long before the added plan. Here it spends the only run of a one-shot
   task, which is then never due again.
   */
  lemma StaleCopyRunsEarly(cal: Calendar, s: Sys, n: nat, wait: nat) returns (ss: seq<Sys>, ms: seq<Move>, add: nat)
    requires Start(s) && n in s.nodes && wait > 0
    ensures C.Behaviour(cal, ss, ms) && ss[0] == s
    ensures var tr := ss[|ms|].p.trace;
      && |tr| == add + 2 && IsOneShotAdd(tr[add], 1) && IsWon(tr[add + 1], 1) && tr[add + 1].snap < add
      && tr[add].row.plan == tr[add + 1].at + wait
    ensures 1 in ss[|ms|].p.tab.rows && forall now :: !Due(ss[|ms|].p.tab.rows[1], now)
  {
    var t := Later(s.nodes[n].clock, 60);
    ss, ms := CopyThenAdd(cal, s, n, t, t + wait);
    add := |ss[|ms|].p.trace| - 1;
    ss, ms := LockOne(cal, ss, ms, n, OnceRow(t + wait, 0, 0, 1));
  }
}
