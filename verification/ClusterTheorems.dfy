/** What every run of the whole system keeps, for any number of nodes, masters, workers and API callers. */
module ClusterTheorems {
  import opened Wrappers
  import opened SrvTables
  import opened TaskTables
  import opened RunLog
  import opened L = LockProtocol
  import T = LockTheorems
  import E = Engine
  import opened C = Cluster
  import opened P = ClusterProofs

  /** The locking invariant, and with it every theorem of LockTheorems, holds in every state of the system. */
  lemma LockingHolds(cal: Calendar, ss: seq<Sys>, ms: seq<Move>, i: nat)
    requires C.Behaviour(cal, ss, ms) && i < |ss|
    ensures L.Inv(cal, ss[i].p)
  {
    P.InvAlways(cal, ss, ms, i);
  }

  /** The callback for a given task and run is issued at most once, however many nodes believe they are master. */
  lemma CallbackAtMostOnce(cal: Calendar, ss: seq<Sys>, ms: seq<Move>, i: nat, a: nat, b: nat)
    requires C.Behaviour(cal, ss, ms) && i < |ss|
    requires a < |ss[i].notes| && b < |ss[i].notes| && ss[i].notes[a].Called? && ss[i].notes[a] == ss[i].notes[b]
    ensures a == b
  {
    P.InvAlways(cal, ss, ms, i);
    assert CallsOk(ss[i].notes);
  }

  /** Every callback follows the insert of its log row, and is for a run that was won. */
  lemma LogBeforeCallback(cal: Calendar, ss: seq<Sys>, ms: seq<Move>, i: nat, b: nat)
    requires C.Behaviour(cal, ss, ms) && i < |ss| && b < |ss[i].notes| && ss[i].notes[b].Called?
    ensures var key := ss[i].notes[b].key;
      && (exists a :: 0 <= a < b && ss[i].notes[a] == Saved(key))
      && T.RunWon(ss[i].p.trace, key.taskId, key.run)
  {
    P.InvAlways(cal, ss, ms, i);
    var s, key := ss[i], ss[i].notes[b].key;
    SavedRunWasWon(cal, s, b);
  }

  lemma SavedRunWasWon(cal: Calendar, s: Sys, b: nat)
    requires L.Inv(cal, s.p) && LogsOk(s) && CallsOk(s.notes) && b < |s.notes| && s.notes[b].Called?
    ensures T.RunWon(s.p.trace, s.notes[b].key.taskId, s.notes[b].key.run)
    ensures exists a :: 0 <= a < b && s.notes[a] == Saved(s.notes[b].key)
  {
    var key := s.notes[b].key;
    assert key in s.logs;
    WonRunExists(cal, s.p, key.taskId, key.run);
  }

  lemma WonRunExists(cal: Calendar, p: L.State, id: nat, r: nat)
    requires L.Inv(cal, p) && 1 <= r <= WinCount(p.trace, id)
    ensures T.RunWon(p.trace, id, r)
  {
    var j := T.WinWithNumber(p.trace, id, r);
    T.WinFacts(cal, p, j);
    assert T.WonAs(p.trace, id, j, r);
  }

  /** The insert of a started log never meets a row of the same key: it can be refused only by a failing database. */
  lemma LogInsertNeverDuplicates(cal: Calendar, ss: seq<Sys>, ms: seq<Move>, i: nat, n: nat, w: nat)
    requires C.Behaviour(cal, ss, ms) && i < |ss| && Has(ss[i], n, w) && Pc(ss[i], n, w).Holding?
    ensures KeyOf(Pc(ss[i], n, w).job) !in ss[i].logs
  {
    P.InvAlways(cal, ss, ms, i);
    HoldingIsFresh(cal, ss[i], n, w);
  }

  lemma HoldingIsFresh(cal: Calendar, s: Sys, n: nat, w: nat)
    requires NodesOk(cal, s) && Has(s, n, w) && Pc(s, n, w).Holding?
    ensures KeyOf(Pc(s, n, w).job) !in s.logs
  {
    assert NodeOk(cal, s, n, s.nodes[n]) && WorkerOk(cal, s, n, s.nodes[n].clock, w, Pc(s, n, w));
  }

  /** Log keys of a task lie within 1 .. run_times; in particular the run-0 report of an internal error meets no row. */
  lemma LogKeysInRange(cal: Calendar, ss: seq<Sys>, ms: seq<Move>, i: nat, key: LogKey)
    requires C.Behaviour(cal, ss, ms) && i < |ss| && key in ss[i].logs
    ensures key.taskId in ss[i].p.tab.rows && 1 <= key.run <= ss[i].p.tab.rows[key.taskId].runTimes
  {
    P.InvAlways(cal, ss, ms, i);
    KeyInRange(cal, ss[i], key);
  }

  lemma KeyInRange(cal: Calendar, s: Sys, key: LogKey)
    requires L.Inv(cal, s.p) && LogsOk(s) && key in s.logs
    ensures key.taskId in s.p.tab.rows && 1 <= key.run <= s.p.tab.rows[key.taskId].runTimes
  {
    if key.taskId !in s.p.tab.rows {
      NothingBeforeFirstAdd(cal, s.p, key.taskId);
    } else {
      T.RowCount(cal, s.p, key.taskId);
    }
  }

  /**
   In every state a log row has the time and the server of its own insert, and each other column shows the last
   statement that set it, of worker, callback or API, or its first value.
   */
  lemma LogColumnsInSystem(cal: Calendar, ss: seq<Sys>, ms: seq<Move>, i: nat, key: LogKey, col: Column)
    requires C.Behaviour(cal, ss, ms) && i < |ss| && key in ss[i].logs
    ensures var s := ss[i];
      && (exists k :: FirstStart(s.logOps, k, key))
      && (forall k :: FirstStart(s.logOps, k, key) ==>
            s.logs[key].startedAt == s.logOps[k].at && s.logs[key].srvId == s.logOps[k].srvId)
      && (NeverReached(s.logOps, key, col) ==> ShowsNothing(s.logs[key], col))
      && (forall j :: LastReach(s.logOps, j, key, col) ==> Shows(s.logs[key], s.logOps[j], col))
  {
    P.InvAlways(cal, ss, ms, i);
    assert LogsOk(ss[i]);
    RowIsStarted(ss[i].logOps, key);
    ColumnIsLastReport(ss[i].logOps, key, col);
    var k := SomeFirstStart(ss[i].logOps, key);
    RowIsFirstStart(ss[i].logOps, key, k);
  }

  /** No pool ever loses a worker, and the wait group always counts the workers that have not exited. */
  lemma PoolNeverLosesWorker(cal: Calendar, ss: seq<Sys>, ms: seq<Move>, i: nat, n: nat)
    requires C.Behaviour(cal, ss, ms) && i < |ss| && n in ss[i].nodes
    ensures var eng := ss[i].nodes[n].eng;
      && E.NoneLost(eng) && eng.wg == E.Total(eng.workers, E.Alive())
      && forall w :: !E.Enabled(eng, E.DropRouteless(w))
  {
    P.InvAlways(cal, ss, ms, i);
    EngineRouted(ss[i], n);
  }

  lemma EngineRouted(s: Sys, n: nat)
    requires EnginesOk(s) && n in s.nodes
    ensures E.NoneLost(s.nodes[n].eng) && E.WaitGroupExact(s.nodes[n].eng)
    ensures forall w :: !E.Enabled(s.nodes[n].eng, E.DropRouteless(w))
  {
    assert EngineOk(s.nodes[n].eng);
  }

  /** When a node's Stop has returned, every task it emitted was received once, in order, and finished. */
  lemma NodeDrained(cal: Calendar, ss: seq<Sys>, ms: seq<Move>, i: nat, n: nat)
    requires C.Behaviour(cal, ss, ms) && i < |ss| && n in ss[i].nodes && ss[i].nodes[n].eng.stop == E.Returned
    ensures var eng := ss[i].nodes[n].eng;
      && eng.emitted == E.Jobs(eng.received) && multiset(eng.finished) == multiset(eng.emitted)
      && forall a :: !E.Enabled(eng, a)
  {
    P.InvAlways(cal, ss, ms, i);
    assert EngineOk(ss[i].nodes[n].eng);
    E.GracefulDrain(ss[i].nodes[n].eng);
  }

  // ---------------------------------------------------------------- adds

  /**
   The write of AddTask returns no id, and no error, exactly when its SELECT saw no row and another call has added the
   key since. Then nothing is stored; otherwise the row of the returned id carries the request.
   */
  lemma AddOutcome(cal: Calendar, ss: seq<Sys>, ms: seq<Move>, i: nat, c: nat)
    requires C.Behaviour(cal, ss, ms) && i < |ms| && ms[i] == AddWrite(c)
    ensures c in ss[i].calls && |ss[i + 1].replies| == |ss[i].replies| + 1
    ensures var s, u, call := ss[i], ss[i + 1], ss[i].calls[c];
      var reply := u.replies[|s.replies|];
      && reply.c == c && reply.key == call.req.key
      && (reply.id == None <==> call.found == None && call.req.key in s.p.tab.byKey)
      && (reply.id == None ==> u.p == s.p)
      && (reply.id.Some? ==> reply.id.value in u.p.tab.rows)
      && (reply.id.Some? ==> Carries(u.p.tab.rows[reply.id.value], call.req, call.next))
  {
    P.InvAlways(cal, ss, ms, i);
    assert C.StepAt(cal, ss, ms, i);
    AddStored(ss[i], ss[i + 1], c);
  }

  lemma AddStored(s: Sys, u: Sys, c: nat)
    requires ValidTasks(s.p.tab) && AddCallsOk(s) && StepAddWrite(s, u, c)
    ensures var call := s.calls[c];
      var (tab, id) := WriteTask(s.p.tab, call.req, call.dbMode, call.next, call.found);
      && u.p.tab == tab && u.replies == s.replies + [Reply(c, call.req.key, id)]
      && (id == None <==> call.found == None && call.req.key in s.p.tab.byKey) && (id == None ==> u.p == s.p)
      && (id.Some? ==> id.value in u.p.tab.rows && Carries(u.p.tab.rows[id.value], call.req, call.next))
  {
    var call := s.calls[c];
    WriteTaskStores(s.p.tab, call.req, call.dbMode, call.next, call.found);
  }

  function IntervalReq(name: string, srvId: nat, arg: string): AddReq {
    AddReq(TaskKey(name, ""), arg, "", srvId, Sched(TimeInterval, "", 60, 0))
  }

  /** Two calls look for the same new key before either writes. */
  lemma TwoLooks(cal: Calendar, s: Sys, name: string, srvId: nat) returns (ss: seq<Sys>, ms: seq<Move>)
    requires Start(s) && name != ""
    ensures C.Behaviour(cal, ss, ms) && |ms| == 2 && ss[0] == s
    ensures ss[2] == s.(calls := map[
      1 := AddCall(IntervalReq(name, srvId, "first"), DB_TIME_INTERVAL, 60, None),
      2 := AddCall(IntervalReq(name, srvId, "second"), DB_TIME_INTERVAL, 60, None)])
  {
    var r1, r2 := IntervalReq(name, srvId, "first"), IntervalReq(name, srvId, "second");
    Begin(cal, s);
    var s1 := s.(calls := s.calls[1 := AddCall(r1, DB_TIME_INTERVAL, 60, None)]);
    BehaviourGrows(cal, [s], [], s1, AddLook(1, r1, 0, None));
    var s2 := s1.(calls := s1.calls[2 := AddCall(r2, DB_TIME_INTERVAL, 60, None)]);
    BehaviourGrows(cal, [s] + [s1], [] + [AddLook(1, r1, 0, None)], s2, AddLook(2, r2, 0, None));
    ss, ms := [s] + [s1] + [s2], [] + [AddLook(1, r1, 0, None)] + [AddLook(2, r2, 0, None)];
  }

  /**
   Two calls add the same new key; both SELECTs come first, and the later INSERT returns neither an id nor an error.
   */
  lemma SecondAddGetsNothing(cal: Calendar, s: Sys, name: string, srvId: nat) returns (ss: seq<Sys>, ms: seq<Move>)
    requires Start(s) && name != ""
    ensures C.Behaviour(cal, ss, ms) && |ms| == 4 && ss[0] == s
    ensures ss[4].replies == [Reply(1, TaskKey(name, ""), Some(1)), Reply(2, TaskKey(name, ""), None)]
    ensures ss[4].p.tab == ss[3].p.tab && 1 in ss[3].p.tab.rows && ss[3].p.tab.rows[1].arg == "first"
  {
    ss, ms := TwoLooks(cal, s, name, srvId);
    var key, row := TaskKey(name, ""), NewRow(IntervalReq(name, srvId, "first"), DB_TIME_INTERVAL, 60);
    var tab := TaskTab(map[1 := row], map[key := 1], 2);
    assert Insert(NO_TASKS, row) == Some((tab, 1));
    var s3 := ss[2].(p := L.State(tab, [Added(1, row)]), calls := ss[2].calls - {1},
        replies := [Reply(1, key, Some(1))]);
    BehaviourGrows(cal, ss, ms, s3, AddWrite(1));
    ss, ms := ss + [s3], ms + [AddWrite(1)];
    var s4 := s3.(calls := s3.calls - {2}, replies := [Reply(1, key, Some(1)), Reply(2, key, None)]);
    BehaviourGrows(cal, ss, ms, s4, AddWrite(2));
    ss, ms := ss + [s4], ms + [AddWrite(2)];
  }

  // ---------------------------------------------------------------- after Stop has returned

  lemma StepExtends(cal: Calendar, s: Sys, u: Sys, m: Move)
    requires C.Step(cal, s, u, m)
    ensures Extends(s.p.trace, u.p.trace)
  {
  }

  /** No engine action of node `n` is possible. */
  ghost predicate Halted(s: Sys, n: nat) {
    n in s.nodes && forall a :: !E.Enabled(s.nodes[n].eng, a)
  }

  lemma ReturnedIsHalted(s: Sys, n: nat)
    requires EnginesOk(s) && n in s.nodes && s.nodes[n].eng.stop == E.Returned
    ensures Halted(s, n)
  {
    assert EngineOk(s.nodes[n].eng);
    E.GracefulDrain(s.nodes[n].eng);
  }

  lemma HaltedWorkers(s: Sys, n: nat)
    requires Halted(s, n)
    ensures forall w :: Has(s, n, w) ==> !Pc(s, n, w).Answered? && !Pc(s, n, w).Confirming?
  {
    forall w | Has(s, n, w)
      ensures !Pc(s, n, w).Answered? && !Pc(s, n, w).Confirming?
    {
      assert !E.Enabled(s.nodes[n].eng, E.Finish(w));
      assert !E.Enabled(s.nodes[n].eng, E.Report(w, LogKey(0, 0), StatusFailed, ""));
    }
  }

  lemma StepOfHalted(cal: Calendar, s: Sys, u: Sys, m: Move, n: nat)
    requires Halted(s, n) && C.Step(cal, s, u, m)
    ensures n in u.nodes && u.nodes[n].eng == s.nodes[n].eng
  {
    HaltedWorkers(s, n);
  }

  lemma WinOfHalted(cal: Calendar, s: Sys, u: Sys, m: Move, n: nat)
    requires Halted(s, n) && C.Step(cal, s, u, m)
    ensures |s.p.trace| <= |u.p.trace|
    ensures forall j :: |s.p.trace| <= j < |u.p.trace| && u.p.trace[j].Won? ==> u.p.trace[j].node != n
  {
  }

  /** From position `from` of the trace on, node `n` wins nothing. */
  ghost predicate NoWinOf(tr: L.Trace, n: nat, from: nat) {
    forall j :: from <= j < |tr| && tr[j].Won? ==> tr[j].node != n
  }

  lemma NoWinGrows(before: L.Trace, after: L.Trace, n: nat, from: nat)
    requires Extends(before, after) && NoWinOf(before, n, from) && NoWinOf(after, n, |before|)
    ensures NoWinOf(after, n, from)
  {
    forall j | from <= j < |before| && after[j].Won?
      ensures after[j].node != n
    {
      ExtendsAt(before, after, j);
    }
  }

  lemma StepAfterReturn(cal: Calendar, s: Sys, u: Sys, m: Move, n: nat)
    requires EnginesOk(s) && C.Step(cal, s, u, m) && n in s.nodes && s.nodes[n].eng.stop == E.Returned
    ensures n in u.nodes && u.nodes[n].eng == s.nodes[n].eng
    ensures Extends(s.p.trace, u.p.trace) && NoWinOf(u.p.trace, n, |s.p.trace|)
  {
    ReturnedIsHalted(s, n);
    StepOfHalted(cal, s, u, m, n);
    WinOfHalted(cal, s, u, m, n);
    StepExtends(cal, s, u, m);
  }

  /** After a node's Stop has returned, no lock of that node ever wins again. */
  lemma {:induction false} NoLockAfterReturn(cal: Calendar, ss: seq<Sys>, ms: seq<Move>, i: nat, k: nat, n: nat)
    requires C.Behaviour(cal, ss, ms) && i <= k < |ss| && n in ss[i].nodes && ss[i].nodes[n].eng.stop == E.Returned
    ensures n in ss[k].nodes && ss[k].nodes[n].eng == ss[i].nodes[n].eng
    ensures |ss[i].p.trace| <= |ss[k].p.trace| && NoWinOf(ss[k].p.trace, n, |ss[i].p.trace|)
  {
    if i < k {
      NoLockAfterReturn(cal, ss, ms, i, k - 1, n);
      EnginesAlwaysOk(cal, ss, ms, k - 1);
      assert C.StepAt(cal, ss, ms, k - 1);
      StepAfterReturn(cal, ss[k - 1], ss[k], ms[k - 1], n);
      NoWinGrows(ss[k - 1].p.trace, ss[k].p.trace, n, |ss[i].p.trace|);
    }
  }

  lemma EnginesAlwaysOk(cal: Calendar, ss: seq<Sys>, ms: seq<Move>, i: nat)
    requires C.Behaviour(cal, ss, ms) && i < |ss|
    ensures EnginesOk(ss[i])
  {
    P.InvAlways(cal, ss, ms, i);
  }

  // ---------------------------------------------------------------- a step as seen by one engine

  /** The engine took one action, or none. */
  ghost predicate ActsBy(e: E.State, f: E.State, a: Option<E.Action>) {
    match a
    case None => f == e
    case Some(act) => E.Enabled(e, act) && f == E.Next(e, act)
  }

  lemma ActMoves(s: Sys, k: nat, act: E.Action, now: int, n: nat) returns (a: Option<E.Action>)
    requires k in s.nodes && n in s.nodes && E.Enabled(s.nodes[k].eng, act)
    ensures n in Act(s, k, act, now).nodes && ActsBy(s.nodes[n].eng, Act(s, k, act, now).nodes[n].eng, a)
  {
    a := if k == n then Some(act) else None;
  }

  lemma EngineMove(cal: Calendar, s: Sys, u: Sys, m: Move, n: nat) returns (a: Option<E.Action>)
    requires C.Step(cal, s, u, m) && n in s.nodes
    ensures n in u.nodes && ActsBy(s.nodes[n].eng, u.nodes[n].eng, a)
  {
    a := None;
    match m
    case Local(k, act) => a := ActMoves(s, k, act, s.nodes[k].clock, n);
    case SelectDue(k, at) =>
      var ids := DuePage(s.p.tab, s.nodes[k].eng.cursor, at, E.PAGE_SIZE);
      a := ActMoves(s, k, E.Select(ids, |s.p.trace|), s.nodes[k].clock, n);
    case DeliverPage(k, order) => a := ActMoves(s, k, P.Delivery(s, k, order), s.nodes[k].clock, n);
    case ReadNow(k, w, now) => a := ActMoves(s, k, E.ReadNow(w, now), now, n);
    case ReadNext(k, w, now, next) => a := ActMoves(s, k, E.ReadNext(w, now, next), now, n);
    case Lock(k, w) => a := ActMoves(s, k, E.WinLock(w), s.nodes[k].clock, n);
    case InsertLog(k, w, _) => a := ActMoves(s, k, E.SaveLog(w), s.nodes[k].clock, n);
    case CallBack(k, w, answer, failed) => a := ActMoves(s, k, E.CallBack(w, answer, failed), s.nodes[k].clock, n);
    case WriteCallbackLog(k, w, _, _) =>
      var (key, status, extra) := ReportOf(Pc(s, k, w).job, Pc(s, k, w).answer, Pc(s, k, w).failed);
      a := ActMoves(s, k, E.Report(w, key, status, extra), s.nodes[k].clock, n);
    case WriteConfirmedLog(k, w, _, _) => a := ActMoves(s, k, E.Finish(w), s.nodes[k].clock, n);
    case _ =>
  }

  // ---------------------------------------------------------------- building runs

  lemma BehaviourGrows(cal: Calendar, ss: seq<Sys>, ms: seq<Move>, u: Sys, m: Move)
    requires C.Behaviour(cal, ss, ms) && C.Step(cal, ss[|ms|], u, m)
    ensures C.Behaviour(cal, ss + [u], ms + [m])
  {
    var qs, ns := ss + [u], ms + [m];
    forall i | 0 <= i < |ns|
      ensures C.StepAt(cal, qs, ns, i)
    {
      if i < |ms| {
        assert C.StepAt(cal, ss, ms, i);
        assert qs[i] == ss[i] && qs[i + 1] == ss[i + 1] && ns[i] == ms[i];
      } else {
        assert qs[i] == ss[|ms|] && qs[i + 1] == u && ns[i] == m;
      }
    }
  }

  lemma Begin(cal: Calendar, s: Sys)
    requires Start(s)
    ensures C.Behaviour(cal, [s], [])
  {
  }

  /** The run was continued. */
  ghost predicate Continues(ss: seq<Sys>, ms: seq<Move>, rs: seq<Sys>, ns: seq<Move>) {
    |ss| == |ms| + 1 && |rs| == |ns| + 1 && |ms| <= |ns| && rs[..|ss|] == ss && ns[..|ms|] == ms
  }

  lemma ContinuesOne(ss: seq<Sys>, ms: seq<Move>, u: Sys, m: Move, rs: seq<Sys>, ns: seq<Move>)
    requires |ss| == |ms| + 1 && Continues(ss + [u], ms + [m], rs, ns)
    ensures Continues(ss, ms, rs, ns) && rs[|ss|] == u && ns[|ms|] == m
  {
    assert rs[..|ss|] == rs[..|ss| + 1][..|ss|] && ns[..|ms|] == ns[..|ms| + 1][..|ms|];
    assert rs[|ss|] == rs[..|ss| + 1][|ss|] && ns[|ms|] == ns[..|ms| + 1][|ms|];
  }
}
