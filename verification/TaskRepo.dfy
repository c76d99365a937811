/**
 The task repository, internal/task/impl/repo/mysql/task_repo.go, over a table held in fields, and one worker's
 turn of internal/task/worker.go on top of it. Clock readings and cron answers are parameters.
 */
module TaskRepository {
  import opened Wrappers
  import opened Selections
  import opened SrvTables
  import opened SrvQueries
  import opened SrvRepo
  import Refine = SrvRefinement
  import opened RunLog
  import opened TaskTables

  /** AddTask when nothing interleaves: first-or-create by (name, biz_id), then an update of the row that was found. */
  function AddTaskSpec(t: TaskTab, req: AddReq, now: int, cronNext: Option<int>): Result<(TaskTab, nat), TaskError>
    requires ValidTasks(t)
  {
    if ToDbMode(req.sched.mode).None? || GetSchedNextAt(req.sched, now, cronNext).None? then Failure(InvalidSchedule)
    else
      var dbMode, next := ToDbMode(req.sched.mode).value, GetSchedNextAt(req.sched, now, cronNext).value;
      var (u, id) := WriteTask(t, req, dbMode, next, FindTask(t, req.key));
      Success((u, id.value))
  }

  /**
   What AddTask leaves behind: the one row of the key carries the request, a known key keeps its id and its run
   counter, a new one starts at zero, and no other row changes.
   */
  ghost predicate Stored(t: TaskTab, u: TaskTab, id: nat, req: AddReq, next: int) {
    && ValidTasks(u) && req.key in u.byKey && u.byKey[req.key] == id && id in u.rows && Carries(u.rows[id], req, next)
    && (if req.key in t.byKey
        then id in t.rows && id == t.byKey[req.key] && u.rows[id].runTimes == t.rows[id].runTimes
          && u.rows[id].lastRunAt == t.rows[id].lastRunAt
        else id !in t.rows && u.rows[id].runTimes == 0 && u.rows[id].lastRunAt == 0)
    && (forall o :: o != id ==> (o in u.rows <==> o in t.rows) && (o in t.rows ==> u.rows[o] == t.rows[o]))
  }

  /**
   The budget. One-shot tasks get one run when they are new, one more than they have had when their mode or plan
   changes, and otherwise the number one, however often they ran. The others get the largest integer, so they are due
   from their plan on until they have run that often.
   */
  ghost predicate Budgeted(t: TaskTab, u: TaskTab, id: nat, req: AddReq)
    requires id in u.rows
  {
    && (req.sched.mode != TimeSpec ==> u.rows[id].allow == 0x7FFF_FFFF_FFFF_FFFF)
    && (req.sched.mode != TimeSpec && u.rows[id].runTimes < 0x7FFF_FFFF_FFFF_FFFF ==>
          forall now :: Due(u.rows[id], now) <==> !u.rows[id].deleted && u.rows[id].plan <= now)
    && (req.sched.mode == TimeSpec && id !in t.rows ==> u.rows[id].allow == 1)
    && (req.sched.mode == TimeSpec && id in t.rows ==>
          var changed := ToEntityMode(t.rows[id].dbMode) != Some(TimeSpec) || t.rows[id].plan != req.sched.specAt;
          u.rows[id].allow == if changed then t.rows[id].runTimes + 1 else 1)
  }

  lemma AddTaskStores(t: TaskTab, req: AddReq, now: int, cronNext: Option<int>)
    requires ValidTasks(t) && req.key.name != "" && AddTaskSpec(t, req, now, cronNext).Success?
    ensures var (u, id) := AddTaskSpec(t, req, now, cronNext).value;
      && Stored(t, u, id, req, GetSchedNextAt(req.sched, now, cronNext).value) && Budgeted(t, u, id, req)
  {
    var dbMode, next := ToDbMode(req.sched.mode).value, GetSchedNextAt(req.sched, now, cronNext).value;
    WriteTaskStores(t, req, dbMode, next, FindTask(t, req.key));
    if req.key !in t.byKey {
      InsertValid(t, NewRow(req, dbMode, next));
    }
  }

  class TaskRepo {
    const srvRepo: TaskSrvRepo
    const logRepo: TaskLogRepo
    var rows: map<nat, TaskRow>
    var byKey: map<TaskKey, nat>
    var nextId: nat

    function Tab(): TaskTab
      reads this
    {
      TaskTab(rows, byKey, nextId)
    }

    constructor (srvRepo: TaskSrvRepo, logRepo: TaskLogRepo)
      ensures this.srvRepo == srvRepo && this.logRepo == logRepo
      ensures Tab() == NO_TASKS && ValidTasks(Tab())
    {
      this.srvRepo, this.logRepo := srvRepo, logRepo;
      rows, byKey, nextId := map[], map[], 1;
    }

    method DelTaskById(id: nat)
      modifies this
      ensures Tab() == SoftDelete(old(Tab()), id)
    {
      if id in rows && !rows[id].deleted {
        rows := rows[id := rows[id].(deleted := true)];
      } else {
        assert id in rows ==> rows == rows[id := rows[id].(deleted := true)];
      }
    }

    /** The SELECT of first-or-create. */
    method SelectTask(key: TaskKey) returns (found: Option<(nat, TaskRow)>)
      requires ValidTasks(Tab())
      ensures found == FindTask(Tab(), key)
    {
      if key in byKey {
        return Some((byKey[key], rows[byKey[key]]));
      }
      return None;
    }

    /** The rest of AddTask: the table may have changed since the SELECT, and the INSERT may meet the unique index. */
    method StoreTask(req: AddReq, schedMode: int, schedNextAt: int, found: Option<(nat, TaskRow)>)
      returns (id: Option<nat>)
      requires found.Some? ==> found.value.0 in rows
      modifies this
      ensures (Tab(), id) == WriteTask(old(Tab()), req, schedMode, schedNextAt, found)
    {
      var allowMaxRunTimes := AllowFor(req.sched.mode);
      if found.None? {
        if req.key in byKey {
          return None;
        }
        rows, byKey := rows[nextId := NewRow(req, schedMode, schedNextAt)], byKey[req.key := nextId];
        nextId, id := nextId + 1, Some(nextId);
        return;
      }
      var (foundId, seen) := found.value;
      var updates := rows[foundId].(dbMode := schedMode, cronExpr := req.sched.cronExpr,
          intervalSec := req.sched.intervalSec,
                            plan := schedNextAt, srvId := req.srvId, callbackPath := req.callbackPath,
                            allow := allowMaxRunTimes, deleted := false, arg := req.arg);
      if schedMode == DB_TIME_SPEC && (seen.dbMode != DB_TIME_SPEC || seen.plan != schedNextAt) {
        updates := updates.(allow := rows[foundId].runTimes + allowMaxRunTimes);
      }
      rows := rows[foundId := updates];
      return Some(foundId);
    }

    method AddTask(req: AddReq, now: int, cronNext: Option<int>) returns (r: Result<nat, TaskError>)
      requires ValidTasks(Tab())
      modifies this
      ensures match AddTaskSpec(old(Tab()), req, now, cronNext)
        case Failure(e) => r == Failure(e) && Tab() == old(Tab())
        case Success(done) => r == Success(done.1) && Tab() == done.0
      ensures r.Success? && req.key.name != "" ==>
        && GetSchedNextAt(req.sched, now, cronNext).Some?
        && Stored(old(Tab()), Tab(), r.value, req, GetSchedNextAt(req.sched, now, cronNext).value)
        && Budgeted(old(Tab()), Tab(), r.value, req)
    {
      var schedMode := ToDbMode(req.sched.mode);
      if schedMode.None? {
        return Failure(InvalidSchedule);
      }
      var schedNextAt := GetSchedNextAt(req.sched, now, cronNext);
      if schedNextAt.None? {
        return Failure(InvalidSchedule);
      }
      if req.key.name != "" {
        AddTaskStores(Tab(), req, now, cronNext);
      }
      var found := SelectTask(req.key);
      var id := StoreTask(req, schedMode.value, schedNextAt.value, found);
      return Success(id.value);
    }

    /** The loop of TimeoutTasks that collects server ids without repeats. */
    static method DistinctSrvIds(rows: map<nat, TaskRow>, ids: seq<nat>) returns (srvIds: seq<nat>)
      requires forall id :: id in ids ==> id in rows
      ensures forall s :: s in srvIds <==> exists i :: 0 <= i < |ids| && rows[ids[i]].srvId == s
      ensures Distinct(srvIds)
    {
      srvIds := [];
      var seen: set<nat> := {};
      for i := 0 to |ids|
        invariant Distinct(srvIds)
        invariant forall s :: s in seen <==> s in srvIds
        invariant forall s :: s in srvIds <==> exists k :: 0 <= k < i && rows[ids[k]].srvId == s
      {
        assert ids[i] in ids;
        var s := rows[ids[i]].srvId;
        if s in seen {
          continue;
        }
        srvIds := srvIds + [s];
        seen := seen + {s};
      }
    }

    /** The loop of TimeoutTasks that indexes the returned servers by id. */
    static method SrvMap(srvs: seq<Srv>) returns (byId: map<nat, Srv>)
      ensures forall s :: s in byId ==> byId[s] in srvs && byId[s].id == s
      ensures forall i :: 0 <= i < |srvs| ==> srvs[i].id in byId
    {
      byId := map[];
      for i := 0 to |srvs|
        invariant forall s :: s in byId ==> byId[s] in srvs && byId[s].id == s
        invariant forall k :: 0 <= k < i ==> srvs[k].id in byId
      {
        byId := byId[srvs[i].id := srvs[i]];
      }
    }

    /** The last loop of TimeoutTasks: rows without a server are skipped, a row NewTask refuses ends the call. */
    static method BuildTasks(rows: map<nat, TaskRow>, ids: seq<nat>, ghost reg: Tables, ghost routeOrder: seq<nat>,
                             byId: map<nat, Srv>)
      returns (r: Result<seq<Task>, TaskError>)
      requires forall id :: id in ids ==> id in rows
      requires forall i :: 0 <= i < |ids| ==> ServesRow(reg, routeOrder, byId, rows[ids[i]])
      ensures r == if JoinedRowsOk(rows, ids, reg) then Success(Join(rows, ids, reg, routeOrder)) else Failure(BadRow)
    {
      var tasks := [];
      for i := 0 to |ids|
        invariant forall id :: id in ids[..i] ==> id in rows
        invariant tasks == Join(rows, ids[..i], reg, routeOrder)
        invariant JoinedRowsOk(rows, ids[..i], reg)
      {
        assert ids[..i + 1] == ids[..i] + [ids[i]] && ids[..i + 1][..i] == ids[..i];
        assert ids[i] in ids;
        var row := rows[ids[i]];
        if row.srvId !in byId {
          continue;
        }
        if !RowOk(row) {
          return Failure(BadRow);
        }
        tasks := tasks + [ToTask(ids[i], row, byId[row.srvId])];
      }
      assert ids[..|ids|] == ids;
      return Success(tasks);
    }

    /** The map holds the row's server, with its live routes, exactly when that server is live. */
    ghost static predicate ServesRow(reg: Tables, routeOrder: seq<nat>, byId: map<nat, Srv>, row: TaskRow) {
      && (row.srvId in byId <==> LiveSrv(reg, row.srvId))
      && (LiveSrv(reg, row.srvId) ==> byId[row.srvId] == SrvEntity(reg, false, row.srvId, routeOrder))
    }

    /** TimeoutTasks: whatever order the servers come back in, the result is the plain join of the due page. */
    method TimeoutTasks(size: nat, cursor: nat, now: int, srvOrder: seq<nat>, routeOrder: seq<nat>)
      returns (r: Result<(seq<Task>, nat), TaskError>)
      requires Valid(srvRepo.Tab()) && Scans(srvRepo.Tab(), srvOrder, routeOrder)
      ensures r == Timeout(rows, DuePage(Tab(), cursor, now, size), srvRepo.Tab(), routeOrder)
      ensures r.Failure? <==> SomeRowRefused(Tab(), DuePage(Tab(), cursor, now, size), srvRepo.Tab())
      ensures r.Success? ==>
        && (forall i :: 0 <= i < |r.value.0| ==> HandsOver(Tab(), cursor, now, srvRepo.Tab(), r.value.0[i]))
        && HandsOverAll(Tab(), DuePage(Tab(), cursor, now, size), srvRepo.Tab(), r.value.0)
    {
      TimeoutMeaning(Tab(), cursor, now, DuePage(Tab(), cursor, now, size), srvRepo.Tab(), routeOrder);
      var ids := DuePage(Tab(), cursor, now, size);
      if |ids| == 0 {
        return Success(([], 0));
      }
      ghost var reg := srvRepo.Tab();
      var srvIds := DistinctSrvIds(rows, ids);
      var srvs := srvRepo.GetSrvsByIds(srvIds, srvOrder, routeOrder);
      var byId := SrvMap(srvs);
      forall i | 0 <= i < |ids|
        ensures ServesRow(reg, routeOrder, byId, rows[ids[i]])
      {
        assert ids[i] in ids;
        MapServes(reg, srvIds, srvOrder, routeOrder, srvs, byId, rows[ids[i]]);
      }
      var built := BuildTasks(rows, ids, reg, routeOrder, byId);
      if built.Failure? {
        return Failure(built.error);
      }
      var tasks := built.value;
      var nextCursor := 0;
      if |tasks| > 0 {
        nextCursor := tasks[|tasks| - 1].id;
      }
      return Success((tasks, nextCursor));
    }

    /** The task is the copy of a due row, and its server is live, with exactly its registered routes. */
    ghost static predicate HandsOver(t: TaskTab, cursor: nat, now: int, reg: Tables, task: Task)
      requires Valid(reg)
    {
      && task.id in t.rows && cursor < task.id && IsCopyOf(task, t.rows[task.id])
      && !t.rows[task.id].deleted && t.rows[task.id].runTimes < t.rows[task.id].allow && t.rows[task.id].plan <= now
      && LiveSrv(reg, task.srv.id) && task.srv.name == reg.srvs[task.srv.id].name
      && ListsRegistry(Refine.Abs(reg), task.srv.name, task.srv.routes)
    }

    ghost static predicate HandsOverAll(t: TaskTab, ids: seq<nat>, reg: Tables, tasks: seq<Task>)
      requires forall id :: id in ids ==> id in t.rows
    {
      forall id :: id in ids && LiveSrv(reg, t.rows[id].srvId) ==> exists i :: 0 <= i < |tasks| && tasks[i].id == id
    }

    /** Some row with a live server has no name, or a mode that is not known. */
    ghost static predicate SomeRowRefused(t: TaskTab, ids: seq<nat>, reg: Tables)
      requires forall id :: id in ids ==> id in t.rows
    {
      exists id :: id in ids && LiveSrv(reg, t.rows[id].srvId) && Refused(t.rows[id])
    }

    static predicate Refused(row: TaskRow) {
      row.key.name == "" || row.dbMode < 1 || 3 < row.dbMode
    }

    static lemma JoinedIsHandedOver(t: TaskTab, cursor: nat, now: int, ids: seq<nat>, reg: Tables,
                                    routeOrder: seq<nat>, task: Task)
      requires Valid(reg) && Enumerates(routeOrder, reg.routes.Keys)
      requires forall id :: id in ids ==> id in t.rows && DueAfter(t, cursor, now, id)
      requires task in Join(t.rows, ids, reg, routeOrder)
      ensures HandsOver(t, cursor, now, reg, task)
    {
      JoinSource(t.rows, ids, reg, routeOrder, task);
      RoutesOfListRegistry(reg, task.srv.id, routeOrder);
    }

    static lemma EachIsJoined(t: TaskTab, ids: seq<nat>, reg: Tables, routeOrder: seq<nat>, id: nat)
      requires (forall k :: k in ids ==> k in t.rows) && id in ids && LiveSrv(reg, t.rows[id].srvId)
      ensures var tasks := Join(t.rows, ids, reg, routeOrder); exists i :: 0 <= i < |tasks| && tasks[i].id == id
    {
      var task := ToTask(id, t.rows[id], SrvEntity(reg, false, t.rows[id].srvId, routeOrder));
      JoinSource(t.rows, ids, reg, routeOrder, task);
      assert task in Join(t.rows, ids, reg, routeOrder);
    }

    static lemma TimeoutMeaning(t: TaskTab, cursor: nat, now: int, ids: seq<nat>, reg: Tables, routeOrder: seq<nat>)
      requires Valid(reg) && Enumerates(routeOrder, reg.routes.Keys)
      requires forall id :: id in ids ==> id in t.rows && DueAfter(t, cursor, now, id)
      ensures var r := Timeout(t.rows, ids, reg, routeOrder);
        && (r.Failure? <==> SomeRowRefused(t, ids, reg))
        && (r.Success? ==> forall i :: 0 <= i < |r.value.0| ==> HandsOver(t, cursor, now, reg, r.value.0[i]))
        && (r.Success? ==> HandsOverAll(t, ids, reg, r.value.0))
    {
      var tasks := Join(t.rows, ids, reg, routeOrder);
      forall i | 0 <= i < |tasks|
        ensures HandsOver(t, cursor, now, reg, tasks[i])
      {
        JoinedIsHandedOver(t, cursor, now, ids, reg, routeOrder, tasks[i]);
      }
      forall id | id in ids && LiveSrv(reg, t.rows[id].srvId)
        ensures exists i :: 0 <= i < |tasks| && tasks[i].id == id
      {
        EachIsJoined(t, ids, reg, routeOrder, id);
      }
    }

    static lemma MapServes(reg: Tables, srvIds: seq<nat>, srvOrder: seq<nat>, routeOrder: seq<nat>, srvs: seq<Srv>,
                           byId: map<nat, Srv>, row: TaskRow)
      requires Scans(reg, srvOrder, routeOrder) && srvs == Select(reg, ByIds(srvIds), srvOrder, routeOrder)
      requires forall s :: s in byId ==> byId[s] in srvs && byId[s].id == s
      requires forall i :: 0 <= i < |srvs| ==> srvs[i].id in byId
      requires row.srvId in srvIds
      ensures ServesRow(reg, routeOrder, byId, row)
    {
      var ids := PageIds(reg, ByIds(srvIds), srvOrder);
      ByIdsLosesNone(reg, srvIds, srvOrder, row.srvId);
      if row.srvId in byId {
        var i :| 0 <= i < |srvs| && srvs[i] == byId[row.srvId];
        assert ids[i] == row.srvId && ids[i] in ids;
      }
      if LiveSrv(reg, row.srvId) {
        var i :| 0 <= i < |ids| && ids[i] == row.srvId;
        assert srvs[i].id == row.srvId;
      }
    }

    /**
     LockTask: `now` and `nowForNext` are its two clock readings. The run number goes up in the returned task even when
     the log insert then fails.
     */
    method LockTask(task: Task, now: int, nowForNext: int, cronNext: Option<int>, logNow: int)
      returns (r: Result<bool, TaskError>, after: Task)
      modifies this, logRepo
      ensures GetSchedNextAt(task.sched, nowForNext, cronNext).None? ==>
        r == Failure(InvalidSchedule) && Tab() == old(Tab()) && after == task
      ensures GetSchedNextAt(task.sched, nowForNext, cronNext).Some? ==>
        Tab() == CasLock(old(Tab()), task.id, task.lastRunAt, task.runTimes, now,
            GetSchedNextAt(task.sched, nowForNext, cronNext).value)
      ensures var won := GetSchedNextAt(task.sched, nowForNext, cronNext).Some?
                && CasMatches(old(Tab()), task.id, task.lastRunAt, task.runTimes);
        && after == (if won then task.(runTimes := task.runTimes + 1) else task)
        && logRepo.logs == (if won then Apply(old(logRepo.logs),
            Started(LogKey(task.id, task.runTimes + 1), task.srv.id, logNow))
                            else old(logRepo.logs))
        && (GetSchedNextAt(task.sched, nowForNext, cronNext).Some? ==>
              r == if !won then Success(false)
                   else if LogKey(task.id, task.runTimes + 1) in old(logRepo.logs) then Failure(LogInsertFailed)
                   else Success(true))
        && (!won ==> Tab() == old(Tab()))
        && (won ==> rows == old(rows)[task.id := old(rows)[task.id].(lastRunAt := now, runTimes := task.runTimes + 1,
                      plan := GetSchedNextAt(task.sched, nowForNext, cronNext).value)])
        && (won && LogKey(task.id, task.runTimes + 1) !in old(logRepo.logs) ==>
              logRepo.logs == old(logRepo.logs)[LogKey(task.id, task.runTimes + 1) :=
                LogRow(1, logNow, 0, task.srv.id, false, "")])
    {
      after := task;
      var schedNextAt := GetSchedNextAt(task.sched, nowForNext, cronNext);
      if schedNextAt.None? {
        return Failure(InvalidSchedule), after;
      }
      if task.id !in rows || rows[task.id].deleted
        || rows[task.id].lastRunAt != task.lastRunAt || rows[task.id].runTimes != task.runTimes {
        return Success(false), after;
      }
      rows := rows[task.id := rows[task.id].(lastRunAt := now, runTimes := rows[task.id].runTimes + 1,
          plan := schedNextAt.value)];
      after := task.(runTimes := task.runTimes + 1);
      var ok := logRepo.SaveTaskStartedLog(LogKey(after.id, after.runTimes), after.srv.id, logNow);
      if !ok {
        return Failure(LogInsertFailed), after;
      }
      return Success(true), after;
    }

    /** ConfirmTask: the statement on the task row may fail, and then the log is not reached. */
    method ConfirmTask(key: LogKey, status: Status, extra: string, rowUpdateOk: bool, now: int)
      returns (failed: Option<TaskError>)
      modifies logRepo
      ensures failed.Some? <==> IsTerminal(status) && !rowUpdateOk
      ensures logRepo.logs ==
        if failed.Some? then old(logRepo.logs) else Apply(old(logRepo.logs), Confirmed(key, status, extra, now))
    {
      if status == StatusSuccess && !rowUpdateOk {
        return Some(UpdateFailed);
      }
      if status == StatusFailed && !rowUpdateOk {
        return Some(UpdateFailed);
      }
      logRepo.SaveTaskConfirmedLog(key, status, extra, now);
      return None;
    }

    /**
     One turn of a worker on a task it received, with no other party in between: `answer` is what the callback
     returned or left behind, `callbackFailed` whether the request itself failed, `t0`..`t4` the clock readings.
     */
    method WorkerTurn(task: Task, t0: int, t1: int, t2: int, t3: int, t4: int, cronNext: Option<int>,
                      answer: Answer, callbackFailed: bool, rowUpdateOk: bool)
      returns (called: bool)
      modifies this, logRepo
      ensures called <==>
        && task.srv.routes != []
        && GetSchedNextAt(task.sched, t1, cronNext).Some?
        && CasMatches(old(Tab()), task.id, task.lastRunAt, task.runTimes)
        && LogKey(task.id, task.runTimes + 1) !in old(logRepo.logs)
      ensures Tab() == match GetSchedNextAt(task.sched, t1, cronNext)
        case Some(next) =>
          if task.srv.routes == [] then old(Tab())
          else CasLock(old(Tab()), task.id, task.lastRunAt, task.runTimes, t0, next)
        case None => old(Tab())
      ensures !called ==> logRepo.logs == old(logRepo.logs)
      ensures called ==>
        var key, zero := LogKey(task.id, task.runTimes + 1), LogKey(task.id, 0);
        && key in logRepo.logs
        && logRepo.logs[key] == RowAfterTurn(task.srv.id, answer, t2, t3, t4,
            !callbackFailed && (rowUpdateOk || !EndsRun(answer)))
        && (zero in logRepo.logs <==> zero in old(logRepo.logs))
        && (zero in old(logRepo.logs) ==>
              if callbackFailed && rowUpdateOk
              then logRepo.logs[zero] == old(logRepo.logs)[zero].(status := 3, endedAt := t4, respExtra := "")
              else logRepo.logs[zero] == old(logRepo.logs)[zero])
        && forall k :: k != key && k != zero ==>
             (k in logRepo.logs <==> k in old(logRepo.logs)) && (k in logRepo.logs ==>
               logRepo.logs[k] == old(logRepo.logs)[k])
    {
      if |task.srv.routes| == 0 {
        return false;
      }
      var locked, mine := LockTask(task, t0, t1, cronNext, t2);
      if locked != Success(true) {
        return false;
      }
      called := true;
      var key := LogKey(mine.id, mine.runTimes);
      logRepo.SaveTaskCallbackLog(key, Classify(answer), answer.isRunInAsync, t3);
      var failed;
      if callbackFailed {
        failed := ConfirmTask(LogKey(mine.id, 0), StatusFailed, "", rowUpdateOk, t4);
      } else {
        failed := ConfirmTask(key, Classify(answer), answer.extra, rowUpdateOk, t4);
      }
    }
  }
}
