/**
 Tasks and their table: the entities of internal/task/task.go, the row shapes and conversions of
 internal/task/impl/repo/mysql/data_model.go, and the statements of internal/task/impl/repo/mysql/task_repo.go.
 */
module TaskTables {
  import opened Wrappers
  import opened Selections
  import opened SrvTables
  import opened SrvQueries

  // ---------------------------------------------------------------- schedule modes and next times

  datatype SchedMode = ModeNil | TimeCron | TimeSpec | TimeInterval

  const DB_TIME_SPEC := 1
  const DB_TIME_CRON := 2
  const DB_TIME_INTERVAL := 3

  const MAX_INT := 0x7FFF_FFFF_FFFF_FFFF

  function ToDbMode(m: SchedMode): Option<int> {
    match m
    case TimeCron => Some(DB_TIME_CRON)
    case TimeSpec => Some(DB_TIME_SPEC)
    case TimeInterval => Some(DB_TIME_INTERVAL)
    case ModeNil => None
  }

  function ToEntityMode(d: int): Option<SchedMode> {
    if d == DB_TIME_CRON then Some(TimeCron)
    else if d == DB_TIME_SPEC then Some(TimeSpec)
    else if d == DB_TIME_INTERVAL then Some(TimeInterval)
    else None
  }

  /**
   The two numberings differ, yet a mode survives the trip to the database and back, and nothing else gets in or out.
   */
  lemma ModeRoundTrip(m: SchedMode, d: int)
    ensures ToDbMode(m) == Some(d) <==> ToEntityMode(d) == Some(m)
    ensures ToDbMode(m) == Some(d) ==> if d == 1 then m == TimeSpec else if d == 2 then m == TimeCron else d == 3
  {
  }

  datatype Sched = Sched(mode: SchedMode, cronExpr: string, intervalSec: int, specAt: int)

  /** The cron expressions that parse, each with its firing instants. */
  type Calendar = imap<string, iset<int>>

  ghost predicate NextInstant(fires: iset<int>, t: int, f: int) {
    f in fires && t < f && forall g :: g in fires && t < g ==> f <= g
  }

  /** What parsing the expression and asking for the next instant yields: None is a parse error. */
  ghost predicate CronAnswer(cal: Calendar, expr: string, now: int, answer: Option<int>) {
    if expr in cal then answer.Some? && NextInstant(cal[expr], now, answer.value) else answer == None
  }

  /** GetSchedNextAt; `cronNext` is the answer of the cron library at `now`. */
  function GetSchedNextAt(s: Sched, now: int, cronNext: Option<int>): Option<int> {
    match s.mode
    case TimeInterval => Some(now + s.intervalSec)
    case TimeCron => cronNext
    case TimeSpec => Some(s.specAt)
    case ModeNil => None
  }

  /** `next` is a planned time computed at `now`: what the three modes promise. */
  ghost predicate PlannedAt(cal: Calendar, s: Sched, now: int, next: int) {
    && s.mode != ModeNil
    && (s.mode == TimeInterval ==> next == now + s.intervalSec)
    && (s.mode == TimeCron ==> s.cronExpr in cal && NextInstant(cal[s.cronExpr], now, next))
    && (s.mode == TimeSpec ==> next == s.specAt)
  }

  lemma NextAtMeaning(cal: Calendar, s: Sched, now: int, cronNext: Option<int>)
    requires CronAnswer(cal, s.cronExpr, now, cronNext)
    ensures GetSchedNextAt(s, now, cronNext).None? <==> s.mode == ModeNil || (s.mode == TimeCron && s.cronExpr !in cal)
    ensures forall next :: GetSchedNextAt(s, now, cronNext) == Some(next) <==> PlannedAt(cal, s, now, next)
  {
    if s.mode == TimeCron && s.cronExpr in cal {
      forall next | NextInstant(cal[s.cronExpr], now, next)
        ensures next == cronNext.value
      {
        assert next in cal[s.cronExpr] && cronNext.value in cal[s.cronExpr];
      }
    }
  }

  // ---------------------------------------------------------------- rows and entities

  datatype TaskKey = TaskKey(name: string, bizId: string)

  datatype TaskRow = TaskRow(
    key: TaskKey, arg: string, callbackPath: string, srvId: nat,
    dbMode: int, cronExpr: string, intervalSec: int,
    plan: int, lastRunAt: int, runTimes: nat, allow: int, deleted: bool)

  /** `byKey` is the unique (name, biz_id) index; it covers deleted rows. */
  datatype TaskTab = TaskTab(rows: map<nat, TaskRow>, byKey: map<TaskKey, nat>, nextId: nat)

  const NO_TASKS := TaskTab(map[], map[], 1)

  datatype Task = Task(
    id: nat, key: TaskKey, arg: string, callbackPath: string, srv: Srv,
    runTimes: nat, lastRunAt: int, allow: int, sched: Sched)

  /** What the API hands to AddTask. */
  datatype AddReq = AddReq(key: TaskKey, arg: string, callbackPath: string, srvId: nat, sched: Sched)

  /** NewTask accepts only named tasks with a schedule mode. */
  predicate RowOk(row: TaskRow) {
    row.key.name != "" && ToEntityMode(row.dbMode).Some?
  }

  ghost predicate ValidTasks(t: TaskTab) {
    && 0 < t.nextId
    && (forall i :: i in t.rows ==> TaskIndexed(t, i))
    && (forall k :: k in t.byKey ==> t.byKey[k] in t.rows && t.rows[t.byKey[k]].key == k)
  }

  ghost predicate TaskIndexed(t: TaskTab, i: nat)
    requires i in t.rows
  {
    0 < i < t.nextId && RowOk(t.rows[i]) && t.rows[i].key in t.byKey && t.byKey[t.rows[i].key] == i
  }

  /** The schedule that a row stands for; a one-shot task is planned at its own time. */
  function RowSched(row: TaskRow): Sched {
    Sched(if ToEntityMode(row.dbMode).Some? then ToEntityMode(row.dbMode).value else ModeNil,
          row.cronExpr, row.intervalSec, if row.dbMode == DB_TIME_SPEC then row.plan else 0)
  }

  function ToTask(id: nat, row: TaskRow, srv: Srv): Task {
    Task(id, row.key, row.arg, row.callbackPath, srv, row.runTimes, row.lastRunAt, row.allow, RowSched(row))
  }

  /** The task says what the row says; only a one-shot task has a time of its own, and that is the row's plan. */
  predicate IsCopyOf(task: Task, row: TaskRow) {
    && task.key == row.key && task.arg == row.arg && task.callbackPath == row.callbackPath
    && task.runTimes == row.runTimes && task.lastRunAt == row.lastRunAt && task.allow == row.allow
    && task.sched.mode == (match ToEntityMode(row.dbMode) case Some(m) => m case None => ModeNil)
    && task.sched.cronExpr == row.cronExpr && task.sched.intervalSec == row.intervalSec
    && task.sched.specAt == (if row.dbMode == 1 then row.plan else 0)
    && task.srv.id == row.srvId
  }

  // ---------------------------------------------------------------- the statements

  function AllowFor(m: SchedMode): int {
    if m == TimeSpec then 1 else MAX_INT
  }

  function NewRow(req: AddReq, dbMode: int, next: int): TaskRow {
    TaskRow(req.key, req.arg, req.callbackPath, req.srvId, dbMode, req.sched.cronExpr, req.sched.intervalSec,
            next, 0, 0, AllowFor(req.sched.mode), false)
  }

  /** INSERT; None when the unique index refuses it. */
  function Insert(t: TaskTab, row: TaskRow): Option<(TaskTab, nat)> {
    if row.key in t.byKey then None
    else Some((TaskTab(t.rows[t.nextId := row], t.byKey[row.key := t.nextId], t.nextId + 1), t.nextId))
  }

  /** Whether AddTask gives an existing row a fresh one-shot budget, judged on the row it read. */
  predicate Bumps(readRow: TaskRow, dbMode: int, next: int) {
    dbMode == DB_TIME_SPEC && (readRow.dbMode != DB_TIME_SPEC || readRow.plan != next)
  }

  function UpdatedRow(row: TaskRow, req: AddReq, dbMode: int, next: int, bump: bool): TaskRow {
    row.(dbMode := dbMode, cronExpr := req.sched.cronExpr, intervalSec := req.sched.intervalSec, plan := next,
         srvId := req.srvId, callbackPath := req.callbackPath, arg := req.arg, deleted := false,
         allow := if bump then row.runTimes + AllowFor(req.sched.mode) else AllowFor(req.sched.mode))
  }

  function Update(t: TaskTab, id: nat, req: AddReq, dbMode: int, next: int, bump: bool): TaskTab
    requires id in t.rows
  {
    t.(rows := t.rows[id := UpdatedRow(t.rows[id], req, dbMode, next, bump)])
  }

  /** The SELECT of AddTask by the unique (name, biz_id) index, deleted rows included. */
  function FindTask(t: TaskTab, key: TaskKey): Option<(nat, TaskRow)> {
    if key in t.byKey && t.byKey[key] in t.rows then Some((t.byKey[key], t.rows[t.byKey[key]])) else None
  }

  /**
   The write of AddTask after a SELECT that saw `found`: the INSERT, or the UPDATE judged on what was seen. The second
   part is the id that the call returns; an INSERT that the unique index refuses returns no error and no id.
   */
  function WriteTask(t: TaskTab, req: AddReq, dbMode: int, next: int, found: Option<(nat, TaskRow)>): (TaskTab,
                     Option<nat>)
    requires found.Some? ==> found.value.0 in t.rows
  {
    match found
    case None =>
      (match Insert(t, NewRow(req, dbMode, next))
       case None => (t, None)
       case Some(done) => (done.0, Some(done.1)))
    case Some(hit) => (Update(t, hit.0, req, dbMode, next, Bumps(hit.1, dbMode, next)), Some(hit.0))
  }

  /** The row carries the request and its plan, and is live. */
  predicate Carries(row: TaskRow, req: AddReq, next: int) {
    && row.key == req.key && row.arg == req.arg && row.callbackPath == req.callbackPath && row.srvId == req.srvId
    && ToEntityMode(row.dbMode) == Some(req.sched.mode)
    && row.cronExpr == req.sched.cronExpr && row.intervalSec == req.sched.intervalSec && row.plan == next
      && !row.deleted
  }

  /**
   What the write of AddTask does at any time after its SELECT: no id comes back exactly when the SELECT saw nothing and
   another call has added the key since, and then nothing is stored; otherwise the row of the id carries the request.
   */
  lemma WriteTaskStores(t: TaskTab, req: AddReq, dbMode: int, next: int, found: Option<(nat, TaskRow)>)
    requires ValidTasks(t) && ToDbMode(req.sched.mode) == Some(dbMode) && req.key.name != ""
    requires found.Some? ==> found.value.0 in t.rows && t.rows[found.value.0].key == req.key
    ensures var (u, id) := WriteTask(t, req, dbMode, next, found);
      && (id == None <==> found == None && req.key in t.byKey)
      && (id == None ==> u == t)
      && (id.Some? ==> ValidTasks(u) && id.value in u.rows && u.byKey[req.key] == id.value)
      && (id.Some? ==> Carries(u.rows[id.value], req, next))
      && (id.Some? && req.sched.mode != TimeSpec ==> u.rows[id.value].allow == 0x7FFF_FFFF_FFFF_FFFF)
      && (id.Some? && id.value in t.rows ==> u.rows[id.value].runTimes == t.rows[id.value].runTimes)
      && (forall o :: Some(o) != id ==> (o in u.rows <==> o in t.rows) && (o in t.rows ==> u.rows[o] == t.rows[o]))
  {
    ModeRoundTrip(req.sched.mode, dbMode);
    if found.Some? {
      assert TaskIndexed(t, found.value.0);
      UpdateValid(t, found.value.0, req, dbMode, next, Bumps(found.value.1, dbMode, next));
    } else if req.key !in t.byKey {
      InsertValid(t, NewRow(req, dbMode, next));
    }
  }

  /** The WHERE clause of LockTask. */
  predicate CasMatches(t: TaskTab, id: nat, lastRunAt: int, runTimes: nat) {
    id in t.rows && !t.rows[id].deleted && t.rows[id].lastRunAt == lastRunAt && t.rows[id].runTimes == runTimes
  }

  function CasLock(t: TaskTab, id: nat, lastRunAt: int, runTimes: nat, now: int, next: int): TaskTab {
    if CasMatches(t, id, lastRunAt, runTimes) then
      t.(rows := t.rows[id := t.rows[id].(lastRunAt := now, runTimes := t.rows[id].runTimes + 1, plan := next)])
    else t
  }

  function SoftDelete(t: TaskTab, id: nat): TaskTab {
    if id in t.rows then t.(rows := t.rows[id := t.rows[id].(deleted := true)]) else t
  }

  predicate Due(row: TaskRow, now: int) {
    !row.deleted && row.runTimes < row.allow && row.plan <= now
  }

  predicate DueAfter(t: TaskTab, cursor: nat, now: int, id: nat) {
    id in t.rows && cursor < id && Due(t.rows[id], now)
  }

  function DueBy(t: TaskTab, cursor: nat, now: int): nat -> bool {
    (id: nat) => DueAfter(t, cursor, now, id)
  }

  function AllDue(t: TaskTab, cursor: nat, now: int): (ids: seq<nat>)
    ensures forall id :: id in ids <==> DueAfter(t, cursor, now, id)
  {
    Filter(Ascending(t.rows.Keys), DueBy(t, cursor, now))
  }

  /** The due-row SELECT: by ascending id, at most `size` rows. */
  function DuePage(t: TaskTab, cursor: nat, now: int, size: nat): (ids: seq<nat>)
    ensures |ids| <= size && forall id :: id in ids ==> DueAfter(t, cursor, now, id)
  {
    Page(AllDue(t, cursor, now), size, 0)
  }

  // ---------------------------------------------------------------- TimeoutTasks

  datatype TaskError = InvalidSchedule | BadRow | LogInsertFailed | UpdateFailed

  /** The plain join of some rows with the live servers and their live routes, in row order. */
  function Join(rows: map<nat, TaskRow>, ids: seq<nat>, reg: Tables, routeOrder: seq<nat>): (tasks: seq<Task>)
    requires forall id :: id in ids ==> id in rows
    ensures |tasks| <= |ids|
  {
    if ids == [] then []
    else
      var front, last := ids[..|ids| - 1], ids[|ids| - 1];
      assert last in ids;
      Join(rows, front, reg, routeOrder) +
      if LiveSrv(reg, rows[last].srvId) then
        [ToTask(last, rows[last], SrvEntity(reg, false, rows[last].srvId, routeOrder))]
      else []
  }

  predicate JoinedRowsOk(rows: map<nat, TaskRow>, ids: seq<nat>, reg: Tables)
    requires forall id :: id in ids ==> id in rows
  {
    forall id :: id in ids && LiveSrv(reg, rows[id].srvId) ==> RowOk(rows[id])
  }

  /** The cursor after a page: the last joined id, or 0 for the empty string. */
  function NextCursor(tasks: seq<Task>): nat {
    if tasks == [] then 0 else tasks[|tasks| - 1].id
  }

  /** TimeoutTasks over the rows that its SELECT returned. */
  function Timeout(rows: map<nat, TaskRow>, ids: seq<nat>, reg: Tables, routeOrder: seq<nat>): Result<(seq<Task>,
                   nat), TaskError>
    requires forall id :: id in ids ==> id in rows
  {
    if !JoinedRowsOk(rows, ids, reg) then Failure(BadRow)
    else
      var tasks := Join(rows, ids, reg, routeOrder);
      Success((tasks, NextCursor(tasks)))
  }

  /**
   Where a joined task comes from: it is the copy of one of the rows, column by column, with that row's live server as
   the queries return it, and each such copy is there.
   */
  lemma {:induction false} JoinSource(rows: map<nat, TaskRow>, ids: seq<nat>, reg: Tables, routeOrder: seq<nat>,
                                      task: Task)
    requires forall id :: id in ids ==> id in rows
    ensures task in Join(rows, ids, reg, routeOrder) <==>
      task.id in ids && LiveSrv(reg, rows[task.id].srvId) && IsCopyOf(task, rows[task.id])
      && task.srv == SrvEntity(reg, false, rows[task.id].srvId, routeOrder)
  {
    if ids != [] {
      var front, last := ids[..|ids| - 1], ids[|ids| - 1];
      assert ids == front + [last];
      JoinSource(rows, front, reg, routeOrder, task);
    }
  }

  // ---------------------------------------------------------------- what the statements keep

  lemma InsertValid(t: TaskTab, row: TaskRow)
    requires ValidTasks(t) && RowOk(row) && Insert(t, row).Some?
    ensures ValidTasks(Insert(t, row).value.0) && Insert(t, row).value.1 !in t.rows
  {
    assert forall i :: i in t.rows ==> TaskIndexed(t, i);
  }

  lemma UpdateValid(t: TaskTab, id: nat, req: AddReq, dbMode: int, next: int, bump: bool)
    requires ValidTasks(t) && id in t.rows && ToEntityMode(dbMode).Some?
    ensures ValidTasks(Update(t, id, req, dbMode, next, bump))
  {
    assert TaskIndexed(t, id);
  }

  lemma LockAndStopValid(t: TaskTab, id: nat, lastRunAt: int, runTimes: nat, now: int, next: int)
    requires ValidTasks(t)
    ensures ValidTasks(CasLock(t, id, lastRunAt, runTimes, now, next)) && ValidTasks(SoftDelete(t, id))
  {
    if id in t.rows {
      assert TaskIndexed(t, id);
    }
  }

  /** Reviving a stopped row keeps its id, its key, its run counter and its last run. */
  lemma ReviveKeepsRuns(t: TaskTab, id: nat, req: AddReq, dbMode: int, next: int, bump: bool)
    requires ValidTasks(t) && id in t.rows && t.byKey[t.rows[id].key] == id
    ensures var u := Update(SoftDelete(t, id), id, req, dbMode, next, bump);
      && u.byKey == t.byKey && !u.rows[id].deleted && u.rows[id].key == t.rows[id].key
      && u.rows[id].runTimes == t.rows[id].runTimes && u.rows[id].lastRunAt == t.rows[id].lastRunAt
      && (forall o :: o != id ==> (o in u.rows <==> o in t.rows) && (o in t.rows ==> u.rows[o] == t.rows[o]))
  {
  }

  /**
   Adding a one-shot task that already exists does not always make it run again: the row can be due at some time
   afterwards exactly when the mode or the plan of the row that the SELECT saw differs, or the row written has never
   run.
   */
  lemma OneShotReAddRunsAgainIff(readRow: TaskRow, row: TaskRow, req: AddReq)
    requires req.sched.mode == TimeSpec
    ensures var next := req.sched.specAt;
      var after := UpdatedRow(row, req, DB_TIME_SPEC, next, Bumps(readRow, DB_TIME_SPEC, next));
      (exists now :: Due(after, now)) <==> readRow.dbMode != DB_TIME_SPEC || readRow.plan != next || row.runTimes == 0
  {
    var next := req.sched.specAt;
    var after := UpdatedRow(row, req, DB_TIME_SPEC, next, Bumps(readRow, DB_TIME_SPEC, next));
    assert after.runTimes < after.allow ==> Due(after, after.plan);
  }

  /** What one would expect of every row: it has run no more often than it may. */
  predicate WithinAllowance(row: TaskRow) {
    row.runTimes <= row.allow
  }

  /**
   An update leaves the row within its allowance exactly when it is not one-shot, gives fresh budget, or one run is
   all there was.
   */
  lemma UpdateWithinAllowanceIff(readRow: TaskRow, row: TaskRow, req: AddReq, dbMode: int, next: int)
    requires ToDbMode(req.sched.mode) == Some(dbMode) && row.runTimes <= MAX_INT
    ensures WithinAllowance(UpdatedRow(row, req, dbMode, next, Bumps(readRow, dbMode, next)))
      <==> dbMode != DB_TIME_SPEC || Bumps(readRow, dbMode, next) || row.runTimes <= 1
  {
  }

  /** A lock that wins leaves the row within its allowance exactly when budget was left; the statement does not ask. */
  lemma LockWithinAllowanceIff(t: TaskTab, id: nat, lastRunAt: int, runTimes: nat, now: int, next: int)
    requires CasMatches(t, id, lastRunAt, runTimes)
    ensures WithinAllowance(CasLock(t, id, lastRunAt, runTimes, now, next).rows[id]) <==>
        t.rows[id].runTimes < t.rows[id].allow
  {
  }

  /** The smallest failure: a one-shot task that ran, was stopped, and is added again for the same time. */
  lemma StoppedOneShotStaysDone(now: int)
    ensures var key := TaskKey("once", "");
      var req := AddReq(key, "", "", 1, Sched(TimeSpec, "", 0, 100));
      var ran := TaskRow(key, "", "", 1, DB_TIME_SPEC, "", 0, 100, 101, 1, 1, true);
      var after := UpdatedRow(ran, req, DB_TIME_SPEC, 100, Bumps(ran, DB_TIME_SPEC, 100));
      !after.deleted && !Due(after, now)
  {
  }
}
