/**
 The per-run log: internal/task/impl/repo/mysql/task_log_repo.go and the status classification of
 internal/task/task.go and internal/task/impl/callback/http.go. Three parties write one row in any order:
 the worker that starts the run, the deferred callback log, and the confirmations of worker and API.
 */
module RunLog {
  import opened Wrappers

  datatype Status = StatusNil | StatusReady | StatusRunning | StatusSuccess | StatusFailed

  const DB_RUNNING := 1
  const DB_SUCCESS := 2
  const DB_FAILED := 3

  predicate IsTerminal(s: Status) {
    s == StatusSuccess || s == StatusFailed
  }

  function DbTerminal(s: Status): int
    requires IsTerminal(s)
  {
    if s == StatusSuccess then DB_SUCCESS else DB_FAILED
  }

  /** The callback's answer; a request that fails leaves whatever was decoded, at worst the zero value. */
  datatype Answer = Answer(isSuccess: bool, isRunInAsync: bool, extra: string)

  /** Used twice by the program: for the deferred callback log and for the worker's confirmation. */
  function Classify(a: Answer): Status {
    if a.isSuccess then StatusSuccess else if a.isRunInAsync then StatusRunning else StatusFailed
  }

  /** The unique (task_id, run_times) index is the key of the log table. */
  datatype LogKey = LogKey(taskId: nat, run: int)

  datatype LogRow = LogRow(status: int, startedAt: int, endedAt: int, srvId: nat, isRunInAsync: bool, respExtra: string)

  type Logs = map<LogKey, LogRow>

  /** The columns an UPDATE sets. */
  datatype LogUpdate = LogUpdate(status: Option<int>, endedAt: Option<int>, isRunInAsync: Option<bool>,
      respExtra: Option<string>)

  function Updated(row: LogRow, u: LogUpdate): LogRow {
    row.(status := if u.status.Some? then u.status.value else row.status,
         endedAt := if u.endedAt.Some? then u.endedAt.value else row.endedAt,
         isRunInAsync := if u.isRunInAsync.Some? then u.isRunInAsync.value else row.isRunInAsync,
         respExtra := if u.respExtra.Some? then u.respExtra.value else row.respExtra)
  }

  /** UPDATE .. WHERE task_id = ? AND run_times = ? touches at most the one row of the key. */
  function UpdateLog(logs: Logs, key: LogKey, u: LogUpdate): Logs {
    if key in logs then logs[key := Updated(logs[key], u)] else logs
  }

  datatype LogOp =
    | Started(key: LogKey, srvId: nat, at: int)
    | CalledBack(key: LogKey, status: Status, isRunInAsync: bool, at: int)
    | Confirmed(key: LogKey, status: Status, respExtra: string, at: int)

  function UpdateOf(op: LogOp): LogUpdate
    requires !op.Started?
  {
    var status := if IsTerminal(op.status) then Some(DbTerminal(op.status)) else None;
    match op
    case CalledBack(_, s, isAsync, at) =>
      LogUpdate(status, if IsTerminal(s) then Some(at) else None, Some(isAsync), None)
    case Confirmed(_, s, extra, at) =>
      LogUpdate(status, Some(at), None, Some(extra))
  }

  /** One statement on the log table; an insert of an existing key is refused. */
  function Apply(logs: Logs, op: LogOp): Logs {
    match op
    case Started(key, srvId, at) =>
      if key in logs then logs else logs[key := LogRow(DB_RUNNING, at, 0, srvId, false, "")]
    case _ => UpdateLog(logs, op.key, UpdateOf(op))
  }

  function Replay(ops: seq<LogOp>): Logs {
    if ops == [] then map[] else Apply(Replay(ops[..|ops| - 1]), ops[|ops| - 1])
  }

  // ---------------------------------------------------------------- the columns and their history

  datatype Column = StatusColumn | EndedColumn | AsyncColumn | ExtraColumn

  /** The statements that set a column of a row that is there. */
  predicate Sets(op: LogOp, col: Column) {
    match op
    case Started(_, _, _) => false
    case CalledBack(_, status, _, _) =>
      col.AsyncColumn? || (IsTerminal(status) && (col.StatusColumn? || col.EndedColumn?))
    case Confirmed(_, status, _, _) => col.EndedColumn? || col.ExtraColumn? || (IsTerminal(status) && col.StatusColumn?)
  }

  predicate StartsAt(ops: seq<LogOp>, i: int, key: LogKey) {
    0 <= i < |ops| && ops[i].Started? && ops[i].key == key
  }

  ghost predicate FirstStart(ops: seq<LogOp>, i: int, key: LogKey) {
    StartsAt(ops, i, key) && forall k :: StartsAt(ops, k, key) ==> i <= k
  }

  predicate SetsAt(ops: seq<LogOp>, j: int, key: LogKey, col: Column) {
    0 <= j < |ops| && ops[j].key == key && Sets(ops[j], col)
  }

  /** A statement reached the row when the row existed by then. */
  ghost predicate Reached(ops: seq<LogOp>, j: int, key: LogKey, col: Column) {
    SetsAt(ops, j, key, col) && exists i :: StartsAt(ops, i, key) && i < j
  }

  ghost predicate LastReach(ops: seq<LogOp>, j: int, key: LogKey, col: Column) {
    Reached(ops, j, key, col) && forall k :: Reached(ops, k, key, col) ==> k <= j
  }

  ghost predicate NeverReached(ops: seq<LogOp>, key: LogKey, col: Column) {
    forall j :: !Reached(ops, j, key, col)
  }

  /** What the column shows after a statement that sets it; a status is 2 for success and 3 for failure. */
  predicate Shows(row: LogRow, op: LogOp, col: Column)
    requires Sets(op, col)
  {
    match col
    case StatusColumn => row.status == if op.status == StatusSuccess then 2 else 3
    case EndedColumn => row.endedAt == op.at
    case AsyncColumn => row.isRunInAsync == op.isRunInAsync
    case ExtraColumn => row.respExtra == op.respExtra
  }

  /** What it shows until then: running, not ended, not asynchronous, no extra. */
  predicate ShowsNothing(row: LogRow, col: Column) {
    match col
    case StatusColumn => row.status == 1
    case EndedColumn => row.endedAt == 0
    case AsyncColumn => !row.isRunInAsync
    case ExtraColumn => row.respExtra == ""
  }

  lemma StartsGrow(ops: seq<LogOp>, op: LogOp, key: LogKey)
    ensures forall i :: StartsAt(ops + [op], i, key) <==>
      StartsAt(ops, i, key) || (i == |ops| && op.Started? && op.key == key)
  {
  }

  lemma ReachedGrows(ops: seq<LogOp>, op: LogOp, key: LogKey, col: Column)
    ensures var more := ops + [op];
      && (forall j :: j < |ops| ==> (Reached(more, j, key, col) <==> Reached(ops, j, key, col)))
      && (Reached(more, |ops|, key, col) <==> op.key == key && Sets(op, col) && exists i :: StartsAt(ops, i, key))
  {
    var more := ops + [op];
    StartsGrow(ops, op, key);
    forall j | j < |ops|
      ensures Reached(more, j, key, col) <==> Reached(ops, j, key, col)
    {
      if i :| StartsAt(ops, i, key) && i < j {
        assert StartsAt(more, i, key);
      }
      if i :| StartsAt(more, i, key) && i < j {
        assert StartsAt(ops, i, key);
      }
    }
    if i :| StartsAt(ops, i, key) {
      assert StartsAt(more, i, key) && i < |ops|;
    }
  }

  /** A row exists exactly when its run was started. */
  lemma {:induction false} RowIsStarted(ops: seq<LogOp>, key: LogKey)
    ensures key in Replay(ops) <==> exists i :: StartsAt(ops, i, key)
  {
    if ops != [] {
      var front, op := ops[..|ops| - 1], ops[|ops| - 1];
      assert ops == front + [op];
      RowIsStarted(front, key);
      StartsGrow(front, op, key);
      if i :| StartsAt(front, i, key) {
        assert StartsAt(ops, i, key);
      }
      if op.Started? && op.key == key {
        assert StartsAt(ops, |front|, key);
      }
    }
  }

  /** A row keeps the time and the server of the first start. */
  lemma {:induction false} RowIsFirstStart(ops: seq<LogOp>, key: LogKey, i: nat)
    requires FirstStart(ops, i, key)
    ensures key in Replay(ops) && Replay(ops)[key].startedAt == ops[i].at && Replay(ops)[key].srvId == ops[i].srvId
  {
    var front, op := ops[..|ops| - 1], ops[|ops| - 1];
    assert ops == front + [op];
    StartsGrow(front, op, key);
    RowIsStarted(front, key);
    if i < |front| {
      assert FirstStart(front, i, key);
      RowIsFirstStart(front, key, i);
    }
  }

  lemma {:induction false} SomeFirstStart(ops: seq<LogOp>, key: LogKey) returns (i: nat)
    requires exists k :: StartsAt(ops, k, key)
    ensures FirstStart(ops, i, key)
  {
    i :| StartsAt(ops, i, key);
    if k :| StartsAt(ops, k, key) && k < i {
      var front := ops[..i];
      assert StartsAt(front, k, key);
      i := SomeFirstStart(front, key);
      assert StartsAt(ops, i, key) && forall m :: StartsAt(ops, m, key) && m < |front| ==> StartsAt(front, m, key);
    }
  }

  /**
   In any order of started, callback and confirmation statements every column of a row shows what the last statement
   that sets it said, among those that found the row, and its first value when there was none.
   */
  lemma {:induction false} ColumnIsLastReport(ops: seq<LogOp>, key: LogKey, col: Column)
    requires key in Replay(ops)
    ensures NeverReached(ops, key, col) ==> ShowsNothing(Replay(ops)[key], col)
    ensures forall j :: LastReach(ops, j, key, col) ==> Shows(Replay(ops)[key], ops[j], col)
  {
    var front, op := ops[..|ops| - 1], ops[|ops| - 1];
    assert ops == front + [op];
    ReachedGrows(front, op, key, col);
    RowIsStarted(front, key);
    if key in Replay(front) {
      ColumnIsLastReport(front, key, col);
      assert NeverReached(ops, key, col) ==> NeverReached(front, key, col);
    }
    forall j | LastReach(ops, j, key, col)
      ensures Shows(Replay(ops)[key], ops[j], col)
    {
      if j < |front| {
        assert LastReach(front, j, key, col);
      }
    }
  }

  /** Reports for other keys never touch a row, and a finished row never becomes running again. */
  lemma ApplyFrame(logs: Logs, op: LogOp, key: LogKey)
    requires key in logs
    ensures key in Apply(logs, op)
    ensures key != op.key ==> Apply(logs, op)[key] == logs[key]
    ensures logs[key].status in {DB_SUCCESS, DB_FAILED} ==> Apply(logs, op)[key].status in {DB_SUCCESS, DB_FAILED}
    ensures op.Started? ==> Apply(logs, op)[key] == logs[key]
  {
  }

  /** The last report wins even over an API confirmation: a failed answer that comes later turns the row to failed. */
  lemma LateFailureOverwritesSuccess(key: LogKey)
    ensures var ops := [Started(key, 1, 0), Confirmed(key, StatusSuccess, "", 1),
                        CalledBack(key, Classify(Answer(false, false, "")), false, 2)];
      key in Replay(ops) && Replay(ops)[key].status == DB_FAILED
  {
    var ops := [Started(key, 1, 0), Confirmed(key, StatusSuccess, "", 1),
                CalledBack(key, Classify(Answer(false, false, "")), false, 2)];
    assert StartsAt(ops, 0, key);
    assert LastReach(ops, 2, key, StatusColumn);
    RowIsStarted(ops, key);
    ColumnIsLastReport(ops, key, StatusColumn);
  }

  /** The status column by number: a report that is neither success nor failure leaves it as it is. */
  function StatusAfter(before: int, status: Status): int {
    match status
    case StatusSuccess => 2
    case StatusFailed => 3
    case _ => before
  }

  /** The end time of a callback log is that of a success or a failure only. */
  function AfterCallback(row: LogRow, status: Status, isRunInAsync: bool, at: int): LogRow {
    row.(status := StatusAfter(row.status, status), isRunInAsync := isRunInAsync,
         endedAt := if status == StatusSuccess || status == StatusFailed then at else row.endedAt)
  }

  /** A confirmation sets the end time whatever it reports, also for a run that goes on. */
  function AfterConfirmation(row: LogRow, status: Status, respExtra: string, at: int): LogRow {
    row.(status := StatusAfter(row.status, status), endedAt := at, respExtra := respExtra)
  }

  /** The answer ends the run: a success, or a refusal to go on in the background. */
  predicate EndsRun(a: Answer) {
    a.isSuccess || !a.isRunInAsync
  }

  /**
   The log row after one turn of a worker that nobody interrupts: inserted at `startedAt`, the callback logged at
   `calledAt`, and confirmed at `confirmedAt` if the confirmation is for this run and comes to the log.
   */
  function RowAfterTurn(srvId: nat, a: Answer, startedAt: int, calledAt: int, confirmedAt: int,
                        confirms: bool): LogRow {
    LogRow(if a.isSuccess then 2 else if a.isRunInAsync then 1 else 3, startedAt,
           if confirms then confirmedAt else if EndsRun(a) then calledAt else 0,
           srvId, a.isRunInAsync, if confirms then a.extra else "")
  }

  class TaskLogRepo {
    var logs: Logs

    constructor ()
      ensures logs == map[]
    {
      logs := map[];
    }

    method SaveTaskStartedLog(key: LogKey, srvId: nat, now: int) returns (ok: bool)
      modifies this
      ensures ok <==> key !in old(logs)
      ensures logs == Apply(old(logs), Started(key, srvId, now))
      ensures logs == if ok then old(logs)[key := LogRow(1, now, 0, srvId, false, "")] else old(logs)
    {
      ok := key !in logs;
      if ok {
        logs := logs[key := LogRow(DB_RUNNING, now, 0, srvId, false, "")];
      }
    }

    method SaveTaskCallbackLog(key: LogKey, status: Status, isRunInAsync: bool, now: int)
      modifies this
      ensures logs == Apply(old(logs), CalledBack(key, status, isRunInAsync, now))
      ensures if key in old(logs)
        then logs == old(logs)[key := AfterCallback(old(logs)[key], status, isRunInAsync, now)]
        else logs == old(logs)
    {
      var updates := LogUpdate(None, None, Some(isRunInAsync), None);
      if status == StatusSuccess {
        updates := updates.(status := Some(DB_SUCCESS));
        updates := updates.(endedAt := Some(now));
      } else if status == StatusFailed {
        updates := updates.(status := Some(DB_FAILED));
        updates := updates.(endedAt := Some(now));
      }
      logs := UpdateLog(logs, key, updates);
    }

    method SaveTaskConfirmedLog(key: LogKey, status: Status, respExtra: string, now: int)
      modifies this
      ensures logs == Apply(old(logs), Confirmed(key, status, respExtra, now))
      ensures if key in old(logs)
        then logs == old(logs)[key := AfterConfirmation(old(logs)[key], status, respExtra, now)]
        else logs == old(logs)
    {
      var updates := LogUpdate(None, Some(now), None, Some(respExtra));
      if status == StatusSuccess {
        updates := updates.(status := Some(DB_SUCCESS));
      } else if status == StatusFailed {
        updates := updates.(status := Some(DB_FAILED));
      }
      logs := UpdateLog(logs, key, updates);
    }
  }
}
