/**
 Run locking over one shared task table. Any number of nodes read due rows, and later, in any order and however
 stale their copy has become, try the compare-and-set of LockTask, while adds and stops go on in between.
 A snapshot may be used any number of times, or never: mastership plays no part.

 The trace records every committed statement. A snapshot is named by the index of the read that took it.
 */
module LockProtocol {
  import opened TaskTables

  datatype Event =
    /** One due-row SELECT: the rows it returned, and the clock reading it compared plans with. */
    | Read(node: nat, page: map<nat, TaskRow>, at: int)
    /** A compare-and-set that updated its row. `at` is stored as last_run_at, `planned` as the next plan. */
    | Won(node: nat, worker: nat, id: nat, run: nat, snap: nat, at: int, planned: int)
    /** An INSERT or UPDATE of AddTask, with the row it left behind. */
    | Added(id: nat, row: TaskRow)
    | Stopped(id: nat)

  type Trace = seq<Event>

  datatype State = State(tab: TaskTab, trace: Trace)

  predicate IsWon(e: Event, id: nat) {
    e.Won? && e.id == id
  }

  predicate IsAdd(e: Event, id: nat) {
    e.Added? && e.id == id
  }

  predicate IsOneShotAdd(e: Event, id: nat) {
    IsAdd(e, id) && e.row.dbMode == DB_TIME_SPEC
  }

  predicate IsRead(e: Event, id: nat) {
    e.Read? && id in e.page
  }

  predicate IsStop(e: Event, id: nat) {
    e.Stopped? && e.id == id
  }

  function WinCount(tr: Trace, id: nat): nat {
    if tr == [] then 0 else WinCount(tr[..|tr| - 1], id) + if IsWon(tr[|tr| - 1], id) then 1 else 0
  }

  function LastRun(tr: Trace, id: nat): int {
    if tr == [] then 0
    else if IsWon(tr[|tr| - 1], id) then tr[|tr| - 1].at
    else LastRun(tr[..|tr| - 1], id)
  }

  function AddCount(tr: Trace, id: nat): nat {
    if tr == [] then 0 else AddCount(tr[..|tr| - 1], id) + if IsAdd(tr[|tr| - 1], id) then 1 else 0
  }

  ghost predicate NoWin(tr: Trace, id: nat, lo: nat, hi: nat) {
    forall k :: lo <= k < hi && k < |tr| ==> !IsWon(tr[k], id)
  }

  ghost predicate NoAdd(tr: Trace, id: nat, lo: nat, hi: nat) {
    forall k :: lo <= k < hi && k < |tr| ==> !IsAdd(tr[k], id)
  }

  /** No win, or no add, of the task after position `k`. */
  ghost predicate NoWinSince(tr: Trace, id: nat, k: nat) {
    NoWin(tr, id, k + 1, |tr|)
  }

  ghost predicate NoAddSince(tr: Trace, id: nat, k: nat) {
    NoAdd(tr, id, k + 1, |tr|)
  }

  // ---------------------------------------------------------------- steps

  ghost predicate Init(s: State) {
    s == State(NO_TASKS, [])
  }

  /** The rows that a SELECT copies out. */
  function Copies(tab: TaskTab, ids: set<nat>): map<nat, TaskRow>
    requires ids <= tab.rows.Keys
  {
    map id | id in ids :: tab.rows[id]
  }

  ghost predicate StepRead(s: State, u: State, node: nat, ids: set<nat>, at: int) {
    && ids <= s.tab.rows.Keys && (forall id :: id in ids ==> Due(s.tab.rows[id], at))
    && u == State(s.tab, s.trace + [Read(node, Copies(s.tab, ids), at)])
  }

  /** A worker of the reading node tries a snapshot; both clock readings come after the read on the same clock. */
  ghost predicate CanTry(cal: Calendar, tr: Trace, node: nat, id: nat, snap: nat, now: int, nowForNext: int,
                         next: int) {
    && snap < |tr| && IsRead(tr[snap], id) && tr[snap].node == node
    && tr[snap].at <= now <= nowForNext
    && PlannedAt(cal, RowSched(tr[snap].page[id]), nowForNext, next)
  }

  /** The compare-and-set that event `e` describes, on the snapshot it names; without a match nothing happens. */
  ghost function TryLock(s: State, e: Event): State
    requires e.Won? && e.snap < |s.trace| && IsRead(s.trace[e.snap], e.id)
  {
    var copy := s.trace[e.snap].page[e.id];
    if CasMatches(s.tab, e.id, copy.lastRunAt, copy.runTimes) then
      State(CasLock(s.tab, e.id, copy.lastRunAt, copy.runTimes, e.at, e.planned), s.trace + [e])
    else s
  }

  ghost predicate StepLock(cal: Calendar, s: State, u: State, node: nat, worker: nat, id: nat, snap: nat, now: int,
                           nowForNext: int, next: int) {
    && CanTry(cal, s.trace, node, id, snap, now, nowForNext, next)
    && u == TryLock(s, Won(node, worker, id, s.trace[snap].page[id].runTimes + 1, snap, now, next))
  }

  ghost predicate AcceptedReq(req: AddReq, dbMode: int) {
    req.key.name != "" && ToDbMode(req.sched.mode).Some? && ToDbMode(req.sched.mode).value == dbMode
  }

  ghost predicate StepInsert(s: State, u: State, req: AddReq, dbMode: int, next: int) {
    && AcceptedReq(req, dbMode)
    && Insert(s.tab, NewRow(req, dbMode, next)).Some?
    && var (tab, id) := Insert(s.tab, NewRow(req, dbMode, next)).value;
    && u == State(tab, s.trace + [Added(id, tab.rows[id])])
  }

  /** The update half of AddTask. `bump` was decided on an earlier read, so here it may be either. */
  ghost predicate StepUpdate(s: State, u: State, id: nat, req: AddReq, dbMode: int, next: int, bump: bool) {
    && AcceptedReq(req, dbMode) && id in s.tab.rows && (bump ==> dbMode == DB_TIME_SPEC)
    && var tab := Update(s.tab, id, req, dbMode, next, bump);
    && u == State(tab, s.trace + [Added(id, tab.rows[id])])
  }

  ghost predicate StepStop(s: State, u: State, id: nat) {
    u == State(SoftDelete(s.tab, id), s.trace + [Stopped(id)])
  }

  datatype Label =
    | DoRead(node: nat, ids: set<nat>, at: int)
    | DoLock(node: nat, worker: nat, id: nat, snap: nat, now: int, nowForNext: int, next: int)
    | DoInsert(req: AddReq, dbMode: int, next: int)
    | DoUpdate(id: nat, req: AddReq, dbMode: int, next: int, bump: bool)
    | DoStop(id: nat)

  ghost predicate StepBy(cal: Calendar, s: State, u: State, l: Label) {
    match l
    case DoRead(node, ids, at) => StepRead(s, u, node, ids, at)
    case DoLock(node, worker, id, snap, now, nowForNext, next) =>
      StepLock(cal, s, u, node, worker, id, snap, now, nowForNext, next)
    case DoInsert(req, dbMode, next) => StepInsert(s, u, req, dbMode, next)
    case DoUpdate(id, req, dbMode, next, bump) => StepUpdate(s, u, id, req, dbMode, next, bump)
    case DoStop(id) => StepStop(s, u, id)
  }

  ghost predicate Step(cal: Calendar, s: State, u: State) {
    exists l :: StepBy(cal, s, u, l)
  }

  // ---------------------------------------------------------------- counting wins

  lemma CountSnoc(tr: Trace, e: Event, id: nat)
    ensures WinCount(tr + [e], id) == WinCount(tr, id) + if IsWon(e, id) then 1 else 0
    ensures AddCount(tr + [e], id) == AddCount(tr, id) + if IsAdd(e, id) then 1 else 0
    ensures LastRun(tr + [e], id) == if IsWon(e, id) then e.at else LastRun(tr, id)
  {
    assert (tr + [e])[..|tr|] == tr;
  }

  /** Between two points of a trace the win count stays put exactly when nobody won, and then so does the last run. */
  lemma {:induction false} CountBetween(tr: Trace, id: nat, k: nat)
    requires k <= |tr|
    ensures WinCount(tr[..k], id) <= WinCount(tr, id)
    ensures WinCount(tr[..k], id) == WinCount(tr, id) <==> NoWin(tr, id, k, |tr|)
    ensures NoWin(tr, id, k, |tr|) ==> LastRun(tr[..k], id) == LastRun(tr, id)
  {
    if k == |tr| {
      assert tr[..k] == tr;
    } else {
      var front := tr[..|tr| - 1];
      CountBetween(front, id, k);
      assert front[..k] == tr[..k];
      if NoWin(front, id, k, |front|) && !IsWon(tr[|tr| - 1], id) {
        assert NoWin(tr, id, k, |tr|);
      }
      if NoWin(tr, id, k, |tr|) {
        assert NoWin(front, id, k, |front|);
      }
    }
  }

  // ---------------------------------------------------------------- the invariant

  /** The plan of a row is the one that its last run or its last add wrote, whichever came later. */
  ghost predicate PlanFollows(tr: Trace, id: nat, plan: int) {
    && (forall k :: 0 <= k < |tr| && IsWon(tr[k], id) && NoWinSince(tr, id, k) && NoAddSince(tr, id, k) ==>
      plan == tr[k].planned)
    && (forall a :: 0 <= a < |tr| && IsAdd(tr[a], id) && NoWinSince(tr, id, a) && NoAddSince(tr, id, a) ==>
      plan == tr[a].row.plan)
  }

  /** A one-shot add leaves budget for one run after it, and at most one run follows it until the next add. */
  ghost predicate BudgetHolds(tr: Trace, id: nat, row: TaskRow) {
    forall a :: 0 <= a < |tr| && IsOneShotAdd(tr[a], id) && NoAddSince(tr, id, a) ==>
      row.allow <= WinCount(tr[..a], id) + 1 && WinCount(tr, id) <= WinCount(tr[..a], id) + 1
  }

  /** All that an add sets and no lock changes. */
  predicate SameOrder(row: TaskRow, added: TaskRow) {
    && row.key == added.key && row.arg == added.arg && row.callbackPath == added.callbackPath
    && row.srvId == added.srvId && row.allow == added.allow
    && row.dbMode == added.dbMode && row.cronExpr == added.cronExpr && row.intervalSec == added.intervalSec
  }

  /** What is to be run, and the tombstone of a row, are those of its last add and of the stops after it. */
  ghost predicate FollowsLastAdd(tr: Trace, id: nat, row: TaskRow) {
    && (forall a :: 0 <= a < |tr| && IsAdd(tr[a], id) && NoAddSince(tr, id, a) ==> SameOrder(row, tr[a].row))
    && (forall a :: 0 <= a < |tr| && IsStop(tr[a], id) && NoAddSince(tr, id, a) ==> row.deleted)
  }

  ghost predicate WasAdded(tr: Trace, id: nat) {
    exists a :: 0 <= a < |tr| && IsAdd(tr[a], id)
  }

  /** What a row says about the trace up to it; holds of the stored row now and of every copy when it was taken. */
  ghost predicate RowAgrees(tr: Trace, id: nat, row: TaskRow) {
    && row.runTimes == WinCount(tr, id)
    && row.lastRunAt == LastRun(tr, id)
    && PlanFollows(tr, id, row.plan)
    && BudgetHolds(tr, id, row)
    && FollowsLastAdd(tr, id, row)
    && WasAdded(tr, id)
  }

  ghost predicate ReadAgrees(tr: Trace, i: nat)
    requires i < |tr| && tr[i].Read?
  {
    forall id :: id in tr[i].page ==> RowAgrees(tr[..i], id, tr[i].page[id]) && Due(tr[i].page[id], tr[i].at)
  }

  /** Each win used a snapshot of its own node, was the next run, and no stop was in force. */
  ghost predicate WinAgrees(cal: Calendar, tr: Trace, j: nat)
    requires j < |tr| && tr[j].Won?
  {
    var e := tr[j];
    && e.snap < j && IsRead(tr[e.snap], e.id) && tr[e.snap].node == e.node
    && tr[e.snap].page[e.id].runTimes + 1 == e.run == WinCount(tr[..j], e.id) + 1
    && tr[e.snap].at <= e.at
    && (exists nowForNext ::
          e.at <= nowForNext && PlannedAt(cal, RowSched(tr[e.snap].page[e.id]), nowForNext, e.planned))
    && (forall a :: 0 <= a < j && IsStop(tr[a], e.id) ==> !NoAdd(tr, e.id, a + 1, j))
  }

  ghost predicate TraceInv(cal: Calendar, tr: Trace) {
    && (forall i :: 0 <= i < |tr| && tr[i].Read? ==> ReadAgrees(tr, i))
    && (forall j :: 0 <= j < |tr| && tr[j].Won? ==> WinAgrees(cal, tr, j))
  }

  /** Every past window after a one-shot add saw at most one win. */
  ghost predicate BudgetWindows(tr: Trace) {
    forall a, b, id :: 0 <= a < b <= |tr| && IsOneShotAdd(tr[a], id) && NoAdd(tr, id, a + 1, b) ==>
      WinCount(tr[..b], id) <= WinCount(tr[..a], id) + 1
  }

  /** Exactly the tasks that were ever added have a row, and each row agrees with the trace. */
  ghost predicate RowsAgree(tab: TaskTab, tr: Trace) {
    && (forall id :: id in tab.rows ==> RowAgrees(tr, id, tab.rows[id]))
    && (forall id :: id !in tab.rows ==> !WasAdded(tr, id))
  }

  ghost predicate Inv(cal: Calendar, s: State) {
    && ValidTasks(s.tab)
    && RowsAgree(s.tab, s.trace)
    && TraceInv(cal, s.trace)
    && BudgetWindows(s.trace)
  }

  /** A snapshot's row is still in the table: rows are never removed. */
  lemma ReadIsOfRow(cal: Calendar, s: State, snap: nat, id: nat)
    requires Inv(cal, s) && snap < |s.trace| && IsRead(s.trace[snap], id)
    ensures id in s.tab.rows && RowAgrees(s.trace[..snap], id, s.trace[snap].page[id])
    ensures Due(s.trace[snap].page[id], s.trace[snap].at)
  {
    assert ReadAgrees(s.trace, snap);
    var a :| 0 <= a < snap && IsAdd(s.trace[..snap][a], id);
    assert IsAdd(s.trace[a], id) && WasAdded(s.trace, id);
  }

  /**
   The exact lock criterion: a compare-and-set on a snapshot wins if and only if the row is not deleted and
   no lock on that task has won since the snapshot was read.
   */
  lemma LockWinsIff(cal: Calendar, s: State, snap: nat, id: nat)
    requires Inv(cal, s) && snap < |s.trace| && IsRead(s.trace[snap], id)
    ensures var copy := s.trace[snap].page[id];
      id in s.tab.rows &&
      (CasMatches(s.tab, id, copy.lastRunAt, copy.runTimes) <==>
        !s.tab.rows[id].deleted && NoWin(s.trace, id, snap, |s.trace|))
  {
    ReadIsOfRow(cal, s, snap, id);
    CountBetween(s.trace, id, snap);
  }

  // ---------------------------------------------------------------- every step keeps the invariant

  lemma PrefixOf(tr: Trace, e: Event, k: nat)
    requires k <= |tr|
    ensures (tr + [e])[..k] == tr[..k]
  {
  }

  lemma {:induction false} TraceExtends(cal: Calendar, tr: Trace, e: Event)
    requires TraceInv(cal, tr)
    requires e.Read? ==> ReadAgrees(tr + [e], |tr|)
    requires e.Won? ==> WinAgrees(cal, tr + [e], |tr|)
    ensures TraceInv(cal, tr + [e])
  {
    var more := tr + [e];
    forall i | 0 <= i < |tr| && more[i].Read?
      ensures ReadAgrees(more, i)
    {
      assert ReadAgrees(tr, i);
      PrefixOf(tr, e, i);
    }
    forall j | 0 <= j < |tr| && more[j].Won?
      ensures WinAgrees(cal, more, j)
    {
      assert WinAgrees(cal, tr, j);
      PrefixOf(tr, e, j);
      forall a | 0 <= a < j && IsStop(more[a], more[j].id)
        ensures !NoAdd(more, more[j].id, a + 1, j)
      {
        assert !NoAdd(tr, tr[j].id, a + 1, j);
        var k :| a + 1 <= k < j && IsAdd(tr[k], tr[j].id);
        assert IsAdd(more[k], tr[j].id);
      }
    }
  }

  /** Windows that end in the new last event are covered by the rows; earlier ones were covered before. */
  lemma BudgetExtends(tr: Trace, e: Event, tab: TaskTab)
    requires BudgetWindows(tr) && RowsAgree(tab, tr + [e])
    ensures BudgetWindows(tr + [e])
  {
    var more := tr + [e];
    forall a, b, id | 0 <= a < b <= |more| && IsOneShotAdd(more[a], id) && NoAdd(more, id, a + 1, b)
      ensures WinCount(more[..b], id) <= WinCount(more[..a], id) + 1
    {
      PrefixOf(tr, e, a);
      if b <= |tr| {
        PrefixOf(tr, e, b);
        assert NoAdd(tr, id, a + 1, b);
      } else {
        assert more[..b] == more;
        assert WasAdded(more, id);
        assert BudgetHolds(more, id, tab.rows[id]);
      }
    }
  }

  /** Events that do not win, add or stop task `id` change nothing its row says. */
  lemma RowAgreesOther(tr: Trace, e: Event, id: nat, row: TaskRow)
    requires !IsWon(e, id) && !IsAdd(e, id) && !IsStop(e, id)
    requires RowAgrees(tr, id, row)
    ensures RowAgrees(tr + [e], id, row)
  {
    var more := tr + [e];
    CountSnoc(tr, e, id);
    WindowsShrink(tr, e, id);
    forall a | 0 <= a < |more| && IsOneShotAdd(more[a], id) && NoAddSince(more, id, a)
      ensures row.allow <= WinCount(more[..a], id) + 1 && WinCount(more, id) <= WinCount(more[..a], id) + 1
    {
      PrefixOf(tr, e, a);
      assert IsOneShotAdd(tr[a], id);
    }
    var a :| 0 <= a < |tr| && IsAdd(tr[a], id);
    assert IsAdd(more[a], id);
  }

  lemma WindowShrinks(tr: Trace, e: Event, id: nat, k: nat)
    requires k < |tr|
    ensures NoWinSince(tr + [e], id, k) ==> NoWinSince(tr, id, k) && !IsWon(e, id)
    ensures NoAddSince(tr + [e], id, k) ==> NoAddSince(tr, id, k) && !IsAdd(e, id)
  {
    var more := tr + [e];
    assert more[|tr|] == e;
    assert forall i :: 0 <= i < |tr| ==> more[i] == tr[i];
  }

  lemma WindowsShrink(tr: Trace, e: Event, id: nat)
    ensures forall k :: 0 <= k < |tr| && NoWinSince(tr + [e], id, k) ==> NoWinSince(tr, id, k) && !IsWon(e, id)
    ensures forall k :: 0 <= k < |tr| && NoAddSince(tr + [e], id, k) ==> NoAddSince(tr, id, k) && !IsAdd(e, id)
  {
    forall k: nat | k < |tr|
      ensures NoWinSince(tr + [e], id, k) ==> NoWinSince(tr, id, k) && !IsWon(e, id)
      ensures NoAddSince(tr + [e], id, k) ==> NoAddSince(tr, id, k) && !IsAdd(e, id)
    {
      WindowShrinks(tr, e, id, k);
    }
  }

  lemma NeverAddedExtends(tr: Trace, e: Event, id: nat)
    requires !WasAdded(tr, id) && !IsAdd(e, id)
    ensures !WasAdded(tr + [e], id)
  {
    forall a | 0 <= a < |tr| + 1
      ensures !IsAdd((tr + [e])[a], id)
    {
      if a < |tr| {
        assert !IsAdd(tr[a], id);
      }
    }
  }

  /** One event on one task: it is enough that the new row of that task agrees. */
  lemma RowsStillAgree(tab: TaskTab, after: TaskTab, tr: Trace, e: Event, id: nat)
    requires RowsAgree(tab, tr)
    requires forall o :: o != id ==> !IsWon(e, o) && !IsAdd(e, o) && !IsStop(e, o)
    requires id in after.rows && after.rows == tab.rows[id := after.rows[id]] && RowAgrees(tr + [e], id, after.rows[id])
    ensures RowsAgree(after, tr + [e])
  {
    forall o | o in after.rows && o != id
      ensures RowAgrees(tr + [e], o, after.rows[o])
    {
      RowAgreesOther(tr, e, o, tab.rows[o]);
    }
    forall o | o !in after.rows
      ensures !WasAdded(tr + [e], o)
    {
      NeverAddedExtends(tr, e, o);
    }
  }

  /** An event that wins, adds or stops nothing that has a row. */
  lemma RowsUntouched(tab: TaskTab, tr: Trace, e: Event)
    requires RowsAgree(tab, tr)
    requires forall o :: !IsAdd(e, o) && (o in tab.rows ==> !IsWon(e, o) && !IsStop(e, o))
    ensures RowsAgree(tab, tr + [e])
  {
    forall o | o in tab.rows
      ensures RowAgrees(tr + [e], o, tab.rows[o])
    {
      RowAgreesOther(tr, e, o, tab.rows[o]);
    }
    forall o | o !in tab.rows
      ensures !WasAdded(tr + [e], o)
    {
      NeverAddedExtends(tr, e, o);
    }
  }

  lemma ReadKeeps(cal: Calendar, s: State, u: State, node: nat, ids: set<nat>, at: int)
    requires Inv(cal, s) && StepRead(s, u, node, ids, at)
    ensures Inv(cal, u)
  {
    var e := Read(node, Copies(s.tab, ids), at);
    assert (s.trace + [e])[..|s.trace|] == s.trace;
    TraceExtends(cal, s.trace, e);
    RowsUntouched(s.tab, s.trace, e);
    BudgetExtends(s.trace, e, u.tab);
  }

  /** The winner's row agrees with the longer trace: its snapshot was taken with nothing won since. */
  lemma RowAgreesWon(tr: Trace, e: Event, row: TaskRow, copy: TaskRow)
    requires e.Won? && e.snap < |tr| && IsRead(tr[e.snap], e.id) && copy == tr[e.snap].page[e.id]
    requires RowAgrees(tr, e.id, row) && RowAgrees(tr[..e.snap], e.id, copy) && Due(copy, tr[e.snap].at)
    requires row.runTimes == copy.runTimes
    ensures RowAgrees(tr + [e], e.id, row.(lastRunAt := e.at, runTimes := row.runTimes + 1, plan := e.planned))
  {
    var more, id := tr + [e], e.id;
    CountSnoc(tr, e, id);
    BudgetAfterWin(tr, e, row, copy);
    FollowsAfterWin(tr, e, row);
    assert more[|tr|] == e;
    assert PlanFollows(more, id, e.planned) by {
      forall k | 0 <= k < |more| && IsWon(more[k], id) && NoWinSince(more, id, k)
        ensures k == |tr|
      {
      }
    }
    var a :| 0 <= a < |tr| && IsAdd(tr[a], id);
    assert IsAdd(more[a], id);
  }

  lemma FollowsAfterWin(tr: Trace, e: Event, row: TaskRow)
    requires e.Won? && FollowsLastAdd(tr, e.id, row)
    ensures FollowsLastAdd(tr + [e], e.id, row.(lastRunAt := e.at, runTimes := row.runTimes + 1, plan := e.planned))
  {
    WindowsShrink(tr, e, e.id);
  }

  lemma BudgetAfterWin(tr: Trace, e: Event, row: TaskRow, copy: TaskRow)
    requires e.Won? && e.snap < |tr| && IsRead(tr[e.snap], e.id)
    requires BudgetHolds(tr, e.id, row) && RowAgrees(tr[..e.snap], e.id, copy) && copy.runTimes < copy.allow
    requires copy.runTimes == WinCount(tr, e.id)
    ensures BudgetHolds(tr + [e], e.id, row.(lastRunAt := e.at, runTimes := row.runTimes + 1, plan := e.planned))
  {
    var more, id := tr + [e], e.id;
    CountSnoc(tr, e, id);
    WindowsShrink(tr, e, id);
    forall a | 0 <= a < |more| && IsOneShotAdd(more[a], id) && NoAddSince(more, id, a)
      ensures row.allow <= WinCount(more[..a], id) + 1 && WinCount(more, id) <= WinCount(more[..a], id) + 1
    {
      assert a < |tr| && IsOneShotAdd(tr[a], id);
      PrefixOf(tr, e, a);
      OneMoreWinFits(tr, e, copy, a);
    }
  }

  /** A copy that was due under a one-shot budget leaves room for its own win; an older copy even more so. */
  lemma OneMoreWinFits(tr: Trace, e: Event, copy: TaskRow, a: nat)
    requires e.Won? && e.snap < |tr| && IsRead(tr[e.snap], e.id)
    requires RowAgrees(tr[..e.snap], e.id, copy) && copy.runTimes < copy.allow && copy.runTimes == WinCount(tr, e.id)
    requires a < |tr| && IsOneShotAdd(tr[a], e.id) && NoAddSince(tr, e.id, a)
    ensures WinCount(tr, e.id) <= WinCount(tr[..a], e.id)
  {
    var old_ := tr[..e.snap];
    if a < e.snap {
      assert old_[..a] == tr[..a] && old_[a] == tr[a];
      assert NoAdd(old_, e.id, a + 1, |old_|);
      assert BudgetHolds(old_, e.id, copy);
    } else {
      CountBetween(tr[..a], e.id, e.snap);
      assert tr[..a][..e.snap] == old_;
    }
  }

  lemma WonKeeps(cal: Calendar, s: State, e: Event, nowForNext: int)
    requires Inv(cal, s) && WinsNow(s, e)
    requires CanTry(cal, s.trace, e.node, e.id, e.snap, e.at, nowForNext, e.planned)
    ensures Inv(cal, TryLock(s, e))
  {
    WonRows(cal, s, e);
    WonTrace(cal, s, e, nowForNext);
    var copy := s.trace[e.snap].page[e.id];
    LockAndStopValid(s.tab, e.id, copy.lastRunAt, copy.runTimes, e.at, e.planned);
    BudgetExtends(s.trace, e, TryLock(s, e).tab);
  }

  /** `e` is a win by compare-and-set on a snapshot in `s`. */
  ghost predicate WinsNow(s: State, e: Event) {
    && e.Won? && e.snap < |s.trace| && IsRead(s.trace[e.snap], e.id)
    && var copy := s.trace[e.snap].page[e.id];
    && CasMatches(s.tab, e.id, copy.lastRunAt, copy.runTimes) && e.run == copy.runTimes + 1
  }

  lemma WonRow(cal: Calendar, s: State, e: Event)
    requires Inv(cal, s) && WinsNow(s, e)
    ensures var row := s.tab.rows[e.id];
      RowAgrees(s.trace + [e], e.id, row.(lastRunAt := e.at, runTimes := row.runTimes + 1, plan := e.planned))
  {
    ReadIsOfRow(cal, s, e.snap, e.id);
    RowAgreesWon(s.trace, e, s.tab.rows[e.id], s.trace[e.snap].page[e.id]);
  }

  lemma WonRows(cal: Calendar, s: State, e: Event)
    requires Inv(cal, s) && WinsNow(s, e)
    ensures RowsAgree(TryLock(s, e).tab, s.trace + [e])
  {
    WonRow(cal, s, e);
    OneRowWins(s, e);
  }

  lemma OneRowWins(s: State, e: Event)
    requires RowsAgree(s.tab, s.trace) && WinsNow(s, e)
    requires var row := s.tab.rows[e.id];
      RowAgrees(s.trace + [e], e.id, row.(lastRunAt := e.at, runTimes := row.runTimes + 1, plan := e.planned))
    ensures RowsAgree(TryLock(s, e).tab, s.trace + [e])
  {
    var row, after := s.tab.rows[e.id], TryLock(s, e).tab;
    assert after.rows[e.id] == row.(lastRunAt := e.at, runTimes := row.runTimes + 1, plan := e.planned);
    RowsStillAgree(s.tab, after, s.trace, e, e.id);
  }

  lemma WonTrace(cal: Calendar, s: State, e: Event, nowForNext: int)
    requires Inv(cal, s) && WinsNow(s, e)
    requires CanTry(cal, s.trace, e.node, e.id, e.snap, e.at, nowForNext, e.planned)
    ensures TraceInv(cal, s.trace + [e])
  {
    WinAgreesNow(cal, s, e, nowForNext);
    TraceExtends(cal, s.trace, e);
  }

  lemma WinAgreesNow(cal: Calendar, s: State, e: Event, nowForNext: int)
    requires Inv(cal, s) && WinsNow(s, e)
    requires CanTry(cal, s.trace, e.node, e.id, e.snap, e.at, nowForNext, e.planned)
    ensures WinAgrees(cal, s.trace + [e], |s.trace|)
  {
    var more := s.trace + [e];
    assert more[..|s.trace|] == s.trace;
    assert RowAgrees(s.trace, e.id, s.tab.rows[e.id]);
    forall a | 0 <= a < |s.trace| && IsStop(more[a], e.id)
      ensures !NoAdd(more, e.id, a + 1, |s.trace|)
    {
      assert IsStop(s.trace[a], e.id);
      assert !NoAdd(s.trace, e.id, a + 1, |s.trace|);
      var k :| a + 1 <= k < |s.trace| && IsAdd(s.trace[k], e.id);
      assert IsAdd(more[k], e.id);
    }
  }

  /** After an add, every window that matters starts at that add. */
  lemma RowAgreesAdded(tr: Trace, id: nat, row: TaskRow)
    requires row.runTimes == WinCount(tr, id) && row.lastRunAt == LastRun(tr, id)
    requires row.dbMode == DB_TIME_SPEC ==> row.allow <= row.runTimes + 1
    ensures RowAgrees(tr + [Added(id, row)], id, row)
  {
    var e := Added(id, row);
    var more := tr + [e];
    CountSnoc(tr, e, id);
    WindowsShrink(tr, e, id);
    assert more[|tr|] == e && IsAdd(more[|tr|], id);
    assert more[..|tr|] == tr;
  }

  lemma NothingBeforeFirstAdd(cal: Calendar, s: State, id: nat)
    requires Inv(cal, s) && id !in s.tab.rows
    ensures WinCount(s.trace, id) == 0 && LastRun(s.trace, id) == 0
  {
    forall j | 0 <= j < |s.trace|
      ensures !IsWon(s.trace[j], id)
    {
      if IsWon(s.trace[j], id) {
        assert WinAgrees(cal, s.trace, j);
        ReadIsOfRow(cal, s, s.trace[j].snap, id);
      }
    }
    CountBetween(s.trace, id, 0);
    assert s.trace[..0] == [];
  }

  /** Both halves of AddTask leave one row that agrees with the trace and touch no other. */
  lemma AddedKeeps(cal: Calendar, s: State, u: State, id: nat, row: TaskRow)
    requires Inv(cal, s) && ValidTasks(u.tab)
    requires u.tab.rows == s.tab.rows[id := row] && u.trace == s.trace + [Added(id, row)]
    requires row.runTimes == WinCount(s.trace, id) && row.lastRunAt == LastRun(s.trace, id)
    requires row.dbMode == DB_TIME_SPEC ==> row.allow <= row.runTimes + 1
    ensures Inv(cal, u)
  {
    var e := Added(id, row);
    RowAgreesAdded(s.trace, id, row);
    TraceExtends(cal, s.trace, e);
    RowsStillAgree(s.tab, u.tab, s.trace, e, id);
    BudgetExtends(s.trace, e, u.tab);
  }

  lemma InsertKeeps(cal: Calendar, s: State, u: State, req: AddReq, dbMode: int, next: int)
    requires Inv(cal, s) && StepInsert(s, u, req, dbMode, next)
    ensures Inv(cal, u)
  {
    var row := NewRow(req, dbMode, next);
    InsertValid(s.tab, row);
    NothingBeforeFirstAdd(cal, s, s.tab.nextId);
    AddedKeeps(cal, s, u, s.tab.nextId, row);
  }

  lemma UpdateKeeps(cal: Calendar, s: State, u: State, id: nat, req: AddReq, dbMode: int, next: int, bump: bool)
    requires Inv(cal, s) && StepUpdate(s, u, id, req, dbMode, next, bump)
    ensures Inv(cal, u)
  {
    UpdateValid(s.tab, id, req, dbMode, next, bump);
    assert RowAgrees(s.trace, id, s.tab.rows[id]);
    AddedKeeps(cal, s, u, id, u.tab.rows[id]);
  }

  lemma RowAgreesStopped(tr: Trace, id: nat, row: TaskRow)
    requires RowAgrees(tr, id, row)
    ensures RowAgrees(tr + [Stopped(id)], id, row.(deleted := true))
  {
    var e := Stopped(id);
    var more := tr + [e];
    CountSnoc(tr, e, id);
    WindowsShrink(tr, e, id);
    forall a | 0 <= a < |more| && IsOneShotAdd(more[a], id) && NoAddSince(more, id, a)
      ensures row.allow <= WinCount(more[..a], id) + 1 && WinCount(more, id) <= WinCount(more[..a], id) + 1
    {
      PrefixOf(tr, e, a);
      assert IsOneShotAdd(tr[a], id);
    }
    var a :| 0 <= a < |tr| && IsAdd(tr[a], id);
    assert IsAdd(more[a], id);
  }

  lemma StopRows(s: State, u: State, id: nat)
    requires RowsAgree(s.tab, s.trace) && StepStop(s, u, id)
    ensures RowsAgree(u.tab, s.trace + [Stopped(id)])
  {
    if id in s.tab.rows {
      RowAgreesStopped(s.trace, id, s.tab.rows[id]);
      RowsStillAgree(s.tab, u.tab, s.trace, Stopped(id), id);
    } else {
      RowsUntouched(s.tab, s.trace, Stopped(id));
    }
  }

  lemma StopKeeps(cal: Calendar, s: State, u: State, id: nat)
    requires Inv(cal, s) && StepStop(s, u, id)
    ensures Inv(cal, u)
  {
    LockAndStopValid(s.tab, id, 0, 0, 0, 0);
    StopRows(s, u, id);
    TraceExtends(cal, s.trace, Stopped(id));
    BudgetExtends(s.trace, Stopped(id), u.tab);
  }

  lemma LockKeeps(cal: Calendar, s: State, u: State, node: nat, worker: nat, id: nat, snap: nat, now: int,
                  nowForNext: int, next: int)
    requires Inv(cal, s) && StepLock(cal, s, u, node, worker, id, snap, now, nowForNext, next)
    ensures Inv(cal, u)
  {
    var e := Won(node, worker, id, s.trace[snap].page[id].runTimes + 1, snap, now, next);
    if WinsNow(s, e) {
      WonKeeps(cal, s, e, nowForNext);
    }
  }

  lemma StepKeeps(cal: Calendar, s: State, u: State, l: Label)
    requires Inv(cal, s) && StepBy(cal, s, u, l)
    ensures Inv(cal, u)
  {
    match l
    case DoRead(node, ids, at) => ReadKeeps(cal, s, u, node, ids, at);
    case DoLock(node, worker, id, snap, now, nowForNext, next) =>
      LockKeeps(cal, s, u, node, worker, id, snap, now, nowForNext, next);
    case DoInsert(req, dbMode, next) => InsertKeeps(cal, s, u, req, dbMode, next);
    case DoUpdate(id, req, dbMode, next, bump) => UpdateKeeps(cal, s, u, id, req, dbMode, next, bump);
    case DoStop(id) => StopKeeps(cal, s, u, id);
  }

  // ---------------------------------------------------------------- runs

  ghost predicate StepAt(cal: Calendar, ss: seq<State>, i: int)
    requires 0 <= i < |ss| - 1
  {
    Step(cal, ss[i], ss[i + 1])
  }

  ghost predicate Behaviour(cal: Calendar, ss: seq<State>) {
    |ss| > 0 && Init(ss[0]) && forall i :: 0 <= i < |ss| - 1 ==> StepAt(cal, ss, i)
  }

  lemma {:induction false} InvAlways(cal: Calendar, ss: seq<State>, i: nat)
    requires Behaviour(cal, ss) && i < |ss|
    ensures Inv(cal, ss[i])
  {
    if i > 0 {
      InvAlways(cal, ss, i - 1);
      assert StepAt(cal, ss, i - 1);
      var l :| StepBy(cal, ss[i - 1], ss[i], l);
      StepKeeps(cal, ss[i - 1], ss[i], l);
    }
  }
}
