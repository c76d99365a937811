/**
 What the locking invariant promises about whole runs. Every statement is about an arbitrary state that satisfies
 `Inv`, hence by `InvAlways` about every state of every interleaved run of any number of nodes.
 */
module LockTheorems {
  import opened TaskTables
  import opened LockProtocol

  // ---------------------------------------------------------------- run numbers

  lemma WinsCountUp(tr: Trace, id: nat, i: nat, j: nat)
    requires i < j <= |tr| && IsWon(tr[i], id)
    ensures WinCount(tr[..i], id) < WinCount(tr[..j], id)
  {
    CountBetween(tr[..j], id, i);
    assert tr[..j][..i] == tr[..i] && tr[..j][i] == tr[i];
  }

  lemma {:induction false} WinWithNumber(tr: Trace, id: nat, r: nat) returns (j: nat)
    requires 1 <= r <= WinCount(tr, id)
    ensures j < |tr| && IsWon(tr[j], id) && WinCount(tr[..j], id) + 1 == r
  {
    var front := tr[..|tr| - 1];
    if r <= WinCount(front, id) {
      j := WinWithNumber(front, id, r);
      assert front[..j] == tr[..j];
    } else {
      j := |tr| - 1;
    }
  }

  /** What is known of one win: the read it relied on, and its place in the count. */
  lemma WinFacts(cal: Calendar, s: State, j: nat)
    requires Inv(cal, s) && j < |s.trace| && s.trace[j].Won?
    ensures var tr, e := s.trace, s.trace[j];
      && e.snap < j && IsRead(tr[e.snap], e.id) && tr[e.snap].node == e.node
      && e.run == WinCount(tr[..j], e.id) + 1 == WinCount(tr[..e.snap], e.id) + 1
      && tr[e.snap].page[e.id].plan <= tr[e.snap].at <= e.at
      && RowAgrees(tr[..e.snap], e.id, tr[e.snap].page[e.id])
  {
    assert WinAgrees(cal, s.trace, j);
    ReadIsOfRow(cal, s, s.trace[j].snap, s.trace[j].id);
  }

  /** What a win wrote as the next plan, by the schedule of its snapshot. */
  lemma WinPlans(cal: Calendar, s: State, j: nat)
    requires Inv(cal, s) && j < |s.trace| && s.trace[j].Won?
    ensures var e := s.trace[j];
      && e.snap < j && IsRead(s.trace[e.snap], e.id)
      && var copy := s.trace[e.snap].page[e.id];
      && (copy.dbMode == DB_TIME_INTERVAL ==> e.planned >= e.at + copy.intervalSec)
      && (copy.dbMode == DB_TIME_CRON ==> copy.cronExpr in cal && e.planned in cal[copy.cronExpr] && e.at < e.planned)
  {
    assert WinAgrees(cal, s.trace, j);
  }

  /** `j` is the win of task `id` that carries run number `r`. */
  ghost predicate WonAs(tr: Trace, id: nat, j: int, r: int) {
    0 <= j < |tr| && IsWon(tr[j], id) && tr[j].run == r
  }

  lemma RunsIncrease(cal: Calendar, s: State, id: nat, i: nat, j: nat)
    requires Inv(cal, s) && i < j < |s.trace| && IsWon(s.trace[i], id) && IsWon(s.trace[j], id)
    ensures s.trace[i].run < s.trace[j].run
  {
    WinFacts(cal, s, i);
    WinFacts(cal, s, j);
    WinsCountUp(s.trace, id, i, j);
  }

  lemma RunsInRange(cal: Calendar, s: State, id: nat, j: nat)
    requires Inv(cal, s) && id in s.tab.rows && j < |s.trace| && IsWon(s.trace[j], id)
    ensures 1 <= s.trace[j].run <= s.tab.rows[id].runTimes
  {
    RowCount(cal, s, id);
    WinFacts(cal, s, j);
    WinsCountUp(s.trace, id, j, |s.trace|);
    assert s.trace[..|s.trace|] == s.trace;
  }

  lemma EveryRunWon(cal: Calendar, s: State, id: nat, r: nat)
    requires Inv(cal, s) && id in s.tab.rows && 1 <= r <= s.tab.rows[id].runTimes
    ensures RunWon(s.trace, id, r)
  {
    RowCount(cal, s, id);
    var j := WinWithNumber(s.trace, id, r);
    WinFacts(cal, s, j);
    assert WonAs(s.trace, id, j, r);
  }

  /** The wins of a task carry the numbers 1 .. n, each once, in trace order. */
  ghost predicate Numbered(tr: Trace, id: nat, n: nat) {
    && (forall i, j :: 0 <= i < j < |tr| && IsWon(tr[i], id) && IsWon(tr[j], id) ==> tr[i].run < tr[j].run)
    && (forall j :: 0 <= j < |tr| && IsWon(tr[j], id) ==> 1 <= tr[j].run <= n)
    && (forall r: nat :: 1 <= r <= n ==> RunWon(tr, id, r))
  }

  /**
   The run numbers won for a task are exactly 1 .. run_times, each by one win, in trace order. The trace reaches
   back to the first add, so a stop and a re-add never reuse a number.
   */
  lemma RunsAreNumbered(cal: Calendar, s: State, id: nat)
    requires Inv(cal, s) && id in s.tab.rows
    ensures Numbered(s.trace, id, s.tab.rows[id].runTimes)
  {
    forall i, j | 0 <= i < j < |s.trace| && IsWon(s.trace[i], id) && IsWon(s.trace[j], id)
      ensures s.trace[i].run < s.trace[j].run
    {
      RunsIncrease(cal, s, id, i, j);
    }
    forall j | 0 <= j < |s.trace| && IsWon(s.trace[j], id)
      ensures 1 <= s.trace[j].run <= s.tab.rows[id].runTimes
    {
      RunsInRange(cal, s, id, j);
    }
    forall r: nat | 1 <= r <= s.tab.rows[id].runTimes
      ensures RunWon(s.trace, id, r)
    {
      EveryRunWon(cal, s, id, r);
    }
  }

  ghost predicate RunWon(tr: Trace, id: nat, r: int) {
    exists j :: WonAs(tr, id, j, r)
  }

  lemma RowCount(cal: Calendar, s: State, id: nat)
    requires Inv(cal, s) && id in s.tab.rows
    ensures s.tab.rows[id].runTimes == WinCount(s.trace, id)
  {
    assert RowAgrees(s.trace, id, s.tab.rows[id]);
  }

  lemma SameCountReadLater(tr: Trace, id: nat, i: nat, j: nat, snap: nat)
    requires i < j <= |tr| && IsWon(tr[i], id) && snap <= j && WinCount(tr[..snap], id) == WinCount(tr[..j], id)
    ensures i < snap
  {
    CountBetween(tr[..j], id, snap);
    assert tr[..j][..snap] == tr[..snap] && tr[..j][i] == tr[i];
  }

  /** Each winner read its snapshot after the previous win: no two wins share a snapshot, and no stale copy wins. */
  lemma WinnersReadLate(cal: Calendar, s: State, i: nat, j: nat, id: nat)
    requires Inv(cal, s) && i < j < |s.trace| && IsWon(s.trace[i], id) && IsWon(s.trace[j], id)
    ensures i < s.trace[j].snap < j
  {
    WinFacts(cal, s, j);
    SameCountReadLater(s.trace, id, i, j, s.trace[j].snap);
  }

  // ---------------------------------------------------------------- one-shot budget

  lemma TwoWinsOverrun(tr: Trace, a: nat, i: nat, j: nat, id: nat)
    requires a < i < j < |tr| && IsWon(tr[i], id) && IsWon(tr[j], id)
    ensures WinCount(tr[..j + 1], id) >= WinCount(tr[..a], id) + 2
  {
    CountBetween(tr[..i], id, a);
    assert tr[..i][..a] == tr[..a];
    WinsCountUp(tr, id, i, j);
    WinsCountUp(tr, id, j, j + 1);
  }

  /** After a one-shot add and before the next add, two wins are impossible, whatever snapshots were outstanding. */
  lemma OneShotBudget(cal: Calendar, s: State, a: nat, i: nat, j: nat, id: nat)
    requires Inv(cal, s) && a < i < j < |s.trace|
    requires IsOneShotAdd(s.trace[a], id) && IsWon(s.trace[i], id) && IsWon(s.trace[j], id)
    ensures exists k :: a < k < j && IsAdd(s.trace[k], id)
  {
    TwoWinsOverrun(s.trace, a, i, j, id);
    WindowBudget(cal, s, a, j + 1, id);
    AddInWindow(s.trace, a, j, id);
  }

  lemma AddInWindow(tr: Trace, a: nat, j: nat, id: nat)
    requires a < j < |tr| && IsWon(tr[j], id) && !NoAdd(tr, id, a + 1, j + 1)
    ensures exists k :: a < k < j && IsAdd(tr[k], id)
  {
    var k :| a + 1 <= k < j + 1 && k < |tr| && IsAdd(tr[k], id);
    assert k != j;
  }

  lemma WindowBudget(cal: Calendar, s: State, a: nat, b: nat, id: nat)
    requires Inv(cal, s) && a < b <= |s.trace| && IsOneShotAdd(s.trace[a], id)
    ensures NoAdd(s.trace, id, a + 1, b) ==> WinCount(s.trace[..b], id) <= WinCount(s.trace[..a], id) + 1
  {
  }

  ghost predicate AllOneShot(tr: Trace, id: nat) {
    forall k :: 0 <= k < |tr| && IsAdd(tr[k], id) ==> IsOneShotAdd(tr[k], id)
  }

  lemma {:induction false} AddCountAfter(tr: Trace, id: nat, a: nat)
    requires a < |tr| && IsAdd(tr[a], id)
    ensures AddCount(tr[..a], id) + 1 <= AddCount(tr, id)
    decreases |tr|
  {
    var front := tr[..|tr| - 1];
    if a < |front| {
      AddCountAfter(front, id, a);
      assert front[..a] == tr[..a];
    }
  }

  lemma {:induction false} LastAddOf(tr: Trace, id: nat) returns (a: nat)
    requires WasAdded(tr, id)
    ensures a < |tr| && IsAdd(tr[a], id) && NoAddSince(tr, id, a)
  {
    if IsAdd(tr[|tr| - 1], id) {
      a := |tr| - 1;
    } else {
      var front := tr[..|tr| - 1];
      var k :| 0 <= k < |tr| && IsAdd(tr[k], id);
      assert IsAdd(front[k], id);
      a := LastAddOf(front, id);
    }
  }

  lemma WinNeedsAdd(cal: Calendar, s: State, n: nat, id: nat, j: nat)
    requires Inv(cal, s) && j < n <= |s.trace| && IsWon(s.trace[j], id)
    ensures WasAdded(s.trace[..n], id)
  {
    WinFacts(cal, s, j);
    var upTo := s.trace[..s.trace[j].snap];
    var k :| 0 <= k < |upTo| && IsAdd(upTo[k], id);
    assert IsAdd(s.trace[..n][k], id);
  }

  lemma NoWinBeforeAdd(cal: Calendar, s: State, n: nat, id: nat)
    requires Inv(cal, s) && n <= |s.trace| && !WasAdded(s.trace[..n], id)
    ensures WinCount(s.trace[..n], id) == 0
  {
    var tr := s.trace[..n];
    forall j | 0 <= j < n
      ensures !IsWon(tr[j], id)
    {
      if IsWon(s.trace[j], id) {
        WinNeedsAdd(cal, s, n, id, j);
      }
    }
    CountBetween(tr, id, 0);
    assert tr[..0] == [];
  }

  lemma {:induction false} WinsWithinAdds(cal: Calendar, s: State, n: nat, id: nat)
    requires Inv(cal, s) && n <= |s.trace| && AllOneShot(s.trace, id)
    ensures WinCount(s.trace[..n], id) <= AddCount(s.trace[..n], id)
    decreases n
  {
    var tr := s.trace[..n];
    if WasAdded(tr, id) {
      var a := LastAddOf(tr, id);
      WinsWithinAdds(cal, s, a, id);
      AddCountAfter(tr, id, a);
      assert tr[..a] == s.trace[..a] && IsOneShotAdd(s.trace[a], id);
      assert NoAdd(s.trace, id, a + 1, n) by {
        assert forall k :: a + 1 <= k < n ==> tr[k] == s.trace[k];
      }
      WindowBudget(cal, s, a, n, id);
    } else {
      NoWinBeforeAdd(cal, s, n, id);
    }
  }

  /** A row that was only ever added as one-shot has run no more often than it was added. */
  lemma OneShotRunsWithinAdds(cal: Calendar, s: State, id: nat)
    requires Inv(cal, s) && id in s.tab.rows && AllOneShot(s.trace, id)
    ensures s.tab.rows[id].runTimes <= AddCount(s.trace, id)
  {
    WinsWithinAdds(cal, s, |s.trace|, id);
    assert s.trace[..|s.trace|] == s.trace;
    RowCount(cal, s, id);
  }

  // ---------------------------------------------------------------- spacing

  /** A copy taken with nothing won or added since position `k` still has the plan written there. */
  lemma CopyKeepsPlan(tr: Trace, id: nat, k: nat, snap: nat, copy: TaskRow)
    requires k < snap <= |tr| && PlanFollows(tr[..snap], id, copy.plan)
    requires NoAdd(tr, id, k + 1, snap) && NoWin(tr, id, k + 1, snap)
    ensures IsAdd(tr[k], id) ==> copy.plan == tr[k].row.plan
    ensures IsWon(tr[k], id) ==> copy.plan == tr[k].planned
  {
    var upTo := tr[..snap];
    assert forall i :: 0 <= i < snap ==> upTo[i] == tr[i];
    assert NoWinSince(upTo, id, k) && NoAddSince(upTo, id, k);
  }

  /**
   No run before its plan: a win whose snapshot was read after an add, with no run between, is not before the added
   plan.
   */
  lemma NeverEarly(cal: Calendar, s: State, a: nat, j: nat, id: nat)
    requires Inv(cal, s) && a < j < |s.trace| && IsAdd(s.trace[a], id) && IsWon(s.trace[j], id)
    requires a < s.trace[j].snap && NoAdd(s.trace, id, a + 1, s.trace[j].snap)
    requires NoWin(s.trace, id, a + 1, s.trace[j].snap)
    ensures s.trace[j].at >= s.trace[a].row.plan
  {
    var snap := s.trace[j].snap;
    WinFacts(cal, s, j);
    CopyKeepsPlan(s.trace, id, a, snap, s.trace[snap].page[id]);
  }

  /**
   Of two consecutive wins the second is not before the plan that the first wrote, if no add came before it was read.
   */
  lemma NextRunWaitsForPlan(cal: Calendar, s: State, i: nat, j: nat, id: nat)
    requires Inv(cal, s) && i < j < |s.trace| && IsWon(s.trace[i], id) && IsWon(s.trace[j], id)
    requires NoWin(s.trace, id, i + 1, j) && NoAdd(s.trace, id, i + 1, s.trace[j].snap)
    ensures s.trace[j].at >= s.trace[i].planned
  {
    var snap := s.trace[j].snap;
    WinnersReadLate(cal, s, i, j, id);
    WinFacts(cal, s, j);
    CopyKeepsPlan(s.trace, id, i, snap, s.trace[snap].page[id]);
  }

  lemma {:induction false} LastWinBefore(tr: Trace, id: nat, lo: nat, hi: nat) returns (i: nat)
    requires hi <= |tr| && !NoWin(tr, id, lo, hi)
    ensures lo <= i < hi && IsWon(tr[i], id) && NoWin(tr, id, i + 1, hi)
    decreases hi
  {
    i := hi - 1;
    if !IsWon(tr[i], id) {
      i := LastWinBefore(tr, id, lo, hi - 1);
    }
  }

  /** A copy read after an add, with no further add, has the schedule that was added. */
  lemma CopyHasAddedSchedule(tr: Trace, id: nat, a: nat, snap: nat, copy: TaskRow)
    requires a < snap <= |tr| && IsAdd(tr[a], id) && NoAdd(tr, id, a + 1, snap) && FollowsLastAdd(tr[..snap], id, copy)
    ensures copy.dbMode == tr[a].row.dbMode && copy.cronExpr == tr[a].row.cronExpr
    ensures copy.intervalSec == tr[a].row.intervalSec
  {
    var upTo := tr[..snap];
    assert forall i :: 0 <= i < snap ==> upTo[i] == tr[i];
    assert NoAddSince(upTo, id, a);
  }

  /**
   What a run plans is not before the run, when its copy was read after an add with an interval that is not negative.
   */
  lemma PlansAhead(cal: Calendar, s: State, a: nat, i: nat, id: nat)
    requires Inv(cal, s) && a < i < |s.trace| && IsAdd(s.trace[a], id) && IsWon(s.trace[i], id) && a < s.trace[i].snap
    requires NoAdd(s.trace, id, a + 1, i) && s.trace[a].row.intervalSec >= 0 && !IsOneShotAdd(s.trace[a], id)
    ensures s.trace[i].planned >= s.trace[i].at
  {
    var snap := s.trace[i].snap;
    WinFacts(cal, s, i);
    WinPlans(cal, s, i);
    CopyHasAddedSchedule(s.trace, id, a, snap, s.trace[snap].page[id]);
    assert WinAgrees(cal, s.trace, i);
  }

  /** No win between the add and `b` relied on a copy from before the add. */
  ghost predicate NoStaleWin(tr: Trace, id: nat, a: nat, b: nat) {
    forall j :: a < j <= b && j < |tr| && IsWon(tr[j], id) ==> a < tr[j].snap
  }

  /** As long as every win since an add relied on a copy read after it, no run is before the added plan. */
  lemma {:induction false} NeverEarlyOnFreshCopies(cal: Calendar, s: State, a: nat, b: nat, id: nat)
    requires Inv(cal, s) && a < b < |s.trace| && IsAdd(s.trace[a], id) && IsWon(s.trace[b], id)
    requires NoAdd(s.trace, id, a + 1, b) && s.trace[a].row.intervalSec >= 0 && NoStaleWin(s.trace, id, a, b)
    ensures s.trace[b].at >= s.trace[a].row.plan
    decreases b
  {
    WinFacts(cal, s, b);
    if NoWin(s.trace, id, a + 1, b) {
      NeverEarly(cal, s, a, b, id);
    } else {
      var i := LastWinBefore(s.trace, id, a + 1, b);
      NeverEarlyOnFreshCopies(cal, s, a, i, id);
      if IsOneShotAdd(s.trace[a], id) {
        OneShotBudget(cal, s, a, i, b, id);
      } else {
        PlansAhead(cal, s, a, i, id);
        NextRunWaitsForPlan(cal, s, i, b, id);
      }
    }
  }

  /** A run before the plan of the last add relies on a copy from before that add, or follows a run that does. */
  lemma EarlyFollowsStale(cal: Calendar, s: State, a: nat, b: nat, id: nat)
    requires Inv(cal, s) && a < b < |s.trace| && IsAdd(s.trace[a], id) && IsWon(s.trace[b], id)
    requires NoAdd(s.trace, id, a + 1, b) && s.trace[a].row.intervalSec >= 0 && s.trace[b].at < s.trace[a].row.plan
    ensures exists j :: a < j <= b && IsWon(s.trace[j], id) && s.trace[j].snap < a
  {
    if NoStaleWin(s.trace, id, a, b) {
      NeverEarlyOnFreshCopies(cal, s, a, b, id);
    } else {
      var j :| a < j <= b && j < |s.trace| && IsWon(s.trace[j], id) && s.trace[j].snap <= a;
      WinFacts(cal, s, j);
      assert s.trace[j].snap != a;
    }
  }

  /** Two copies read with no add in between carry the same schedule. */
  lemma SameSchedule(tr: Trace, x: nat, y: nat, id: nat, p: TaskRow, q: TaskRow)
    requires x <= y <= |tr| && NoAdd(tr, id, x, y)
    requires RowAgrees(tr[..x], id, p) && RowAgrees(tr[..y], id, q)
    ensures p.dbMode == q.dbMode && p.cronExpr == q.cronExpr && p.intervalSec == q.intervalSec
  {
    var a := LastAddOf(tr[..x], id);
    assert tr[..x][a] == tr[a] == tr[..y][a];
    forall k | a + 1 <= k < y
      ensures !IsAdd(tr[..y][k], id)
    {
      assert tr[..y][k] == tr[k];
      if k < x {
        assert tr[..x][k] == tr[k];
      }
    }
    assert NoAddSince(tr[..y], id, a);
  }

  /** The copy that a win relied on is on record; by `WinFacts` it always is. */
  ghost predicate OnRecord(tr: Trace, e: Event) {
    e.Won? && e.snap < |tr| && IsRead(tr[e.snap], e.id)
  }

  /** Consecutive wins of one task, with no add from the first one's read to the last one's read. */
  ghost predicate Chain(tr: Trace, id: nat, js: seq<nat>) {
    && |js| > 0
    && (forall k :: 0 <= k < |js| ==> js[k] < |tr| && IsWon(tr[js[k]], id))
    && (forall k :: 0 < k < |js| ==> js[k - 1] < js[k] && NoWin(tr, id, js[k - 1] + 1, js[k]))
    && NoAdd(tr, id, tr[js[0]].snap, tr[js[|js| - 1]].snap)
    && OnRecord(tr, tr[js[0]])
  }

  /** The schedule that all runs of a chain follow: the one in the first run's snapshot. */
  ghost function ChainRow(tr: Trace, id: nat, js: seq<nat>): TaskRow
    requires Chain(tr, id, js)
  {
    tr[tr[js[0]].snap].page[id]
  }

  lemma {:induction false} ChainGrows(tr: Trace, id: nat, js: seq<nat>, m: nat)
    requires Chain(tr, id, js) && 0 < m < |js|
    ensures js[0] < js[m]
  {
    if m > 1 {
      ChainGrows(tr, id, js, m - 1);
    }
  }

  /** Within a chain no add comes between the first read and any later read. */
  lemma ChainReads(cal: Calendar, s: State, id: nat, js: seq<nat>, m: nat)
    requires Inv(cal, s) && Chain(s.trace, id, js) && m < |js|
    ensures s.trace[js[0]].snap <= s.trace[js[m]].snap <= s.trace[js[|js| - 1]].snap
    ensures m < |js| - 1 ==> js[m] < s.trace[js[m + 1]].snap <= s.trace[js[|js| - 1]].snap
    decreases |js| - m
  {
    WinFacts(cal, s, js[0]);
    WinFacts(cal, s, js[m]);
    if 0 < m {
      ChainGrows(s.trace, id, js, m);
      WinnersReadLate(cal, s, js[0], js[m], id);
    }
    if m < |js| - 1 {
      ChainReads(cal, s, id, js, m + 1);
      WinnersReadLate(cal, s, js[m], js[m + 1], id);
    }
  }

  /** Every run of a chain is scheduled like the first. */
  lemma ChainSchedule(cal: Calendar, s: State, id: nat, js: seq<nat>, m: nat)
    requires Inv(cal, s) && Chain(s.trace, id, js) && m < |js|
    ensures var snap := s.trace[js[m]].snap;
      && snap < |s.trace| && IsRead(s.trace[snap], id)
      && var p, q := ChainRow(s.trace, id, js), s.trace[snap].page[id];
      p.dbMode == q.dbMode && p.cronExpr == q.cronExpr && p.intervalSec == q.intervalSec
  {
    WinFacts(cal, s, js[0]);
    WinFacts(cal, s, js[m]);
    ChainReads(cal, s, id, js, m);
    var x, y := s.trace[js[0]].snap, s.trace[js[m]].snap;
    SameSchedule(s.trace, x, y, id, s.trace[x].page[id], s.trace[y].page[id]);
  }

  /** Two neighbouring runs of a chain, by its schedule. */
  lemma ChainStep(cal: Calendar, s: State, id: nat, js: seq<nat>, m: nat)
    requires Inv(cal, s) && Chain(s.trace, id, js) && 0 < m < |js|
    ensures var e, f, row := s.trace[js[m - 1]], s.trace[js[m]], ChainRow(s.trace, id, js);
      && (row.dbMode == DB_TIME_INTERVAL ==> f.at >= e.at + row.intervalSec)
      && (row.dbMode == DB_TIME_CRON ==> row.cronExpr in cal && e.planned in cal[row.cronExpr])
      && (row.dbMode == DB_TIME_CRON ==> e.at < e.planned <= f.at)
  {
    var i, j := js[m - 1], js[m];
    ChainSchedule(cal, s, id, js, m - 1);
    ChainReads(cal, s, id, js, m - 1);
    WinPlans(cal, s, i);
    WinFacts(cal, s, js[0]);
    NextRunWaitsForPlan(cal, s, i, j, id);
  }

  ghost predicate Wins(tr: Trace, js: seq<nat>) {
    forall k :: 0 <= k < |js| ==> js[k] < |tr| && tr[js[k]].Won?
  }

  ghost predicate SpacedAt(tr: Trace, js: seq<nat>, interval: int, k: nat)
    requires Wins(tr, js)
  {
    0 < k < |js| ==> tr[js[k]].at >= tr[js[k - 1]].at + interval
  }

  lemma {:induction false} SpacedSum(tr: Trace, js: seq<nat>, interval: int)
    requires Wins(tr, js) && (forall k :: SpacedAt(tr, js, interval, k)) && |js| > 0
    ensures tr[js[|js| - 1]].at - tr[js[0]].at >= (|js| - 1) * interval
    decreases |js|
  {
    if |js| > 1 {
      var front := js[..|js| - 1];
      forall k: nat
        ensures SpacedAt(tr, front, interval, k)
      {
        assert SpacedAt(tr, js, interval, k);
      }
      SpacedSum(tr, front, interval);
      assert SpacedAt(tr, js, interval, |js| - 1);
      OneMoreInterval(|js| - 1, interval);
    }
  }

  lemma OneMoreInterval(n: nat, interval: int)
    ensures n * interval == (n - 1) * interval + interval
  {
  }

  /** n consecutive runs of an interval task take at least n - 1 intervals, whichever nodes and clocks win them. */
  lemma IntervalRate(cal: Calendar, s: State, id: nat, js: seq<nat>)
    requires Inv(cal, s) && Chain(s.trace, id, js) && ChainRow(s.trace, id, js).dbMode == DB_TIME_INTERVAL
    ensures s.trace[js[|js| - 1]].at - s.trace[js[0]].at >= (|js| - 1) * ChainRow(s.trace, id, js).intervalSec
  {
    var interval := ChainRow(s.trace, id, js).intervalSec;
    forall k: nat
      ensures SpacedAt(s.trace, js, interval, k)
    {
      if 0 < k < |js| {
        ChainStep(cal, s, id, js, k);
      }
    }
    SpacedSum(s.trace, js, interval);
  }

  /** `marks` holds at least the firing instants after `lo` up to and including `hi`. */
  ghost predicate Marks(marks: set<int>, fires: iset<int>, lo: int, hi: int) {
    forall f :: f in fires && lo < f <= hi ==> f in marks
  }

  /** Between run `k` and the one before lies a firing instant, the one the earlier run planned. */
  ghost predicate FiresAt(tr: Trace, js: seq<nat>, fires: iset<int>, k: nat)
    requires Wins(tr, js)
  {
    0 < k < |js| ==> var e := tr[js[k - 1]]; e.planned in fires && e.at < e.planned <= tr[js[k]].at
  }

  lemma {:induction false} FiringsCount(tr: Trace, js: seq<nat>, fires: iset<int>, marks: set<int>)
    requires Wins(tr, js) && (forall k :: FiresAt(tr, js, fires, k)) && |js| > 0
    requires Marks(marks, fires, tr[js[0]].at, tr[js[|js| - 1]].at)
    ensures tr[js[0]].at <= tr[js[|js| - 1]].at && |js| <= |marks| + 1
    decreases |js|
  {
    if |js| > 1 {
      var front, f := js[..|js| - 1], tr[js[|js| - 2]].planned;
      assert FiresAt(tr, js, fires, |js| - 1);
      FiringsFront(tr, js, front, fires);
      FiringsAscend(tr, front, fires);
      assert f in marks;
      FiringsCount(tr, front, fires, marks - {f});
    }
  }

  lemma FiringsFront(tr: Trace, js: seq<nat>, front: seq<nat>, fires: iset<int>)
    requires Wins(tr, js) && (forall k :: FiresAt(tr, js, fires, k)) && |js| > 1 && front == js[..|js| - 1]
    ensures forall k :: FiresAt(tr, front, fires, k)
  {
    forall k: nat
      ensures FiresAt(tr, front, fires, k)
    {
      assert FiresAt(tr, js, fires, k);
    }
  }

  lemma {:induction false} FiringsAscend(tr: Trace, js: seq<nat>, fires: iset<int>)
    requires Wins(tr, js) && (forall k :: FiresAt(tr, js, fires, k)) && |js| > 0
    ensures tr[js[0]].at <= tr[js[|js| - 1]].at
    decreases |js|
  {
    if |js| > 1 {
      assert FiresAt(tr, js, fires, |js| - 1);
      FiringsFront(tr, js, js[..|js| - 1], fires);
      FiringsAscend(tr, js[..|js| - 1], fires);
    }
  }

  /** A cron task runs at most once more often than its expression fires between its first and its last run. */
  lemma CronRate(cal: Calendar, s: State, id: nat, js: seq<nat>, marks: set<int>)
    requires Inv(cal, s) && Chain(s.trace, id, js)
    requires ChainRow(s.trace, id, js).dbMode == DB_TIME_CRON && ChainRow(s.trace, id, js).cronExpr in cal
    requires Marks(marks, cal[ChainRow(s.trace, id, js).cronExpr], s.trace[js[0]].at, s.trace[js[|js| - 1]].at)
    ensures s.trace[js[0]].at <= s.trace[js[|js| - 1]].at && |js| <= |marks| + 1
  {
    var fires := cal[ChainRow(s.trace, id, js).cronExpr];
    forall k: nat
      ensures FiresAt(s.trace, js, fires, k)
    {
      if 0 < k < |js| {
        ChainStep(cal, s, id, js, k);
      }
    }
    FiringsCount(s.trace, js, fires, marks);
  }

  // ---------------------------------------------------------------- stops

  /** After a stop no lock on the task wins, by any snapshot on any node, until an add revives the row. */
  lemma StopHolds(cal: Calendar, s: State, st: nat, j: nat, id: nat)
    requires Inv(cal, s) && st < j < |s.trace| && IsStop(s.trace[st], id) && IsWon(s.trace[j], id)
    ensures exists k :: st < k < j && IsAdd(s.trace[k], id)
  {
    assert WinAgrees(cal, s.trace, j);
    assert !NoAdd(s.trace, id, st + 1, j);
  }

  /** The same, seen from the present: while the last stop stands, every compare-and-set on the task fails. */
  lemma StoppedMeansLocked(cal: Calendar, s: State, st: nat, id: nat, lastRunAt: int, runTimes: nat)
    requires Inv(cal, s) && st < |s.trace| && IsStop(s.trace[st], id) && NoAddSince(s.trace, id, st)
    ensures !CasMatches(s.tab, id, lastRunAt, runTimes)
  {
    if id in s.tab.rows {
      assert RowAgrees(s.trace, id, s.tab.rows[id]);
    }
  }
}
