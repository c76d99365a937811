/**
 The promises of LockTheorems for the running system: any number of nodes that may all take themselves for the master,
 their schedulers and workers, and any API calls in between.
 */
module SystemRuns {
  import opened TaskTables
  import opened L = LockProtocol
  import opened T = LockTheorems
  import opened C = Cluster
  import CT = ClusterTheorems

  /** The committed statements up to state `i` of a run. */
  function History(ss: seq<Sys>, i: nat): Trace
    requires i < |ss|
  {
    ss[i].p.trace
  }

  /**
   The run numbers won for a task are exactly 1 .. run_times, each once and in order; the history reaches back to the
   first add, so a stop and a re-add never reuse a number.
   */
  lemma RunNumbers(cal: Calendar, ss: seq<Sys>, ms: seq<Move>, i: nat, id: nat)
    requires C.Behaviour(cal, ss, ms) && i < |ss| && id in ss[i].p.tab.rows
    ensures Numbered(History(ss, i), id, ss[i].p.tab.rows[id].runTimes)
  {
    CT.LockingHolds(cal, ss, ms, i);
    RunsAreNumbered(cal, ss[i].p, id);
  }

  /** A compare-and-set on a recorded snapshot succeeds exactly when the row is live and nothing won since the read. */
  lemma LockCriterion(cal: Calendar, ss: seq<Sys>, ms: seq<Move>, i: nat, snap: nat, id: nat)
    requires C.Behaviour(cal, ss, ms) && i < |ss| && snap < |History(ss, i)| && IsRead(History(ss, i)[snap], id)
    ensures var copy, tab := History(ss, i)[snap].page[id], ss[i].p.tab;
      && id in tab.rows
      && (CasMatches(tab, id, copy.lastRunAt, copy.runTimes) <==>
            !tab.rows[id].deleted && NoWin(History(ss, i), id, snap, |History(ss, i)|))
  {
    CT.LockingHolds(cal, ss, ms, i);
    LockWinsIff(cal, ss[i].p, snap, id);
  }

  /**
   Of two wins of a task the later one's snapshot was read after the earlier win: no stale copy wins, none wins twice.
   */
  lemma NoStaleWin(cal: Calendar, ss: seq<Sys>, ms: seq<Move>, i: nat, a: nat, b: nat, id: nat)
    requires C.Behaviour(cal, ss, ms) && i < |ss| && a < b < |History(ss, i)|
    requires IsWon(History(ss, i)[a], id) && IsWon(History(ss, i)[b], id)
    ensures a < History(ss, i)[b].snap < b
  {
    CT.LockingHolds(cal, ss, ms, i);
    WinnersReadLate(cal, ss[i].p, a, b, id);
  }

  /** After a one-shot add at most one lock wins until the next add. */
  lemma OneShotOnce(cal: Calendar, ss: seq<Sys>, ms: seq<Move>, i: nat, add: nat, a: nat, b: nat, id: nat)
    requires C.Behaviour(cal, ss, ms) && i < |ss| && add < a < b < |History(ss, i)|
    requires IsOneShotAdd(History(ss, i)[add], id) && IsWon(History(ss, i)[a], id) && IsWon(History(ss, i)[b], id)
    ensures exists k :: add < k < b && IsAdd(History(ss, i)[k], id)
  {
    CT.LockingHolds(cal, ss, ms, i);
    OneShotBudget(cal, ss[i].p, add, a, b, id);
  }

  /** A task that was only ever added as one-shot has run no more often than it was added. */
  lemma OneShotWithinAdds(cal: Calendar, ss: seq<Sys>, ms: seq<Move>, i: nat, id: nat)
    requires C.Behaviour(cal, ss, ms) && i < |ss| && id in ss[i].p.tab.rows && AllOneShot(History(ss, i), id)
    ensures ss[i].p.tab.rows[id].runTimes <= AddCount(History(ss, i), id)
  {
    CT.LockingHolds(cal, ss, ms, i);
    OneShotRunsWithinAdds(cal, ss[i].p, id);
  }

  /** The first run after an add does not start before the added plan, if it relies on a copy read after the add. */
  lemma NotBeforePlan(cal: Calendar, ss: seq<Sys>, ms: seq<Move>, i: nat, add: nat, b: nat, id: nat)
    requires C.Behaviour(cal, ss, ms) && i < |ss| && add < b < |History(ss, i)|
    requires IsAdd(History(ss, i)[add], id) && IsWon(History(ss, i)[b], id) && add < History(ss, i)[b].snap
    requires NoAdd(History(ss, i), id, add + 1, History(ss, i)[b].snap)
    requires NoWin(History(ss, i), id, add + 1, History(ss, i)[b].snap)
    ensures History(ss, i)[b].at >= History(ss, i)[add].row.plan
  {
    CT.LockingHolds(cal, ss, ms, i);
    NeverEarly(cal, ss[i].p, add, b, id);
  }

  /**
   A run before the plan of the last add relies on a copy read before that add, or follows a run that does. By
   `LockCriterion` such a copy wins exactly when the row is live and nothing has won since it was read.
   */
  lemma EarlyOnlyByStaleCopy(cal: Calendar, ss: seq<Sys>, ms: seq<Move>, i: nat, add: nat, b: nat, id: nat)
    requires C.Behaviour(cal, ss, ms) && i < |ss| && add < b < |History(ss, i)|
    requires IsAdd(History(ss, i)[add], id) && IsWon(History(ss, i)[b], id) && NoAdd(History(ss, i), id, add + 1, b)
    requires History(ss, i)[add].row.intervalSec >= 0 && History(ss, i)[b].at < History(ss, i)[add].row.plan
    ensures exists j :: add < j <= b && IsWon(History(ss, i)[j], id) && History(ss, i)[j].snap < add
  {
    CT.LockingHolds(cal, ss, ms, i);
    EarlyFollowsStale(cal, ss[i].p, add, b, id);
  }

  /**
   Of two consecutive runs the second is not before the plan written by the first, unless the task was added again.
   */
  lemma NotBeforeNextPlan(cal: Calendar, ss: seq<Sys>, ms: seq<Move>, i: nat, a: nat, b: nat, id: nat)
    requires C.Behaviour(cal, ss, ms) && i < |ss| && a < b < |History(ss, i)|
    requires IsWon(History(ss, i)[a], id) && IsWon(History(ss, i)[b], id)
    requires NoWin(History(ss, i), id, a + 1, b) && NoAdd(History(ss, i), id, a + 1, History(ss, i)[b].snap)
    ensures History(ss, i)[b].at >= History(ss, i)[a].planned
  {
    CT.LockingHolds(cal, ss, ms, i);
    NextRunWaitsForPlan(cal, ss[i].p, a, b, id);
  }

  /** n consecutive runs of an interval task span at least n - 1 intervals, whichever nodes and clocks win them. */
  lemma IntervalSpacing(cal: Calendar, ss: seq<Sys>, ms: seq<Move>, i: nat, id: nat, js: seq<nat>)
    requires C.Behaviour(cal, ss, ms) && i < |ss| && Chain(History(ss, i), id, js)
    requires ChainRow(History(ss, i), id, js).dbMode == DB_TIME_INTERVAL
    ensures var tr := History(ss, i);
      tr[js[|js| - 1]].at - tr[js[0]].at >= (|js| - 1) * ChainRow(tr, id, js).intervalSec
  {
    CT.LockingHolds(cal, ss, ms, i);
    IntervalRate(cal, ss[i].p, id, js);
  }

  /**
   The consecutive runs of a cron task outnumber the firing instants between the first and the last by at most one.
   */
  lemma CronSpacing(cal: Calendar, ss: seq<Sys>, ms: seq<Move>, i: nat, id: nat, js: seq<nat>, marks: set<int>)
    requires C.Behaviour(cal, ss, ms) && i < |ss| && Chain(History(ss, i), id, js)
    requires ChainRow(History(ss, i), id, js).dbMode == DB_TIME_CRON && ChainRow(History(ss, i), id, js).cronExpr in cal
    requires var tr := History(ss, i);
      Marks(marks, cal[ChainRow(tr, id, js).cronExpr], tr[js[0]].at, tr[js[|js| - 1]].at)
    ensures |js| <= |marks| + 1
  {
    CT.LockingHolds(cal, ss, ms, i);
    CronRate(cal, ss[i].p, id, js, marks);
  }

  /** After a stop no lock on the task wins, by any snapshot on any node, until an add revives the row. */
  lemma StopUntilAdd(cal: Calendar, ss: seq<Sys>, ms: seq<Move>, i: nat, st: nat, b: nat, id: nat)
    requires C.Behaviour(cal, ss, ms) && i < |ss| && st < b < |History(ss, i)|
    requires IsStop(History(ss, i)[st], id) && IsWon(History(ss, i)[b], id)
    ensures exists k :: st < k < b && IsAdd(History(ss, i)[k], id)
  {
    CT.LockingHolds(cal, ss, ms, i);
    StopHolds(cal, ss[i].p, st, b, id);
  }
}
