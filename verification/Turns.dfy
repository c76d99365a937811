/** What a worker does in one turn, in every run of the system: its clock readings, its one callback and its report. */
module Turns {
  import opened TaskTables
  import opened RunLog
  import E = Engine
  import opened C = Cluster
  import P = ClusterProofs
  import CT = ClusterTheorems

  // ---------------------------------------------------------------- whose step it is

  /** The step is one of worker `w` of node `n`. */
  predicate IsMoveOf(m: Move, n: nat, w: nat) {
    match m
    case Local(k, a) => k == n && E.Moves(a) && a.w == w
    case ReadNow(k, v, _) => k == n && v == w
    case ReadNext(k, v, _, _) => k == n && v == w
    case Lock(k, v) => k == n && v == w
    case InsertLog(k, v, _) => k == n && v == w
    case CallBack(k, v, _, _) => k == n && v == w
    case WriteCallbackLog(k, v, _, _) => k == n && v == w
    case WriteConfirmedLog(k, v, _, _) => k == n && v == w
    case _ => false
  }

  lemma ActFrame(s: Sys, k: nat, a: E.Action, now: int, n: nat, w: nat)
    requires k in s.nodes && E.Enabled(s.nodes[k].eng, a) && Has(s, n, w)
    ensures Has(Act(s, k, a, now), n, w)
    ensures !(k == n && E.Moves(a) && a.w == w) ==> Pc(Act(s, k, a, now), n, w) == Pc(s, n, w)
  {
    E.OneMoves(s.nodes[k].eng, a);
  }

  /** A worker is where it was unless the step is its own. */
  lemma PcFrame(cal: Calendar, s: Sys, u: Sys, m: Move, n: nat, w: nat)
    requires C.Step(cal, s, u, m) && Has(s, n, w)
    ensures Has(u, n, w) && (!IsMoveOf(m, n, w) ==> Pc(u, n, w) == Pc(s, n, w))
  {
    match m
    case Local(k, a) => ActFrame(s, k, a, s.nodes[k].clock, n, w);
    case SelectDue(k, at) =>
      ActFrame(s, k, E.Select(DuePage(s.p.tab, s.nodes[k].eng.cursor, at, E.PAGE_SIZE), |s.p.trace|),
               s.nodes[k].clock, n, w);
    case DeliverPage(k, order) => ActFrame(s, k, P.Delivery(s, k, order), s.nodes[k].clock, n, w);
    case ReadNow(k, v, now) => ActFrame(s, k, E.ReadNow(v, now), now, n, w);
    case ReadNext(k, v, now, next) => ActFrame(s, k, E.ReadNext(v, now, next), now, n, w);
    case Lock(k, v) => ActFrame(s, k, E.WinLock(v), s.nodes[k].clock, n, w);
    case InsertLog(k, v, _) => ActFrame(s, k, E.SaveLog(v), s.nodes[k].clock, n, w);
    case CallBack(k, v, answer, failed) => ActFrame(s, k, E.CallBack(v, answer, failed), s.nodes[k].clock, n, w);
    case WriteCallbackLog(k, v, _, _) =>
      var (key, status, extra) := ReportOf(Pc(s, k, v).job, Pc(s, k, v).answer, Pc(s, k, v).failed);
      ActFrame(s, k, E.Report(v, key, status, extra), s.nodes[k].clock, n, w);
    case WriteConfirmedLog(k, v, _, _) => ActFrame(s, k, E.Finish(v), s.nodes[k].clock, n, w);
    case _ =>
  }

  lemma HadWorker(cal: Calendar, s: Sys, u: Sys, m: Move, n: nat, w: nat)
    requires C.Step(cal, s, u, m) && Has(u, n, w)
    ensures Has(s, n, w)
  {
    SamePools(cal, s, u, m, n);
  }

  lemma SamePools(cal: Calendar, s: Sys, u: Sys, m: Move, n: nat)
    requires C.Step(cal, s, u, m) && n in u.nodes
    ensures n in s.nodes && |u.nodes[n].eng.workers| == |s.nodes[n].eng.workers|
  {
    if n in s.nodes {
      var a := CT.EngineMove(cal, s, u, m, n);
      if a.Some? {
        E.Effects(s.nodes[n].eng, a.value);
      }
    }
  }

  // ---------------------------------------------------------------- the clock readings of a lock

  lemma ReadNowEffect(s: Sys, u: Sys, n: nat, w: nat, now: int)
    requires StepReadNow(s, u, n, w, now)
    ensures Has(s, n, w) && Has(u, n, w) && Pc(u, n, w) == E.Timed(Pc(s, n, w).job, now)
  {
  }

  lemma ReadNextEffect(cal: Calendar, s: Sys, u: Sys, n: nat, w: nat, now: int, next: int)
    requires StepReadNext(cal, s, u, n, w, now, next)
    ensures Has(s, n, w) && Has(u, n, w) && Pc(s, n, w).Timed? && PlannedAt(cal, Pc(s, n, w).job.task.sched, now, next)
    ensures Pc(u, n, w) == E.Planned(Pc(s, n, w).job, Pc(s, n, w).now, now, next)
  {
  }

  /** No other action of a worker leads to a clock reading. */
  lemma OtherActions(e: E.State, a: E.Action)
    requires E.Enabled(e, a) && E.Moves(a) && !a.ReadNow? && !a.ReadNext?
    ensures E.At(E.Next(e, a), a.w) && !E.Next(e, a).workers[a.w].Timed? && !E.Next(e, a).workers[a.w].Planned?
  {
  }

  lemma OwnStepTo(cal: Calendar, s: Sys, u: Sys, m: Move, n: nat, w: nat)
    requires C.Step(cal, s, u, m) && Has(s, n, w) && Has(u, n, w) && IsMoveOf(m, n, w)
    ensures Pc(u, n, w).Timed? ==> m == ReadNow(n, w, Pc(u, n, w).now)
    ensures var pc := Pc(u, n, w);
      pc.Planned? ==>
        && m == ReadNext(n, w, pc.nowForNext, pc.next) && Pc(s, n, w) == E.Timed(pc.job, pc.now)
        && PlannedAt(cal, pc.job.task.sched, pc.nowForNext, pc.next)
  {
    var e := s.nodes[n].eng;
    match m
    case Local(_, a) => OtherActions(e, a);
    case ReadNow(_, _, now) => ReadNowEffect(s, u, n, w, now);
    case ReadNext(_, _, now, next) => ReadNextEffect(cal, s, u, n, w, now, next);
    case Lock(_, _) => OtherActions(e, E.WinLock(w));
    case InsertLog(_, _, _) => OtherActions(e, E.SaveLog(w));
    case CallBack(_, _, answer, failed) => OtherActions(e, E.CallBack(w, answer, failed));
    case WriteCallbackLog(_, _, _, _) =>
      var (key, status, extra) := ReportOf(Pc(s, n, w).job, Pc(s, n, w).answer, Pc(s, n, w).failed);
      OtherActions(e, E.Report(w, key, status, extra));
    case WriteConfirmedLog(_, _, _, _) => OtherActions(e, E.Finish(w));
  }

  lemma {:induction false} TimedHasReading(cal: Calendar, ss: seq<Sys>, ms: seq<Move>, i: nat, n: nat, w: nat)
    returns (a: nat)
    requires C.Behaviour(cal, ss, ms) && i < |ss| && Has(ss[i], n, w) && Pc(ss[i], n, w).Timed?
    ensures a < i && ms[a] == ReadNow(n, w, Pc(ss[i], n, w).now)
    decreases i
  {
    assert i > 0;
    assert C.StepAt(cal, ss, ms, i - 1);
    HadWorker(cal, ss[i - 1], ss[i], ms[i - 1], n, w);
    PcFrame(cal, ss[i - 1], ss[i], ms[i - 1], n, w);
    if IsMoveOf(ms[i - 1], n, w) {
      OwnStepTo(cal, ss[i - 1], ss[i], ms[i - 1], n, w);
      a := i - 1;
    } else {
      a := TimedHasReading(cal, ss, ms, i - 1, n, w);
    }
  }

  lemma {:induction false} PlannedHasReadings(cal: Calendar, ss: seq<Sys>, ms: seq<Move>, i: nat, n: nat, w: nat)
    returns (a: nat, b: nat)
    requires C.Behaviour(cal, ss, ms) && i < |ss| && Has(ss[i], n, w) && Pc(ss[i], n, w).Planned?
    ensures var pc := Pc(ss[i], n, w);
      && a < b < i && ms[a] == ReadNow(n, w, pc.now) && ms[b] == ReadNext(n, w, pc.nowForNext, pc.next)
      && PlannedAt(cal, pc.job.task.sched, pc.nowForNext, pc.next)
    decreases i
  {
    assert i > 0;
    assert C.StepAt(cal, ss, ms, i - 1);
    HadWorker(cal, ss[i - 1], ss[i], ms[i - 1], n, w);
    PcFrame(cal, ss[i - 1], ss[i], ms[i - 1], n, w);
    if IsMoveOf(ms[i - 1], n, w) {
      OwnStepTo(cal, ss[i - 1], ss[i], ms[i - 1], n, w);
      b := i - 1;
      a := TimedHasReading(cal, ss, ms, i - 1, n, w);
    } else {
      a, b := PlannedHasReadings(cal, ss, ms, i - 1, n, w);
    }
  }

  /**
   The two clock readings of a lock that wins: the first, at `a`, becomes the last run of the row, and from the second,
   at `b`, the plan is computed.
   */
  lemma LockUsesReadings(cal: Calendar, ss: seq<Sys>, ms: seq<Move>, i: nat, n: nat, w: nat) returns (a: nat, b: nat)
    requires C.Behaviour(cal, ss, ms) && i < |ms| && ms[i] == Lock(n, w)
    ensures a < b < i && ms[a].ReadNow? && ms[a].n == n && ms[a].w == w
    ensures ms[b].ReadNext? && ms[b].n == n && ms[b].w == w
    ensures Has(ss[i], n, w) && Pc(ss[i], n, w).Planned?
    ensures var task := Pc(ss[i], n, w).job.task;
      && task.id in ss[i + 1].p.tab.rows && ss[i + 1].p.tab.rows[task.id].lastRunAt == ms[a].now
      && ss[i + 1].p.tab.rows[task.id].plan == ms[b].next && PlannedAt(cal, task.sched, ms[b].now, ms[b].next)
  {
    assert C.StepAt(cal, ss, ms, i);
    a, b := PlannedHasReadings(cal, ss, ms, i, n, w);
  }

  // ---------------------------------------------------------------- the callback of a logged run

  /** Some worker has inserted the log row of the key and not called back yet. */
  ghost predicate IsRunning(s: Sys, key: LogKey) {
    exists n, w :: RunsKey(s, n, w, key)
  }

  predicate RunsKey(s: Sys, n: nat, w: nat, key: LogKey) {
    Has(s, n, w) && Pc(s, n, w).Running? && KeyOf(Pc(s, n, w).job) == key
  }

  lemma NotesGrow(cal: Calendar, s: Sys, u: Sys, m: Move)
    requires C.Step(cal, s, u, m)
    ensures u.notes == s.notes || |u.notes| == |s.notes| + 1
    ensures s.notes <= u.notes
    ensures |u.notes| > |s.notes| && u.notes[|s.notes|].Saved? ==>
      m.InsertLog? && RunsKey(u, m.n, m.w, u.notes[|s.notes|].key)
  {
  }

  /** From an inserted log row the only way on is the callback. */
  lemma RunningCallsBack(cal: Calendar, s: Sys, u: Sys, m: Move, n: nat, w: nat, key: LogKey)
    requires C.Step(cal, s, u, m) && RunsKey(s, n, w, key)
    ensures RunsKey(u, n, w, key) || (|u.notes| == |s.notes| + 1 && u.notes[|s.notes|] == Called(key))
  {
    PcFrame(cal, s, u, m, n, w);
    if IsMoveOf(m, n, w) {
      OwnRunningStep(cal, s, u, m, n, w);
    }
  }

  lemma OwnRunningStep(cal: Calendar, s: Sys, u: Sys, m: Move, n: nat, w: nat)
    requires C.Step(cal, s, u, m) && Has(s, n, w) && Pc(s, n, w).Running? && IsMoveOf(m, n, w)
    ensures m.CallBack? && u.notes == s.notes + [Called(KeyOf(Pc(s, n, w).job))]
  {
  }

  lemma {:induction false} SavedIsCalled(cal: Calendar, ss: seq<Sys>, ms: seq<Move>, i: nat, x: nat, key: LogKey)
    requires C.Behaviour(cal, ss, ms) && i < |ss| && x < |ss[i].notes| && ss[i].notes[x] == Saved(key)
    ensures WasCalled(ss[i].notes, key) || IsRunning(ss[i], key)
    decreases i
  {
    assert i > 0;
    var s, u := ss[i - 1], ss[i];
    assert C.StepAt(cal, ss, ms, i - 1);
    NotesGrow(cal, s, u, ms[i - 1]);
    if x < |s.notes| {
      SavedIsCalled(cal, ss, ms, i - 1, x, key);
      if k :| 0 <= k < |s.notes| && s.notes[k] == Called(key) {
        assert u.notes[k] == Called(key);
      } else {
        var n, w :| RunsKey(s, n, w, key);
        RunningCallsBack(cal, s, u, ms[i - 1], n, w, key);
      }
    } else {
      assert RunsKey(u, ms[i - 1].n, ms[i - 1].w, key);
    }
  }

  /**
   Every run that has a log row was called back exactly once, or a worker is just about to do it: none is logged and
   then forgotten.
   */
  lemma LoggedRunIsCalled(cal: Calendar, ss: seq<Sys>, ms: seq<Move>, i: nat, key: LogKey)
    requires C.Behaviour(cal, ss, ms) && i < |ss| && key in ss[i].logs && !IsRunning(ss[i], key)
    ensures exists a :: 0 <= a < |ss[i].notes| && IsOnlyCall(ss[i].notes, a, key)
  {
    P.InvAlways(cal, ss, ms, i);
    assert LogsOk(ss[i]);
    var x :| 0 <= x < |ss[i].notes| && ss[i].notes[x] == Saved(key);
    SavedIsCalled(cal, ss, ms, i, x, key);
    var a :| 0 <= a < |ss[i].notes| && ss[i].notes[a] == Called(key);
    forall b | 0 <= b < |ss[i].notes| && ss[i].notes[b] == Called(key)
      ensures b == a
    {
      CT.CallbackAtMostOnce(cal, ss, ms, i, a, b);
    }
    assert IsOnlyCall(ss[i].notes, a, key);
  }

  ghost predicate IsOnlyCall(notes: seq<Note>, a: nat, key: LogKey) {
    a < |notes| && notes[a] == Called(key) && forall b :: 0 <= b < |notes| && notes[b] == Called(key) ==> b == a
  }

  /** A callback that has ended is logged before anything else: no answer is dropped without the statement. */
  lemma AnswerIsReported(cal: Calendar, ss: seq<Sys>, ms: seq<Move>, i: nat, n: nat, w: nat)
    requires C.Behaviour(cal, ss, ms) && i < |ms| && Has(ss[i], n, w) && Pc(ss[i], n, w).Answered?
    ensures Has(ss[i + 1], n, w)
    ensures Pc(ss[i + 1], n, w) == Pc(ss[i], n, w) || (ms[i].WriteCallbackLog? && ms[i].n == n && ms[i].w == w)
  {
    assert C.StepAt(cal, ss, ms, i);
    PcFrame(cal, ss[i], ss[i + 1], ms[i], n, w);
    if IsMoveOf(ms[i], n, w) {
      OwnAnsweredStep(cal, ss[i], ss[i + 1], ms[i], n, w);
    }
  }

  lemma OwnAnsweredStep(cal: Calendar, s: Sys, u: Sys, m: Move, n: nat, w: nat)
    requires C.Step(cal, s, u, m) && Has(s, n, w) && Pc(s, n, w).Answered? && IsMoveOf(m, n, w)
    ensures m.WriteCallbackLog? && m.n == n && m.w == w
  {
  }
}
