/**
 What the answer of a callback does to the log: the callback log, the worker's confirmation and the confirmations of the
 API, each by the numbers of the status column, 1 for running, 2 for success and 3 for failure.
 */
module Reports {
  import opened TaskTables
  import opened RunLog
  import E = Engine
  import opened C = Cluster
  import T = Turns
  import CT = ClusterTheorems

  /** What an answer means for the run: a success, a run that goes on in the background, or a failure. */
  function Outcome(a: Answer): Status {
    match a
    case Answer(true, _, _) => StatusSuccess
    case Answer(false, true, _) => StatusRunning
    case Answer(false, false, _) => StatusFailed
  }

  // ---------------------------------------------------------------- one turn without interruption

  lemma TurnBegins(s: Sys, u: Sys, v: Sys, n: nat, w: nat, t: int, answer: Answer, failed: bool)
    requires StepInsertLog(s, u, n, w, t) && StepCallBack(u, v, n, w, answer, failed)
    ensures Has(s, n, w) && Pc(s, n, w).Holding? && Has(v, n, w)
    ensures var job := Pc(s, n, w).job;
      && Pc(v, n, w) == E.Answered(job, answer, failed) && KeyOf(job) !in s.logs
      && v.logs == s.logs[KeyOf(job) := LogRow(1, t, 0, job.task.srv.id, false, "")]
  {
  }

  lemma CallbackIsLogged(s: Sys, u: Sys, n: nat, w: nat, job: E.Job, answer: Answer, failed: bool, at: int)
    requires Has(s, n, w) && Pc(s, n, w) == E.Answered(job, answer, failed) && StepCallbackLog(s, u, n, w, true, at)
    ensures Has(u, n, w) && Pc(u, n, w).Marking? && Tells(Pc(u, n, w), job, answer, failed)
    ensures KeyOf(job) in s.logs ==>
      u.logs == s.logs[KeyOf(job) := AfterCallback(s.logs[KeyOf(job)], Outcome(answer), answer.isRunInAsync, at)]
  {
  }

  /** The report that follows an answer; an internal error is reported for run 0. */
  predicate Tells(pc: E.WorkerPc, job: E.Job, answer: Answer, failed: bool)
    requires pc.Marking? || pc.Confirming?
  {
    && pc.job == job
    && (failed ==> pc.key == LogKey(job.task.id, 0) && pc.status == StatusFailed)
    && (!failed ==> pc.key == LogKey(job.task.id, job.task.runTimes + 1))
    && (!failed ==> pc.status == Outcome(answer) && pc.extra == answer.extra)
  }

  lemma RunIsConfirmed(s: Sys, u: Sys, n: nat, w: nat, job: E.Job, answer: Answer, failed: bool, ok: bool, at: int)
    requires Has(s, n, w) && Pc(s, n, w).Confirming? && Tells(Pc(s, n, w), job, answer, failed)
    requires StepConfirmedLog(s, u, n, w, ok, at) && LogKey(job.task.id, 0) !in s.logs
    ensures failed || !ok ==> u.logs == s.logs
    ensures !failed && ok && KeyOf(job) in s.logs ==>
      u.logs == s.logs[KeyOf(job) := AfterConfirmation(s.logs[KeyOf(job)], Outcome(answer), answer.extra, at)]
  {
  }

  lemma NoRunZero(cal: Calendar, ss: seq<Sys>, ms: seq<Move>, i: nat, id: nat)
    requires C.Behaviour(cal, ss, ms) && i < |ss|
    ensures LogKey(id, 0) !in ss[i].logs
  {
    if LogKey(id, 0) in ss[i].logs {
      CT.LogKeysInRange(cal, ss, ms, i, LogKey(id, 0));
    }
  }

  /** The five steps of a turn from the insert of the log row on, one right after the other. */
  predicate TurnAt(ms: seq<Move>, i: nat, n: nat, w: nat, answer: Answer, failed: bool, ok: bool, at: (int, int, int)) {
    && i + 5 <= |ms| && ms[i] == InsertLog(n, w, at.0) && ms[i + 1] == CallBack(n, w, answer, failed)
    && ms[i + 2] == WriteCallbackLog(n, w, true, at.1) && ms[i + 3] == Local(n, E.Mark(w))
    && ms[i + 4] == WriteConfirmedLog(n, w, ok, at.2)
  }

  lemma MarkStep(s: Sys, u: Sys, n: nat, w: nat, job: E.Job, answer: Answer, failed: bool)
    requires Has(s, n, w) && Pc(s, n, w).Marking? && Tells(Pc(s, n, w), job, answer, failed)
    requires StepLocal(s, u, n, E.Mark(w))
    ensures Has(u, n, w) && Pc(u, n, w).Confirming? && Tells(Pc(u, n, w), job, answer, failed) && u.logs == s.logs
  {
  }

  /**
   A turn that nobody interrupts leaves the log row with the outcome of the answer, the times of its statements and the
   server of the task, and changes no other row; after an internal error the confirmation changes no row at all.
   */
  lemma TurnLog(cal: Calendar, ss: seq<Sys>, ms: seq<Move>, i: nat, n: nat, w: nat, answer: Answer, failed: bool,
                ok: bool, at: (int, int, int))
    requires C.Behaviour(cal, ss, ms) && TurnAt(ms, i, n, w, answer, failed, ok, at)
    ensures Has(ss[i], n, w) && Pc(ss[i], n, w).Holding?
    ensures var job := Pc(ss[i], n, w).job;
      ss[i + 5].logs == ss[i].logs[LogKey(job.task.id, job.task.runTimes + 1) :=
        RowAfterTurn(job.task.srv.id, answer, at.0, at.1, at.2, !failed && ok)]
  {
    StepsOfTurn(cal, ss, ms, i, n, w, answer, failed, ok, at);
    TurnBegins(ss[i], ss[i + 1], ss[i + 2], n, w, at.0, answer, failed);
    var job := Pc(ss[i], n, w).job;
    CallbackIsLogged(ss[i + 2], ss[i + 3], n, w, job, answer, failed, at.1);
    MarkStep(ss[i + 3], ss[i + 4], n, w, job, answer, failed);
    NoRunZero(cal, ss, ms, i + 4, job.task.id);
    RunIsConfirmed(ss[i + 4], ss[i + 5], n, w, job, answer, failed, ok, at.2);
    RowsOfTurn(ss[i].logs, ss[i + 3].logs, ss[i + 5].logs, KeyOf(job), job.task.srv.id, answer, at, !failed && ok);
  }

  lemma RowsOfTurn(logs: Logs, called: Logs, after: Logs, key: LogKey, srvId: nat, answer: Answer, at: (int, int, int),
                   confirms: bool)
    requires var begun := LogRow(1, at.0, 0, srvId, false, "");
      called == logs[key := begun][key := AfterCallback(begun, Outcome(answer), answer.isRunInAsync, at.1)]
    requires if confirms
      then after == called[key := AfterConfirmation(called[key], Outcome(answer), answer.extra, at.2)]
      else after == called
    ensures after == logs[key := RowAfterTurn(srvId, answer, at.0, at.1, at.2, confirms)]
  {
  }

  lemma StepsOfTurn(cal: Calendar, ss: seq<Sys>, ms: seq<Move>, i: nat, n: nat, w: nat, answer: Answer, failed: bool,
                    ok: bool, at: (int, int, int))
    requires C.Behaviour(cal, ss, ms) && TurnAt(ms, i, n, w, answer, failed, ok, at)
    ensures StepInsertLog(ss[i], ss[i + 1], n, w, at.0) && StepCallBack(ss[i + 1], ss[i + 2], n, w, answer, failed)
    ensures StepCallbackLog(ss[i + 2], ss[i + 3], n, w, true, at.1) && StepLocal(ss[i + 3], ss[i + 4], n, E.Mark(w))
    ensures StepConfirmedLog(ss[i + 4], ss[i + 5], n, w, ok, at.2)
  {
    assert C.StepAt(cal, ss, ms, i) && C.StepAt(cal, ss, ms, i + 1) && C.StepAt(cal, ss, ms, i + 2);
    assert C.StepAt(cal, ss, ms, i + 3) && C.StepAt(cal, ss, ms, i + 4);
  }

  // ---------------------------------------------------------------- with anything in between

  /** The worker is on its way from the answer to the confirmation, and holds what follows from the answer. */
  predicate OnItsWay(pc: E.WorkerPc, job: E.Job, answer: Answer, failed: bool) {
    match pc
    case Answered(j, a, f) => j == job && a == answer && f == failed
    case Marking(_, _, _, _) => Tells(pc, job, answer, failed)
    case Confirming(_, _, _, _) => Tells(pc, job, answer, failed)
    case _ => false
  }

  predicate BeforeConfirmation(pc: E.WorkerPc) {
    pc.Answered? || pc.Marking? || pc.Confirming?
  }

  lemma OwnAction(e: E.State, a: E.Action)
    requires E.Enabled(e, a) && E.Moves(a) && BeforeConfirmation(e.workers[a.w])
    requires E.At(E.Next(e, a), a.w) && BeforeConfirmation(E.Next(e, a).workers[a.w])
    ensures a.Report? || a.Mark?
  {
  }

  lemma OwnKinds(cal: Calendar, s: Sys, u: Sys, m: Move, n: nat, w: nat)
    requires C.Step(cal, s, u, m) && Has(s, n, w) && T.IsMoveOf(m, n, w) && BeforeConfirmation(Pc(s, n, w))
    ensures m.Local? || m.WriteCallbackLog? || m.WriteConfirmedLog?
  {
  }

  /** Its own steps are the callback log, the mark, and the end of its turn. */
  lemma OwnStep(cal: Calendar, s: Sys, u: Sys, m: Move, n: nat, w: nat)
    requires C.Step(cal, s, u, m) && Has(s, n, w) && Has(u, n, w) && T.IsMoveOf(m, n, w)
    requires BeforeConfirmation(Pc(s, n, w)) && BeforeConfirmation(Pc(u, n, w))
    ensures m.WriteCallbackLog? || m == Local(n, E.Mark(w))
  {
    OwnKinds(cal, s, u, m, n, w);
    if m.Local? {
      OwnAction(s.nodes[n].eng, m.a);
    } else if m.WriteConfirmedLog? {
      OwnAction(s.nodes[n].eng, E.Finish(w));
    }
  }

  lemma StaysOnItsWay(cal: Calendar, s: Sys, u: Sys, m: Move, n: nat, w: nat, job: E.Job, answer: Answer, failed: bool)
    requires C.Step(cal, s, u, m) && Has(s, n, w) && Has(u, n, w) && OnItsWay(Pc(s, n, w), job, answer, failed)
    requires BeforeConfirmation(Pc(u, n, w))
    ensures OnItsWay(Pc(u, n, w), job, answer, failed)
  {
    T.PcFrame(cal, s, u, m, n, w);
    if T.IsMoveOf(m, n, w) {
      OwnStep(cal, s, u, m, n, w);
      if m.WriteCallbackLog? {
        ReportIsTold(s, u, n, w, job, answer, failed, m.ok, m.at);
      } else {
        MarkStep(s, u, n, w, job, answer, failed);
      }
    }
  }

  lemma ReportIsTold(s: Sys, u: Sys, n: nat, w: nat, job: E.Job, answer: Answer, failed: bool, ok: bool, at: int)
    requires Has(s, n, w) && StepCallbackLog(s, u, n, w, ok, at) && OnItsWay(Pc(s, n, w), job, answer, failed)
    ensures Has(u, n, w) && OnItsWay(Pc(u, n, w), job, answer, failed)
  {
  }

  /** From state `a` to state `b` the worker has not come back from its report. */
  ghost predicate Reporting(ss: seq<Sys>, a: nat, b: nat, n: nat, w: nat) {
    forall k :: a <= k <= b && k < |ss| ==> Has(ss[k], n, w) && BeforeConfirmation(Pc(ss[k], n, w))
  }

  lemma {:induction false} HoldsItsAnswer(cal: Calendar, ss: seq<Sys>, ms: seq<Move>, a: nat, b: nat, n: nat, w: nat)
    requires C.Behaviour(cal, ss, ms) && a <= b < |ss| && Reporting(ss, a, b, n, w)
    requires Has(ss[a], n, w) && Pc(ss[a], n, w).Answered?
    ensures var pc := Pc(ss[a], n, w); Has(ss[b], n, w) && OnItsWay(Pc(ss[b], n, w), pc.job, pc.answer, pc.failed)
    decreases b
  {
    if a < b {
      var pc := Pc(ss[a], n, w);
      HoldsItsAnswer(cal, ss, ms, a, b - 1, n, w);
      assert C.StepAt(cal, ss, ms, b - 1);
      StaysOnItsWay(cal, ss[b - 1], ss[b], ms[b - 1], n, w, pc.job, pc.answer, pc.failed);
    }
  }

  /**
   Whatever happens between the answer of a callback, at `a`, and the worker's confirmation of it, at `b`: after an
   internal error the confirmation changes no log row, and otherwise it reports the outcome of the answer on the row of
   the run.
   */
  lemma ConfirmationTellsAnswer(cal: Calendar, ss: seq<Sys>, ms: seq<Move>, a: nat, b: nat, n: nat, w: nat, ok: bool,
                                at: int)
    requires C.Behaviour(cal, ss, ms) && a <= b < |ms| && Reporting(ss, a, b, n, w)
    requires Has(ss[a], n, w) && Pc(ss[a], n, w).Answered? && ms[b] == WriteConfirmedLog(n, w, ok, at)
    ensures var pc := Pc(ss[a], n, w);
      var key := LogKey(pc.job.task.id, pc.job.task.runTimes + 1);
      && (pc.failed || !ok ==> ss[b + 1].logs == ss[b].logs)
      && (!pc.failed && ok && key in ss[b].logs ==>
            ss[b + 1].logs == ss[b].logs[key :=
              AfterConfirmation(ss[b].logs[key], Outcome(pc.answer), pc.answer.extra, at)])
  {
    var pc := Pc(ss[a], n, w);
    HoldsItsAnswer(cal, ss, ms, a, b, n, w);
    NoRunZero(cal, ss, ms, b, pc.job.task.id);
    assert C.StepAt(cal, ss, ms, b);
    RunIsConfirmed(ss[b], ss[b + 1], n, w, pc.job, pc.answer, pc.failed, ok, at);
  }

  /** A callback log reports the outcome of its answer, whatever the confirmations said before. */
  lemma CallbackLogTellsAnswer(cal: Calendar, ss: seq<Sys>, ms: seq<Move>, i: nat, n: nat, w: nat, at: int)
    requires C.Behaviour(cal, ss, ms) && i < |ms| && ms[i] == WriteCallbackLog(n, w, true, at)
    ensures Has(ss[i], n, w) && Pc(ss[i], n, w).Answered?
    ensures var pc := Pc(ss[i], n, w);
      var key := LogKey(pc.job.task.id, pc.job.task.runTimes + 1);
      key in ss[i].logs ==> ss[i + 1].logs == ss[i].logs[key :=
        AfterCallback(ss[i].logs[key], Outcome(pc.answer), pc.answer.isRunInAsync, at)]
  {
    assert C.StepAt(cal, ss, ms, i);
    var pc := Pc(ss[i], n, w);
    CallbackIsLogged(ss[i], ss[i + 1], n, w, pc.job, pc.answer, pc.failed, at);
  }

  /** A confirmation by the API reports what it was given on the row of its key, if there is one, and on no other. */
  lemma ApiConfirms(cal: Calendar, ss: seq<Sys>, ms: seq<Move>, i: nat, key: LogKey, isSuccess: bool, extra: string,
                    at: int)
    requires C.Behaviour(cal, ss, ms) && i < |ms| && ms[i] == ConfirmByApi(key, isSuccess, extra, true, at)
    ensures key !in ss[i].logs ==> ss[i + 1].logs == ss[i].logs
    ensures key in ss[i].logs ==> ss[i + 1].logs == ss[i].logs[key :=
      ss[i].logs[key].(status := if isSuccess then 2 else 3, endedAt := at, respExtra := extra)]
  {
    assert C.StepAt(cal, ss, ms, i);
  }
}
