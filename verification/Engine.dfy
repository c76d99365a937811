/**
 One node's worker engine as a state machine: the scheduler loop of internal/task/sched.go, the pool and the stop
 sequence of internal/task/worker.go. Each action is one channel handoff, one flag or counter access, or one call
 into the repository or the callback, whose outcome is an argument of the action.
 */
module Engine {
  import opened TaskTables
  import opened RunLog

  const PAGE_SIZE := 1000

  /** A task in the hands of the node; `snap` names the read it was copied from. */
  datatype Job = Job(task: Task, snap: nat)

  datatype SchedPc =
    /** At the select on the exit channel. */
    | Top
    /** Past the select, before the due-row SELECT. */
    | Checked
    /** The due rows are read, the join with the servers is still to come. */
    | Selected(ids: seq<nat>, snap: nat)
    /** In the loop that sends the page to the workers. */
    | Sending(jobs: seq<Job>)
    | Left

  datatype WorkerPc =
    | Ready
    | Got(job: Job)
    /** Inside LockTask: after the first clock reading, and after the next time was computed. */
    | Timed(job: Job, now: int)
    | Planned(job: Job, now: int, nowForNext: int, next: int)
    /** The compare-and-set won; the log row is still to be inserted. */
    | Holding(job: Job)
    | Running(job: Job)
    /** The callback was issued and has ended. */
    | Answered(job: Job, answer: Answer, failed: bool)
    /** ConfirmTask before its statement on the task row, and before its statement on the log. */
    | Marking(job: Job, key: LogKey, status: Status, extra: string)
    | Confirming(job: Job, key: LogKey, status: Status, extra: string)
    | Exited
    /** Returned early on a task without routes, without telling the wait group. */
    | Lost(job: Job)

  datatype StopPc = Idle | Requested | Signalled | Waiting | Returned

  datatype Receipt = Receipt(worker: nat, job: Job)

  /** `emitted`, `received` and `finished` are the history of the task channel. */
  datatype State = State(
    sched: SchedPc, cursor: nat, workers: seq<WorkerPc>, paused: bool, wg: int, stop: StopPc,
    emitted: seq<Job>, received: seq<Receipt>, finished: seq<Job>)

  datatype Action =
    | RequestStop | TakeExit | SetPaused | WaitReturn
    | Poll | NotMaster | Select(ids: seq<nat>, snap: nat) | ReadError | Deliver(jobs: seq<Job>, nextCursor: nat)
    | Handoff(w: nat) | Tick(w: nat) | DropRouteless(w: nat)
    | ReadNow(w: nat, now: int) | ReadNext(w: nat, nowForNext: int, next: int)
    | WinLock(w: nat) | SaveLog(w: nat) | CallBack(w: nat, answer: Answer, failed: bool)
    | Report(w: nat, key: LogKey, status: Status, extra: string) | Mark(w: nat)
    /** Back to waiting: a lost race, an error, or the end of the turn. */
    | Finish(w: nat)

  function Init(pool: nat): State {
    State(Top, 0, seq(pool, _ => Ready), false, pool, Idle, [], [], [])
  }

  predicate At(e: State, w: nat) {
    w < |e.workers|
  }

  predicate MayFinish(p: WorkerPc) {
    p.Timed? || p.Planned? || p.Holding? || p.Marking? || p.Confirming?
  }

  predicate Enabled(e: State, a: Action) {
    match a
    case RequestStop => e.stop == Idle
    case TakeExit => e.sched == Top && e.stop == Requested
    case SetPaused => e.stop == Signalled
    case WaitReturn => e.stop == Waiting && e.wg == 0
    // a select with a default takes it only when no sender waits on the exit channel
    case Poll => e.sched == Top && e.stop != Requested
    case NotMaster => e.sched == Checked
    case Select(ids, _) => e.sched == Checked && |ids| <= PAGE_SIZE
    case ReadError => e.sched == Checked || e.sched.Selected?
    case Deliver(jobs, _) => e.sched.Selected? && |jobs| <= |e.sched.ids|
    case Handoff(w) => e.sched.Sending? && e.sched.jobs != [] && At(e, w) && e.workers[w] == Ready
    case Tick(w) => At(e, w) && e.workers[w] == Ready
    case DropRouteless(w) => At(e, w) && e.workers[w].Got? && e.workers[w].job.task.srv.routes == []
    case ReadNow(w, _) => At(e, w) && e.workers[w].Got? && e.workers[w].job.task.srv.routes != []
    case ReadNext(w, _, _) => At(e, w) && e.workers[w].Timed?
    case WinLock(w) => At(e, w) && e.workers[w].Planned?
    case SaveLog(w) => At(e, w) && e.workers[w].Holding?
    case CallBack(w, _, _) => At(e, w) && e.workers[w].Running?
    case Report(w, _, _, _) => At(e, w) && e.workers[w].Answered?
    case Mark(w) => At(e, w) && e.workers[w].Marking?
    case Finish(w) => At(e, w) && MayFinish(e.workers[w])
  }

  function Put(e: State, w: nat, p: WorkerPc): State
    requires At(e, w)
  {
    e.(workers := e.workers[w := p])
  }

  function Next(e: State, a: Action): State
    requires Enabled(e, a)
  {
    match a
    case RequestStop => e.(stop := Requested)
    case TakeExit => e.(sched := Left, stop := Signalled)
    case SetPaused => e.(paused := true, stop := Waiting)
    case WaitReturn => e.(stop := Returned)
    case Poll => e.(sched := Checked)
    case NotMaster => e.(sched := Top)
    case Select(ids, snap) => e.(sched := Selected(ids, snap))
    case ReadError => e.(sched := Top)
    case Deliver(jobs, nextCursor) =>
      if jobs == [] then e.(sched := Top, cursor := 0)
      else e.(sched := Sending(jobs), cursor := nextCursor, emitted := e.emitted + jobs)
    case Handoff(w) =>
      var job, rest := e.sched.jobs[0], e.sched.jobs[1..];
      var sent := e.(sched := if rest == [] then Top else Sending(rest), received := e.received + [Receipt(w, job)]);
      Put(sent, w, Got(job))
    case Tick(w) => if e.paused then Put(e.(wg := e.wg - 1), w, Exited) else e
    case DropRouteless(w) => Put(e, w, Lost(e.workers[w].job))
    case ReadNow(w, now) => Put(e, w, Timed(e.workers[w].job, now))
    case ReadNext(w, nowForNext, next) => Put(e, w, Planned(e.workers[w].job, e.workers[w].now, nowForNext, next))
    case WinLock(w) => Put(e, w, Holding(e.workers[w].job))
    case SaveLog(w) => Put(e, w, Running(e.workers[w].job))
    case CallBack(w, answer, failed) => Put(e, w, Answered(e.workers[w].job, answer, failed))
    case Report(w, key, status, extra) => Put(e, w, Marking(e.workers[w].job, key, status, extra))
    case Mark(w) => Put(e, w, Confirming(e.workers[w].job, e.workers[w].key, e.workers[w].status, e.workers[w].extra))
    case Finish(w) => Put(e.(finished := e.finished + [e.workers[w].job]), w, Ready)
  }

  /** The actions of one worker. */
  predicate Moves(a: Action) {
    !a.RequestStop? && !a.TakeExit? && !a.SetPaused? && !a.WaitReturn?
    && !a.Poll? && !a.NotMaster? && !a.Select? && !a.ReadError? && !a.Deliver?
  }

  /** An action changes the program counter of its own worker and of no other. */
  lemma OneMoves(e: State, a: Action)
    requires Enabled(e, a)
    ensures !Moves(a) ==> Next(e, a).workers == e.workers
    ensures Moves(a) ==> At(e, a.w) && At(Next(e, a), a.w)
    ensures Moves(a) ==> Next(e, a).workers == e.workers[a.w := Next(e, a).workers[a.w]]
  {
  }

  // ---------------------------------------------------------------- totals over the pool

  function Total(ws: seq<WorkerPc>, f: WorkerPc -> nat): nat {
    if ws == [] then 0 else Total(ws[..|ws| - 1], f) + f(ws[|ws| - 1])
  }

  lemma {:induction false} TotalPut(ws: seq<WorkerPc>, w: nat, p: WorkerPc, f: WorkerPc -> nat)
    requires w < |ws|
    ensures Total(ws[w := p], f) == Total(ws, f) - f(ws[w]) + f(p)
    ensures f(ws[w]) <= Total(ws, f)
  {
    var last := |ws| - 1;
    if w == last {
      assert ws[w := p][..last] == ws[..last];
    } else {
      TotalPut(ws[..last], w, p, f);
      assert ws[w := p][..last] == ws[..last][w := p];
    }
  }

  function Alive(): WorkerPc -> nat {
    (p: WorkerPc) => if p == Exited then 0 else 1
  }

  function Work(): WorkerPc -> nat {
    (p: WorkerPc) => match p
      case Ready => 1
      case Got(_) => 9
      case Timed(_, _) => 8
      case Planned(_, _, _, _) => 7
      case Holding(_) => 6
      case Running(_) => 5
      case Answered(_, _, _) => 4
      case Marking(_, _, _, _) => 3
      case Confirming(_, _, _, _) => 2
      case Exited => 0
      case Lost(_) => 0
  }

  predicate Busy(p: WorkerPc) {
    p != Ready && p != Exited
  }

  function Hand(p: WorkerPc): multiset<Job> {
    if Busy(p) then multiset{p.job} else multiset{}
  }

  function Hands(ws: seq<WorkerPc>): multiset<Job> {
    if ws == [] then multiset{} else Hands(ws[..|ws| - 1]) + Hand(ws[|ws| - 1])
  }

  lemma MultisetSwap(a: multiset<Job>, x: multiset<Job>, y: multiset<Job>)
    ensures x <= a + x && a + y == a + x - x + y
  {
  }

  lemma MultisetShift(a: multiset<Job>, x: multiset<Job>, y: multiset<Job>, rest: multiset<Job>)
    requires x <= a
    ensures x <= a + rest && a - x + y + rest == a + rest - x + y
  {
  }

  lemma {:induction false} HandsPut(ws: seq<WorkerPc>, w: nat, p: WorkerPc)
    requires w < |ws|
    ensures Hand(ws[w]) <= Hands(ws)
    ensures Hands(ws[w := p]) == Hands(ws) - Hand(ws[w]) + Hand(p)
  {
    var last := |ws| - 1;
    if w == last {
      assert ws[w := p][..last] == ws[..last];
      MultisetSwap(Hands(ws[..last]), Hand(ws[last]), Hand(p));
    } else {
      var front := ws[..last];
      HandsPut(front, w, p);
      assert ws[w := p][..last] == front[w := p];
      assert Hands(ws[w := p]) == Hands(front[w := p]) + Hand(ws[last]) && Hands(ws) == Hands(front) + Hand(ws[last]);
      MultisetShift(Hands(front), Hand(front[w]), Hand(p), Hand(ws[last]));
    }
  }

  function Jobs(rs: seq<Receipt>): (js: seq<Job>)
    ensures |js| == |rs| && forall i :: 0 <= i < |rs| ==> js[i] == rs[i].job
  {
    seq(|rs|, i requires 0 <= i < |rs| => rs[i].job)
  }

  function Pending(e: State): seq<Job> {
    if e.sched.Sending? then e.sched.jobs else []
  }

  // ---------------------------------------------------------------- invariants

  /** The order of the stop sequence: the flag is set only after the scheduler has left its loop. */
  ghost predicate StopOrder(e: State) {
    && (e.paused <==> e.stop == Waiting || e.stop == Returned)
    && (e.sched == Left <==> e.stop == Signalled || e.stop == Waiting || e.stop == Returned)
    && (forall w :: 0 <= w < |e.workers| && e.workers[w] == Exited ==> e.paused)
    && (e.stop == Returned ==> e.wg == 0)
    && (e.sched.Sending? ==> e.sched.jobs != [])
  }

  /** The wait group counts every worker that has not exited, lost ones included. */
  ghost predicate WaitGroupExact(e: State) {
    e.wg == Total(e.workers, Alive())
  }

  /**
   Emitted tasks were received in order, each once, up to those not sent yet; received ones are in a hand or finished.
   */
  ghost predicate Conserved(e: State) {
    && Balanced(e.received, e.finished, e.workers)
    && e.emitted == Jobs(e.received) + Pending(e)
    && forall i :: 0 <= i < |e.received| ==> e.received[i].worker < |e.workers|
  }

  ghost predicate Balanced(received: seq<Receipt>, finished: seq<Job>, ws: seq<WorkerPc>) {
    multiset(Jobs(received)) == multiset(finished) + Hands(ws)
  }

  ghost predicate NoneLost(e: State) {
    forall w :: 0 <= w < |e.workers| ==> !e.workers[w].Lost?
  }

  /** Every task in flight has a route. */
  ghost predicate Routed(e: State) {
    && (forall i :: 0 <= i < |Pending(e)| ==> Pending(e)[i].task.srv.routes != [])
    && (forall w :: 0 <= w < |e.workers| && e.workers[w].Got? ==> e.workers[w].job.task.srv.routes != [])
  }

  ghost predicate Inv(e: State) {
    StopOrder(e) && WaitGroupExact(e) && Conserved(e)
  }

  lemma InitTotal(pool: nat)
    ensures Total(seq(pool, _ => Ready), Alive()) == pool && Hands(seq(pool, _ => Ready)) == multiset{}
  {
    if pool > 0 {
      InitTotal(pool - 1);
      assert seq(pool, _ => Ready)[..pool - 1] == seq(pool - 1, _ => Ready);
    }
  }

  lemma InitInv(pool: nat)
    ensures Inv(Init(pool)) && NoneLost(Init(pool)) && Routed(Init(pool))
  {
    InitTotal(pool);
  }

  lemma StopOrderKept(e: State, a: Action)
    requires StopOrder(e) && WaitGroupExact(e) && Enabled(e, a)
    ensures StopOrder(Next(e, a))
  {
    if e.stop == Returned {
      NoneAlive(e.workers);
    }
  }

  lemma WaitGroupKept(e: State, a: Action)
    requires WaitGroupExact(e) && Enabled(e, a)
    ensures WaitGroupExact(Next(e, a))
  {
    OneMoves(e, a);
    if Moves(a) {
      TotalPut(e.workers, a.w, Next(e, a).workers[a.w], Alive());
    }
  }

  lemma JobsSnoc(received: seq<Receipt>, r: Receipt)
    ensures Jobs(received + [r]) == Jobs(received) + [r.job]
    ensures multiset(Jobs(received + [r])) == multiset(Jobs(received)) + multiset{r.job}
  {
    assert Jobs(received + [r]) == Jobs(received) + [r.job];
  }

  lemma ReceiveBalanced(received: seq<Receipt>, finished: seq<Job>, ws: seq<WorkerPc>, w: nat, job: Job)
    requires Balanced(received, finished, ws) && w < |ws| && ws[w] == Ready
    ensures Balanced(received + [Receipt(w, job)], finished, ws[w := Got(job)])
    ensures Jobs(received + [Receipt(w, job)]) == Jobs(received) + [job]
  {
    JobsSnoc(received, Receipt(w, job));
    HandsPut(ws, w, Got(job));
  }

  lemma FinishBalanced(received: seq<Receipt>, finished: seq<Job>, ws: seq<WorkerPc>, w: nat)
    requires Balanced(received, finished, ws) && w < |ws| && Busy(ws[w])
    ensures Balanced(received, finished + [ws[w].job], ws[w := Ready])
  {
    HandsPut(ws, w, Ready);
    assert multiset(finished + [ws[w].job]) == multiset(finished) + multiset{ws[w].job};
  }

  lemma StayBalanced(received: seq<Receipt>, finished: seq<Job>, ws: seq<WorkerPc>, w: nat, p: WorkerPc)
    requires Balanced(received, finished, ws) && w < |ws| && Hand(p) == Hand(ws[w])
    ensures Balanced(received, finished, ws[w := p])
  {
    HandsPut(ws, w, p);
  }

  /** Only a handoff adds to the receipts, only a finish to the finished, only a delivery to the emitted. */
  lemma Effects(e: State, a: Action)
    requires Enabled(e, a)
    ensures var u := Next(e, a);
      && |u.workers| == |e.workers|
      && (a.Handoff? ==> e.sched.jobs == [e.sched.jobs[0]] + Pending(u))
      && (a.Handoff? ==> u.received == e.received + [Receipt(a.w, e.sched.jobs[0])])
      && (a.Handoff? ==> u.workers == e.workers[a.w := Got(e.sched.jobs[0])])
      && (!a.Handoff? ==> u.received == e.received)
      && (a.Finish? ==> u.finished == e.finished + [e.workers[a.w].job] && u.workers == e.workers[a.w := Ready])
      && (!a.Finish? ==> u.finished == e.finished)
      && (a.Deliver? ==> u.emitted == e.emitted + a.jobs && Pending(u) == a.jobs && Pending(e) == [])
      && (!a.Deliver? ==> u.emitted == e.emitted)
      && (!a.Deliver? && !a.Handoff? ==> Pending(u) == Pending(e))
      && (Moves(a) && !a.Handoff? && !a.Finish? ==> Hand(u.workers[a.w]) == Hand(e.workers[a.w]))
  {
  }

  lemma MoveToReceived(js: seq<Job>, job: Job, rest: seq<Job>)
    ensures js + ([job] + rest) == (js + [job]) + rest
  {
  }

  lemma HandoffConserved(e: State, a: Action)
    requires Conserved(e) && Enabled(e, a) && a.Handoff?
    ensures Conserved(Next(e, a))
  {
    Effects(e, a);
    ReceiveBalanced(e.received, e.finished, e.workers, a.w, e.sched.jobs[0]);
    MoveToReceived(Jobs(e.received), e.sched.jobs[0], Pending(Next(e, a)));
  }

  lemma FinishConserved(e: State, a: Action)
    requires Conserved(e) && Enabled(e, a) && a.Finish?
    ensures Conserved(Next(e, a))
  {
    Effects(e, a);
    FinishBalanced(e.received, e.finished, e.workers, a.w);
  }

  lemma ConservedKept(e: State, a: Action)
    requires Conserved(e) && Enabled(e, a)
    ensures Conserved(Next(e, a))
  {
    if a.Handoff? {
      HandoffConserved(e, a);
    } else if a.Finish? {
      FinishConserved(e, a);
    } else {
      OneMoves(e, a);
      Effects(e, a);
      if Moves(a) {
        StayBalanced(e.received, e.finished, e.workers, a.w, Next(e, a).workers[a.w]);
      }
    }
  }

  lemma InvKept(e: State, a: Action)
    requires Inv(e) && Enabled(e, a)
    ensures Inv(Next(e, a))
  {
    StopOrderKept(e, a);
    WaitGroupKept(e, a);
    ConservedKept(e, a);
  }

  /** The page handed to the sending loop has only tasks with routes. */
  predicate DeliversRouted(a: Action) {
    a.Deliver? ==> forall i :: 0 <= i < |a.jobs| ==> a.jobs[i].task.srv.routes != []
  }

  /** While every delivered task has a route, the early return is unreachable and no worker is ever lost. */
  lemma NoWorkerLost(e: State, a: Action)
    requires NoneLost(e) && Routed(e) && StopOrder(e) && Enabled(e, a) && DeliversRouted(a)
    ensures NoneLost(Next(e, a)) && Routed(Next(e, a)) && !a.DropRouteless?
  {
    if a.Handoff? {
      assert Pending(e)[0] == e.sched.jobs[0];
      assert Pending(Next(e, a)) == e.sched.jobs[1..];
    } else if a.Deliver? {
      assert Pending(Next(e, a)) == a.jobs;
    } else {
      assert Pending(Next(e, a)) == Pending(e);
    }
  }

  // ---------------------------------------------------------------- graceful drain

  lemma {:induction false} NoneAlive(ws: seq<WorkerPc>)
    requires Total(ws, Alive()) == 0
    ensures forall w :: 0 <= w < |ws| ==> ws[w] == Exited
    ensures Hands(ws) == multiset{}
  {
    if ws != [] {
      var front := ws[..|ws| - 1];
      NoneAlive(front);
      forall w | 0 <= w < |ws|
        ensures ws[w] == Exited
      {
        if w < |front| {
          assert ws[w] == front[w];
        }
      }
    }
  }

  /**
   When Stop has returned, every task that was emitted was received once, in order, and processed to the end;
   no send is pending, every worker has exited, and no action of the node, hence no lock, is possible any more.
   */
  lemma GracefulDrain(e: State)
    requires Inv(e) && e.stop == Returned
    ensures e.emitted == Jobs(e.received) && multiset(e.finished) == multiset(e.emitted)
    ensures e.sched == Left && forall w :: 0 <= w < |e.workers| ==> e.workers[w] == Exited
    ensures forall a :: !Enabled(e, a)
  {
    NoneAlive(e.workers);
  }

  /** Past the check for routes every task has one. */
  ghost predicate RoutedPastCheck(e: State) {
    && (forall i :: 0 <= i < |e.finished| ==> e.finished[i].task.srv.routes != [])
    && (forall w :: 0 <= w < |e.workers| && Busy(e.workers[w]) && !e.workers[w].Got? && !e.workers[w].Lost? ==>
          e.workers[w].job.task.srv.routes != [])
  }

  lemma RoutedPastCheckKept(e: State, a: Action)
    requires RoutedPastCheck(e) && Enabled(e, a)
    ensures RoutedPastCheck(Next(e, a))
  {
    OneMoves(e, a);
  }

  /** Stop has returned only if every task that was ever emitted had a route. */
  lemma ReturnedOnlyRouted(e: State, i: nat)
    requires Inv(e) && RoutedPastCheck(e) && e.stop == Returned && i < |e.emitted|
    ensures e.emitted[i].task.srv.routes != []
  {
    GracefulDrain(e);
    assert e.emitted[i] in multiset(e.emitted);
    assert e.emitted[i] in e.finished;
  }

  /** A worker lost to a task without routes keeps Stop waiting for ever. */
  lemma LostBlocksStop(e: State, w: nat)
    requires Inv(e) && w < |e.workers| && e.workers[w].Lost?
    ensures e.stop != Returned && !Enabled(e, WaitReturn)
    ensures forall a :: Enabled(e, a) ==> w < |Next(e, a).workers| && Next(e, a).workers[w].Lost?
  {
    TotalPut(e.workers, w, Exited, Alive());
    forall a | Enabled(e, a)
      ensures w < |Next(e, a).workers| && Next(e, a).workers[w].Lost?
    {
      LostStays(e, a, w);
    }
  }

  lemma LostStays(e: State, a: Action, w: nat)
    requires Enabled(e, a) && w < |e.workers| && e.workers[w].Lost?
    ensures w < |Next(e, a).workers| && Next(e, a).workers[w].Lost?
  {
  }

  // ---------------------------------------------------------------- progress

  function SchedWork(p: SchedPc): nat {
    match p
    case Left => 0
    case Top => 1
    case Sending(jobs) => 2 + 10 * |jobs|
    case Selected(ids, _) => 3 + 10 * |ids|
    case Checked => 4 + 10 * PAGE_SIZE
  }

  function StopWork(p: StopPc): nat {
    match p
    case Idle => 4
    case Requested => 3
    case Signalled => 2
    case Waiting => 1
    case Returned => 0
  }

  /** Bounds the actions left until Stop returns. */
  function Measure(e: State): nat {
    SchedWork(e.sched) + Total(e.workers, Work()) + StopWork(e.stop)
  }

  /** A worker's action uses up work; a handoff moves it from the scheduler's page to the worker. */
  lemma WorkFalls(e: State, a: Action)
    requires Enabled(e, a) && Moves(a) && Next(e, a) != e
    ensures var p, q := e.workers[a.w], Next(e, a).workers[a.w];
      SchedWork(Next(e, a).sched) + Work()(q) < SchedWork(e.sched) + Work()(p)
    ensures Next(e, a).stop == e.stop
  {
  }

  /** Once Stop was requested every action uses up measure, except a ticker that finds the flag still clear. */
  lemma DrainDecreases(e: State, a: Action)
    requires StopOrder(e) && Enabled(e, a) && e.stop != Idle
    ensures Next(e, a) == e || Measure(Next(e, a)) < Measure(e)
    ensures Next(e, a) == e ==> a.Tick? && !e.paused
    ensures Next(e, a).stop != Idle
  {
    OneMoves(e, a);
    if Moves(a) {
      TotalPut(e.workers, a.w, Next(e, a).workers[a.w], Work());
      if Next(e, a) != e {
        WorkFalls(e, a);
      }
    }
  }

  ghost predicate Runs(e: State, acts: seq<Action>)
    decreases |acts|
  {
    acts == [] || (Enabled(e, acts[0]) && Runs(Next(e, acts[0]), acts[1..]))
  }

  /** The actions of a run that change the state. */
  ghost function Effective(e: State, acts: seq<Action>): nat
    requires Runs(e, acts)
    decreases |acts|
  {
    if acts == [] then 0
    else (if Next(e, acts[0]) == e then 0 else 1) + Effective(Next(e, acts[0]), acts[1..])
  }

  /** However long a run after the stop request is, at most `Measure` of its actions do anything. */
  lemma {:induction false} DrainBounded(e: State, acts: seq<Action>)
    requires Inv(e) && Runs(e, acts) && e.stop != Idle
    ensures Effective(e, acts) <= Measure(e)
    decreases |acts|
  {
    if acts != [] {
      DrainDecreases(e, acts[0]);
      InvKept(e, acts[0]);
      DrainBounded(Next(e, acts[0]), acts[1..]);
    }
  }

  /** The next action of a worker whose calls all succeed and whose callback returns. */
  function WorkerMove(e: State, w: nat): Action
    requires At(e, w)
  {
    match e.workers[w]
    case Got(job) => if job.task.srv.routes == [] then DropRouteless(w) else ReadNow(w, 0)
    case Timed(_, now) => ReadNext(w, now, now)
    case Planned(_, _, _, _) => WinLock(w)
    case Holding(_) => SaveLog(w)
    case Running(_) => CallBack(w, Answer(true, false, ""), false)
    case Answered(job, answer, _) =>
      Report(w, LogKey(job.task.id, job.task.runTimes + 1), Classify(answer), answer.extra)
    case Marking(_, _, _, _) => Mark(w)
    case Ready => Tick(w)
    case _ => Finish(w)
  }

  /**
   No call of the action fails: mastership and reads hold, callbacks return, and a turn ends only after its
   confirmation.
   */
  predicate Succeeds(e: State, a: Action) {
    && !a.NotMaster? && !a.ReadError? && !a.DropRouteless?
    && (a.CallBack? ==> !a.failed)
    && (a.Finish? ==> At(e, a.w) && e.workers[a.w].Confirming?)
  }

  lemma {:induction false} SomeoneAlive(ws: seq<WorkerPc>) returns (w: nat)
    requires Total(ws, Alive()) > 0
    ensures w < |ws| && ws[w] != Exited
  {
    if ws[|ws| - 1] != Exited {
      w := |ws| - 1;
    } else {
      w := SomeoneAlive(ws[..|ws| - 1]);
    }
  }

  /** No state between the stop request and the return is stuck: some action in which nothing fails changes it. */
  lemma DrainNotStuck(e: State) returns (a: Action)
    requires Inv(e) && NoneLost(e) && Routed(e) && |e.workers| > 0
    requires e.stop != Idle && e.stop != Returned
    ensures Enabled(e, a) && Next(e, a) != e && Succeeds(e, a) && DeliversRouted(a)
  {
    match e.sched
    case Checked => a := Select([], 0);
    case Selected(_, _) => a := Deliver([], 0);
    case Sending(_) =>
      a := if e.workers[0] == Ready then Handoff(0) else WorkerMove(e, 0);
    case Top => a := TakeExit;
    case Left =>
      if e.stop == Signalled {
        a := SetPaused;
      } else if e.wg == 0 {
        a := WaitReturn;
      } else {
        var w := SomeoneAlive(e.workers);
        a := WorkerMove(e, w);
      }
  }

  /** Nothing fails in any action of the run. */
  ghost predicate AllSucceed(e: State, acts: seq<Action>)
    requires Runs(e, acts)
    decreases |acts|
  {
    acts != [] ==> Succeeds(e, acts[0]) && AllSucceed(Next(e, acts[0]), acts[1..])
  }

  ghost function After(e: State, acts: seq<Action>): State
    requires Runs(e, acts)
    decreases |acts|
  {
    if acts == [] then e else After(Next(e, acts[0]), acts[1..])
  }

  /**
   From every state after the stop request a run in which nothing fails makes Stop return, with every emitted task
   finished.
   */
  lemma {:induction false} DrainCompletes(e: State) returns (acts: seq<Action>)
    requires Inv(e) && NoneLost(e) && Routed(e) && |e.workers| > 0 && e.stop != Idle
    ensures Runs(e, acts) && AllSucceed(e, acts) && After(e, acts).stop == Returned
    ensures multiset(After(e, acts).finished) == multiset(After(e, acts).emitted)
    decreases Measure(e)
  {
    if e.stop == Returned {
      acts := [];
      GracefulDrain(e);
    } else {
      var a := DrainNotStuck(e);
      InvKept(e, a);
      NoWorkerLost(e, a);
      OneMoves(e, a);
      DrainDecreases(e, a);
      var rest := DrainCompletes(Next(e, a));
      acts := [a] + rest;
      assert acts[1..] == rest;
    }
  }
}
