/** The system invariant holds in every state of every run, and what follows from it. */
module ClusterProofs {
  import opened Wrappers
  import opened Selections
  import opened SrvTables
  import Refine = SrvRefinement
  import opened SrvQueries
  import opened TaskTables
  import opened RunLog
  import opened L = LockProtocol
  import T = LockTheorems
  import E = Engine
  import opened C = Cluster

  // ---------------------------------------------------------------- what other parties' steps leave alone

  ghost predicate Extends(tr: Trace, more: Trace) {
    |tr| <= |more| && tr == more[..|tr|]
  }

  lemma ExtendsAt(tr: Trace, more: Trace, i: nat)
    requires Extends(tr, more) && i < |tr|
    ensures more[i] == tr[i]
  {
    assert more[..|tr|][i] == more[i];
  }

  lemma JobStable(tr: Trace, more: Trace, n: nat, clock: int, later: int, job: E.Job)
    requires JobOk(tr, n, clock, job) && Extends(tr, more) && clock <= later
    ensures JobOk(more, n, later, job) && more[job.snap] == tr[job.snap]
  {
    ExtendsAt(tr, more, job.snap);
  }

  lemma OwnsStable(tr: Trace, more: Trace, n: nat, w: nat, key: LogKey)
    requires Owns(tr, n, w, key) && Extends(tr, more)
    ensures Owns(more, n, w, key)
  {
    var j :| 0 <= j < |tr| && WonBy(tr[j], n, w, key);
    ExtendsAt(tr, more, j);
    assert WonBy(more[j], n, w, key);
  }

  predicate HoldsRun(pc: E.WorkerPc) {
    pc.Holding? || pc.Running?
  }

  /** The step neither saves nor calls this key. */
  ghost predicate SameMarks(s: Sys, u: Sys, key: LogKey) {
    (key in s.logs <==> key in u.logs) && (WasCalled(s.notes, key) <==> WasCalled(u.notes, key))
  }

  lemma WorkerStable(cal: Calendar, s: Sys, u: Sys, n: nat, clock: int, later: int, w: nat, pc: E.WorkerPc)
    requires WorkerOk(cal, s, n, clock, w, pc)
    requires Extends(s.p.trace, u.p.trace) && clock <= later
    requires HoldsRun(pc) ==> SameMarks(s, u, KeyOf(pc.job))
    ensures WorkerOk(cal, u, n, later, w, pc)
  {
    if pc.Got? || pc.Timed? || pc.Planned? {
      JobStable(s.p.trace, u.p.trace, n, clock, later, pc.job);
    } else if HoldsRun(pc) {
      OwnsStable(s.p.trace, u.p.trace, n, w, KeyOf(pc.job));
    }
  }

  lemma SchedStable(tr: Trace, more: Trace, n: nat, clock: int, later: int, sched: E.SchedPc)
    requires SchedOk(tr, n, clock, sched) && Extends(tr, more) && clock <= later
    ensures SchedOk(more, n, later, sched)
  {
    match sched
    case Selected(ids, snap) => ExtendsAt(tr, more, snap);
    case Sending(jobs) =>
      forall i | 0 <= i < |jobs|
        ensures JobOk(more, n, later, jobs[i])
      {
        JobStable(tr, more, n, clock, later, jobs[i]);
      }
    case _ =>
  }

  /** A key is held by at most one worker: its run was won once. */
  lemma OneOwner(cal: Calendar, p: L.State, n: nat, w: nat, m: nat, v: nat, key: LogKey)
    requires L.Inv(cal, p) && Owns(p.trace, n, w, key) && Owns(p.trace, m, v, key)
    ensures n == m && w == v
  {
    var i :| 0 <= i < |p.trace| && WonBy(p.trace[i], n, w, key);
    var j :| 0 <= j < |p.trace| && WonBy(p.trace[j], m, v, key);
    OneWinPerRun(cal, p, i, j);
  }

  lemma OneWinPerRun(cal: Calendar, p: L.State, i: nat, j: nat)
    requires L.Inv(cal, p) && i < |p.trace| && j < |p.trace| && p.trace[i].Won? && p.trace[j].Won?
    requires p.trace[i].id == p.trace[j].id && p.trace[i].run == p.trace[j].run
    ensures i == j
  {
    if i < j {
      T.RunsIncrease(cal, p, p.trace[i].id, i, j);
    } else if j < i {
      T.RunsIncrease(cal, p, p.trace[i].id, j, i);
    }
  }

  ghost predicate UniqueOwners(tr: Trace) {
    forall n, w, m, v, key :: Owns(tr, n, w, key) && Owns(tr, m, v, key) ==> n == m && w == v
  }

  lemma OwnersUnique(cal: Calendar, p: L.State)
    requires L.Inv(cal, p)
    ensures UniqueOwners(p.trace)
  {
    forall n, w, m, v, key | Owns(p.trace, n, w, key) && Owns(p.trace, m, v, key)
      ensures n == m && w == v
    {
      OneOwner(cal, p, n, w, m, v, key);
    }
  }

  /** The worker's run is one of those won so far. */
  lemma WinInRange(cal: Calendar, p: L.State, j: nat)
    requires L.Inv(cal, p) && j < |p.trace| && p.trace[j].Won?
    ensures 1 <= p.trace[j].run <= WinCount(p.trace, p.trace[j].id)
  {
    T.WinFacts(cal, p, j);
    T.WinsCountUp(p.trace, p.trace[j].id, j, |p.trace|);
    assert p.trace[..|p.trace|] == p.trace;
  }

  lemma OwnedRunInRange(cal: Calendar, p: L.State, n: nat, w: nat, key: LogKey)
    requires L.Inv(cal, p) && Owns(p.trace, n, w, key)
    ensures 1 <= key.run <= WinCount(p.trace, key.taskId)
  {
    var j :| 0 <= j < |p.trace| && WonBy(p.trace[j], n, w, key);
    WinInRange(cal, p, j);
  }

  ghost predicate OwnersInRange(tr: Trace) {
    forall n, w, key :: Owns(tr, n, w, key) ==> 1 <= key.run <= WinCount(tr, key.taskId)
  }

  lemma OwnersRange(cal: Calendar, p: L.State)
    requires L.Inv(cal, p)
    ensures OwnersInRange(p.trace)
  {
    forall n, w, key | Owns(p.trace, n, w, key)
      ensures 1 <= key.run <= WinCount(p.trace, key.taskId)
    {
      OwnedRunInRange(cal, p, n, w, key);
    }
  }

  /** The invariants that speak of nodes, logs and callbacks. */
  ghost predicate NodePart(cal: Calendar, s: Sys) {
    EnginesOk(s) && NodesOk(cal, s) && LogsOk(s) && CallsOk(s.notes)
  }

  /** Every key that a step may save or call, other than the given one, keeps its marks. */
  ghost predicate OnlyMarks(s: Sys, u: Sys, key: LogKey) {
    forall k :: k != key ==> SameMarks(s, u, k)
  }

  ghost predicate NoMarks(s: Sys, u: Sys) {
    forall k :: SameMarks(s, u, k)
  }

  /** A node that does not act, while someone else may save or call a key that this node does not hold. */
  lemma BystanderNode(cal: Calendar, s: Sys, u: Sys, m: nat, n: nat, w: nat, key: LogKey)
    requires m in s.nodes && m != n && NodeOk(cal, s, m, s.nodes[m])
    requires Extends(s.p.trace, u.p.trace) && UniqueOwners(s.p.trace)
    requires NoMarks(s, u) || (OnlyMarks(s, u, key) && Owns(s.p.trace, n, w, key))
    ensures NodeOk(cal, u, m, s.nodes[m])
  {
    var node := s.nodes[m];
    SchedStable(s.p.trace, u.p.trace, m, node.clock, node.clock, node.eng.sched);
    forall v | 0 <= v < |node.eng.workers|
      ensures WorkerOk(cal, u, m, node.clock, v, node.eng.workers[v])
    {
      WorkerStable(cal, s, u, m, node.clock, node.clock, v, node.eng.workers[v]);
    }
  }

  /** The worker that acts, if one does, and the key it may mark. */
  ghost predicate MarksOwn(s: Sys, u: Sys, n: nat, a: E.Action)
    requires n in s.nodes
  {
    || NoMarks(s, u)
    || (E.Moves(a) && E.At(s.nodes[n].eng, a.w) && HoldsRun(s.nodes[n].eng.workers[a.w])
        && OnlyMarks(s, u, KeyOf(s.nodes[n].eng.workers[a.w].job))
        && Owns(s.p.trace, n, a.w, KeyOf(s.nodes[n].eng.workers[a.w].job)))
  }

  /** The node that acts: only its own worker's new state is left to check. */
  lemma ActingNode(cal: Calendar, s: Sys, u: Sys, n: nat, a: E.Action, eng: E.State, later: int)
    requires n in s.nodes && NodeOk(cal, s, n, s.nodes[n]) && UniqueOwners(s.p.trace)
    requires |eng.workers| == |s.nodes[n].eng.workers|
    requires forall v :: 0 <= v < |eng.workers| && !(E.Moves(a) && v == a.w) ==>
        eng.workers[v] == s.nodes[n].eng.workers[v]
    requires Extends(s.p.trace, u.p.trace) && s.nodes[n].clock <= later
    requires SchedOk(u.p.trace, n, later, eng.sched)
    requires E.Moves(a) ==> E.At(eng, a.w) && WorkerOk(cal, u, n, later, a.w, eng.workers[a.w])
    requires MarksOwn(s, u, n, a)
    ensures NodeOk(cal, u, n, Node(later, eng))
  {
    forall v | 0 <= v < |eng.workers|
      ensures WorkerOk(cal, u, n, later, v, eng.workers[v])
    {
      if !(E.Moves(a) && v == a.w) {
        WorkerStable(cal, s, u, n, s.nodes[n].clock, later, v, eng.workers[v]);
      }
    }
  }

  lemma EnginesKept(s: Sys, u: Sys, n: nat, a: E.Action, later: int)
    requires EnginesOk(s) && n in s.nodes && E.Enabled(s.nodes[n].eng, a) && E.DeliversRouted(a)
    requires u.nodes == s.nodes[n := Node(later, E.Next(s.nodes[n].eng, a))]
    ensures EnginesOk(u) && !a.DropRouteless?
  {
    E.InvKept(s.nodes[n].eng, a);
    E.NoWorkerLost(s.nodes[n].eng, a);
    E.OneMoves(s.nodes[n].eng, a);
  }

  lemma BystandersKept(cal: Calendar, s: Sys, u: Sys, n: nat, a: E.Action, m: nat)
    requires NodesOk(cal, s) && UniqueOwners(s.p.trace) && Extends(s.p.trace, u.p.trace)
    requires n in s.nodes && MarksOwn(s, u, n, a) && m != n
    requires m in s.nodes && m in u.nodes && u.nodes[m] == s.nodes[m]
    ensures NodeOk(cal, u, m, u.nodes[m])
  {
    if NoMarks(s, u) {
      BystanderNode(cal, s, u, m, n, 0, LogKey(0, 0));
    } else {
      BystanderNode(cal, s, u, m, n, a.w, KeyOf(s.nodes[n].eng.workers[a.w].job));
    }
  }

  /** All nodes together, when at most node `n` acts and at most the key of its worker gains a mark. */
  lemma NodesKept(cal: Calendar, s: Sys, u: Sys, n: nat, a: E.Action, later: int)
    requires NodesOk(cal, s) && UniqueOwners(s.p.trace)
    requires n in s.nodes && E.Enabled(s.nodes[n].eng, a)
    requires u.nodes == s.nodes[n := Node(later, E.Next(s.nodes[n].eng, a))]
    requires Extends(s.p.trace, u.p.trace) && s.nodes[n].clock <= later
    requires SchedOk(u.p.trace, n, later, E.Next(s.nodes[n].eng, a).sched)
    requires E.Moves(a) ==> E.At(E.Next(s.nodes[n].eng, a), a.w)
    requires E.Moves(a) ==> WorkerOk(cal, u, n, later, a.w, E.Next(s.nodes[n].eng, a).workers[a.w])
    requires MarksOwn(s, u, n, a)
    ensures NodesOk(cal, u)
  {
    var eng := E.Next(s.nodes[n].eng, a);
    E.OneMoves(s.nodes[n].eng, a);
    ActingNode(cal, s, u, n, a, eng, later);
    forall m | m in u.nodes && m != n
      ensures NodeOk(cal, u, m, u.nodes[m])
    {
      BystandersKept(cal, s, u, n, a, m);
    }
  }

  /** No node acts at all. */
  lemma NodesIdle(cal: Calendar, s: Sys, u: Sys)
    requires NodesOk(cal, s) && UniqueOwners(s.p.trace) && u.nodes == s.nodes && Extends(s.p.trace, u.p.trace)
    requires NoMarks(s, u)
    ensures NodesOk(cal, u)
  {
    forall m | m in u.nodes
      ensures NodeOk(cal, u, m, u.nodes[m])
    {
      BystanderNode(cal, s, u, m, m + 1, 0, LogKey(0, 0));
    }
  }

  lemma SameMarksIfSame(s: Sys, u: Sys)
    requires u.logs.Keys == s.logs.Keys && u.notes == s.notes
    ensures NoMarks(s, u)
  {
    assert forall k :: k in s.logs <==> k in s.logs.Keys;
    assert forall k :: k in u.logs <==> k in u.logs.Keys;
  }

  /** A longer trace never takes a log row out of range. */
  lemma LogsOkExtends(s: Sys, u: Sys)
    requires LogsOk(s) && Extends(s.p.trace, u.p.trace)
    requires u.logs == s.logs && u.logOps == s.logOps && u.notes == s.notes
    ensures LogsOk(u)
  {
    forall k | k in u.logs
      ensures 1 <= k.run <= WinCount(u.p.trace, k.taskId)
    {
      CountBetween(u.p.trace, k.taskId, |s.p.trace|);
    }
  }

  // ---------------------------------------------------------------- steps inside a node

  lemma LocalNodes(cal: Calendar, s: Sys, u: Sys, n: nat, a: E.Action)
    requires NodesOk(cal, s) && UniqueOwners(s.p.trace) && StepLocal(s, u, n, a)
    requires !a.DropRouteless? && !a.Handoff?
    ensures NodesOk(cal, u)
  {
    assert NodeOk(cal, s, n, s.nodes[n]);
    SameMarksIfSame(s, u);
    NodesKept(cal, s, u, n, a, s.nodes[n].clock);
  }

  lemma HandoffNodes(cal: Calendar, s: Sys, u: Sys, n: nat, a: E.Action)
    requires NodesOk(cal, s) && UniqueOwners(s.p.trace) && StepLocal(s, u, n, a) && a.Handoff?
    ensures NodesOk(cal, u)
  {
    var sched := s.nodes[n].eng.sched;
    assert NodeOk(cal, s, n, s.nodes[n]);
    SchedTail(s.p.trace, n, s.nodes[n].clock, sched.jobs);
    SameMarksIfSame(s, u);
    NodesKept(cal, s, u, n, a, s.nodes[n].clock);
  }

  lemma SchedTail(tr: Trace, n: nat, clock: int, jobs: seq<E.Job>)
    requires SchedOk(tr, n, clock, E.Sending(jobs)) && jobs != []
    ensures JobOk(tr, n, clock, jobs[0]) && SchedOk(tr, n, clock, E.Sending(jobs[1..]))
  {
  }

  lemma LocalEngines(s: Sys, u: Sys, n: nat, a: E.Action)
    requires EnginesOk(s) && StepLocal(s, u, n, a)
    ensures EnginesOk(u) && !a.DropRouteless?
  {
    EnginesKept(s, u, n, a, s.nodes[n].clock);
  }

  lemma AnyLocalNodes(cal: Calendar, s: Sys, u: Sys, n: nat, a: E.Action)
    requires NodesOk(cal, s) && UniqueOwners(s.p.trace) && StepLocal(s, u, n, a) && !a.DropRouteless?
    ensures NodesOk(cal, u)
  {
    if a.Handoff? {
      HandoffNodes(cal, s, u, n, a);
    } else {
      LocalNodes(cal, s, u, n, a);
    }
  }

  lemma LocalLogs(s: Sys, u: Sys, n: nat, a: E.Action)
    requires LogsOk(s) && CallsOk(s.notes) && StepLocal(s, u, n, a)
    ensures LogsOk(u) && CallsOk(u.notes)
  {
    LogsOkExtends(s, u);
  }

  lemma LocalPart(cal: Calendar, s: Sys, u: Sys, n: nat, a: E.Action)
    requires NodePart(cal, s) && UniqueOwners(s.p.trace) && StepLocal(s, u, n, a)
    ensures NodePart(cal, u)
  {
    LocalEngines(s, u, n, a);
    AnyLocalNodes(cal, s, u, n, a);
    LocalLogs(s, u, n, a);
  }

  lemma LocalKeeps(cal: Calendar, s: Sys, u: Sys, n: nat, a: E.Action)
    requires C.Inv(cal, s) && StepLocal(s, u, n, a)
    ensures C.Inv(cal, u)
  {
    OwnersUnique(cal, s.p);
    LocalPart(cal, s, u, n, a);
  }

  lemma ClockNodes(cal: Calendar, s: Sys, u: Sys, n: nat, now: int)
    requires NodesOk(cal, s) && UniqueOwners(s.p.trace) && StepClock(s, u, n, now)
    ensures NodesOk(cal, u)
  {
    var node := s.nodes[n];
    assert NodeOk(cal, s, n, node);
    SameMarksIfSame(s, u);
    SchedStable(s.p.trace, u.p.trace, n, node.clock, now, node.eng.sched);
    ActingNode(cal, s, u, n, E.Poll, node.eng, now);
    forall m | m in u.nodes && m != n
      ensures NodeOk(cal, u, m, u.nodes[m])
    {
      BystanderNode(cal, s, u, m, n, 0, LogKey(0, 0));
    }
  }

  lemma ClockKeeps(cal: Calendar, s: Sys, u: Sys, n: nat, now: int)
    requires C.Inv(cal, s) && StepClock(s, u, n, now)
    ensures C.Inv(cal, u)
  {
    OwnersUnique(cal, s.p);
    ClockNodes(cal, s, u, n, now);
    LogsOkExtends(s, u);
  }

  lemma SelectNodes(cal: Calendar, s: Sys, u: Sys, n: nat, at: int)
    requires NodesOk(cal, s) && UniqueOwners(s.p.trace) && StepSelect(s, u, n, at)
    ensures NodesOk(cal, u)
  {
    var ids := DuePage(s.p.tab, s.nodes[n].eng.cursor, at, E.PAGE_SIZE);
    SameMarksIfSame(s, u);
    NodesKept(cal, s, u, n, E.Select(ids, |s.p.trace|), s.nodes[n].clock);
  }

  /** The due-row SELECT is a read of the locking protocol. */
  lemma SelectIsProtocolStep(s: Sys, u: Sys, n: nat, at: int)
    requires StepSelect(s, u, n, at)
    ensures StepRead(s.p, u.p, n, IdSet(DuePage(s.p.tab, s.nodes[n].eng.cursor, at, E.PAGE_SIZE)), at)
    ensures Extends(s.p.trace, u.p.trace) && u.p.tab == s.p.tab
  {
  }

  lemma SelectEngines(s: Sys, u: Sys, n: nat, at: int)
    requires EnginesOk(s) && StepSelect(s, u, n, at)
    ensures EnginesOk(u)
  {
    var ids := DuePage(s.p.tab, s.nodes[n].eng.cursor, at, E.PAGE_SIZE);
    EnginesKept(s, u, n, E.Select(ids, |s.p.trace|), s.nodes[n].clock);
  }

  lemma SelectKeeps(cal: Calendar, s: Sys, u: Sys, n: nat, at: int)
    requires C.Inv(cal, s) && StepSelect(s, u, n, at)
    ensures C.Inv(cal, u)
  {
    SelectIsProtocolStep(s, u, n, at);
    L.ReadKeeps(cal, s.p, u.p, n, IdSet(DuePage(s.p.tab, s.nodes[n].eng.cursor, at, E.PAGE_SIZE)), at);
    OwnersUnique(cal, s.p);
    SelectNodes(cal, s, u, n, at);
    SelectEngines(s, u, n, at);
    LogsOkExtends(s, u);
  }

  /** Every task that the join delivers is a copy of a selected row, and its server has a live route. */
  lemma DeliveredOk(tr: Trace, reg: Tables, n: nat, clock: int, ids: seq<nat>, snap: nat, routeOrder: seq<nat>,
                    task: Task)
    requires SrvTables.Inv(reg) && Enumerates(routeOrder, reg.routes.Keys)
    requires SchedOk(tr, n, clock, E.Selected(ids, snap))
    requires task in Join(tr[snap].page, ids, reg, routeOrder)
    ensures JobOk(tr, n, clock, E.Job(task, snap)) && task.srv.routes != []
  {
    JoinSource(tr[snap].page, ids, reg, routeOrder, task);
    LiveSrvHasRoutes(reg, tr[snap].page[task.id].srvId, routeOrder);
  }

  lemma PageOk(tr: Trace, reg: Tables, n: nat, clock: int, ids: seq<nat>, snap: nat, routeOrder: seq<nat>)
    requires SrvTables.Inv(reg) && Enumerates(routeOrder, reg.routes.Keys)
    requires SchedOk(tr, n, clock, E.Selected(ids, snap))
    ensures var jobs := ToJobs(Join(tr[snap].page, ids, reg, routeOrder), snap);
      SchedOk(tr, n, clock, E.Sending(jobs)) && forall i :: 0 <= i < |jobs| ==> jobs[i].task.srv.routes != []
  {
    var tasks := Join(tr[snap].page, ids, reg, routeOrder);
    forall i | 0 <= i < |tasks|
      ensures JobOk(tr, n, clock, E.Job(tasks[i], snap)) && tasks[i].srv.routes != []
    {
      DeliveredOk(tr, reg, n, clock, ids, snap, routeOrder, tasks[i]);
    }
  }

  /** The action that a delivery step takes. */
  function Delivery(s: Sys, n: nat, routeOrder: seq<nat>): E.Action
    requires n in s.nodes && s.nodes[n].eng.sched.Selected?
    requires s.nodes[n].eng.sched.snap < |s.p.trace| && s.p.trace[s.nodes[n].eng.sched.snap].Read?
    requires forall id :: id in s.nodes[n].eng.sched.ids ==> id in s.p.trace[s.nodes[n].eng.sched.snap].page
  {
    var sel := s.nodes[n].eng.sched;
    var tasks := Join(s.p.trace[sel.snap].page, sel.ids, s.reg, routeOrder);
    E.Deliver(ToJobs(tasks, sel.snap), NextCursor(tasks))
  }

  lemma DeliverNodes(cal: Calendar, s: Sys, u: Sys, n: nat, routeOrder: seq<nat>)
    requires NodesOk(cal, s) && UniqueOwners(s.p.trace) && SrvTables.Inv(s.reg) && StepDeliver(s, u, n, routeOrder)
    ensures NodesOk(cal, u) && E.DeliversRouted(Delivery(s, n, routeOrder))
  {
    var sel := s.nodes[n].eng.sched;
    assert NodeOk(cal, s, n, s.nodes[n]);
    PageOk(s.p.trace, s.reg, n, s.nodes[n].clock, sel.ids, sel.snap, routeOrder);
    SameMarksIfSame(s, u);
    NodesKept(cal, s, u, n, Delivery(s, n, routeOrder), s.nodes[n].clock);
  }

  lemma DeliverKeeps(cal: Calendar, s: Sys, u: Sys, n: nat, routeOrder: seq<nat>)
    requires C.Inv(cal, s) && StepDeliver(s, u, n, routeOrder)
    ensures C.Inv(cal, u)
  {
    OwnersUnique(cal, s.p);
    DeliverNodes(cal, s, u, n, routeOrder);
    EnginesKept(s, u, n, Delivery(s, n, routeOrder), s.nodes[n].clock);
    LogsOkExtends(s, u);
  }

  lemma ReadNowNodes(cal: Calendar, s: Sys, u: Sys, n: nat, w: nat, now: int)
    requires NodesOk(cal, s) && UniqueOwners(s.p.trace) && StepReadNow(s, u, n, w, now)
    ensures NodesOk(cal, u)
  {
    var node := s.nodes[n];
    assert NodeOk(cal, s, n, node) && WorkerOk(cal, s, n, node.clock, w, node.eng.workers[w]);
    SameMarksIfSame(s, u);
    SchedStable(s.p.trace, u.p.trace, n, node.clock, now, node.eng.sched);
    JobStable(s.p.trace, u.p.trace, n, node.clock, now, node.eng.workers[w].job);
    NodesKept(cal, s, u, n, E.ReadNow(w, now), now);
  }

  lemma ReadNowKeeps(cal: Calendar, s: Sys, u: Sys, n: nat, w: nat, now: int)
    requires C.Inv(cal, s) && StepReadNow(s, u, n, w, now)
    ensures C.Inv(cal, u)
  {
    OwnersUnique(cal, s.p);
    ReadNowNodes(cal, s, u, n, w, now);
    EnginesKept(s, u, n, E.ReadNow(w, now), now);
    LogsOkExtends(s, u);
  }

  lemma ReadNextNodes(cal: Calendar, s: Sys, u: Sys, n: nat, w: nat, now: int, next: int)
    requires NodesOk(cal, s) && UniqueOwners(s.p.trace) && StepReadNext(cal, s, u, n, w, now, next)
    ensures NodesOk(cal, u)
  {
    var node := s.nodes[n];
    assert NodeOk(cal, s, n, node) && WorkerOk(cal, s, n, node.clock, w, node.eng.workers[w]);
    SameMarksIfSame(s, u);
    SchedStable(s.p.trace, u.p.trace, n, node.clock, now, node.eng.sched);
    JobStable(s.p.trace, u.p.trace, n, node.clock, now, node.eng.workers[w].job);
    NodesKept(cal, s, u, n, E.ReadNext(w, now, next), now);
  }

  lemma ReadNextKeeps(cal: Calendar, s: Sys, u: Sys, n: nat, w: nat, now: int, next: int)
    requires C.Inv(cal, s) && StepReadNext(cal, s, u, n, w, now, next)
    ensures C.Inv(cal, u)
  {
    OwnersUnique(cal, s.p);
    ReadNextNodes(cal, s, u, n, w, now, next);
    EnginesKept(s, u, n, E.ReadNext(w, now, next), now);
    LogsOkExtends(s, u);
  }

  // ---------------------------------------------------------------- lock, log, callback, reports

  /** The worker's compare-and-set is a step of the locking protocol. */
  lemma WinIsProtocolStep(cal: Calendar, s: Sys, u: Sys, n: nat, w: nat)
    requires NodesOk(cal, s) && StepWin(s, u, n, w)
    ensures WinOfProtocol(cal, s, u, n, w)
  {
    assert NodeOk(cal, s, n, s.nodes[n]) && WorkerOk(cal, s, n, s.nodes[n].clock, w, Pc(s, n, w));
  }

  lemma WinNodes(cal: Calendar, s: Sys, u: Sys, n: nat, w: nat)
    requires NodesOk(cal, s) && UniqueOwners(s.p.trace) && StepWin(s, u, n, w)
    requires var key := KeyOf(Pc(s, n, w).job); key !in s.logs && !WasCalled(s.notes, key)
    ensures NodesOk(cal, u)
  {
    var node := s.nodes[n];
    var key := KeyOf(Pc(s, n, w).job);
    assert NodeOk(cal, s, n, node);
    SameMarksIfSame(s, u);
    assert WonBy(u.p.trace[|s.p.trace|], n, w, key);
    SchedStable(s.p.trace, u.p.trace, n, node.clock, node.clock, node.eng.sched);
    NodesKept(cal, s, u, n, E.WinLock(w), node.clock);
  }

  ghost predicate WinOfProtocol(cal: Calendar, s: Sys, u: Sys, n: nat, w: nat) {
    && Has(s, n, w) && Pc(s, n, w).Planned?
    && var pc := Pc(s, n, w);
    && StepLock(cal, s.p, u.p, n, w, pc.job.task.id, pc.job.snap, pc.now, pc.nowForNext, pc.next)
  }

  lemma WinProtocol(cal: Calendar, s: Sys, u: Sys, n: nat, w: nat)
    requires L.Inv(cal, s.p) && WinOfProtocol(cal, s, u, n, w)
    ensures L.Inv(cal, u.p)
  {
    var pc := Pc(s, n, w);
    L.LockKeeps(cal, s.p, u.p, n, w, pc.job.task.id, pc.job.snap, pc.now, pc.nowForNext, pc.next);
  }

  lemma WinKeeps(cal: Calendar, s: Sys, u: Sys, n: nat, w: nat)
    requires C.Inv(cal, s) && StepWin(s, u, n, w)
    ensures C.Inv(cal, u)
  {
    WinIsProtocolStep(cal, s, u, n, w);
    WinProtocol(cal, s, u, n, w);
    FreshKey(cal, s, KeyOf(Pc(s, n, w).job));
    OwnersUnique(cal, s.p);
    WinNodes(cal, s, u, n, w);
    EnginesKept(s, u, n, E.WinLock(w), s.nodes[n].clock);
    LogsOkExtends(s, u);
  }

  /** The next run of a task has no log row and was never called. */
  lemma FreshKey(cal: Calendar, s: Sys, key: LogKey)
    requires C.Inv(cal, s) && key.taskId in s.p.tab.rows && key.run == s.p.tab.rows[key.taskId].runTimes + 1
    ensures key !in s.logs && !WasCalled(s.notes, key)
  {
    T.RowCount(cal, s.p, key.taskId);
    NotSavedNotCalled(s, key);
  }

  lemma NotSavedNotCalled(s: Sys, key: LogKey)
    requires LogsOk(s) && CallsOk(s.notes)
    ensures WasCalled(s.notes, key) ==> key in s.logs
  {
  }

  lemma NoteMarks(notes: seq<Note>, note: Note)
    ensures forall k :: WasCalled(notes + [note], k) <==> WasCalled(notes, k) || note == Called(k)
  {
    var more := notes + [note];
    forall k
      ensures WasCalled(more, k) <==> WasCalled(notes, k) || note == Called(k)
    {
      if i :| 0 <= i < |notes| && notes[i] == Called(k) {
        assert more[i] == Called(k);
      }
      if i :| 0 <= i < |more| && more[i] == Called(k) {
        assert i < |notes| ==> notes[i] == Called(k);
      }
      if note == Called(k) {
        assert more[|notes|] == Called(k);
      }
    }
  }

  lemma ReplaySnoc(ops: seq<LogOp>, op: LogOp)
    ensures Replay(ops + [op]) == Apply(Replay(ops), op)
  {
    assert (ops + [op])[..|ops|] == ops;
  }

  lemma SavedGrows(notes: seq<Note>, note: Note, k: LogKey)
    ensures (exists i :: 0 <= i < |notes| + 1 && (notes + [note])[i] == Saved(k)) <==>
      (exists i :: 0 <= i < |notes| && notes[i] == Saved(k)) || note == Saved(k)
  {
    var more := notes + [note];
    if i :| 0 <= i < |notes| && notes[i] == Saved(k) {
      assert more[i] == Saved(k);
    }
    if note == Saved(k) {
      assert more[|notes|] == Saved(k);
    }
    if i :| 0 <= i < |more| && more[i] == Saved(k) {
      assert i < |notes| ==> notes[i] == Saved(k);
    }
  }

  lemma LogsOkSaved(s: Sys, u: Sys, key: LogKey, op: LogOp)
    requires LogsOk(s) && u.p == s.p && op.Started? && op.key == key && key !in s.logs
    requires 1 <= key.run <= WinCount(s.p.trace, key.taskId)
    requires u.logs == Apply(s.logs, op) && u.logOps == s.logOps + [op] && u.notes == s.notes + [Saved(key)]
    ensures LogsOk(u)
  {
    ReplaySnoc(s.logOps, op);
    forall k {
      SavedGrows(s.notes, Saved(key), k);
    }
  }

  lemma CallsOkSaved(s: Sys, key: LogKey)
    requires LogsOk(s) && CallsOk(s.notes) && key !in s.logs
    ensures CallsOk(s.notes + [Saved(key)])
  {
    var more := s.notes + [Saved(key)];
    forall j | 0 <= j < |more| && more[j].Called?
      ensures exists i :: 0 <= i < j && more[i] == Saved(more[j].key)
    {
      var i :| 0 <= i < j && s.notes[i] == Saved(s.notes[j].key);
      assert more[i] == Saved(more[j].key);
    }
  }

  lemma InsertLogNodes(cal: Calendar, s: Sys, u: Sys, n: nat, w: nat, at: int)
    requires NodesOk(cal, s) && UniqueOwners(s.p.trace) && StepInsertLog(s, u, n, w, at)
    ensures NodesOk(cal, u) && Owns(s.p.trace, n, w, KeyOf(Pc(s, n, w).job))
  {
    var key := KeyOf(Pc(s, n, w).job);
    assert NodeOk(cal, s, n, s.nodes[n]) && WorkerOk(cal, s, n, s.nodes[n].clock, w, Pc(s, n, w));
    NoteMarks(s.notes, Saved(key));
    assert u.logs.Keys == s.logs.Keys + {key};
    NodesKept(cal, s, u, n, E.SaveLog(w), s.nodes[n].clock);
  }

  lemma InsertLogLogs(s: Sys, u: Sys, n: nat, w: nat, at: int)
    requires LogsOk(s) && CallsOk(s.notes) && OwnersInRange(s.p.trace) && StepInsertLog(s, u, n, w, at)
    requires Owns(s.p.trace, n, w, KeyOf(Pc(s, n, w).job))
    ensures LogsOk(u) && CallsOk(u.notes)
  {
    var job := Pc(s, n, w).job;
    LogsOkSaved(s, u, KeyOf(job), Started(KeyOf(job), job.task.srv.id, at));
    CallsOkSaved(s, KeyOf(job));
  }

  lemma InsertLogEngines(s: Sys, u: Sys, n: nat, w: nat, at: int)
    requires EnginesOk(s) && StepInsertLog(s, u, n, w, at)
    ensures EnginesOk(u)
  {
    EnginesKept(s, u, n, E.SaveLog(w), s.nodes[n].clock);
  }

  lemma InsertLogPart(cal: Calendar, s: Sys, u: Sys, n: nat, w: nat, at: int)
    requires NodePart(cal, s) && UniqueOwners(s.p.trace) && OwnersInRange(s.p.trace) && StepInsertLog(s, u, n, w, at)
    ensures NodePart(cal, u)
  {
    InsertLogNodes(cal, s, u, n, w, at);
    InsertLogLogs(s, u, n, w, at);
    InsertLogEngines(s, u, n, w, at);
  }

  lemma InsertLogKeeps(cal: Calendar, s: Sys, u: Sys, n: nat, w: nat, at: int)
    requires C.Inv(cal, s) && StepInsertLog(s, u, n, w, at)
    ensures C.Inv(cal, u)
  {
    OwnersUnique(cal, s.p);
    OwnersRange(cal, s.p);
    InsertLogPart(cal, s, u, n, w, at);
  }

  lemma CallsOkCalled(notes: seq<Note>, key: LogKey)
    requires CallsOk(notes) && !WasCalled(notes, key) && exists i :: 0 <= i < |notes| && notes[i] == Saved(key)
    ensures CallsOk(notes + [Called(key)])
  {
    var more := notes + [Called(key)];
    forall j | 0 <= j < |more| && more[j].Called?
      ensures exists i :: 0 <= i < j && more[i] == Saved(more[j].key)
    {
      var i :| 0 <= i < |notes| && i < j && notes[i] == Saved(more[j].key);
      assert more[i] == Saved(more[j].key);
    }
  }

  lemma LogsOkCalled(s: Sys, u: Sys, key: LogKey)
    requires LogsOk(s) && u.p == s.p && u.logs == s.logs && u.logOps == s.logOps && u.notes == s.notes + [Called(key)]
    ensures LogsOk(u)
  {
    forall k {
      SavedGrows(s.notes, Called(key), k);
    }
  }

  lemma CallBackNodes(cal: Calendar, s: Sys, u: Sys, n: nat, w: nat, answer: Answer, failed: bool)
    requires NodesOk(cal, s) && UniqueOwners(s.p.trace) && StepCallBack(s, u, n, w, answer, failed)
    ensures NodesOk(cal, u)
    ensures KeyOf(Pc(s, n, w).job) in s.logs && !WasCalled(s.notes, KeyOf(Pc(s, n, w).job))
  {
    var key := KeyOf(Pc(s, n, w).job);
    assert NodeOk(cal, s, n, s.nodes[n]) && WorkerOk(cal, s, n, s.nodes[n].clock, w, Pc(s, n, w));
    NoteMarks(s.notes, Called(key));
    NodesKept(cal, s, u, n, E.CallBack(w, answer, failed), s.nodes[n].clock);
  }

  lemma CallBackLogs(s: Sys, u: Sys, n: nat, w: nat, answer: Answer, failed: bool)
    requires LogsOk(s) && CallsOk(s.notes) && StepCallBack(s, u, n, w, answer, failed)
    requires var key := KeyOf(Pc(s, n, w).job); key in s.logs && !WasCalled(s.notes, key)
    ensures LogsOk(u) && CallsOk(u.notes)
  {
    var key := KeyOf(Pc(s, n, w).job);
    CallsOkCalled(s.notes, key);
    LogsOkCalled(s, u, key);
  }

  lemma CallBackEngines(s: Sys, u: Sys, n: nat, w: nat, answer: Answer, failed: bool)
    requires EnginesOk(s) && StepCallBack(s, u, n, w, answer, failed)
    ensures EnginesOk(u)
  {
    EnginesKept(s, u, n, E.CallBack(w, answer, failed), s.nodes[n].clock);
  }

  lemma CallBackPart(cal: Calendar, s: Sys, u: Sys, n: nat, w: nat, answer: Answer, failed: bool)
    requires NodePart(cal, s) && UniqueOwners(s.p.trace) && StepCallBack(s, u, n, w, answer, failed)
    ensures NodePart(cal, u)
  {
    CallBackNodes(cal, s, u, n, w, answer, failed);
    CallBackLogs(s, u, n, w, answer, failed);
    CallBackEngines(s, u, n, w, answer, failed);
  }

  lemma CallBackKeeps(cal: Calendar, s: Sys, u: Sys, n: nat, w: nat, answer: Answer, failed: bool)
    requires C.Inv(cal, s) && StepCallBack(s, u, n, w, answer, failed)
    ensures C.Inv(cal, u)
  {
    OwnersUnique(cal, s.p);
    CallBackPart(cal, s, u, n, w, answer, failed);
  }

  /** A report changes no row's existence. */
  lemma ReportKeepsLogs(s: Sys, u: Sys, op: LogOp, ok: bool)
    requires LogsOk(s) && !op.Started? && u.p == s.p && u.notes == s.notes
    requires (u.logs, u.logOps) == if ok then (Apply(s.logs, op), s.logOps + [op]) else (s.logs, s.logOps)
    ensures LogsOk(u) && NoMarks(s, u)
  {
    ReplaySnoc(s.logOps, op);
    assert u.logs.Keys == s.logs.Keys;
    SameMarksIfSame(s, u);
  }

  /** A worker that reports moves to a state that claims nothing. */
  lemma ReportingNodes(cal: Calendar, s: Sys, u: Sys, n: nat, a: E.Action)
    requires NodesOk(cal, s) && UniqueOwners(s.p.trace) && NoMarks(s, u) && u.p == s.p
    requires n in s.nodes && E.Enabled(s.nodes[n].eng, a) && (a.Report? || a.Finish?)
    requires u.nodes == s.nodes[n := Node(s.nodes[n].clock, E.Next(s.nodes[n].eng, a))]
    ensures NodesOk(cal, u)
  {
    assert NodeOk(cal, s, n, s.nodes[n]);
    NodesKept(cal, s, u, n, a, s.nodes[n].clock);
  }

  lemma CallbackLogKeeps(cal: Calendar, s: Sys, u: Sys, n: nat, w: nat, ok: bool, at: int)
    requires C.Inv(cal, s) && StepCallbackLog(s, u, n, w, ok, at)
    ensures C.Inv(cal, u)
  {
    var pc := Pc(s, n, w);
    var (key, status, extra) := ReportOf(pc.job, pc.answer, pc.failed);
    var a := E.Report(w, key, status, extra);
    ReportKeepsLogs(s, u, CalledBack(KeyOf(pc.job), Classify(pc.answer), pc.answer.isRunInAsync, at), ok);
    OwnersUnique(cal, s.p);
    ReportingNodes(cal, s, u, n, a);
    EnginesKept(s, u, n, a, s.nodes[n].clock);
  }

  lemma ConfirmedLogKeeps(cal: Calendar, s: Sys, u: Sys, n: nat, w: nat, ok: bool, at: int)
    requires C.Inv(cal, s) && StepConfirmedLog(s, u, n, w, ok, at)
    ensures C.Inv(cal, u)
  {
    var pc := Pc(s, n, w);
    ReportKeepsLogs(s, u, Confirmed(pc.key, pc.status, pc.extra, at), ok);
    OwnersUnique(cal, s.p);
    ReportingNodes(cal, s, u, n, E.Finish(w));
    EnginesKept(s, u, n, E.Finish(w), s.nodes[n].clock);
  }

  // ---------------------------------------------------------------- API steps

  /** A step of the task table alone. */
  lemma TableStepKeeps(cal: Calendar, s: Sys, u: Sys)
    requires C.Inv(cal, s) && L.Inv(cal, u.p) && Extends(s.p.trace, u.p.trace)
    requires u == s.(p := u.p, calls := u.calls, replies := u.replies)
    requires forall id :: id in s.p.tab.rows ==> id in u.p.tab.rows && u.p.tab.rows[id].key == s.p.tab.rows[id].key
    requires forall c :: c in u.calls ==> c in s.calls && u.calls[c] == s.calls[c]
    ensures C.Inv(cal, u)
  {
    OwnersUnique(cal, s.p);
    SameMarksIfSame(s, u);
    NodesIdle(cal, s, u);
    LogsOkExtends(s, u);
  }

  lemma InsertTable(cal: Calendar, p: L.State, q: L.State, req: AddReq, dbMode: int, next: int)
    requires L.Inv(cal, p) && StepInsert(p, q, req, dbMode, next)
    ensures L.Inv(cal, q) && Extends(p.trace, q.trace)
    ensures forall o :: o in p.tab.rows ==> o in q.tab.rows && q.tab.rows[o].key == p.tab.rows[o].key
  {
    L.InsertKeeps(cal, p, q, req, dbMode, next);
    InsertGrows(p, q, req, dbMode, next);
  }

  lemma InsertGrows(p: L.State, q: L.State, req: AddReq, dbMode: int, next: int)
    requires ValidTasks(p.tab) && StepInsert(p, q, req, dbMode, next)
    ensures Extends(p.trace, q.trace)
    ensures forall o :: o in p.tab.rows ==> o in q.tab.rows && q.tab.rows[o].key == p.tab.rows[o].key
  {
    NewIdIsNew(p.tab);
  }

  lemma NewIdIsNew(t: TaskTab)
    requires ValidTasks(t)
    ensures t.nextId !in t.rows
  {
    assert forall i :: i in t.rows ==> TaskIndexed(t, i);
  }

  lemma AddInsertTable(cal: Calendar, s: Sys, u: Sys, c: nat)
    requires L.Inv(cal, s.p) && StepAddWrite(s, u, c) && s.calls[c].found.None?
    ensures L.Inv(cal, u.p) && Extends(s.p.trace, u.p.trace)
    ensures forall id :: id in s.p.tab.rows ==> id in u.p.tab.rows && u.p.tab.rows[id].key == s.p.tab.rows[id].key
  {
    var call := s.calls[c];
    if u.p != s.p {
      InsertTable(cal, s.p, u.p, call.req, call.dbMode, call.next);
    }
  }

  lemma UpdateTable(cal: Calendar, p: L.State, q: L.State, id: nat, req: AddReq, dbMode: int, next: int, bump: bool)
    requires L.Inv(cal, p) && StepUpdate(p, q, id, req, dbMode, next, bump)
    ensures L.Inv(cal, q) && Extends(p.trace, q.trace)
    ensures forall o :: o in p.tab.rows ==> o in q.tab.rows && q.tab.rows[o].key == p.tab.rows[o].key
  {
    L.UpdateKeeps(cal, p, q, id, req, dbMode, next, bump);
    UpdateGrows(p, q, id, req, dbMode, next, bump);
  }

  lemma UpdateGrows(p: L.State, q: L.State, id: nat, req: AddReq, dbMode: int, next: int, bump: bool)
    requires StepUpdate(p, q, id, req, dbMode, next, bump)
    ensures Extends(p.trace, q.trace)
    ensures forall o :: o in p.tab.rows ==> o in q.tab.rows && q.tab.rows[o].key == p.tab.rows[o].key
  {
  }

  lemma AddUpdateTable(cal: Calendar, s: Sys, u: Sys, c: nat)
    requires L.Inv(cal, s.p) && StepAddWrite(s, u, c) && s.calls[c].found.Some?
    ensures L.Inv(cal, u.p) && Extends(s.p.trace, u.p.trace)
    ensures forall id :: id in s.p.tab.rows ==> id in u.p.tab.rows && u.p.tab.rows[id].key == s.p.tab.rows[id].key
  {
    var call := s.calls[c];
    var hit := call.found.value;
    UpdateTable(cal, s.p, u.p, hit.0, call.req, call.dbMode, call.next, Bumps(hit.1, call.dbMode, call.next));
  }

  lemma AddWriteTable(cal: Calendar, s: Sys, u: Sys, c: nat)
    requires L.Inv(cal, s.p) && StepAddWrite(s, u, c)
    ensures L.Inv(cal, u.p) && Extends(s.p.trace, u.p.trace)
    ensures forall id :: id in s.p.tab.rows ==> id in u.p.tab.rows && u.p.tab.rows[id].key == s.p.tab.rows[id].key
  {
    if s.calls[c].found.None? {
      AddInsertTable(cal, s, u, c);
    } else {
      AddUpdateTable(cal, s, u, c);
    }
  }

  lemma AddWriteKeeps(cal: Calendar, s: Sys, u: Sys, c: nat)
    requires C.Inv(cal, s) && StepAddWrite(s, u, c)
    ensures C.Inv(cal, u)
  {
    AddWriteTable(cal, s, u, c);
    TableStepKeeps(cal, s, u);
  }

  lemma StopTaskKeeps(cal: Calendar, s: Sys, u: Sys, id: nat)
    requires C.Inv(cal, s) && StepStop(s.p, u.p, id) && u == s.(p := u.p)
    ensures C.Inv(cal, u)
  {
    L.StopKeeps(cal, s.p, u.p, id);
    TableStepKeeps(cal, s, u);
  }

  /** A step outside the task table and the nodes. */
  lemma OutsideKeeps(cal: Calendar, s: Sys, u: Sys)
    requires C.Inv(cal, s) && u.p == s.p && u.nodes == s.nodes && u.notes == s.notes
    requires SrvTables.Inv(u.reg) && LogsOk(u) && AddCallsOk(u) && u.logs.Keys == s.logs.Keys
    ensures C.Inv(cal, u)
  {
    OwnersUnique(cal, s.p);
    SameMarksIfSame(s, u);
    NodesIdle(cal, s, u);
  }

  lemma AddLookKeeps(cal: Calendar, s: Sys, u: Sys, c: nat, req: AddReq, now: int, cronNext: Option<int>)
    requires C.Inv(cal, s) && StepAddLook(cal, s, u, c, req, now, cronNext)
    ensures C.Inv(cal, u)
  {
    AddLookCalls(cal, s, u, c, req, now, cronNext);
    LogsOkExtends(s, u);
    OutsideKeeps(cal, s, u);
  }

  lemma AddLookCalls(cal: Calendar, s: Sys, u: Sys, c: nat, req: AddReq, now: int, cronNext: Option<int>)
    requires ValidTasks(s.p.tab) && AddCallsOk(s) && StepAddLook(cal, s, u, c, req, now, cronNext)
    ensures AddCallsOk(u)
  {
  }

  lemma ConfirmByApiKeeps(cal: Calendar, s: Sys, u: Sys, key: LogKey, isSuccess: bool, extra: string, ok: bool, at: int)
    requires C.Inv(cal, s) && StepConfirmByApi(s, u, key, isSuccess, extra, ok, at)
    ensures C.Inv(cal, u)
  {
    ReportKeepsLogs(s, u, Confirmed(key, if isSuccess then StatusSuccess else StatusFailed, extra, at), ok);
    assert u.logs.Keys == s.logs.Keys;
    OutsideKeeps(cal, s, u);
  }

  lemma RegistryKeeps(cal: Calendar, s: Sys, u: Sys)
    requires C.Inv(cal, s) && u == s.(reg := u.reg) && SrvTables.Inv(u.reg)
    ensures C.Inv(cal, u)
  {
    LogsOkExtends(s, u);
    OutsideKeeps(cal, s, u);
  }

  lemma AddSrvKeeps(cal: Calendar, s: Sys, u: Sys, name: string, rs: seq<Route>)
    requires C.Inv(cal, s) && rs != [] && u == s.(reg := Register(s.reg, name, rs))
    ensures C.Inv(cal, u)
  {
    Refine.RegisterKeepsInv(s.reg, name, rs);
    RegistryKeeps(cal, s, u);
  }

  lemma DelSrvKeeps(cal: Calendar, s: Sys, u: Sys, name: string, ids: seq<nat>)
    requires C.Inv(cal, s)
    requires u == s.(reg := match Unregister(s.reg, name, ids) case Success(t) => t case Failure(_) => s.reg)
    ensures C.Inv(cal, u)
  {
    if Unregister(s.reg, name, ids).Success? {
      Refine.UnregisterKeepsInv(s.reg, name, ids);
    }
    RegistryKeeps(cal, s, u);
  }

  /** The steps of a node up to the lock. */
  lemma SchedulingKeeps(cal: Calendar, s: Sys, u: Sys, m: Move)
    requires C.Inv(cal, s) && C.Step(cal, s, u, m)
    requires m.ClockTick? || m.SelectDue? || m.DeliverPage? || m.ReadNow? || m.ReadNext?
    ensures C.Inv(cal, u)
  {
    match m
    case ClockTick(n, now) => ClockKeeps(cal, s, u, n, now);
    case SelectDue(n, at) => SelectKeeps(cal, s, u, n, at);
    case DeliverPage(n, routeOrder) => DeliverKeeps(cal, s, u, n, routeOrder);
    case ReadNow(n, w, now) => ReadNowKeeps(cal, s, u, n, w, now);
    case ReadNext(n, w, now, next) => ReadNextKeeps(cal, s, u, n, w, now, next);
  }

  /** The steps of a worker from the lock on. */
  lemma RunningKeeps(cal: Calendar, s: Sys, u: Sys, m: Move)
    requires C.Inv(cal, s) && C.Step(cal, s, u, m)
    requires m.Lock? || m.InsertLog? || m.CallBack? || m.WriteCallbackLog? || m.WriteConfirmedLog?
    ensures C.Inv(cal, u)
  {
    match m
    case Lock(n, w) => WinKeeps(cal, s, u, n, w);
    case InsertLog(n, w, at) => InsertLogKeeps(cal, s, u, n, w, at);
    case CallBack(n, w, answer, failed) => CallBackKeeps(cal, s, u, n, w, answer, failed);
    case WriteCallbackLog(n, w, ok, at) => CallbackLogKeeps(cal, s, u, n, w, ok, at);
    case WriteConfirmedLog(n, w, ok, at) => ConfirmedLogKeeps(cal, s, u, n, w, ok, at);
  }

  lemma RegistryApiKeeps(cal: Calendar, s: Sys, u: Sys, m: Move)
    requires C.Inv(cal, s) && C.Step(cal, s, u, m) && (m.AddSrv? || m.DelSrv?)
    ensures C.Inv(cal, u)
  {
    match m
    case AddSrv(name, first, more) => AddSrvKeeps(cal, s, u, name, [first] + more);
    case DelSrv(name, ids) => DelSrvKeeps(cal, s, u, name, ids);
  }

  lemma TaskApiKeeps(cal: Calendar, s: Sys, u: Sys, m: Move)
    requires C.Inv(cal, s) && C.Step(cal, s, u, m)
    requires m.AddLook? || m.AddWrite? || m.AddAbort? || m.StopTask? || m.ConfirmByApi?
    ensures C.Inv(cal, u)
  {
    match m
    case AddLook(c, req, now, cronNext) => AddLookKeeps(cal, s, u, c, req, now, cronNext);
    case AddWrite(c) => AddWriteKeeps(cal, s, u, c);
    case AddAbort(c) => TableStepKeeps(cal, s, u);
    case StopTask(id) => StopTaskKeeps(cal, s, u, id);
    case ConfirmByApi(key, isSuccess, extra, ok, at) => ConfirmByApiKeeps(cal, s, u, key, isSuccess, extra, ok, at);
  }

  lemma StepKeeps(cal: Calendar, s: Sys, u: Sys, m: Move)
    requires C.Inv(cal, s) && C.Step(cal, s, u, m)
    ensures C.Inv(cal, u)
  {
    if m.Local? {
      LocalKeeps(cal, s, u, m.n, m.a);
    } else if m.ClockTick? || m.SelectDue? || m.DeliverPage? || m.ReadNow? || m.ReadNext? {
      SchedulingKeeps(cal, s, u, m);
    } else if m.Lock? || m.InsertLog? || m.CallBack? || m.WriteCallbackLog? || m.WriteConfirmedLog? {
      RunningKeeps(cal, s, u, m);
    } else if m.AddSrv? || m.DelSrv? {
      RegistryApiKeeps(cal, s, u, m);
    } else {
      TaskApiKeeps(cal, s, u, m);
    }
  }

  lemma FreshNode(cal: Calendar, s: Sys, n: nat, node: Node, pool: nat)
    requires pool > 0 && node.eng == E.Init(pool)
    ensures EngineOk(node.eng) && NodeOk(cal, s, n, node)
  {
    E.InitInv(pool);
  }

  lemma StartNodes(cal: Calendar, s: Sys)
    requires Start(s)
    ensures EnginesOk(s) && NodesOk(cal, s)
  {
    forall n | n in s.nodes
      ensures EngineOk(s.nodes[n].eng) && NodeOk(cal, s, n, s.nodes[n])
    {
      var pool: nat :| pool > 0 && s.nodes[n].eng == E.Init(pool);
      FreshNode(cal, s, n, s.nodes[n], pool);
    }
  }

  lemma StartEmpty(cal: Calendar, s: Sys)
    requires s.p == L.State(NO_TASKS, []) && s.reg == EMPTY_TABLES
    ensures L.Inv(cal, s.p) && SrvTables.Inv(s.reg)
  {
  }

  lemma StartOk(cal: Calendar, s: Sys)
    requires Start(s)
    ensures C.Inv(cal, s)
  {
    StartNodes(cal, s);
    StartEmpty(cal, s);
    assert LogsOk(s) && CallsOk(s.notes) && AddCallsOk(s);
  }

  lemma {:induction false} InvAlways(cal: Calendar, ss: seq<Sys>, ms: seq<Move>, i: nat)
    requires C.Behaviour(cal, ss, ms) && i < |ss|
    ensures C.Inv(cal, ss[i])
  {
    if i == 0 {
      StartOk(cal, ss[0]);
    } else {
      InvAlways(cal, ss, ms, i - 1);
      assert C.StepAt(cal, ss, ms, i - 1);
      StepKeeps(cal, ss[i - 1], ss[i], ms[i - 1]);
    }
  }
}
