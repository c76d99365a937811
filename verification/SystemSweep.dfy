/** The engines of the running system perform exactly the sweeps of module Sweep, over the tables as they were met. */
module SystemSweep {
  import opened Wrappers
  import opened Selections
  import opened SrvTables
  import opened TaskTables
  import opened L = LockProtocol
  import E = Engine
  import opened C = Cluster
  import P = ClusterProofs
  import CT = ClusterTheorems
  import opened W = Sweep

  function Tasks(jobs: seq<E.Job>): (tasks: seq<Task>)
    ensures |tasks| == |jobs| && forall i :: 0 <= i < |jobs| ==> tasks[i] == jobs[i].task
  {
    seq(|jobs|, i requires 0 <= i < |jobs| => jobs[i].task)
  }

  /** The step leaves what the sweep depends on alone. */
  ghost predicate Quiet(e: E.State, f: E.State) {
    && f.cursor == e.cursor && f.emitted == e.emitted && (f.sched == E.Left <==> e.sched == E.Left)
    && (f.sched.Selected? ==> f.sched == e.sched)
  }

  lemma ActionKinds(e: E.State, a: E.Action)
    requires E.Enabled(e, a) && !a.Select? && !a.Deliver? && !a.TakeExit?
    ensures Quiet(e, E.Next(e, a))
  {
  }

  lemma ActQuiet(s: Sys, k: nat, a: E.Action, now: int, n: nat)
    requires k in s.nodes && n in s.nodes && E.Enabled(s.nodes[k].eng, a) && !a.Select? && !a.Deliver? && !a.TakeExit?
    ensures n in Act(s, k, a, now).nodes && Quiet(s.nodes[n].eng, Act(s, k, a, now).nodes[n].eng)
  {
    ActionKinds(s.nodes[k].eng, a);
  }

  /** What a step of the system can do to the sweep of node `n`. */
  lemma NodeStep(cal: Calendar, s: Sys, u: Sys, m: Move, n: nat)
    requires C.Step(cal, s, u, m) && n in s.nodes && n in u.nodes
    requires !((m.SelectDue? || m.DeliverPage?) && m.n == n)
    ensures var e, f := s.nodes[n].eng, u.nodes[n].eng;
      if m == Local(n, E.TakeExit) then E.Enabled(e, E.TakeExit) && f == E.Next(e, E.TakeExit) else Quiet(e, f)
  {
    match m
    case Local(k, a) =>
      if !a.TakeExit? {
        ActQuiet(s, k, a, s.nodes[k].clock, n);
      }
    case ReadNow(k, w, now) => ActQuiet(s, k, E.ReadNow(w, now), now, n);
    case ReadNext(k, w, now, next) => ActQuiet(s, k, E.ReadNext(w, now, next), now, n);
    case Lock(k, w) => ActQuiet(s, k, E.WinLock(w), s.nodes[k].clock, n);
    case InsertLog(k, w, _) => ActQuiet(s, k, E.SaveLog(w), s.nodes[k].clock, n);
    case CallBack(k, w, answer, failed) => ActQuiet(s, k, E.CallBack(w, answer, failed), s.nodes[k].clock, n);
    case WriteCallbackLog(k, w, _, _) =>
      var (key, status, extra) := ReportOf(Pc(s, k, w).job, Pc(s, k, w).answer, Pc(s, k, w).failed);
      ActQuiet(s, k, E.Report(w, key, status, extra), s.nodes[k].clock, n);
    case WriteConfirmedLog(k, w, _, _) => ActQuiet(s, k, E.Finish(w), s.nodes[k].clock, n);
    case _ =>
  }

  // ---------------------------------------------------------------- the turns of a run

  predicate SelectsAt(ms: seq<Move>, n: nat, i: nat) {
    i < |ms| && ms[i].SelectDue? && ms[i].n == n
  }

  predicate DeliversAt(ms: seq<Move>, n: nat, i: nat) {
    i < |ms| && ms[i].DeliverPage? && ms[i].n == n
  }

  /** The position of the last due-row SELECT of node `n` before state `i`. */
  function LastSelect(ms: seq<Move>, n: nat, i: nat): nat
    requires i <= |ms|
  {
    if i == 0 || SelectsAt(ms, n, i - 1) then (if i == 0 then 0 else i - 1) else LastSelect(ms, n, i - 1)
  }

  /**
   What the delivery at position `i` read: the tasks as they were at the last SELECT, by the clock reading of that
   SELECT, and the registry as it is at the delivery.
   */
  function ViewAt(ss: seq<Sys>, ms: seq<Move>, n: nat, i: nat): View
    requires |ss| == |ms| + 1 && DeliversAt(ms, n, i) && SelectsAt(ms, n, LastSelect(ms, n, i))
  {
    var a := LastSelect(ms, n, i);
    View(ss[a].p.tab, ms[a].at, ss[i].reg, ms[i].routeOrder)
  }

  /** What the step at position `i` is for the loop of node `n`. */
  function TurnAt(ss: seq<Sys>, ms: seq<Move>, n: nat, i: nat): seq<Turn>
    requires |ss| == |ms| + 1 && i < |ms|
  {
    if DeliversAt(ms, n, i) && SelectsAt(ms, n, LastSelect(ms, n, i)) then [Reads(ViewAt(ss, ms, n, i))]
    else if ms[i] == Local(n, E.TakeExit) then [Exit]
    else []
  }

  /** The turns of node `n` between two states, in the order of the run. */
  function TurnsOf(ss: seq<Sys>, ms: seq<Move>, n: nat, from: nat, to: nat): seq<Turn>
    requires |ss| == |ms| + 1 && to <= |ms|
  {
    if to <= from then [] else TurnsOf(ss, ms, n, from, to - 1) + TurnAt(ss, ms, n, to - 1)
  }

  // ---------------------------------------------------------------- one step

  /** Since it had emitted `base`, the engine has gone where the turns lead. */
  ghost predicate Follows(eng: E.State, base: seq<E.Job>, turns: seq<Turn>) {
    && |base| <= |eng.emitted| && eng.emitted[..|base|] == base
    && Walk(turns, E.PAGE_SIZE) == Progress(eng.cursor, Tasks(eng.emitted[|base|..]), eng.sched == E.Left)
  }

  /** The rows selected, and still to be joined, are the due page of this table at clock `at`. */
  ghost predicate SelectedIn(s: Sys, tab: TaskTab, n: nat, at: int)
    requires n in s.nodes
  {
    var eng := s.nodes[n].eng;
    eng.sched.Selected? ==>
      && eng.sched.ids == DuePage(tab, eng.cursor, at, E.PAGE_SIZE)
      && eng.sched.snap < |s.p.trace|
      && s.p.trace[eng.sched.snap] == Read(n, Copies(tab, IdSet(eng.sched.ids)), at)
  }

  lemma {:induction false} JoinSame(rows: map<nat, TaskRow>, others: map<nat, TaskRow>, ids: seq<nat>,
                                    reg: Tables, routeOrder: seq<nat>)
    requires forall id :: id in ids ==> id in rows && id in others && others[id] == rows[id]
    ensures Join(others, ids, reg, routeOrder) == Join(rows, ids, reg, routeOrder)
    ensures JoinedRowsOk(others, ids, reg) == JoinedRowsOk(rows, ids, reg)
  {
    if ids != [] {
      var front, last := ids[..|ids| - 1], ids[|ids| - 1];
      assert last in ids;
      JoinSame(rows, others, front, reg, routeOrder);
    }
  }

  lemma TasksAppend(emitted: seq<E.Job>, base: nat, tasks: seq<Task>, snap: nat)
    requires base <= |emitted|
    ensures var more := emitted + ToJobs(tasks, snap);
      more[..base] == emitted[..base] && Tasks(more[base..]) == Tasks(emitted[base..]) + tasks
  {
  }

  lemma SelectKeeps(s: Sys, u: Sys, n: nat, at: int)
    requires StepSelect(s, u, n, at)
    ensures n in u.nodes && SelectedIn(u, s.p.tab, n, at)
    ensures u.nodes[n].eng.cursor == s.nodes[n].eng.cursor && u.nodes[n].eng.emitted == s.nodes[n].eng.emitted
    ensures u.nodes[n].eng.sched != E.Left && s.nodes[n].eng.sched != E.Left
  {
  }

  lemma DeliverEffect(s: Sys, u: Sys, n: nat, routeOrder: seq<nat>)
    requires StepDeliver(s, u, n, routeOrder)
    ensures n in u.nodes && !u.nodes[n].eng.sched.Selected? && u.nodes[n].eng.sched != E.Left
    ensures var e, f := s.nodes[n].eng, u.nodes[n].eng;
      var r := Timeout(s.p.trace[e.sched.snap].page, e.sched.ids, s.reg, routeOrder);
      && r.Success?
      && f.emitted == e.emitted + ToJobs(r.value.0, e.sched.snap)
      && f.cursor == (if r.value.0 == [] then 0 else r.value.1)
      && (f.sched == E.Top <==> r.value.0 == [])
  {
  }

  /** A delivery is the page that TimeoutTasks reads from the table as selected and the registry as joined. */
  lemma DeliverReads(s: Sys, u: Sys, n: nat, routeOrder: seq<nat>, tab: TaskTab, at: int)
    requires StepDeliver(s, u, n, routeOrder) && SelectedIn(s, tab, n, at)
    ensures n in u.nodes && !u.nodes[n].eng.sched.Selected? && u.nodes[n].eng.sched != E.Left
    ensures var e, f := s.nodes[n].eng, u.nodes[n].eng;
      var r := TimeoutAt(View(tab, at, s.reg, routeOrder), e.cursor, E.PAGE_SIZE);
      && r.Success?
      && f.emitted == e.emitted + ToJobs(r.value.0, e.sched.snap)
      && f.cursor == (if r.value.0 == [] then 0 else r.value.1)
      && (f.sched == E.Top <==> r.value.0 == [])
  {
    var eng := s.nodes[n].eng;
    var page := s.p.trace[eng.sched.snap].page;
    JoinSame(tab.rows, page, eng.sched.ids, s.reg, routeOrder);
    var r := Timeout(page, eng.sched.ids, s.reg, routeOrder);
    assert r == TimeoutAt(View(tab, at, s.reg, routeOrder), eng.cursor, E.PAGE_SIZE);
    DeliverEffect(s, u, n, routeOrder);
  }

  lemma DeliverFollows(s: Sys, u: Sys, n: nat, v: View, base: seq<E.Job>, turns: seq<Turn>)
    requires StepDeliver(s, u, n, v.routeOrder) && SelectedIn(s, v.tab, n, v.now) && v.reg == s.reg
    requires Follows(s.nodes[n].eng, base, turns)
    ensures n in u.nodes && !u.nodes[n].eng.sched.Selected?
    ensures Follows(u.nodes[n].eng, base, turns + [Reads(v)])
    ensures Ends(Walk(turns, E.PAGE_SIZE), Reads(v), E.PAGE_SIZE) <==> u.nodes[n].eng.sched == E.Top
  {
    var e := s.nodes[n].eng;
    DeliverReads(s, u, n, v.routeOrder, v.tab, v.now);
    WalkAppend(turns, Reads(v), E.PAGE_SIZE);
    TasksAppend(e.emitted, |base|, TimeoutAt(v, e.cursor, E.PAGE_SIZE).value.0, e.sched.snap);
  }

  lemma QuietKeeps(s: Sys, u: Sys, n: nat, tab: TaskTab, at: int, base: seq<E.Job>, turns: seq<Turn>)
    requires n in s.nodes && n in u.nodes && Quiet(s.nodes[n].eng, u.nodes[n].eng)
    requires P.Extends(s.p.trace, u.p.trace) && Follows(s.nodes[n].eng, base, turns)
    ensures Follows(u.nodes[n].eng, base, turns)
    ensures u.nodes[n].eng.sched.Selected? && SelectedIn(s, tab, n, at) ==> SelectedIn(u, tab, n, at)
  {
    if u.nodes[n].eng.sched.Selected? && SelectedIn(s, tab, n, at) {
      P.ExtendsAt(s.p.trace, u.p.trace, u.nodes[n].eng.sched.snap);
    }
  }

  lemma ExitFollows(e: E.State, base: seq<E.Job>, turns: seq<Turn>)
    requires E.Enabled(e, E.TakeExit) && Follows(e, base, turns)
    ensures Follows(E.Next(e, E.TakeExit), base, turns + [Exit])
  {
    WalkAppend(turns, Exit, E.PAGE_SIZE);
  }

  // ---------------------------------------------------------------- the simulation

  /** At the start of a sweep, or before the first one. */
  predicate SweepStarts(eng: E.State) {
    eng.cursor == 0 && !eng.sched.Selected? && eng.sched != E.Left
  }

  /** A pending selection was made by the last SELECT, after `from`. */
  ghost predicate SelectedSince(ss: seq<Sys>, ms: seq<Move>, n: nat, from: nat, i: nat)
    requires |ss| == |ms| + 1 && i <= |ms| && n in ss[i].nodes
  {
    var a := LastSelect(ms, n, i);
    ss[i].nodes[n].eng.sched.Selected? ==>
      from <= a < i && SelectsAt(ms, n, a) && SelectedIn(ss[i], ss[a].p.tab, n, ms[a].at)
  }

  /** The state of the simulation at `i`, from the start of a sweep at `from`. */
  ghost predicate Simulates(ss: seq<Sys>, ms: seq<Move>, n: nat, from: nat, i: nat)
    requires |ss| == |ms| + 1
  {
    && from <= i <= |ms| && n in ss[i].nodes && n in ss[from].nodes
    && Follows(ss[i].nodes[n].eng, ss[from].nodes[n].eng.emitted, TurnsOf(ss, ms, n, from, i))
    && SelectedSince(ss, ms, n, from, i)
  }

  lemma SelectSimulates(ss: seq<Sys>, ms: seq<Move>, n: nat, from: nat, i: nat)
    requires |ss| == |ms| + 1 && i < |ms| && Simulates(ss, ms, n, from, i)
    requires SelectsAt(ms, n, i) && StepSelect(ss[i], ss[i + 1], n, ms[i].at)
    ensures Simulates(ss, ms, n, from, i + 1)
  {
    SelectKeeps(ss[i], ss[i + 1], n, ms[i].at);
    assert LastSelect(ms, n, i + 1) == i;
    assert TurnsOf(ss, ms, n, from, i + 1) == TurnsOf(ss, ms, n, from, i);
  }

  /** When the node is between SELECT and join, the last SELECT is the one it joins. */
  lemma PendingSelect(ss: seq<Sys>, ms: seq<Move>, n: nat, from: nat, i: nat)
    requires |ss| == |ms| + 1 && from <= i < |ms| && n in ss[i].nodes && SelectedSince(ss, ms, n, from, i)
    requires DeliversAt(ms, n, i) && StepDeliver(ss[i], ss[i + 1], n, ms[i].routeOrder)
    ensures from <= LastSelect(ms, n, i) < i && SelectsAt(ms, n, LastSelect(ms, n, i))
    ensures var v := ViewAt(ss, ms, n, i);
      v.reg == ss[i].reg && v.routeOrder == ms[i].routeOrder && SelectedIn(ss[i], v.tab, n, v.now)
  {
  }

  lemma DeliverSimulates(ss: seq<Sys>, ms: seq<Move>, n: nat, from: nat, i: nat)
    requires |ss| == |ms| + 1 && i < |ms| && Simulates(ss, ms, n, from, i)
    requires DeliversAt(ms, n, i) && StepDeliver(ss[i], ss[i + 1], n, ms[i].routeOrder)
    ensures Simulates(ss, ms, n, from, i + 1)
  {
    PendingSelect(ss, ms, n, from, i);
    var s, u, v := ss[i], ss[i + 1], ViewAt(ss, ms, n, i);
    var base, turns := ss[from].nodes[n].eng.emitted, TurnsOf(ss, ms, n, from, i);
    DeliverFollows(s, u, n, v, base, turns);
    assert TurnsOf(ss, ms, n, from, i + 1) == turns + [Reads(v)];
  }

  lemma DeliverEnds(ss: seq<Sys>, ms: seq<Move>, n: nat, from: nat, i: nat, v: View)
    requires |ss| == |ms| + 1 && i < |ms| && Simulates(ss, ms, n, from, i)
    requires DeliversAt(ms, n, i) && StepDeliver(ss[i], ss[i + 1], n, ms[i].routeOrder)
    requires SelectsAt(ms, n, LastSelect(ms, n, i)) && v == ViewAt(ss, ms, n, i)
    ensures n in ss[i + 1].nodes
    ensures Ends(Walk(TurnsOf(ss, ms, n, from, i), E.PAGE_SIZE), Reads(v), E.PAGE_SIZE) <==>
        ss[i + 1].nodes[n].eng.sched == E.Top
  {
    PendingSelect(ss, ms, n, from, i);
    DeliverFollows(ss[i], ss[i + 1], n, v, ss[from].nodes[n].eng.emitted, TurnsOf(ss, ms, n, from, i));
  }

  lemma QuietSimulates(ss: seq<Sys>, ms: seq<Move>, n: nat, from: nat, i: nat)
    requires |ss| == |ms| + 1 && i < |ms| && Simulates(ss, ms, n, from, i)
    requires n in ss[i + 1].nodes && Quiet(ss[i].nodes[n].eng, ss[i + 1].nodes[n].eng)
    requires P.Extends(ss[i].p.trace, ss[i + 1].p.trace)
    requires !SelectsAt(ms, n, i) && !DeliversAt(ms, n, i) && ms[i] != Local(n, E.TakeExit)
    ensures Simulates(ss, ms, n, from, i + 1)
  {
    var a, base, turns := LastSelect(ms, n, i), ss[from].nodes[n].eng.emitted, TurnsOf(ss, ms, n, from, i);
    assert LastSelect(ms, n, i + 1) == a;
    assert TurnAt(ss, ms, n, i) == [] && turns + [] == turns;
    if SelectsAt(ms, n, a) && a < |ss| {
      QuietKeeps(ss[i], ss[i + 1], n, ss[a].p.tab, ms[a].at, base, turns);
    } else {
      QuietKeeps(ss[i], ss[i + 1], n, ss[i].p.tab, 0, base, turns);
    }
  }

  lemma ExitSimulates(ss: seq<Sys>, ms: seq<Move>, n: nat, from: nat, i: nat)
    requires |ss| == |ms| + 1 && i < |ms| && Simulates(ss, ms, n, from, i)
    requires n in ss[i + 1].nodes && ms[i] == Local(n, E.TakeExit)
    requires E.Enabled(ss[i].nodes[n].eng, E.TakeExit)
    requires ss[i + 1].nodes[n].eng == E.Next(ss[i].nodes[n].eng, E.TakeExit)
    ensures Simulates(ss, ms, n, from, i + 1)
  {
    ExitFollows(ss[i].nodes[n].eng, ss[from].nodes[n].eng.emitted, TurnsOf(ss, ms, n, from, i));
  }

  lemma StepSimulates(cal: Calendar, ss: seq<Sys>, ms: seq<Move>, n: nat, from: nat, i: nat)
    requires |ss| == |ms| + 1 && i < |ms| && Simulates(ss, ms, n, from, i)
    requires C.StepAt(cal, ss, ms, i)
    ensures Simulates(ss, ms, n, from, i + 1)
  {
    var m := ms[i];
    if SelectsAt(ms, n, i) {
      SelectSimulates(ss, ms, n, from, i);
    } else if DeliversAt(ms, n, i) {
      DeliverSimulates(ss, ms, n, from, i);
    } else {
      NodeStep(cal, ss[i], ss[i + 1], m, n);
      CT.StepExtends(cal, ss[i], ss[i + 1], m);
      if m == Local(n, E.TakeExit) {
        ExitSimulates(ss, ms, n, from, i);
      } else {
        QuietSimulates(ss, ms, n, from, i);
      }
    }
  }

  lemma SimulatesOn(cal: Calendar, ss: seq<Sys>, ms: seq<Move>, n: nat, from: nat, i: nat)
    requires C.Behaviour(cal, ss, ms) && 0 < i <= |ms| && Simulates(ss, ms, n, from, i - 1)
    ensures Simulates(ss, ms, n, from, i)
  {
    assert C.StepAt(cal, ss, ms, i - 1);
    StepSimulates(cal, ss, ms, n, from, i - 1);
  }

  lemma SimulationStarts(ss: seq<Sys>, ms: seq<Move>, n: nat, from: nat)
    requires |ss| == |ms| + 1 && from <= |ms| && n in ss[from].nodes && SweepStarts(ss[from].nodes[n].eng)
    ensures Simulates(ss, ms, n, from, from)
  {
    var emitted := ss[from].nodes[n].eng.emitted;
    assert emitted[..|emitted|] == emitted && Tasks(emitted[|emitted|..]) == [];
  }

  /**
   In every run of the system, what a node sends its workers from the start of a sweep on is what the turns of its loop
   send: every read sees the tasks and the clock of its SELECT and the registry of its delivery, in the order of the
   run.
   */
  lemma {:induction false} EngineSweeps(cal: Calendar, ss: seq<Sys>, ms: seq<Move>, n: nat, from: nat, i: nat)
    requires C.Behaviour(cal, ss, ms) && from <= i < |ss| && n in ss[from].nodes && SweepStarts(ss[from].nodes[n].eng)
    ensures Simulates(ss, ms, n, from, i)
    decreases i
  {
    if from < i {
      EngineSweeps(cal, ss, ms, n, from, i - 1);
      SimulatesOn(cal, ss, ms, n, from, i);
    } else {
      SimulationStarts(ss, ms, n, from);
    }
  }

  // ---------------------------------------------------------------- one sweep of a node

  /** The delivery at position `i` was empty and reset the cursor. */
  ghost predicate SweepEndsAt(ss: seq<Sys>, ms: seq<Move>, n: nat, i: nat)
    requires |ss| == |ms| + 1
  {
    DeliversAt(ms, n, i) && n in ss[i + 1].nodes && ss[i + 1].nodes[n].eng.sched == E.Top
  }

  /** Node `n` makes one sweep from state `from` to the empty delivery at position `last`. */
  ghost predicate NodeSweep(ss: seq<Sys>, ms: seq<Move>, n: nat, from: nat, last: nat)
    requires |ss| == |ms| + 1
  {
    && from <= last < |ms| && n in ss[from].nodes && SweepStarts(ss[from].nodes[n].eng)
    && SweepEndsAt(ss, ms, n, last) && forall i :: from <= i < last ==> !SweepEndsAt(ss, ms, n, i)
  }

  /** The tasks that the node emitted in the sweep. */
  function SweepTasks(ss: seq<Sys>, n: nat, from: nat, last: nat): seq<Task>
    requires from <= last < |ss| - 1 && n in ss[from].nodes && n in ss[last + 1].nodes
    requires |ss[from].nodes[n].eng.emitted| <= |ss[last + 1].nodes[n].eng.emitted|
  {
    Tasks(ss[last + 1].nodes[n].eng.emitted[|ss[from].nodes[n].eng.emitted|..])
  }

  /** A delivery of the node joins the last SELECT since `from`. */
  lemma DeliveredSince(cal: Calendar, ss: seq<Sys>, ms: seq<Move>, n: nat, from: nat, i: nat)
    requires C.Behaviour(cal, ss, ms) && from <= i < |ms| && n in ss[from].nodes && SweepStarts(ss[from].nodes[n].eng)
    requires DeliversAt(ms, n, i)
    ensures from <= LastSelect(ms, n, i) < i && SelectsAt(ms, n, LastSelect(ms, n, i))
  {
    EngineSweeps(cal, ss, ms, n, from, i);
    assert C.StepAt(cal, ss, ms, i);
    PendingSelect(ss, ms, n, from, i);
  }

  /** It is the end of the sweep for the turns exactly when it is for the node. */
  lemma DeliveryEnds(cal: Calendar, ss: seq<Sys>, ms: seq<Move>, n: nat, from: nat, i: nat, v: View)
    requires C.Behaviour(cal, ss, ms) && from <= i < |ms| && n in ss[from].nodes && SweepStarts(ss[from].nodes[n].eng)
    requires DeliversAt(ms, n, i) && SelectsAt(ms, n, LastSelect(ms, n, i)) && v == ViewAt(ss, ms, n, i)
    ensures Ends(Walk(TurnsOf(ss, ms, n, from, i), E.PAGE_SIZE), Reads(v), E.PAGE_SIZE) <==> SweepEndsAt(ss, ms, n, i)
  {
    EngineSweeps(cal, ss, ms, n, from, i);
    assert C.StepAt(cal, ss, ms, i);
    DeliverEnds(ss, ms, n, from, i, v);
  }

  lemma {:induction false} PrefixSweeps(cal: Calendar, ss: seq<Sys>, ms: seq<Move>, n: nat, from: nat, i: nat)
    requires C.Behaviour(cal, ss, ms) && from <= i <= |ms| && n in ss[from].nodes && SweepStarts(ss[from].nodes[n].eng)
    requires forall k :: from <= k < i ==> !SweepEndsAt(ss, ms, n, k)
    ensures Sweeping(TurnsOf(ss, ms, n, from, i), E.PAGE_SIZE)
    decreases i
  {
    if from < i {
      PrefixSweeps(cal, ss, ms, n, from, i - 1);
      assert !SweepEndsAt(ss, ms, n, i - 1);
      if DeliversAt(ms, n, i - 1) {
        DeliveredSince(cal, ss, ms, n, from, i - 1);
        DeliveryEnds(cal, ss, ms, n, from, i - 1, ViewAt(ss, ms, n, i - 1));
      }
      TurnSweeps(TurnsOf(ss, ms, n, from, i - 1), TurnAt(ss, ms, n, i - 1));
    }
  }

  lemma TurnSweeps(turns: seq<Turn>, turn: seq<Turn>)
    requires Sweeping(turns, E.PAGE_SIZE) && |turn| <= 1
    requires turn == [] || !Ends(Walk(turns, E.PAGE_SIZE), turn[0], E.PAGE_SIZE)
    ensures Sweeping(turns + turn, E.PAGE_SIZE)
  {
    if turn == [] {
      assert turns + turn == turns;
    } else {
      assert turn == [turn[0]];
      SweepingAppend(turns, turn[0]);
    }
  }

  lemma SweepingAppend(turns: seq<Turn>, t: Turn)
    requires Sweeping(turns, E.PAGE_SIZE) && !Ends(Walk(turns, E.PAGE_SIZE), t, E.PAGE_SIZE)
    ensures Sweeping(turns + [t], E.PAGE_SIZE)
  {
    assert (turns + [t])[..|turns|] == turns;
  }

  /** The turns of a sweep and its last view. */
  lemma SweepTurns(cal: Calendar, ss: seq<Sys>, ms: seq<Move>, n: nat, from: nat, last: nat)
    requires C.Behaviour(cal, ss, ms) && NodeSweep(ss, ms, n, from, last)
    ensures n in ss[last].nodes && from <= LastSelect(ms, n, last) < last && SelectsAt(ms, n, LastSelect(ms, n, last))
    ensures var turns := TurnsOf(ss, ms, n, from, last);
      && Sweeping(turns, E.PAGE_SIZE) && Walk(turns, E.PAGE_SIZE).cursor == ss[last].nodes[n].eng.cursor
      && Ends(Walk(turns, E.PAGE_SIZE), Reads(ViewAt(ss, ms, n, last)), E.PAGE_SIZE)
  {
    EngineSweeps(cal, ss, ms, n, from, last);
    PrefixSweeps(cal, ss, ms, n, from, last);
    DeliveredSince(cal, ss, ms, n, from, last);
    DeliveryEnds(cal, ss, ms, n, from, last, ViewAt(ss, ms, n, last));
  }

  lemma EndSendsNothing(turns: seq<Turn>, t: Turn)
    requires Ends(Walk(turns, E.PAGE_SIZE), t, E.PAGE_SIZE)
    ensures Walk(turns + [t], E.PAGE_SIZE).sent == Walk(turns, E.PAGE_SIZE).sent
  {
    WalkAppend(turns, t, E.PAGE_SIZE);
    TurnKinds(Walk(turns, E.PAGE_SIZE), t, E.PAGE_SIZE);
  }

  lemma SentBySimulation(ss: seq<Sys>, ms: seq<Move>, n: nat, from: nat, last: nat)
    requires |ss| == |ms| + 1 && from <= last < |ms| && Simulates(ss, ms, n, from, last + 1)
    requires DeliversAt(ms, n, last) && SelectsAt(ms, n, LastSelect(ms, n, last))
    ensures |ss[from].nodes[n].eng.emitted| <= |ss[last + 1].nodes[n].eng.emitted|
    ensures Walk(TurnsOf(ss, ms, n, from, last) + [Reads(ViewAt(ss, ms, n, last))],
        E.PAGE_SIZE).sent == SweepTasks(ss, n, from, last)
  {
  }

  lemma LastTurnSendsNothing(cal: Calendar, ss: seq<Sys>, ms: seq<Move>, n: nat, from: nat, last: nat)
    requires C.Behaviour(cal, ss, ms) && NodeSweep(ss, ms, n, from, last) && SelectsAt(ms, n, LastSelect(ms, n, last))
    ensures var turns := TurnsOf(ss, ms, n, from, last);
      Walk(turns + [Reads(ViewAt(ss, ms, n, last))], E.PAGE_SIZE).sent == Walk(turns, E.PAGE_SIZE).sent
  {
    SweepTurns(cal, ss, ms, n, from, last);
    EndSendsNothing(TurnsOf(ss, ms, n, from, last), Reads(ViewAt(ss, ms, n, last)));
  }

  lemma SentSince(cal: Calendar, ss: seq<Sys>, ms: seq<Move>, n: nat, from: nat, last: nat)
    requires C.Behaviour(cal, ss, ms) && from <= last < |ms| && n in ss[from].nodes
    requires SweepStarts(ss[from].nodes[n].eng)
    requires DeliversAt(ms, n, last) && SelectsAt(ms, n, LastSelect(ms, n, last))
    ensures n in ss[last + 1].nodes && |ss[from].nodes[n].eng.emitted| <= |ss[last + 1].nodes[n].eng.emitted|
    ensures Walk(TurnsOf(ss, ms, n, from, last) + [Reads(ViewAt(ss, ms, n, last))],
        E.PAGE_SIZE).sent == SweepTasks(ss, n, from, last)
  {
    EngineSweeps(cal, ss, ms, n, from, last + 1);
    SentBySimulation(ss, ms, n, from, last);
  }

  /** The tasks emitted in a sweep are those that its turns send. */
  lemma SweepFacts(cal: Calendar, ss: seq<Sys>, ms: seq<Move>, n: nat, from: nat, last: nat)
    requires C.Behaviour(cal, ss, ms) && NodeSweep(ss, ms, n, from, last)
    ensures |ss[from].nodes[n].eng.emitted| <= |ss[last + 1].nodes[n].eng.emitted|
    ensures Walk(TurnsOf(ss, ms, n, from, last), E.PAGE_SIZE).sent == SweepTasks(ss, n, from, last)
  {
    DeliveredSince(cal, ss, ms, n, from, last);
    LastTurnSendsNothing(cal, ss, ms, n, from, last);
    SentSince(cal, ss, ms, n, from, last);
  }

  // ---------------------------------------------------------------- coverage in the system

  /** The task is not stopped and has budget, and its server is `srv`, which is live. */
  predicate Runnable(s: Sys, id: nat, srv: nat) {
    && id in s.p.tab.rows && !s.p.tab.rows[id].deleted && s.p.tab.rows[id].runTimes < s.p.tab.rows[id].allow
    && s.p.tab.rows[id].srvId == srv && LiveSrv(s.reg, srv)
  }

  /**
   In every state of the sweep the task is runnable, and by the clock of every SELECT of the node its plan has come.
   */
  ghost predicate DueThroughout(ss: seq<Sys>, ms: seq<Move>, n: nat, from: nat, last: nat, id: nat, srv: nat)
    requires |ss| == |ms| + 1 && last < |ms|
  {
    && (forall i :: from <= i <= last ==> Runnable(ss[i], id, srv))
    && (forall i :: from <= i <= last && SelectsAt(ms, n, i) ==> Planned(ss[i], id, ms[i].at))
  }

  predicate Planned(s: Sys, id: nat, at: int) {
    id in s.p.tab.rows && s.p.tab.rows[id].plan <= at
  }

  lemma ViewWants(ss: seq<Sys>, ms: seq<Move>, n: nat, from: nat, last: nat, i: nat, id: nat, srv: nat)
    requires |ss| == |ms| + 1 && i <= last < |ms| && DueThroughout(ss, ms, n, from, last, id, srv) && 0 < id
    requires DeliversAt(ms, n, i) && SelectsAt(ms, n, LastSelect(ms, n, i)) && from <= LastSelect(ms, n, i) < i
    ensures LiveDue(ViewAt(ss, ms, n, i), id)
  {
    var a := LastSelect(ms, n, i);
    assert Runnable(ss[a], id, srv) && Runnable(ss[i], id, srv) && Planned(ss[a], id, ms[a].at);
  }

  lemma TurnWants(cal: Calendar, ss: seq<Sys>, ms: seq<Move>, n: nat, from: nat, last: nat, i: nat, id: nat, srv: nat)
    requires C.Behaviour(cal, ss, ms) && from <= i < last < |ms| && n in ss[from].nodes
    requires SweepStarts(ss[from].nodes[n].eng)
    requires DueThroughout(ss, ms, n, from, last, id, srv) && 0 < id
    ensures WantedAll(TurnAt(ss, ms, n, i), id)
  {
    if DeliversAt(ms, n, i) {
      DeliveredSince(cal, ss, ms, n, from, i);
      ViewWants(ss, ms, n, from, last, i, id, srv);
    }
  }

  lemma {:induction false} TurnsWant(cal: Calendar, ss: seq<Sys>, ms: seq<Move>, n: nat, from: nat, last: nat,
                                     i: nat, id: nat, srv: nat)
    requires C.Behaviour(cal, ss, ms) && from <= i <= last < |ms| && n in ss[from].nodes
    requires SweepStarts(ss[from].nodes[n].eng)
    requires DueThroughout(ss, ms, n, from, last, id, srv) && 0 < id
    ensures WantedAll(TurnsOf(ss, ms, n, from, i), id)
    decreases i
  {
    if from < i {
      TurnsWant(cal, ss, ms, n, from, last, i - 1, id, srv);
      TurnWants(cal, ss, ms, n, from, last, i - 1, id, srv);
      WantedAppend(TurnsOf(ss, ms, n, from, i - 1), TurnAt(ss, ms, n, i - 1), id);
    }
  }

  lemma WantedAppend(turns: seq<Turn>, turn: seq<Turn>, id: nat)
    requires WantedAll(turns, id) && WantedAll(turn, id)
    ensures WantedAll(turns + turn, id)
  {
  }

  lemma IdPositive(cal: Calendar, ss: seq<Sys>, ms: seq<Move>, i: nat, id: nat)
    requires C.Behaviour(cal, ss, ms) && i < |ss| && id in ss[i].p.tab.rows
    ensures 0 < id
  {
    CT.LockingHolds(cal, ss, ms, i);
    assert TaskIndexed(ss[i].p.tab, id);
  }

  /**
   In one sweep of a node the emitted ids ascend, so no task is emitted twice, whatever the other nodes and the API
   do.
   */
  lemma NodeSweepIncreasing(cal: Calendar, ss: seq<Sys>, ms: seq<Move>, n: nat, from: nat, last: nat)
    requires C.Behaviour(cal, ss, ms) && NodeSweep(ss, ms, n, from, last)
    ensures |ss[from].nodes[n].eng.emitted| <= |ss[last + 1].nodes[n].eng.emitted|
    ensures Increasing(Ids(SweepTasks(ss, n, from, last)))
  {
    SweepTurns(cal, ss, ms, n, from, last);
    SweepFacts(cal, ss, ms, n, from, last);
    SweepIncreasing(TurnsOf(ss, ms, n, from, last), E.PAGE_SIZE);
  }

  /**
   A task that is due on a live server throughout a sweep of a node is missed by it if and only if the last SELECT of
   the sweep met a full page of due rows before the task; all of them had no live server at the delivery.
   */
  lemma NodeSweepMissesIff(cal: Calendar, ss: seq<Sys>, ms: seq<Move>, n: nat, from: nat, last: nat, id: nat, srv: nat)
    requires C.Behaviour(cal, ss, ms) && NodeSweep(ss, ms, n, from, last)
    requires DueThroughout(ss, ms, n, from, last, id, srv)
    ensures n in ss[last].nodes && SelectsAt(ms, n, LastSelect(ms, n, last))
    ensures |ss[from].nodes[n].eng.emitted| <= |ss[last + 1].nodes[n].eng.emitted|
    ensures id !in Ids(SweepTasks(ss, n, from, last))
      <==> HidesBehindPage(ViewAt(ss, ms, n, last), ss[last].nodes[n].eng.cursor, 1000, id)
  {
    assert Runnable(ss[from], id, srv);
    IdPositive(cal, ss, ms, from, id);
    SweepTurns(cal, ss, ms, n, from, last);
    SweepFacts(cal, ss, ms, n, from, last);
    TurnsWant(cal, ss, ms, n, from, last, last, id, srv);
    ViewWants(ss, ms, n, from, last, last, id, srv);
    SweepMissesIff(TurnsOf(ss, ms, n, from, last), ViewAt(ss, ms, n, last), E.PAGE_SIZE, id);
  }

  /** It is emitted exactly once if fewer than a page of due rows were without a live server at the last read. */
  lemma NodeSweepCovers(cal: Calendar, ss: seq<Sys>, ms: seq<Move>, n: nat, from: nat, last: nat, id: nat, srv: nat)
    requires C.Behaviour(cal, ss, ms) && NodeSweep(ss, ms, n, from, last)
    requires DueThroughout(ss, ms, n, from, last, id, srv)
    requires SelectsAt(ms, n, LastSelect(ms, n, last)) ==> |Orphans(ViewAt(ss, ms, n, last))| < 1000
    ensures |ss[from].nodes[n].eng.emitted| <= |ss[last + 1].nodes[n].eng.emitted|
    ensures exists k :: 0 <= k < |SweepTasks(ss, n, from, last)| && SentOnlyAt(SweepTasks(ss, n, from, last), k, id)
  {
    assert Runnable(ss[from], id, srv);
    IdPositive(cal, ss, ms, from, id);
    SweepTurns(cal, ss, ms, n, from, last);
    SweepFacts(cal, ss, ms, n, from, last);
    TurnsWant(cal, ss, ms, n, from, last, last, id, srv);
    ViewWants(ss, ms, n, from, last, last, id, srv);
    SweepCovers(TurnsOf(ss, ms, n, from, last), ViewAt(ss, ms, n, last), E.PAGE_SIZE, id);
  }
}
