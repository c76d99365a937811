/**
 The scheduler's paged sweep over the due rows, internal/task/sched.go, on top of TimeoutTasks. The tables, the clock
 and the registry may differ at every read.
 */
module Sweep {
  import opened Wrappers
  import opened Selections
  import opened SrvTables
  import opened SrvQueries
  import opened TaskTables

  /** What one call of TimeoutTasks finds. */
  datatype View = View(tab: TaskTab, now: int, reg: Tables, routeOrder: seq<nat>)

  /** One pass through the loop: the exit signal, no mastership, a failing database, or a read. */
  datatype Turn = Exit | NotMaster | ReadFails | Reads(view: View)

  datatype Progress = Progress(cursor: nat, sent: seq<Task>, exited: bool)

  const FRESH := Progress(0, [], false)

  function TimeoutAt(v: View, cursor: nat, size: nat): Result<(seq<Task>, nat), TaskError> {
    Timeout(v.tab.rows, DuePage(v.tab, cursor, v.now, size), v.reg, v.routeOrder)
  }

  function After(p: Progress, t: Turn, size: nat): Progress {
    if p.exited then p
    else match t
      case Exit => p.(exited := true)
      case NotMaster => p
      case ReadFails => p
      case Reads(v) => Received(p, TimeoutAt(v, p.cursor, size))
  }

  function Received(p: Progress, r: Result<(seq<Task>, nat), TaskError>): Progress {
    match r
    case Failure(_) => p
    case Success(page) => if page.0 == [] then p.(cursor := 0) else Progress(page.1, p.sent + page.0, false)
  }

  function Walk(turns: seq<Turn>, size: nat): Progress {
    if turns == [] then FRESH else After(Walk(turns[..|turns| - 1], size), turns[|turns| - 1], size)
  }

  lemma WalkAppend(turns: seq<Turn>, t: Turn, size: nat)
    ensures Walk(turns + [t], size) == After(Walk(turns, size), t, size)
  {
    assert (turns + [t])[..|turns|] == turns;
  }

  function Behind(sent: seq<Task>, p: Progress): Progress {
    p.(sent := sent + p.sent)
  }

  lemma ReceivedBehind(sent: seq<Task>, p: Progress, r: Result<(seq<Task>, nat), TaskError>)
    ensures Received(Behind(sent, p), r) == Behind(sent, Received(p, r))
  {
    if r.Success? {
      assert sent + (p.sent + r.value.0) == (sent + p.sent) + r.value.0;
    }
  }

  lemma AfterBehind(sent: seq<Task>, p: Progress, t: Turn, size: nat)
    ensures After(Behind(sent, p), t, size) == Behind(sent, After(p, t, size))
  {
    if t.Reads? {
      ReceivedBehind(sent, p, TimeoutAt(t.view, p.cursor, size));
    }
  }

  /** The scheduler; `sent` is the history of its task channel. */
  class Sched {
    var sent: seq<Task>

    constructor ()
      ensures sent == []
    {
      sent := [];
    }

    /** The inner loop: one channel send for each task. */
    method Send(tasks: seq<Task>)
      modifies this
      ensures sent == old(sent) + tasks
    {
      for k := 0 to |tasks|
        invariant sent == old(sent) + tasks[..k]
      {
        sent := sent + [tasks[k]];
        assert tasks[..k + 1] == tasks[..k] + [tasks[k]];
      }
      assert tasks[..|tasks|] == tasks;
    }

    /** A page that was read: an error leaves the cursor, an empty page resets it. */
    method Take(r: Result<(seq<Task>, nat), TaskError>, cursor: nat) returns (next: nat)
      modifies this
      ensures Progress(next, sent, false) == Received(Progress(cursor, old(sent), false), r)
    {
      next := cursor;
      if r.Success? {
        var (tasks, nextCursor) := r.value;
        if |tasks| == 0 {
          next := 0;
        } else {
          next := nextCursor;
          Send(tasks);
        }
      }
    }

    /** The loop of `schedule`; `turns` is what it meets, and whatever follows an exit signal is ignored. */
    method Schedule(turns: seq<Turn>, size: nat)
      modifies this
      ensures sent == old(sent) + Walk(turns, size).sent
    {
      var cursor: nat := 0;
      var exiting := false;
      for i := 0 to |turns|
        invariant Progress(cursor, sent, exiting) == Behind(old(sent), Walk(turns[..i], size))
      {
        assert turns[..i + 1] == turns[..i] + [turns[i]];
        WalkAppend(turns[..i], turns[i], size);
        AfterBehind(old(sent), Walk(turns[..i], size), turns[i], size);
        if exiting {
          continue;
        }
        match turns[i] {
          case Exit =>
            exiting := true;
          case NotMaster =>
          case ReadFails =>
          case Reads(v) =>
            cursor := Take(TimeoutAt(v, cursor, size), cursor);
        }
      }
      assert turns[..|turns|] == turns;
    }
  }

  // ---------------------------------------------------------------- one page

  function Ids(tasks: seq<Task>): (ids: seq<nat>)
    ensures |ids| == |tasks| && forall i :: 0 <= i < |ids| ==> ids[i] == tasks[i].id
  {
    seq(|tasks|, i requires 0 <= i < |tasks| => tasks[i].id)
  }

  /** The row's server is live. */
  function Served(rows: map<nat, TaskRow>, reg: Tables): nat -> bool {
    (id: nat) => id in rows && LiveSrv(reg, rows[id].srvId)
  }

  function Orphaned(v: View): nat -> bool {
    (id: nat) => id in v.tab.rows && !LiveSrv(v.reg, v.tab.rows[id].srvId)
  }

  predicate LiveDue(v: View, id: nat) {
    DueAfter(v.tab, 0, v.now, id) && LiveSrv(v.reg, v.tab.rows[id].srvId)
  }

  lemma {:induction false} JoinIds(rows: map<nat, TaskRow>, ids: seq<nat>, reg: Tables, routeOrder: seq<nat>)
    requires forall id :: id in ids ==> id in rows
    ensures Ids(Join(rows, ids, reg, routeOrder)) == Filter(ids, Served(rows, reg))
  {
    if ids != [] {
      var front, last := ids[..|ids| - 1], ids[|ids| - 1];
      assert last in ids;
      JoinIds(rows, front, reg, routeOrder);
    }
  }

  lemma AllDueIncreasing(t: TaskTab, cursor: nat, now: int, size: nat)
    ensures Increasing(AllDue(t, cursor, now)) && Increasing(DuePage(t, cursor, now, size))
  {
    FilterIncreasing(Ascending(t.rows.Keys), DueBy(t, cursor, now));
  }

  /** A page is a prefix: with a row it holds every due row before that one. */
  lemma PageIsPrefix(t: TaskTab, cursor: nat, now: int, size: nat, x: nat, y: nat)
    requires DueAfter(t, cursor, now, x) && y in DuePage(t, cursor, now, size) && x <= y
    ensures x in DuePage(t, cursor, now, size)
  {
    AllDueIncreasing(t, cursor, now, size);
    var all, page := AllDue(t, cursor, now), DuePage(t, cursor, now, size);
    var i :| 0 <= i < |all| && all[i] == x;
    var j :| 0 <= j < |page| && page[j] == y;
    assert all[j] == y;
    assert page[i] == x;
  }

  lemma ShortPageIsAll(t: TaskTab, cursor: nat, now: int, size: nat)
    requires |DuePage(t, cursor, now, size)| < size
    ensures DuePage(t, cursor, now, size) == AllDue(t, cursor, now)
  {
  }

  lemma ServedPage(v: View, cursor: nat, size: nat)
    ensures var ids := Filter(DuePage(v.tab, cursor, v.now, size), Served(v.tab.rows, v.reg));
      Increasing(ids) && forall id :: id in ids ==> cursor < id && LiveDue(v, id)
  {
    AllDueIncreasing(v.tab, cursor, v.now, size);
    FilterIncreasing(DuePage(v.tab, cursor, v.now, size), Served(v.tab.rows, v.reg));
  }

  lemma ReadTasks(v: View, cursor: nat, size: nat)
    requires TimeoutAt(v, cursor, size).Success?
    ensures var (tasks, next) := TimeoutAt(v, cursor, size).value;
      && Ids(tasks) == Filter(DuePage(v.tab, cursor, v.now, size), Served(v.tab.rows, v.reg))
      && (tasks != [] ==> next == Ids(tasks)[|tasks| - 1])
  {
    JoinIds(v.tab.rows, DuePage(v.tab, cursor, v.now, size), v.reg, v.routeOrder);
  }

  /** What a read hands over: the live rows of the page in ascending order, and the last of them as the next cursor. */
  lemma ReadIds(v: View, cursor: nat, size: nat)
    requires TimeoutAt(v, cursor, size).Success?
    ensures var (tasks, next) := TimeoutAt(v, cursor, size).value;
      && Ids(tasks) == Filter(DuePage(v.tab, cursor, v.now, size), Served(v.tab.rows, v.reg))
      && Increasing(Ids(tasks)) && (forall id :: id in Ids(tasks) ==> cursor < id && LiveDue(v, id))
      && (tasks != [] ==> next == Ids(tasks)[|tasks| - 1] && next in Ids(tasks) && cursor < next)
  {
    ReadTasks(v, cursor, size);
    ServedPage(v, cursor, size);
  }

  /** Over a valid table the rows never make TimeoutTasks fail. */
  lemma NoBadRow(v: View, cursor: nat, size: nat)
    requires ValidTasks(v.tab)
    ensures TimeoutAt(v, cursor, size).Success?
  {
    forall id | id in DuePage(v.tab, cursor, v.now, size)
      ensures RowOk(v.tab.rows[id])
    {
      assert TaskIndexed(v.tab, id);
    }
  }

  // ---------------------------------------------------------------- one sweep

  /** The turn finds no more tasks: the end of a sweep. */
  predicate Ends(p: Progress, t: Turn, size: nat) {
    && !p.exited && t.Reads?
    && var r := TimeoutAt(t.view, p.cursor, size);
    r.Success? && r.value.0 == []
  }

  /** The turns begin a sweep and none of them ends it. */
  predicate Sweeping(turns: seq<Turn>, size: nat) {
    turns == [] || (Sweeping(turns[..|turns| - 1], size)
                    && !Ends(Walk(turns[..|turns| - 1], size), turns[|turns| - 1], size))
  }

  /** The turn hands over a page. */
  predicate Emits(p: Progress, t: Turn, size: nat) {
    && !p.exited && t.Reads?
    && TimeoutAt(t.view, p.cursor, size).Success? && TimeoutAt(t.view, p.cursor, size).value.0 != []
  }

  lemma TurnKinds(p: Progress, t: Turn, size: nat)
    ensures !Ends(p, t, size) && !Emits(p, t, size) ==>
        After(p, t, size).cursor == p.cursor && After(p, t, size).sent == p.sent
    ensures Ends(p, t, size) ==> After(p, t, size) == p.(cursor := 0)
    ensures Emits(p, t, size) ==>
      var page := TimeoutAt(t.view, p.cursor, size).value;
      After(p, t, size) == Progress(page.1, p.sent + page.0, false)
  {
  }

  lemma IdsConcat(xs: seq<Task>, ys: seq<Task>)
    ensures Ids(xs + ys) == Ids(xs) + Ids(ys)
  {
  }

  lemma AppendIncreasing(xs: seq<nat>, ys: seq<nat>, cursor: nat)
    requires Increasing(xs) && (forall x :: x in xs ==> x <= cursor)
    requires Increasing(ys) && (forall y :: y in ys ==> cursor < y)
    ensures Increasing(xs + ys)
    ensures ys != [] ==> forall x :: x in xs + ys ==> x <= ys[|ys| - 1]
  {
    forall i, j | 0 <= i < |xs| && 0 <= j < |ys|
      ensures xs[i] < ys[j]
    {
      assert xs[i] in xs && ys[j] in ys;
    }
    assert ys != [] ==> ys[0] in ys;
  }

  lemma EmitIncreasing(sent: seq<Task>, tasks: seq<Task>, cursor: nat)
    requires Increasing(Ids(sent)) && (forall id :: id in Ids(sent) ==> id <= cursor)
    requires tasks != [] && Increasing(Ids(tasks)) && (forall id :: id in Ids(tasks) ==> cursor < id)
    ensures Increasing(Ids(sent + tasks))
    ensures forall id :: id in Ids(sent + tasks) ==> id <= Ids(tasks)[|tasks| - 1]
  {
    IdsConcat(sent, tasks);
    AppendIncreasing(Ids(sent), Ids(tasks), cursor);
  }

  /** The tasks sent so far in this sweep ascend up to the cursor. */
  ghost predicate Ordered(p: Progress) {
    Increasing(Ids(p.sent)) && forall id :: id in Ids(p.sent) ==> id <= p.cursor
  }

  /** The result is an ascending page after the cursor, with its last id as the next cursor. */
  ghost predicate Handed(r: Result<(seq<Task>, nat), TaskError>, cursor: nat) {
    r.Success? && r.value.0 != [] ==>
      && Increasing(Ids(r.value.0)) && (forall id :: id in Ids(r.value.0) ==> cursor < id)
      && r.value.1 == Ids(r.value.0)[|r.value.0| - 1]
  }

  lemma ReadHanded(v: View, cursor: nat, size: nat)
    ensures Handed(TimeoutAt(v, cursor, size), cursor)
  {
    if TimeoutAt(v, cursor, size).Success? {
      ReadIds(v, cursor, size);
    }
  }

  lemma ReceivedOrdered(p: Progress, r: Result<(seq<Task>, nat), TaskError>)
    requires Ordered(p) && Handed(r, p.cursor) && !(r.Success? && r.value.0 == [])
    ensures Ordered(Received(p, r))
  {
    if r.Success? {
      EmitIncreasing(p.sent, r.value.0, p.cursor);
    }
  }

  lemma TurnOrdered(p: Progress, t: Turn, size: nat)
    requires Ordered(p) && !Ends(p, t, size)
    ensures Ordered(After(p, t, size))
  {
    if !p.exited && t.Reads? {
      ReadHanded(t.view, p.cursor, size);
      ReceivedOrdered(p, TimeoutAt(t.view, p.cursor, size));
    }
  }

  /** Within one sweep tasks are sent in strictly increasing id, each at most once, whatever the tables do meanwhile. */
  lemma SweepIncreasing(turns: seq<Turn>, size: nat)
    requires Sweeping(turns, size)
    ensures Increasing(Ids(Walk(turns, size).sent))
    ensures forall id :: id in Ids(Walk(turns, size).sent) ==> id <= Walk(turns, size).cursor
  {
    SweepOrdered(turns, size);
  }

  lemma {:induction false} SweepOrdered(turns: seq<Turn>, size: nat)
    requires Sweeping(turns, size)
    ensures Ordered(Walk(turns, size))
  {
    if turns != [] {
      var front := turns[..|turns| - 1];
      SweepOrdered(front, size);
      TurnOrdered(Walk(front, size), turns[|turns| - 1], size);
    }
  }

  /** At every successful read of these turns the row is due and its server live. */
  predicate WantedAll(turns: seq<Turn>, id: nat) {
    forall k :: 0 <= k < |turns| && turns[k].Reads? ==> LiveDue(turns[k].view, id)
  }

  lemma PageHasLive(v: View, cursor: nat, size: nat, id: nat)
    requires TimeoutAt(v, cursor, size).Success? && LiveDue(v, id) && id in DuePage(v.tab, cursor, v.now, size)
    ensures id in Ids(TimeoutAt(v, cursor, size).value.0)
  {
    ReadIds(v, cursor, size);
  }

  /** A row that was due and live at every read has been sent once the cursor is past it. */
  lemma {:induction false} PassedIsSent(turns: seq<Turn>, size: nat, id: nat)
    requires Sweeping(turns, size) && WantedAll(turns, id) && 0 < id <= Walk(turns, size).cursor
    ensures id in Ids(Walk(turns, size).sent)
  {
    if turns != [] {
      var front, t := turns[..|turns| - 1], turns[|turns| - 1];
      var p := Walk(front, size);
      TurnKinds(p, t, size);
      if Emits(p, t, size) {
        var page := TimeoutAt(t.view, p.cursor, size).value;
        IdsConcat(p.sent, page.0);
        if id <= p.cursor {
          PassedIsSent(front, size, id);
        } else {
          ReadIds(t.view, p.cursor, size);
          PageIsPrefix(t.view.tab, p.cursor, t.view.now, size, id, page.1);
          PageHasLive(t.view, p.cursor, size, id);
        }
      } else {
        PassedIsSent(front, size, id);
      }
    }
  }

  /** The page after `cursor` is full and lies before row `id`. */
  predicate HidesBehindPage(v: View, cursor: nat, size: nat, id: nat) {
    var page := DuePage(v.tab, cursor, v.now, size);
    |page| == size && forall x :: x in page ==> x < id
  }

  /**
   The exact side condition of a sweep: a row that was due and live at every read is missed if and only if the last
   read met a full page of rows without live servers in front of it.
   */
  lemma SweepMissesIff(turns: seq<Turn>, v: View, size: nat, id: nat)
    requires size > 0 && Sweeping(turns, size) && Ends(Walk(turns, size), Reads(v), size)
    requires WantedAll(turns, id) && LiveDue(v, id)
    ensures id !in Ids(Walk(turns, size).sent) <==> HidesBehindPage(v, Walk(turns, size).cursor, size, id)
  {
    var p := Walk(turns, size);
    var page := DuePage(v.tab, p.cursor, v.now, size);
    if id <= p.cursor {
      PassedIsSent(turns, size, id);
      assert page != [] ==> page[0] in page && p.cursor < page[0];
    } else {
      SweepIncreasing(turns, size);
      if id in page {
        PageHasLive(v, p.cursor, size, id);
      }
      if |page| < size {
        ShortPageIsAll(v.tab, p.cursor, v.now, size);
      }
      forall x | x in page
        ensures x < id
      {
        if id <= x {
          PageIsPrefix(v.tab, p.cursor, v.now, size, id, x);
        }
      }
    }
  }

  lemma EndingPageIsOrphaned(v: View, cursor: nat, size: nat, x: nat)
    requires TimeoutAt(v, cursor, size).Success? && TimeoutAt(v, cursor, size).value.0 == []
    requires x in DuePage(v.tab, cursor, v.now, size)
    ensures Orphaned(v)(x)
  {
    if LiveDue(v, x) {
      PageHasLive(v, cursor, size, x);
    }
  }

  function Orphans(v: View): seq<nat> {
    Filter(AllDue(v.tab, 0, v.now), Orphaned(v))
  }

  lemma IncreasingDistinct(xs: seq<nat>)
    requires Increasing(xs)
    ensures Distinct(xs)
  {
  }

  /**
   A row that is due and live at every read is sent exactly once, if at the last read fewer than a page of due rows
   have no live server.
   */
  lemma SweepCovers(turns: seq<Turn>, v: View, size: nat, id: nat)
    requires Sweeping(turns, size) && Ends(Walk(turns, size), Reads(v), size) && |Orphans(v)| < size
    requires WantedAll(turns, id) && LiveDue(v, id)
    ensures exists i :: 0 <= i < |Walk(turns, size).sent| && SentOnlyAt(Walk(turns, size).sent, i, id)
  {
    var p := Walk(turns, size);
    var page := DuePage(v.tab, p.cursor, v.now, size);
    SweepMissesIff(turns, v, size, id);
    forall x | x in page
      ensures x in Orphans(v)
    {
      EndingPageIsOrphaned(v, p.cursor, size, x);
    }
    AllDueIncreasing(v.tab, p.cursor, v.now, size);
    IncreasingDistinct(page);
    DistinctBound(page, Orphans(v));
    SweepIncreasing(turns, size);
    var i :| 0 <= i < |p.sent| && Ids(p.sent)[i] == id;
    forall k | 0 <= k < |p.sent| && k != i
      ensures p.sent[k].id != id
    {
      assert Ids(p.sent)[k] != Ids(p.sent)[i];
    }
    assert SentOnlyAt(p.sent, i, id);
  }

  predicate SentOnlyAt(sent: seq<Task>, i: nat, id: nat) {
    i < |sent| && sent[i].id == id && forall k :: 0 <= k < |sent| && k != i ==> sent[k].id != id
  }

  lemma WalkBehind(before: seq<Turn>, front: seq<Turn>, t: Turn, sent: seq<Task>, size: nat)
    requires Walk(before + front, size) == Behind(sent, Walk(front, size))
    ensures Walk(before + front + [t], size) == Behind(sent, Walk(front + [t], size))
  {
    WalkAppend(before + front, t, size);
    WalkAppend(front, t, size);
    AfterBehind(sent, Walk(front, size), t, size);
  }

  /** From the end of a sweep on, the loop behaves as from its beginning. */
  lemma {:induction false} SweepRestarts(before: seq<Turn>, turns: seq<Turn>, size: nat)
    requires Walk(before, size).cursor == 0 && !Walk(before, size).exited
    ensures Walk(before + turns, size) == Behind(Walk(before, size).sent, Walk(turns, size))
  {
    if turns == [] {
      assert before + turns == before;
    } else {
      var front, t := turns[..|turns| - 1], turns[|turns| - 1];
      SweepRestarts(before, front, size);
      WalkBehind(before, front, t, Walk(before, size).sent, size);
      assert before + turns == before + front + [t] && turns == front + [t];
    }
  }

  // ---------------------------------------------------------------- termination

  /** The reads of these turns that handed over a page. */
  function Pages(turns: seq<Turn>, size: nat): nat {
    if turns == [] then 0
    else
      var front := turns[..|turns| - 1];
      Pages(front, size) + if Emits(Walk(front, size), turns[|turns| - 1], size) then 1 else 0
  }

  predicate IdsWithin(turns: seq<Turn>, bound: nat) {
    forall k :: 0 <= k < |turns| && turns[k].Reads? ==> forall id :: id in turns[k].view.tab.rows ==> id <= bound
  }

  /** Each page moves the cursor up, so with bounded ids a sweep has a bounded number of pages. */
  lemma {:induction false} SweepBounded(turns: seq<Turn>, size: nat, bound: nat)
    requires Sweeping(turns, size) && IdsWithin(turns, bound)
    ensures Pages(turns, size) <= Walk(turns, size).cursor <= bound
  {
    if turns != [] {
      var front, t := turns[..|turns| - 1], turns[|turns| - 1];
      var p := Walk(front, size);
      SweepBounded(front, size, bound);
      TurnKinds(p, t, size);
      if Emits(p, t, size) {
        ReadIds(t.view, p.cursor, size);
      }
    }
  }

  /** The reads of these turns before an exit. */
  function ReadCount(turns: seq<Turn>, size: nat): nat {
    if turns == [] then 0
    else
      var front := turns[..|turns| - 1];
      ReadCount(front, size) + if !Walk(front, size).exited && turns[|turns| - 1].Reads? then 1 else 0
  }

  ghost predicate TablesValid(turns: seq<Turn>) {
    forall k :: 0 <= k < |turns| && turns[k].Reads? ==> ValidTasks(turns[k].view.tab)
  }

  /**
   Hence more than `bound` reads hold the end of a sweep, however the tables change and whatever comes between the
   reads.
   */
  lemma SweepEnds(turns: seq<Turn>, size: nat, bound: nat)
    requires IdsWithin(turns, bound) && TablesValid(turns) && ReadCount(turns, size) > bound
    ensures !Sweeping(turns, size)
  {
    if Sweeping(turns, size) {
      EveryReadEmits(turns, size);
      SweepBounded(turns, size, bound);
    }
  }

  lemma {:induction false} EveryReadEmits(turns: seq<Turn>, size: nat)
    requires Sweeping(turns, size) && TablesValid(turns)
    ensures Pages(turns, size) == ReadCount(turns, size)
  {
    if turns != [] {
      var front, t := turns[..|turns| - 1], turns[|turns| - 1];
      EveryReadEmits(front, size);
      if t.Reads? {
        assert ValidTasks(turns[|turns| - 1].view.tab);
        NoBadRow(t.view, Walk(front, size).cursor, size);
      }
    }
  }

  // ---------------------------------------------------------------- a table that does not change

  /**
   A full page of due rows without live servers stands between `cursor` and the due row `id`, whose server is live.
   */
  ghost predicate BlockedAt(v: View, size: nat, cursor: nat, id: nat) {
    && LiveDue(v, id) && HidesBehindPage(v, cursor, size, id)
    && forall x :: x in DuePage(v.tab, cursor, v.now, size) ==> Orphaned(v)(x)
  }

  ghost predicate Blocked(v: View, size: nat) {
    exists cursor, id :: BlockedAt(v, size, cursor, id)
  }

  predicate Frozen(turns: seq<Turn>, v: View) {
    forall k :: 0 <= k < |turns| && turns[k].Reads? ==> turns[k].view == v
  }

  /** A page that starts before a full page does not reach beyond it: it would be too long. */
  lemma NoPageSpansAnother(t: TaskTab, now: int, size: nat, cursor: nat, wall: nat, next: nat)
    requires size > 0 && |DuePage(t, wall, now, size)| == size && next in DuePage(t, cursor, now, size)
    requires forall x :: x in DuePage(t, wall, now, size) ==> cursor < x
    ensures exists x :: x in DuePage(t, wall, now, size) && next <= x
  {
    var page, mine := DuePage(t, wall, now, size), DuePage(t, cursor, now, size);
    if forall x :: x in page ==> x < next {
      forall x | x in page
        ensures x in mine
      {
        PageIsPrefix(t, cursor, now, size, x, next);
      }
      AllDueIncreasing(t, wall, now, size);
      OneMore(page, next, mine);
    }
  }

  lemma OneMore(xs: seq<nat>, next: nat, ys: seq<nat>)
    requires Increasing(xs) && next in ys && forall x :: x in xs ==> x < next && x in ys
    ensures |xs| < |ys|
  {
    assert forall i :: 0 <= i < |xs| ==> xs[i] in xs;
    DistinctBound(xs + [next], ys);
  }

  /** The cursor cannot jump over a full page of orphans: the page that did would hold more than `size` rows. */
  lemma CursorStaysBefore(v: View, size: nat, cursor: nat, wall: nat, next: nat)
    requires size > 0
    requires var page := DuePage(v.tab, wall, v.now, size);
      |page| == size && cursor < page[0] && forall x :: x in page ==> Orphaned(v)(x)
    requires next in DuePage(v.tab, cursor, v.now, size) && LiveDue(v, next)
    ensures next < DuePage(v.tab, wall, v.now, size)[0]
  {
    var page := DuePage(v.tab, wall, v.now, size);
    AllDueIncreasing(v.tab, wall, v.now, size);
    var first, last := page[0], page[size - 1];
    assert first in page && last in page;
    if first <= next <= last {
      PageIsPrefix(v.tab, wall, v.now, size, next, last);
    } else if last < next {
      NoPageSpansAnother(v.tab, v.now, size, cursor, wall, next);
    }
  }

  /** While the table stays as it is, a blocked row is never sent, in any number of sweeps. */
  lemma {:induction false} BlockedIsNeverSent(turns: seq<Turn>, v: View, size: nat, wall: nat, id: nat)
    requires size > 0 && Frozen(turns, v) && BlockedAt(v, size, wall, id)
    ensures Walk(turns, size).cursor < DuePage(v.tab, wall, v.now, size)[0] && id !in Ids(Walk(turns, size).sent)
  {
    var first := DuePage(v.tab, wall, v.now, size)[0];
    assert first in DuePage(v.tab, wall, v.now, size);
    if turns != [] {
      var front, t := turns[..|turns| - 1], turns[|turns| - 1];
      var p := Walk(front, size);
      BlockedIsNeverSent(front, v, size, wall, id);
      TurnKinds(p, t, size);
      if Emits(p, t, size) {
        var page := TimeoutAt(v, p.cursor, size).value;
        ReadIds(v, p.cursor, size);
        IdsConcat(p.sent, page.0);
        CursorStaysBefore(v, size, p.cursor, wall, page.1);
        forall x | x in Ids(page.0)
          ensures x < first
        {
          CursorStaysBefore(v, size, p.cursor, wall, x);
        }
      }
    }
  }

  /**
   Over a table that does not change, a sweep sends every due row with a live server if and only if no full page of
   orphaned rows stands in front of such a row; and it sends nothing else.
   */
  lemma FrozenSweepCompleteIff(turns: seq<Turn>, v: View, size: nat)
    requires size > 0 && Frozen(turns, v) && Sweeping(turns, size) && Ends(Walk(turns, size), Reads(v), size)
    ensures (forall id :: LiveDue(v, id) ==> id in Ids(Walk(turns, size).sent)) <==> !Blocked(v, size)
    ensures forall id :: id in Ids(Walk(turns, size).sent) ==> LiveDue(v, id)
  {
    var p := Walk(turns, size);
    if Blocked(v, size) {
      var wall, id :| BlockedAt(v, size, wall, id);
      BlockedIsNeverSent(turns, v, size, wall, id);
    }
    forall id | LiveDue(v, id) && id !in Ids(p.sent)
      ensures Blocked(v, size)
    {
      MissedIsBlocked(turns, v, size, id);
    }
    SentAreWanted(turns, v, size);
  }

  lemma MissedIsBlocked(turns: seq<Turn>, v: View, size: nat, id: nat)
    requires size > 0 && Frozen(turns, v) && Sweeping(turns, size) && Ends(Walk(turns, size), Reads(v), size)
    requires LiveDue(v, id) && id !in Ids(Walk(turns, size).sent)
    ensures BlockedAt(v, size, Walk(turns, size).cursor, id)
  {
    var p := Walk(turns, size);
    SweepMissesIff(turns, v, size, id);
    forall x | x in DuePage(v.tab, p.cursor, v.now, size)
      ensures Orphaned(v)(x)
    {
      EndingPageIsOrphaned(v, p.cursor, size, x);
    }
  }

  lemma {:induction false} SentAreWanted(turns: seq<Turn>, v: View, size: nat)
    requires Frozen(turns, v)
    ensures forall id :: id in Ids(Walk(turns, size).sent) ==> LiveDue(v, id)
  {
    if turns != [] {
      var front, t := turns[..|turns| - 1], turns[|turns| - 1];
      var p := Walk(front, size);
      SentAreWanted(front, v, size);
      TurnKinds(p, t, size);
      if Emits(p, t, size) {
        var page := TimeoutAt(v, p.cursor, size).value;
        ReadIds(v, p.cursor, size);
        IdsConcat(p.sent, page.0);
      }
    }
  }
}
