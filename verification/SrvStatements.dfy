/**
 AddSrvRoutes and DelSrvRoutes statement by statement, as they run without a transaction: any number of calls may be
 under way, each with what it has read so far. A first-or-create of a route row and the update that follows it are one
 statement here, since a row that was found never goes away.
 */
module SrvStatements {
  import opened Wrappers
  import opened SrvTables
  import opened SrvRefinement

  /** A call under way. `k` routes are put; `flagged` and `seen` are what the call has read of the server row. */
  datatype RegCall =
    | Looking(name: string, rs: seq<Route>)
    | Reviving(s: nat, rs: seq<Route>)
    | Putting(s: nat, rs: seq<Route>, k: nat)
    | Taking(name: string, ids: seq<nat>)
    | Dropping(s: nat, ids: seq<nat>, flagged: bool)
    | Counting(s: nat, flagged: bool)
    | Settling(s: nat, total: nat, checked: nat, flagged: bool)

  predicate OfServer(c: RegCall) {
    !c.Looking? && !c.Taking?
  }

  /** The call is about a server row that exists. */
  predicate CallOk(t: Tables, c: RegCall) {
    && (OfServer(c) ==> c.s in t.srvs)
    && (c.Putting? ==> c.k <= |c.rs|)
  }

  /** The last statement of AddSrvRoutes; its UPDATE does not reach a deleted server. */
  function FlagSrv(t: Tables, s: nat, raise: bool): Tables
    requires s in t.srvs
  {
    RaiseFlag(t, s, raise && !t.srvs[s].deleted)
  }

  /** Rows stay, with their names, and so do the indexes that lead to them. */
  ghost predicate Grown(t: Tables, u: Tables) {
    && t.srvs.Keys <= u.srvs.Keys && (forall s :: s in t.srvs ==> u.srvs[s].name == t.srvs[s].name)
    && forall n :: n in t.byName ==> n in u.byName && u.byName[n] == t.byName[n]
  }

  /** The next statement of AddSrvRoutes. */
  function AddStatement(t: Tables, c: RegCall): (r: (Tables, Option<RegCall>))
    requires Valid(t) && CallOk(t, c) && (c.Looking? || c.Reviving? || c.Putting?)
    ensures Valid(r.0) && Grown(t, r.0) && (r.1.Some? ==> CallOk(r.0, r.1.value))
  {
    match c
    case Looking(name, rs) =>
      if name !in t.byName then (EnsureSrv(t, name).0, Some(Putting(t.nextSrvId, rs, 0)))
      else if t.srvs[t.byName[name]].deleted then (t, Some(Reviving(t.byName[name], rs)))
      else (t, Some(Putting(t.byName[name], rs, 0)))
    case Reviving(s, rs) => (ReviveSrv(t, s), Some(Putting(s, rs, 0)))
    case Putting(s, rs, k) =>
      if k < |rs| then (PutRoute(t, s, rs[k]), Some(Putting(s, rs, k + 1)))
      else (FlagSrv(t, s, AnyHealthChecked(rs)), None)
  }

  /** The next statement of DelSrvRoutes. */
  function DelStatement(t: Tables, c: RegCall): (r: (Tables, Option<RegCall>))
    requires Valid(t) && CallOk(t, c) && (c.Taking? || c.Dropping? || c.Counting? || c.Settling?)
    ensures Valid(r.0) && Grown(t, r.0) && (r.1.Some? ==> CallOk(r.0, r.1.value))
  {
    match c
    case Taking(name, ids) =>
      if name in t.byName && !t.srvs[t.byName[name]].deleted
      then (t, Some(Dropping(t.byName[name], ids, t.srvs[t.byName[name]].hasEnableHealthCheck)))
      else (t, None)
    case Dropping(s, ids, flagged) => (DropRoutes(t, s, ids), Some(Counting(s, flagged)))
    case Counting(s, flagged) => (t, Some(Settling(s, |LiveRoutes(t, s)|, |CountedAsHealthChecked(t, s)|, flagged)))
    case Settling(s, total, checked, flagged) =>
      (if total == 0 then DropSrv(t, s) else if checked == 0 && flagged then ClearFlag(t, s) else t, None)
  }

  /** The next statement of a call, and what is left of the call. */
  function Statement(t: Tables, c: RegCall): (r: (Tables, Option<RegCall>))
    requires Valid(t) && CallOk(t, c)
    ensures Valid(r.0) && Grown(t, r.0) && (r.1.Some? ==> CallOk(r.0, r.1.value))
  {
    if c.Looking? || c.Reviving? || c.Putting? then AddStatement(t, c) else DelStatement(t, c)
  }

  // ---------------------------------------------------------------- without interruption

  /** The call with `cs[i]` left to do runs its next statement on `ts[i]`. */
  ghost predicate RunsAt(ts: seq<Tables>, cs: seq<RegCall>, i: int)
    requires |ts| == |cs| + 1 && 0 <= i < |cs|
  {
    && Valid(ts[i]) && CallOk(ts[i], cs[i])
    && Statement(ts[i], cs[i]) == (ts[i + 1], if i + 1 < |cs| then Some(cs[i + 1]) else None)
  }

  /** A call from `cs[0]` on `ts[0]` to its end, with nothing in between. */
  ghost predicate Uninterrupted(ts: seq<Tables>, cs: seq<RegCall>) {
    |cs| > 0 && |ts| == |cs| + 1 && forall i :: 0 <= i < |cs| ==> RunsAt(ts, cs, i)
  }

  lemma EndsAtOnce(t: Tables, c: RegCall, u: Tables)
    requires Valid(t) && CallOk(t, c) && Statement(t, c) == (u, None)
    ensures Uninterrupted([t, u], [c])
  {
  }

  lemma RunsLater(ts: seq<Tables>, cs: seq<RegCall>, us: seq<Tables>, ds: seq<RegCall>, i: nat)
    requires |ts| == |cs| + 1 && i < |cs| && RunsAt(ts, cs, i)
    requires |us| == |ts| + 1 && |ds| == |cs| + 1 && us[1..] == ts && ds[1..] == cs
    ensures RunsAt(us, ds, i + 1)
  {
    assert us[1..][i] == us[i + 1] && us[1..][i + 1] == us[i + 2] && ds[1..][i] == ds[i + 1];
    assert i + 1 < |cs| ==> ds[1..][i + 1] == ds[i + 2];
  }

  lemma OneStatementMore(t: Tables, c: RegCall, ts: seq<Tables>, cs: seq<RegCall>)
    returns (us: seq<Tables>, ds: seq<RegCall>)
    requires Uninterrupted(ts, cs) && Valid(t) && CallOk(t, c) && Statement(t, c) == (ts[0], Some(cs[0]))
    ensures Uninterrupted(us, ds) && us[0] == t && ds[0] == c && us[|ds|] == ts[|cs|]
  {
    us, ds := [t] + ts, [c] + cs;
    assert us[0] == t && us[1] == ts[0] && ds[0] == c && ds[1] == cs[0];
    forall i | 0 <= i < |ds|
      ensures RunsAt(us, ds, i)
    {
      if i > 0 {
        RunsLater(ts, cs, us, ds, i - 1);
      }
    }
  }

  lemma PutStatement(t: Tables, s: nat, rs: seq<Route>, k: nat)
    requires Valid(t) && s in t.srvs && k < |rs|
    ensures Statement(PutRoutes(t, s, rs[..k]), Putting(s, rs, k))
      == (PutRoutes(t, s, rs[..k + 1]), Some(Putting(s, rs, k + 1)))
  {
    assert rs[..k + 1][..k] == rs[..k] && rs[..k + 1][k] == rs[k];
  }

  lemma FlagStatement(t: Tables, s: nat, rs: seq<Route>)
    requires Valid(t) && s in t.srvs && !t.srvs[s].deleted
    ensures Statement(t, Putting(s, rs, |rs|)) == (RaiseFlag(t, s, AnyHealthChecked(rs)), None)
  {
  }

  lemma {:induction false} PuttingTogether(t: Tables, s: nat, rs: seq<Route>, k: nat)
    returns (ts: seq<Tables>, cs: seq<RegCall>)
    requires Valid(t) && s in t.srvs && !t.srvs[s].deleted && k <= |rs|
    ensures Uninterrupted(ts, cs) && ts[0] == PutRoutes(t, s, rs[..k]) && cs[0] == Putting(s, rs, k)
    ensures ts[|cs|] == RaiseFlag(PutRoutes(t, s, rs), s, AnyHealthChecked(rs))
    decreases |rs| - k
  {
    var u := PutRoutes(t, s, rs[..k]);
    if k == |rs| {
      assert rs[..k] == rs;
      var end := RaiseFlag(u, s, AnyHealthChecked(rs));
      FlagStatement(u, s, rs);
      EndsAtOnce(u, Putting(s, rs, k), end);
      ts, cs := [u, end], [Putting(s, rs, k)];
    } else {
      ts, cs := PuttingTogether(t, s, rs, k + 1);
      PutStatement(t, s, rs, k);
      ts, cs := OneStatementMore(u, Putting(s, rs, k), ts, cs);
    }
  }

  /** The first statements of a registration come to where the server row is live. */
  lemma LookStatements(t: Tables, name: string, rs: seq<Route>)
    requires Valid(t)
    ensures var (u, s) := EnsureSrv(t, name);
      if name in t.byName && t.srvs[s].deleted
      then Statement(t, Looking(name, rs)) == (t, Some(Reviving(s, rs)))
        && CallOk(t, Reviving(s, rs)) && Statement(t, Reviving(s, rs)) == (u, Some(Putting(s, rs, 0)))
      else Statement(t, Looking(name, rs)) == (u, Some(Putting(s, rs, 0)))
  {
    var (u, s) := EnsureSrv(t, name);
    if name in t.byName && !t.srvs[s].deleted {
      assert u == t;
    }
  }

  /** An uninterrupted registration is the one-step registration. */
  lemma AddTogether(t: Tables, name: string, rs: seq<Route>) returns (ts: seq<Tables>, cs: seq<RegCall>)
    requires Valid(t)
    ensures Uninterrupted(ts, cs) && ts[0] == t && cs[0] == Looking(name, rs)
    ensures ts[|cs|] == Register(t, name, rs)
  {
    var (u, s) := EnsureSrv(t, name);
    LookStatements(t, name, rs);
    assert rs[..0] == [] && PutRoutes(u, s, []) == u;
    ts, cs := PuttingTogether(u, s, rs, 0);
    if name in t.byName && t.srvs[s].deleted {
      ts, cs := OneStatementMore(t, Reviving(s, rs), ts, cs);
    }
    ts, cs := OneStatementMore(t, Looking(name, rs), ts, cs);
  }

  /** The tables that one-step deletion leaves. */
  function Unregistered(t: Tables, name: string, ids: seq<nat>): (u: Tables)
    requires Valid(t)
    ensures Valid(u)
  {
    match Unregister(t, name, ids)
    case Success(u) => u
    case Failure(_) => t
  }

  lemma SettleStatement(t: Tables, s: nat)
    requires Valid(t) && s in t.srvs
    ensures var total, checked := |LiveRoutes(t, s)|, |CountedAsHealthChecked(t, s)|;
      Statement(t, Settling(s, total, checked, t.srvs[s].hasEnableHealthCheck)) == (Settle(t, s), None)
  {
  }

  lemma CountingTogether(t: Tables, s: nat) returns (ts: seq<Tables>, cs: seq<RegCall>)
    requires Valid(t) && s in t.srvs
    ensures Uninterrupted(ts, cs) && ts[0] == t && cs[0] == Counting(s, t.srvs[s].hasEnableHealthCheck)
    ensures ts[|cs|] == Settle(t, s)
  {
    var flagged := t.srvs[s].hasEnableHealthCheck;
    var c := Settling(s, |LiveRoutes(t, s)|, |CountedAsHealthChecked(t, s)|, flagged);
    SettleStatement(t, s);
    EndsAtOnce(t, c, Settle(t, s));
    ts, cs := OneStatementMore(t, Counting(s, flagged), [t, Settle(t, s)], [c]);
  }

  lemma DroppingTogether(t: Tables, s: nat, ids: seq<nat>) returns (ts: seq<Tables>, cs: seq<RegCall>)
    requires Valid(t) && s in t.srvs
    ensures Uninterrupted(ts, cs) && ts[0] == t && cs[0] == Dropping(s, ids, t.srvs[s].hasEnableHealthCheck)
    ensures ts[|cs|] == Settle(DropRoutes(t, s, ids), s)
  {
    var c := Dropping(s, ids, t.srvs[s].hasEnableHealthCheck);
    ts, cs := CountingTogether(DropRoutes(t, s, ids), s);
    ts, cs := OneStatementMore(t, c, ts, cs);
  }

  /** An uninterrupted deletion is the one-step deletion. */
  lemma DeleteTogether(t: Tables, name: string, ids: seq<nat>) returns (ts: seq<Tables>, cs: seq<RegCall>)
    requires Valid(t)
    ensures Uninterrupted(ts, cs) && ts[0] == t && cs[0] == Taking(name, ids)
    ensures ts[|cs|] == Unregistered(t, name, ids)
  {
    if name in t.byName && !t.srvs[t.byName[name]].deleted {
      ts, cs := DroppingTogether(t, t.byName[name], ids);
      ts, cs := OneStatementMore(t, Taking(name, ids), ts, cs);
    } else {
      EndsAtOnce(t, Taking(name, ids), t);
      ts, cs := [t, t], [Taking(name, ids)];
    }
  }

  // ---------------------------------------------------------------- two calls at once

  /**
   Two calls under way, and what has happened so far: a deletion counted no live route, a deletion deleted the server
   row, a registration looked for the row while it was not yet deleted, a route was put after the count of none.
   */
  datatype Duo = Duo(t: Tables, a: Option<RegCall>, b: Option<RegCall>, none: bool, gone: bool, early: bool, late: bool)

  ghost predicate DuoOk(p: Duo) {
    && Valid(p.t)
    && (p.a.Some? ==> CallOk(p.t, p.a.value))
    && (p.b.Some? ==> CallOk(p.t, p.b.value))
  }

  /** One call runs its next statement. */
  function Advance(p: Duo, c: RegCall): (r: (Duo, Option<RegCall>))
    requires DuoOk(p) && CallOk(p.t, c)
  {
    var (u, next) := Statement(p.t, c);
    (p.(t := u,
        none := p.none || (c.Counting? && |LiveRoutes(p.t, c.s)| == 0),
        gone := p.gone || (c.Settling? && c.total == 0),
        early := p.early || (c.Looking? && !p.gone),
        late := p.late || (c.Putting? && c.k < |c.rs| && p.none)),
     next)
  }

  /** It is the turn of the first call or of the second; a call that has ended does nothing. */
  function Turn(p: Duo, first: bool): (q: Duo)
    requires DuoOk(p)
    ensures DuoOk(q)
  {
    if first then
      if p.a.None? then p else var (q, next) := Advance(p, p.a.value); q.(a := next)
    else
      if p.b.None? then p else var (q, next) := Advance(p, p.b.value); q.(b := next)
  }

  function Play(p: Duo, turns: seq<bool>): (q: Duo)
    requires DuoOk(p)
    ensures DuoOk(q)
  {
    if turns == [] then p else Turn(Play(p, turns[..|turns| - 1]), turns[|turns| - 1])
  }

  function Both(t: Tables, a: RegCall, b: RegCall): Duo {
    Duo(t, Some(a), Some(b), false, false, false, false)
  }

  // ---------------------------------------------------------------- what statements do to one server

  ghost predicate FlagOk(t: Tables, o: nat) {
    forall r :: LiveRoute(t, r, o) && t.routes[r].enableHealthCheck ==> o in t.srvs && t.srvs[o].hasEnableHealthCheck
  }

  /** The invariant of one server. */
  ghost predicate SrvOk(t: Tables, o: nat) {
    (LiveSrv(t, o) <==> HasLiveRoute(t, o)) && FlagOk(t, o)
  }

  lemma InvIff(t: Tables)
    requires Valid(t)
    ensures Inv(t) <==> forall o :: o in t.srvs ==> SrvOk(t, o)
  {
    if Inv(t) {
      forall o | o in t.srvs
        ensures SrvOk(t, o)
      {
      }
    }
    if forall o :: o in t.srvs ==> SrvOk(t, o) {
      forall s, r | s in t.srvs && LiveRoute(t, r, s) && t.routes[r].enableHealthCheck
        ensures t.srvs[s].hasEnableHealthCheck
      {
        assert SrvOk(t, s);
      }
      forall s | s in t.srvs
        ensures LiveSrv(t, s) <==> HasLiveRoute(t, s)
      {
        assert SrvOk(t, s);
      }
    }
  }

  lemma PutHas(t: Tables, s: nat, added: Route, o: nat)
    requires Valid(t) && s in t.srvs
    ensures HasLiveRoute(PutRoute(t, s, added), o) <==> HasLiveRoute(t, o) || o == s
  {
    var u := PutRoute(t, s, added);
    forall r
      ensures LiveRoute(t, r, o) ==> LiveRoute(u, r, o)
      ensures o != s && LiveRoute(u, r, o) ==> LiveRoute(t, r, o)
    {
      PutRouteLive(t, s, added, r, o);
    }
    var q := match FindRoute(t, s, added.addr) case None => t.nextRouteId case Some(found) => found;
    assert LiveRoute(u, q, s);
  }

  /** A route put on a server keeps the flags of the others right, and its own if the route needs no flag. */
  lemma PutFlag(t: Tables, s: nat, added: Route, o: nat)
    requires Valid(t) && s in t.srvs && FlagOk(t, o) && (o == s ==> !added.enableHealthCheck)
    ensures FlagOk(PutRoute(t, s, added), o)
  {
    var u := PutRoute(t, s, added);
    forall r | LiveRoute(u, r, o) && u.routes[r].enableHealthCheck
      ensures o in u.srvs && u.srvs[o].hasEnableHealthCheck
    {
      PutRouteLive(t, s, added, r, o);
      assert LiveRoute(t, r, o) && t.routes[r].enableHealthCheck;
    }
  }

  lemma DropHas(t: Tables, s: nat, ids: seq<nat>, o: nat)
    ensures HasLiveRoute(DropRoutes(t, s, ids), o) ==> HasLiveRoute(t, o)
    ensures o != s ==> (HasLiveRoute(DropRoutes(t, s, ids), o) <==> HasLiveRoute(t, o))
    ensures FlagOk(t, o) ==> FlagOk(DropRoutes(t, s, ids), o)
  {
    var u := DropRoutes(t, s, ids);
    assert forall r :: LiveRoute(u, r, o) ==> LiveRoute(t, r, o);
    if o != s {
      assert forall r :: LiveRoute(t, r, o) ==> LiveRoute(u, r, o);
    }
  }

  /** Only the server rows change. */
  lemma SameRoutes(t: Tables, u: Tables, o: nat)
    requires u.routes == t.routes
    ensures HasLiveRoute(u, o) <==> HasLiveRoute(t, o)
    ensures FlagOk(t, o) && o in t.srvs && o in u.srvs && (t.srvs[o].hasEnableHealthCheck ==>
        u.srvs[o].hasEnableHealthCheck)
      ==> FlagOk(u, o)
  {
    assert forall r :: LiveRoute(u, r, o) <==> LiveRoute(t, r, o);
  }

  lemma CountsAll(t: Tables, s: nat)
    ensures CountedAsHealthChecked(t, s) == LiveRoutes(t, s)
    ensures |LiveRoutes(t, s)| == 0 <==> !HasLiveRoute(t, s)
  {
    if r :| LiveRoute(t, r, s) {
      assert r in LiveRoutes(t, s);
    }
    if |LiveRoutes(t, s)| > 0 {
      var r :| r in LiveRoutes(t, s);
      assert LiveRoute(t, r, s);
    }
  }

  // ---------------------------------------------------------------- a deletion and a registration of one server

  /** How far the deletion of server `s` has come. */
  ghost predicate DelPhase(p: Duo, s: nat, name: string) {
    match p.a
    case None => p.gone == p.none
    case Some(c) =>
      if c.Taking? then c.name == name && !p.none && !p.gone
      else if c.Dropping? || c.Counting? then c.s == s && !p.none && !p.gone
      else c.Settling? && c.s == s && (c.total == 0 <==> p.none) && c.checked == c.total && !p.gone
  }

  /** The deletion has counted. */
  predicate Counted(p: Duo) {
    p.a.None? || p.a.value.Settling?
  }

  /** How far the registration of server `s` has come. */
  ghost predicate AddPhase(p: Duo, s: nat, name: string, rs: seq<Route>) {
    match p.b
    case None => (p.early || p.gone) && (!p.early ==> p.late)
    case Some(c) =>
      if c.Looking? then c.name == name && c.rs == rs && !p.early && !p.late
      else if c.Reviving? then c.s == s && c.rs == rs && p.gone && p.none && !p.early && !p.late
      else c.Putting? && c.s == s && c.rs == rs && c.k <= |rs| && (p.early || (p.gone && p.none))
           && (!p.early && c.k > 0 ==> p.late)
  }

  /** The registration has revived the row, or needs not. */
  predicate Revived(p: Duo) {
    !p.early && (p.b.None? || p.b.value.Putting?)
  }

  ghost predicate OthersOk(t: Tables, s: nat) {
    forall o :: o in t.srvs && o != s ==> SrvOk(t, o)
  }

  ghost predicate SamePhase(p: Duo, s: nat, name: string, rs: seq<Route>) {
    && DuoOk(p) && name in p.t.byName && p.t.byName[name] == s && s in p.t.srvs
    && DelPhase(p, s, name) && AddPhase(p, s, name, rs) && OthersOk(p.t, s) && (p.late ==> p.none)
    && (LiveSrv(p.t, s) <==> !p.gone || Revived(p))
    && (p.none ==> (HasLiveRoute(p.t, s) <==> p.late))
    && (Counted(p) && !p.none ==> HasLiveRoute(p.t, s))
    && (!AnyHealthChecked(rs) ==> FlagOk(p.t, s))
    && (p.b.None? ==> FlagOk(p.t, s) || !LiveSrv(p.t, s))
  }

  lemma OthersSameRoutes(t: Tables, u: Tables, s: nat)
    requires OthersOk(t, s) && u.routes == t.routes && u.srvs.Keys == t.srvs.Keys
    requires forall o :: o in t.srvs && o != s ==> u.srvs[o] == t.srvs[o]
    ensures OthersOk(u, s)
  {
    forall o | o in u.srvs && o != s
      ensures SrvOk(u, o)
    {
      assert SrvOk(t, o);
      SameRoutes(t, u, o);
    }
  }

  lemma OthersDrop(t: Tables, s: nat, ids: seq<nat>)
    requires OthersOk(t, s)
    ensures OthersOk(DropRoutes(t, s, ids), s)
  {
    forall o | o in t.srvs && o != s
      ensures SrvOk(DropRoutes(t, s, ids), o)
    {
      assert SrvOk(t, o);
      DropHas(t, s, ids, o);
    }
  }

  lemma OthersPut(t: Tables, s: nat, added: Route)
    requires Valid(t) && s in t.srvs && OthersOk(t, s)
    ensures OthersOk(PutRoute(t, s, added), s)
  {
    forall o | o in t.srvs && o != s
      ensures SrvOk(PutRoute(t, s, added), o)
    {
      assert SrvOk(t, o);
      PutHas(t, s, added, o);
      PutFlag(t, s, added, o);
    }
  }

  lemma DelTurn(p: Duo, s: nat, name: string, rs: seq<Route>)
    requires SamePhase(p, s, name, rs)
    ensures SamePhase(Turn(p, true), s, name, rs)
  {
    if p.a.Some? {
      var c, q := p.a.value, Turn(p, true);
      if c.Taking? {
        assert !p.gone;
      } else if c.Dropping? {
        DropHas(p.t, s, c.ids, s);
        OthersDrop(p.t, s, c.ids);
      } else if c.Counting? {
        CountsAll(p.t, s);
      } else {
        SameRoutes(p.t, q.t, s);
        OthersSameRoutes(p.t, q.t, s);
      }
    }
  }

  lemma AddTurn(p: Duo, s: nat, name: string, rs: seq<Route>)
    requires SamePhase(p, s, name, rs) && rs != []
    ensures SamePhase(Turn(p, false), s, name, rs)
  {
    if p.b.Some? {
      var c, q := p.b.value, Turn(p, false);
      if c.Looking? {
        assert q.t == p.t;
      } else if c.Putting? && c.k < |rs| {
        PutHas(p.t, s, rs[c.k], s);
        OthersPut(p.t, s, rs[c.k]);
        if !AnyHealthChecked(rs) {
          PutFlag(p.t, s, rs[c.k], s);
        }
      } else {
        SameRoutes(p.t, q.t, s);
        OthersSameRoutes(p.t, q.t, s);
      }
    }
  }

  lemma SameStarts(t: Tables, name: string, ids: seq<nat>, rs: seq<Route>)
    requires Inv(t) && name in t.byName && LiveSrv(t, t.byName[name])
    ensures SamePhase(Both(t, Taking(name, ids), Looking(name, rs)), t.byName[name], name, rs)
  {
    InvIff(t);
    assert SrvOk(t, t.byName[name]);
  }

  lemma {:induction false} SamePlays(p: Duo, turns: seq<bool>, s: nat, name: string, rs: seq<Route>)
    requires SamePhase(p, s, name, rs) && rs != []
    ensures SamePhase(Play(p, turns), s, name, rs)
  {
    if turns != [] {
      var front := turns[..|turns| - 1];
      SamePlays(p, front, s, name, rs);
      if turns[|turns| - 1] {
        DelTurn(Play(p, front), s, name, rs);
      } else {
        AddTurn(Play(p, front), s, name, rs);
      }
    }
  }

  lemma SameEnds(p: Duo, s: nat, name: string, rs: seq<Route>)
    requires SamePhase(p, s, name, rs) && p.a.None? && p.b.None?
    ensures Inv(p.t) <==> !(p.none && p.early && p.late)
  {
    InvIff(p.t);
    if !HasLiveRoute(p.t, s) {
      assert FlagOk(p.t, s);
    }
    assert Inv(p.t) <==> SrvOk(p.t, s);
  }

  // ---------------------------------------------------------------- a deletion and a registration of two servers

  /** The row of the name, once there is one, is as it should be. */
  ghost predicate NameOk(t: Tables, name: string) {
    name in t.byName ==> SrvOk(t, t.byName[name])
  }

  /** How far the registration of the other server has come. */
  ghost predicate OtherPhase(p: Duo, other: string, rs: seq<Route>) {
    match p.b
    case None => other in p.t.byName && NameOk(p.t, other)
    case Some(c) =>
      if c.Looking? then c.name == other && c.rs == rs && NameOk(p.t, other)
      else other in p.t.byName && OfServer(c) && c.s == p.t.byName[other] && OtherUnderWay(p.t, c, rs)
  }

  ghost predicate OtherUnderWay(t: Tables, c: RegCall, rs: seq<Route>)
    requires OfServer(c)
  {
    if c.Reviving? then c.rs == rs && !LiveSrv(t, c.s) && !HasLiveRoute(t, c.s)
    else
      && c.Putting? && c.rs == rs && c.k <= |rs| && LiveSrv(t, c.s) && (c.k > 0 ==> HasLiveRoute(t, c.s))
      && (!AnyHealthChecked(rs) ==> FlagOk(t, c.s))
  }

  ghost predicate RestOk(t: Tables, s: nat, other: string) {
    forall o :: o in t.srvs && o != s && t.srvs[o].name != other ==> SrvOk(t, o)
  }

  /** What the deletion's server shows. */
  ghost predicate OwnPart(p: Duo, s: nat, name: string) {
    && DuoOk(p) && name in p.t.byName && p.t.byName[name] == s && s in p.t.srvs && DelPhase(p, s, name)
    && (LiveSrv(p.t, s) <==> !p.gone) && (p.none ==> !HasLiveRoute(p.t, s))
    && (Counted(p) && !p.none ==> HasLiveRoute(p.t, s)) && FlagOk(p.t, s)
  }

  /** What the registration's server and the rest show. */
  ghost predicate OtherPart(p: Duo, s: nat, other: string, rs: seq<Route>) {
    DuoOk(p) && OtherPhase(p, other, rs) && RestOk(p.t, s, other)
  }

  lemma NamesDiffer(t: Tables, s: nat, name: string, other: string)
    requires Valid(t) && name in t.byName && t.byName[name] == s && other != name
    ensures other in t.byName ==> t.byName[other] != s && t.byName[other] in t.srvs
    ensures other in t.byName ==> t.srvs[t.byName[other]].name == other
    ensures forall o :: o in t.srvs && t.srvs[o].name == other ==> other in t.byName && t.byName[other] == o
  {
    forall o | o in t.srvs && t.srvs[o].name == other
      ensures other in t.byName && t.byName[other] == o
    {
      assert SrvIndexed(t, o);
    }
  }

  /** A change to the routes and the row of server `s` alone. */
  ghost predicate OnlySrv(t: Tables, u: Tables, s: nat) {
    && u.byName == t.byName && u.srvs.Keys == t.srvs.Keys
    && (forall o :: o in t.srvs ==> u.srvs[o].name == t.srvs[o].name && (o != s ==> u.srvs[o] == t.srvs[o]))
    && forall o :: o != s ==> (HasLiveRoute(u, o) <==> HasLiveRoute(t, o)) && (FlagOk(t, o) ==> FlagOk(u, o))
  }

  lemma SameFlags(t: Tables, u: Tables, o: nat)
    requires u.routes == t.routes && (o in u.srvs <==> o in t.srvs) && (o in t.srvs ==> u.srvs[o] == t.srvs[o])
    ensures FlagOk(u, o) <==> FlagOk(t, o)
  {
    assert forall r :: LiveRoute(u, r, o) <==> LiveRoute(t, r, o);
  }

  /** When only server rows change, and only row `s`. */
  lemma RowOnly(t: Tables, u: Tables, s: nat)
    requires u.routes == t.routes && u.byName == t.byName && u.srvs.Keys == t.srvs.Keys
    requires forall o :: o in t.srvs ==> u.srvs[o].name == t.srvs[o].name && (o != s ==> u.srvs[o] == t.srvs[o])
    ensures OnlySrv(t, u, s)
  {
    forall o | o != s
      ensures (HasLiveRoute(u, o) <==> HasLiveRoute(t, o)) && (FlagOk(t, o) ==> FlagOk(u, o))
    {
      SameRoutes(t, u, o);
      SameFlags(t, u, o);
    }
  }

  lemma DropOnly(t: Tables, s: nat, ids: seq<nat>)
    requires Valid(t)
    ensures OnlySrv(t, DropRoutes(t, s, ids), s)
  {
    var u := DropRoutes(t, s, ids);
    forall o | o != s
      ensures (HasLiveRoute(u, o) <==> HasLiveRoute(t, o)) && (FlagOk(t, o) ==> FlagOk(u, o))
    {
      DropHas(t, s, ids, o);
    }
  }

  lemma DropSrvOnly(t: Tables, s: nat)
    requires s in t.srvs
    ensures OnlySrv(t, DropSrv(t, s), s)
  {
    RowOnly(t, DropSrv(t, s), s);
  }

  lemma ClearFlagOnly(t: Tables, s: nat)
    requires s in t.srvs
    ensures OnlySrv(t, ClearFlag(t, s), s)
  {
    RowOnly(t, ClearFlag(t, s), s);
  }

  lemma SameOnly(t: Tables, s: nat)
    ensures OnlySrv(t, t, s)
  {
  }

  lemma SettleOnly(t: Tables, c: RegCall)
    requires Valid(t) && CallOk(t, c) && (c.Counting? || c.Settling?)
    ensures OnlySrv(t, Statement(t, c).0, c.s)
  {
    DropSrvOnly(t, c.s);
    ClearFlagOnly(t, c.s);
    SameOnly(t, c.s);
  }

  lemma DelOnly(t: Tables, c: RegCall)
    requires Valid(t) && CallOk(t, c) && (c.Dropping? || c.Counting? || c.Settling?)
    ensures OnlySrv(t, Statement(t, c).0, c.s)
  {
    if c.Dropping? {
      DropOnly(t, c.s, c.ids);
    } else {
      SettleOnly(t, c);
    }
  }

  lemma AddOnly(t: Tables, c: RegCall)
    requires Valid(t) && CallOk(t, c) && (c.Reviving? || c.Putting?)
    ensures OnlySrv(t, Statement(t, c).0, c.s)
  {
    var u := Statement(t, c).0;
    if c.Putting? && c.k < |c.rs| {
      forall o | o != c.s
        ensures (HasLiveRoute(u, o) <==> HasLiveRoute(t, o)) && (FlagOk(t, o) ==> FlagOk(u, o))
      {
        PutHas(t, c.s, c.rs[c.k], o);
        if FlagOk(t, o) {
          PutFlag(t, c.s, c.rs[c.k], o);
        }
      }
    } else {
      RowOnly(t, u, c.s);
    }
  }

  lemma OwnByDel(p: Duo, s: nat, name: string)
    requires OwnPart(p, s, name)
    ensures OwnPart(Turn(p, true), s, name)
  {
    if p.a.Some? && !p.a.value.Taking? {
      var c, q := p.a.value, Turn(p, true);
      if c.Dropping? {
        DropHas(p.t, s, c.ids, s);
      } else if c.Counting? {
        CountsAll(p.t, s);
      } else {
        SameRoutes(p.t, q.t, s);
      }
    }
  }

  /** A change to server `s` alone leaves the registration's part as it is. */
  lemma OtherKept(p: Duo, q: Duo, s: nat, name: string, other: string, rs: seq<Route>)
    requires DuoOk(p) && DuoOk(q) && OtherPart(p, s, other, rs) && q.b == p.b && OnlySrv(p.t, q.t, s)
    requires name in p.t.byName && p.t.byName[name] == s && other != name
    ensures OtherPart(q, s, other, rs)
  {
    NamesDiffer(p.t, s, name, other);
    forall o | o in q.t.srvs && o != s && q.t.srvs[o].name != other
      ensures SrvOk(q.t, o)
    {
      assert SrvOk(p.t, o);
    }
  }

  lemma OtherByDel(p: Duo, s: nat, name: string, other: string, rs: seq<Route>)
    requires OwnPart(p, s, name) && OtherPart(p, s, other, rs) && other != name
    ensures OtherPart(Turn(p, true), s, other, rs)
  {
    if p.a.Some? && !p.a.value.Taking? {
      DelOnly(p.t, p.a.value);
      OtherKept(p, Turn(p, true), s, name, other, rs);
    }
  }

  /** A change to another server alone leaves the deletion's part as it is. */
  lemma OwnKept(p: Duo, q: Duo, s: nat, name: string, o: nat)
    requires OwnPart(p, s, name) && DuoOk(q) && q.a == p.a && q.none == p.none && q.gone == p.gone
    requires OnlySrv(p.t, q.t, o) && o != s
    ensures OwnPart(q, s, name)
  {
  }

  lemma NewServer(t: Tables, name: string)
    requires Valid(t) && name !in t.byName
    ensures var (u, s) := EnsureSrv(t, name);
      && s !in t.srvs && !HasLiveRoute(u, s) && FlagOk(u, s)
      && (forall o :: o in t.srvs ==> o != s && u.srvs[o] == t.srvs[o] && (SrvOk(u, o) <==> SrvOk(t, o)))
      && (forall o :: o in t.srvs ==> (HasLiveRoute(u, o) <==> HasLiveRoute(t, o)) && (FlagOk(u, o) <==> FlagOk(t, o)))
  {
    var (u, s) := EnsureSrv(t, name);
    assert forall o :: o in t.srvs ==> SrvIndexed(t, o);
    assert forall r :: r in t.routes ==> RouteIndexed(t, r);
    assert forall r, o :: LiveRoute(u, r, o) <==> LiveRoute(t, r, o);
  }

  lemma OwnByAdd(p: Duo, s: nat, name: string, other: string, rs: seq<Route>)
    requires OwnPart(p, s, name) && OtherPart(p, s, other, rs) && other != name
    ensures OwnPart(Turn(p, false), s, name)
  {
    NamesDiffer(p.t, s, name, other);
    if p.b.Some? {
      var c := p.b.value;
      if c.Looking? {
        if other !in p.t.byName {
          NewServer(p.t, other);
        }
      } else {
        AddOnly(p.t, c);
        OwnKept(p, Turn(p, false), s, name, c.s);
      }
    }
  }

  lemma OtherByLook(p: Duo, s: nat, name: string, other: string, rs: seq<Route>)
    requires OwnPart(p, s, name) && OtherPart(p, s, other, rs) && other != name && p.b.Some? && p.b.value.Looking?
    ensures OtherPart(Turn(p, false), s, other, rs)
  {
    NamesDiffer(p.t, s, name, other);
    var q := Turn(p, false);
    if other !in p.t.byName {
      NewServer(p.t, other);
      forall o | o in q.t.srvs && o != s && q.t.srvs[o].name != other
        ensures SrvOk(q.t, o)
      {
        assert SrvOk(p.t, o);
      }
    }
  }

  lemma OtherByAdd(p: Duo, s: nat, name: string, other: string, rs: seq<Route>)
    requires OwnPart(p, s, name) && OtherPart(p, s, other, rs) && other != name && rs != []
    ensures OtherPart(Turn(p, false), s, other, rs)
  {
    NamesDiffer(p.t, s, name, other);
    if p.b.Some? && p.b.value.Looking? {
      OtherByLook(p, s, name, other, rs);
    } else if p.b.Some? {
      var c, q := p.b.value, Turn(p, false);
      AddOnly(p.t, c);
      forall o | o in q.t.srvs && o != s && q.t.srvs[o].name != other
        ensures SrvOk(q.t, o)
      {
        assert SrvOk(p.t, o);
      }
      if c.Putting? && c.k < |rs| {
        PutHas(p.t, c.s, rs[c.k], c.s);
        if !AnyHealthChecked(rs) {
          PutFlag(p.t, c.s, rs[c.k], c.s);
        }
      } else {
        SameRoutes(p.t, q.t, c.s);
      }
    }
  }

  lemma TwoStart(t: Tables, name: string, ids: seq<nat>, other: string, rs: seq<Route>)
    requires Inv(t) && name in t.byName && LiveSrv(t, t.byName[name]) && other != name
    ensures OwnPart(Both(t, Taking(name, ids), Looking(other, rs)), t.byName[name], name)
    ensures OtherPart(Both(t, Taking(name, ids), Looking(other, rs)), t.byName[name], other, rs)
  {
    InvIff(t);
    assert SrvOk(t, t.byName[name]);
  }

  lemma {:induction false} TwoPlay(p: Duo, turns: seq<bool>, s: nat, name: string, other: string, rs: seq<Route>)
    requires OwnPart(p, s, name) && OtherPart(p, s, other, rs) && other != name && rs != []
    ensures OwnPart(Play(p, turns), s, name) && OtherPart(Play(p, turns), s, other, rs)
  {
    if turns != [] {
      var front := turns[..|turns| - 1];
      TwoPlay(p, front, s, name, other, rs);
      if turns[|turns| - 1] {
        OwnByDel(Play(p, front), s, name);
        OtherByDel(Play(p, front), s, name, other, rs);
      } else {
        OwnByAdd(Play(p, front), s, name, other, rs);
        OtherByAdd(Play(p, front), s, name, other, rs);
      }
    }
  }

  lemma TwoEnd(p: Duo, s: nat, name: string, other: string, rs: seq<Route>)
    requires OwnPart(p, s, name) && OtherPart(p, s, other, rs) && other != name && p.a.None? && p.b.None?
    ensures Inv(p.t)
  {
    NamesDiffer(p.t, s, name, other);
    InvIff(p.t);
    forall o | o in p.t.srvs
      ensures SrvOk(p.t, o)
    {
      if p.t.srvs[o].name == other {
        assert p.t.byName[other] == o;
      }
    }
  }

  // ---------------------------------------------------------------- when two calls break the invariants

  /**
   A deletion on a live server and a registration, run to their ends in any order of their statements, leave the
   invariants intact except in one case: they are about the same server, the deletion counts no live route, the
   registration looks for the row before the deletion deletes it, and one of its routes is put after the count.
   */
  lemma TwoCallsKeepInvIff(t: Tables, name: string, ids: seq<nat>, other: string, rs: seq<Route>, turns: seq<bool>)
    requires Inv(t) && name in t.byName && LiveSrv(t, t.byName[name]) && rs != []
    requires var p := Play(Both(t, Taking(name, ids), Looking(other, rs)), turns); p.a.None? && p.b.None?
    ensures var p := Play(Both(t, Taking(name, ids), Looking(other, rs)), turns);
      Inv(p.t) <==> !(other == name && p.none && p.early && p.late)
  {
    var start, s := Both(t, Taking(name, ids), Looking(other, rs)), t.byName[name];
    if other == name {
      SameStarts(t, name, ids, rs);
      SamePlays(start, turns, s, name, rs);
      SameEnds(Play(start, turns), s, name, rs);
    } else {
      TwoStart(t, name, ids, other, rs);
      TwoPlay(start, turns, s, name, other, rs);
      TwoEnd(Play(start, turns), s, name, other, rs);
    }
  }

  /** One turn more. */
  lemma PlayOn(p: Duo, turns: seq<bool>, q: Duo, turn: bool) returns (more: seq<bool>)
    requires DuoOk(p) && Play(p, turns) == q
    ensures Play(p, more) == Turn(q, turn)
  {
    more := turns + [turn];
    assert more[..|more| - 1] == turns;
  }

  /** A registration that is putting its routes can run to its end. */
  lemma {:induction false} PutsToEnd(p: Duo, turns: seq<bool>, q: Duo, rs: seq<Route>) returns (more: seq<bool>)
    requires DuoOk(p) && Play(p, turns) == q && q.a.None? && q.none && q.early
    requires q.b.Some? && q.b.value.Putting? && q.b.value.rs == rs && (q.b.value.k < |rs| || q.late)
    ensures var e := Play(p, more); e.a.None? && e.b.None? && e.none && e.early && e.late
    decreases |rs| - q.b.value.k
  {
    more := PlayOn(p, turns, q, false);
    if q.b.value.k < |rs| {
      more := PutsToEnd(p, more, Turn(q, false), rs);
    }
  }

  lemma DropsAll(t: Tables, s: nat, ids: seq<nat>)
    requires forall r :: LiveRoute(t, r, s) ==> r in ids
    ensures |LiveRoutes(DropRoutes(t, s, ids), s)| == 0
  {
    forall r
      ensures !LiveRoute(DropRoutes(t, s, ids), r, s)
    {
      assert LiveRoute(DropRoutes(t, s, ids), r, s) ==> LiveRoute(t, r, s);
    }
    CountsAll(DropRoutes(t, s, ids), s);
  }

  /** The deletion takes the row and drops its routes. */
  lemma TakeThenDrop(p: Duo, t: Tables, name: string, ids: seq<nat>) returns (turns: seq<bool>)
    requires DuoOk(p) && p.t == t && p.a == Some(Taking(name, ids)) && name in t.byName && LiveSrv(t, t.byName[name])
    ensures var s := t.byName[name];
      Play(p, turns) == p.(t := DropRoutes(t, s, ids), a := Some(Counting(s, t.srvs[s].hasEnableHealthCheck)))
  {
    var taken := p.(a := Some(Dropping(t.byName[name], ids, t.srvs[t.byName[name]].hasEnableHealthCheck)));
    assert Play(p, []) == p;
    turns := PlayOn(p, [], p, true);
    assert Turn(p, true) == taken;
    turns := PlayOn(p, turns, taken, true);
    TurnDrops(taken, t.byName[name], ids);
  }

  lemma TurnDrops(q: Duo, s: nat, ids: seq<nat>)
    requires DuoOk(q) && q.a.Some? && q.a.value.Dropping? && q.a.value.s == s && q.a.value.ids == ids
    ensures Turn(q, true) == q.(t := DropRoutes(q.t, s, ids), a := Some(Counting(s, q.a.value.flagged)))
  {
  }

  lemma TurnCounts(q: Duo, s: nat)
    requires DuoOk(q) && q.a.Some? && q.a.value.Counting? && q.a.value.s == s && |LiveRoutes(q.t, s)| == 0
    ensures var e := Turn(q, true);
      e == q.(a := e.a, none := true) && e.a.Some? && e.a.value.Settling? && e.a.value.s == s && e.a.value.total == 0
  {
  }

  lemma TurnLooks(q: Duo, s: nat, name: string, rs: seq<Route>)
    requires DuoOk(q) && q.b == Some(Looking(name, rs)) && name in q.t.byName && q.t.byName[name] == s
    requires LiveSrv(q.t, s) && !q.gone
    ensures Turn(q, false) == q.(b := Some(Putting(s, rs, 0)), early := true)
  {
  }

  lemma TurnSettles(q: Duo)
    requires DuoOk(q) && q.a.Some? && q.a.value.Settling?
    ensures var e := Turn(q, true); e == q.(t := e.t, a := None, gone := e.gone)
  {
  }

  /** It counts none, the registration finds the row still live, and the deletion deletes the row. */
  lemma CountThenLook(p: Duo, turns: seq<bool>, q: Duo, s: nat, name: string, rs: seq<Route>) returns (more: seq<bool>)
    requires DuoOk(p) && Play(p, turns) == q && q.a.Some? && q.a.value.Counting? && q.a.value.s == s
    requires q.b == Some(Looking(name, rs)) && name in q.t.byName && q.t.byName[name] == s && LiveSrv(q.t, s) && !q.gone
    requires |LiveRoutes(q.t, s)| == 0
    ensures var e := Play(p, more); e.a.None? && e.none && e.early && e.b == Some(Putting(s, rs, 0))
  {
    var q1 := Turn(q, true);
    TurnCounts(q, s);
    more := PlayOn(p, turns, q, true);
    var q2 := Turn(q1, false);
    TurnLooks(q1, s, name, rs);
    more := PlayOn(p, more, q1, false);
    TurnSettles(q2);
    more := PlayOn(p, more, q2, true);
  }

  /**
   For any deletion of all routes of a server and any registration of it there is an order that breaks the invariants.
   */
  lemma SomeOrderBreaks(t: Tables, name: string, ids: seq<nat>, rs: seq<Route>) returns (turns: seq<bool>)
    requires Inv(t) && name in t.byName && LiveSrv(t, t.byName[name]) && rs != []
    requires forall r :: LiveRoute(t, r, t.byName[name]) ==> r in ids
    ensures var p := Play(Both(t, Taking(name, ids), Looking(name, rs)), turns); p.a.None? && p.b.None? && !Inv(p.t)
  {
    var p, s := Both(t, Taking(name, ids), Looking(name, rs)), t.byName[name];
    turns := TakeThenDrop(p, t, name, ids);
    DropsAll(t, s, ids);
    turns := CountThenLook(p, turns, Play(p, turns), s, name, rs);
    turns := PutsToEnd(p, turns, Play(p, turns), rs);
    TwoCallsKeepInvIff(t, name, ids, name, rs, turns);
  }

  // ---------------------------------------------------------------- two calls of a kind

  /** The deletion has still to settle what it has dropped. */
  predicate OwesCount(a: Option<RegCall>, o: nat) {
    a.Some? && (a.value.Counting? || (a.value.Settling? && a.value.total == 0)) && a.value.s == o
  }

  ghost predicate IsDeletion(t: Tables, a: Option<RegCall>) {
    a.Some? ==>
      && (a.value.Taking? || a.value.Dropping? || a.value.Counting? || a.value.Settling?)
      && (a.value.Settling? ==> a.value.checked == a.value.total && (a.value.total == 0 ==>
        !HasLiveRoute(t, a.value.s)))
  }

  ghost predicate DelsOk(p: Duo, o: nat) {
    && (HasLiveRoute(p.t, o) ==> LiveSrv(p.t, o)) && FlagOk(p.t, o)
    && (LiveSrv(p.t, o) && !HasLiveRoute(p.t, o) ==> OwesCount(p.a, o) || OwesCount(p.b, o))
  }

  ghost predicate DelsPhase(p: Duo) {
    DuoOk(p) && IsDeletion(p.t, p.a) && IsDeletion(p.t, p.b) && forall o :: o in p.t.srvs ==> DelsOk(p, o)
  }

  /** One statement of a deletion, by the rows. */
  lemma DelByRow(t: Tables, c: RegCall, o: nat)
    requires Valid(t) && CallOk(t, c) && IsDeletion(t, Some(c)) && o in t.srvs && FlagOk(t, o)
    ensures var (u, next) := Statement(t, c);
      && u.srvs.Keys == t.srvs.Keys && IsDeletion(u, next) && FlagOk(u, o)
      && (HasLiveRoute(u, o) ==> HasLiveRoute(t, o))
      && (LiveSrv(u, o) <==> LiveSrv(t, o) && !(c.Settling? && c.total == 0 && c.s == o))
      && (HasLiveRoute(t, o) && !HasLiveRoute(u, o) ==> OwesCount(next, o))
      && (OwesCount(Some(c), o) && LiveSrv(u, o) ==> OwesCount(next, o) || HasLiveRoute(u, o))
  {
    var u := Statement(t, c).0;
    if c.Dropping? {
      DropHas(t, c.s, c.ids, o);
    } else if c.Counting? {
      CountsAll(t, c.s);
    } else {
      SameRoutes(t, u, o);
    }
  }

  lemma DelsRow(p: Duo, first: bool, o: nat)
    requires DelsPhase(p) && (if first then p.a else p.b).Some? && o in p.t.srvs
    ensures o in Turn(p, first).t.srvs && DelsOk(Turn(p, first), o)
  {
    assert DelsOk(p, o);
    DelByRow(p.t, (if first then p.a else p.b).value, o);
  }

  /** The other call may be left for last: a server that it counted no route of has none. */
  lemma DelsOther(p: Duo, first: bool)
    requires DelsPhase(p) && (if first then p.a else p.b).Some?
    ensures IsDeletion(Turn(p, first).t, if first then p.b else p.a)
  {
    var mine, others := (if first then p.a else p.b).value, if first then p.b else p.a;
    if others.Some? && others.value.Settling? {
      assert DelsOk(p, others.value.s);
      DelByRow(p.t, mine, others.value.s);
    }
  }

  lemma DelsTurn(p: Duo, first: bool)
    requires DelsPhase(p)
    ensures DelsPhase(Turn(p, first))
  {
    var mine := if first then p.a else p.b;
    if mine.Some? {
      DelsKeys(p.t, mine.value);
      DelsOther(p, first);
      forall o | o in p.t.srvs
        ensures DelsOk(Turn(p, first), o)
      {
        DelsRow(p, first, o);
      }
    }
  }

  lemma DelsKeys(t: Tables, c: RegCall)
    requires Valid(t) && CallOk(t, c) && IsDeletion(t, Some(c))
    ensures Statement(t, c).0.srvs.Keys == t.srvs.Keys && IsDeletion(Statement(t, c).0, Statement(t, c).1)
  {
    if c.Counting? {
      CountsAll(t, c.s);
    }
  }

  lemma {:induction false} DelsPlay(p: Duo, turns: seq<bool>)
    requires DelsPhase(p)
    ensures DelsPhase(Play(p, turns))
  {
    if turns != [] {
      DelsPlay(p, turns[..|turns| - 1]);
      DelsTurn(Play(p, turns[..|turns| - 1]), turns[|turns| - 1]);
    }
  }

  /** Two deletions, of one server or of two, keep the invariants in any order of their statements. */
  lemma TwoDeletionsKeepInv(t: Tables, name: string, ids: seq<nat>, other: string, more: seq<nat>, turns: seq<bool>)
    requires Inv(t)
    requires var p := Play(Both(t, Taking(name, ids), Taking(other, more)), turns); p.a.None? && p.b.None?
    ensures Inv(Play(Both(t, Taking(name, ids), Taking(other, more)), turns).t)
  {
    var start := Both(t, Taking(name, ids), Taking(other, more));
    InvIff(t);
    forall o | o in t.srvs
      ensures DelsOk(start, o)
    {
      assert SrvOk(t, o);
    }
    DelsPlay(start, turns);
    var p := Play(start, turns);
    InvIff(p.t);
    forall o | o in p.t.srvs
      ensures SrvOk(p.t, o)
    {
      assert DelsOk(p, o);
    }
  }

  /** The registration has still to put a route, or to raise the flag. */
  predicate OwesRoute(a: Option<RegCall>, o: nat) {
    a.Some? && a.value.Putting? && a.value.s == o && a.value.k == 0
  }

  predicate OwesFlag(a: Option<RegCall>, o: nat) {
    a.Some? && a.value.Putting? && a.value.s == o && AnyHealthChecked(a.value.rs)
  }

  ghost predicate IsRegistration(t: Tables, a: Option<RegCall>) {
    a.Some? ==>
      && (a.value.Looking? || a.value.Reviving? || a.value.Putting?) && a.value.rs != []
      && (a.value.Putting? ==> LiveSrv(t, a.value.s) && (a.value.k > 0 ==> HasLiveRoute(t, a.value.s)))
  }

  ghost predicate AddsOk(p: Duo, o: nat) {
    && (HasLiveRoute(p.t, o) ==> LiveSrv(p.t, o))
    && (LiveSrv(p.t, o) && !HasLiveRoute(p.t, o) ==> OwesRoute(p.a, o) || OwesRoute(p.b, o))
    && (FlagOk(p.t, o) || OwesFlag(p.a, o) || OwesFlag(p.b, o))
  }

  ghost predicate AddsPhase(p: Duo) {
    DuoOk(p) && IsRegistration(p.t, p.a) && IsRegistration(p.t, p.b) && forall o :: o in p.t.srvs ==> AddsOk(p, o)
  }

  /** What one statement of a registration does to row `o`. */
  ghost predicate RowAfterAdd(t: Tables, u: Tables, c: RegCall, next: Option<RegCall>, o: nat) {
    && o in u.srvs && (LiveSrv(t, o) ==> LiveSrv(u, o)) && (HasLiveRoute(t, o) ==> HasLiveRoute(u, o))
    && (LiveSrv(u, o) && !LiveSrv(t, o) && !HasLiveRoute(u, o) ==> OwesRoute(next, o))
    && (OwesRoute(Some(c), o) ==> HasLiveRoute(u, o))
    && (HasLiveRoute(u, o) && !HasLiveRoute(t, o) ==> LiveSrv(t, o))
    && (FlagOk(t, o) ==> FlagOk(u, o) || OwesFlag(next, o))
    && (OwesFlag(Some(c), o) ==> FlagOk(u, o) || OwesFlag(next, o))
  }

  lemma LookByRow(t: Tables, name: string, rs: seq<Route>, o: nat)
    requires Valid(t) && IsRegistration(t, Some(Looking(name, rs))) && o in t.srvs
    ensures var c := Looking(name, rs);
      RowAfterAdd(t, Statement(t, c).0, c, Statement(t, c).1, o)
  {
    if name !in t.byName {
      NewServer(t, name);
    }
  }

  lemma PutByRow(t: Tables, c: RegCall, o: nat)
    requires Valid(t) && CallOk(t, c) && c.Putting? && c.k < |c.rs| && IsRegistration(t, Some(c)) && o in t.srvs
    ensures RowAfterAdd(t, Statement(t, c).0, c, Statement(t, c).1, o)
  {
    PutHas(t, c.s, c.rs[c.k], o);
    if FlagOk(t, o) && !OwesFlag(Statement(t, c).1, o) {
      PutFlag(t, c.s, c.rs[c.k], o);
    }
  }

  /** One statement of a registration, by the rows it finds. */
  lemma AddByRow(t: Tables, c: RegCall, o: nat)
    requires Valid(t) && CallOk(t, c) && IsRegistration(t, Some(c)) && o in t.srvs
    ensures RowAfterAdd(t, Statement(t, c).0, c, Statement(t, c).1, o)
  {
    if c.Looking? {
      LookByRow(t, c.name, c.rs, o);
    } else if c.Putting? && c.k < |c.rs| {
      PutByRow(t, c, o);
    } else {
      SameRoutes(t, Statement(t, c).0, o);
    }
  }

  /** And by the row it inserts. */
  lemma AddedRow(t: Tables, c: RegCall, o: nat)
    requires Valid(t) && CallOk(t, c) && IsRegistration(t, Some(c))
    requires o in Statement(t, c).0.srvs && o !in t.srvs
    ensures var (u, next) := Statement(t, c);
      LiveSrv(u, o) && !HasLiveRoute(u, o) && FlagOk(u, o) && OwesRoute(next, o)
  {
    NewServer(t, c.name);
  }

  lemma AddLeaves(t: Tables, c: RegCall)
    requires Valid(t) && CallOk(t, c) && IsRegistration(t, Some(c))
    ensures IsRegistration(Statement(t, c).0, Statement(t, c).1)
  {
    if c.Putting? && c.k < |c.rs| {
      PutHas(t, c.s, c.rs[c.k], c.s);
    }
  }

  lemma AddsTurn(p: Duo, first: bool)
    requires AddsPhase(p)
    ensures AddsPhase(Turn(p, first))
  {
    var q := Turn(p, first);
    var mine, others := if first then p.a else p.b, if first then p.b else p.a;
    if mine.Some? {
      AddLeaves(p.t, mine.value);
      if others.Some? && others.value.Putting? {
        AddByRow(p.t, mine.value, others.value.s);
      }
      forall o | o in q.t.srvs
        ensures AddsOk(q, o)
      {
        if o in p.t.srvs {
          assert AddsOk(p, o);
          AddByRow(p.t, mine.value, o);
        } else {
          AddedRow(p.t, mine.value, o);
        }
      }
    }
  }

  lemma {:induction false} AddsPlay(p: Duo, turns: seq<bool>)
    requires AddsPhase(p)
    ensures AddsPhase(Play(p, turns))
  {
    if turns != [] {
      AddsPlay(p, turns[..|turns| - 1]);
      AddsTurn(Play(p, turns[..|turns| - 1]), turns[|turns| - 1]);
    }
  }

  /** Two registrations, of one server or of two, keep the invariants in any order of their statements. */
  lemma TwoRegistrationsKeepInv(t: Tables, name: string, rs: seq<Route>, other: string, more: seq<Route>,
                                turns: seq<bool>)
    requires Inv(t) && rs != [] && more != []
    requires var p := Play(Both(t, Looking(name, rs), Looking(other, more)), turns); p.a.None? && p.b.None?
    ensures Inv(Play(Both(t, Looking(name, rs), Looking(other, more)), turns).t)
  {
    var start := Both(t, Looking(name, rs), Looking(other, more));
    InvIff(t);
    forall o | o in t.srvs
      ensures AddsOk(start, o)
    {
      assert SrvOk(t, o);
    }
    AddsPlay(start, turns);
    var p := Play(start, turns);
    InvIff(p.t);
    forall o | o in p.t.srvs
      ensures SrvOk(p.t, o)
    {
      assert AddsOk(p, o);
    }
  }
}
