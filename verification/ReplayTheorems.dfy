/** The live tables follow the engine: mirroring its changes one by one never
    hits a missing or duplicate row and gives exactly its records
    (go/tun/live/sink.go, go/tun/live/views.go). */
module ReplayTheorems {
  import opened Wrappers
  import opened Records
  import opened Claims
  import opened ClaimTraces

  datatype Tables = Tables(tunnels: map<string, Tunnel>, agents: map<string, Agent>, relays: map<string, Relay>)

  /** POST creates a missing row, PUT replaces a present one, DELETE removes a
      present one; anything else is an error. */
  function Mirror<T>(rows: map<string, T>, key: string, row: T, change: Change): Option<map<string, T>> {
    match change
    case Created => if key in rows then None else Some(rows[key := row])
    case Updated | Moved => if key in rows then Some(rows[key := row]) else None
    case Deleted => if key in rows then Some(rows - {key}) else None
  }

  function MirrorEvent(t: Tables, e: Event): Option<Tables> {
    match e
    case TunnelChanged(r, change) =>
      var rows := Mirror(t.tunnels, r.name, r, change);
      if rows.Some? then Some(t.(tunnels := rows.value)) else None
    case AgentChanged(a, change) =>
      var rows := Mirror(t.agents, a.agentId, a, change);
      if rows.Some? then Some(t.(agents := rows.value)) else None
    case RelayChanged(r, change) =>
      var rows := Mirror(t.relays, r.relayId, r, change);
      if rows.Some? then Some(t.(relays := rows.value)) else None
    case CommandSent(_) => Some(t)
  }

  /** The tables after the sink mirrored every change into them. */
  function Replay(t: Tables, es: seq<Event>): Option<Tables> {
    if es == [] then Some(t) else
      var before := Replay(t, es[..|es| - 1]);
      if before.Some? then MirrorEvent(before.value, es[|es| - 1]) else None
  }

  function TablesOf(s: State): Tables { Tables(s.tunnels, s.agents, s.relays) }

  lemma MirrorFollows(s: State, e: Event)
    requires Disciplined(s, e)
    ensures MirrorEvent(TablesOf(s), e) == Some(TablesOf(Apply(s, e)))
  {
  }

  lemma {:induction false} ReplayFollows(env: Env, op: Op, s: State, es: seq<Event>)
    requires LegalTrace(env, op, s, es)
    ensures Replay(TablesOf(s), es) == Some(TablesOf(ApplyAll(s, es)))
  {
    if es != [] {
      ReplayFollows(env, op, s, es[..|es| - 1]);
      MirrorFollows(ApplyAll(s, es[..|es| - 1]), es[|es| - 1]);
    }
  }

  lemma {:induction false} ReplayAppend(t: Tables, es: seq<Event>, fs: seq<Event>)
    requires Replay(t, es).Some?
    ensures Replay(t, es + fs) == Replay(Replay(t, es).value, fs)
  {
    if fs == [] {
      assert es + fs == es;
    } else {
      ReplayAppend(t, es, fs[..|fs| - 1]);
      assert (es + fs)[..|es + fs| - 1] == es + fs[..|fs| - 1];
    }
  }

  /** The engine's state is what its log makes of the starting state. */
  lemma {:induction false} ExecFollowsLog(s: State, run: Run)
    ensures Exec(s, run) == ApplyAll(s, Log(s, run))
  {
    if run != [] {
      var (env, op) := run[|run| - 1];
      ExecFollowsLog(s, run[..|run| - 1]);
      ApplyAllAppend(s, Log(s, run[..|run| - 1]), Events(env, Exec(s, run[..|run| - 1]), op));
    }
  }

  /** Replaying the changes of any run over empty tables gives exactly the
      engine's tunnels, agents and relays: every POST finds the row missing,
      every PUT and DELETE finds it. */
  lemma {:induction false} ReplayGivesTheTables(s: State, run: Run)
    requires WellKeyed(s)
    ensures Replay(TablesOf(s), Log(s, run)) == Some(TablesOf(Exec(s, run)))
    ensures WellKeyed(Exec(s, run))
  {
    if run != [] {
      var (env, op) := run[|run| - 1];
      var st := Exec(s, run[..|run| - 1]);
      ReplayGivesTheTables(s, run[..|run| - 1]);
      EventsLegal(env, st, op);
      ReplayFollows(env, op, st, Events(env, st, op));
      ReplayAppend(TablesOf(s), Log(s, run[..|run| - 1]), Events(env, st, op));
    }
  }

  // ---------------------------------------------------------------------
  // Readers that hear only pushed changes
  // ---------------------------------------------------------------------

  /** Where a tunnel's traffic goes. */
  datatype Route = Route(relayId: string, state: LiveState, publicPort: int)

  function RouteOf(t: Tunnel): Route { Route(t.relayId, t.state, t.publicPort) }

  function Routes(s: State): map<string, Route> { map n | n in s.tunnels :: RouteOf(s.tunnels[n]) }

  /** An edge or a relay is told of every change but an update. */
  predicate Pushed(e: Event) { e.TunnelChanged? && e.change != Updated }

  function HearOne(routes: map<string, Route>, e: Event): map<string, Route> {
    if !Pushed(e) then routes
    else if e.change == Deleted then routes - {e.tunnel.name}
    else routes[e.tunnel.name := RouteOf(e.tunnel)]
  }

  /** A reader that re-reads a tunnel only when it is told of it. */
  function Hear(routes: map<string, Route>, es: seq<Event>): map<string, Route> {
    if es == [] then routes else HearOne(Hear(routes, es[..|es| - 1]), es[|es| - 1])
  }

  lemma HearOneFollows(s: State, e: Event)
    requires Disciplined(s, e)
    ensures HearOne(Routes(s), e) == Routes(Apply(s, e))
  {
    hide IndexDomains, UnindexDomains, IndexPort, UnindexPort;
    if e.TunnelChanged? && e.change != Deleted {
      StoredRoutes(s, e.tunnel);
    }
  }

  lemma StoredRoutes(s: State, rec: Tunnel)
    ensures HearOne(Routes(s), StoreEvent(s, rec)) == Routes(Stored(s, rec))
  {
    hide IndexDomains, UnindexDomains, IndexPort, UnindexPort;
    assert Stored(s, rec).tunnels == s.tunnels[rec.name := rec];
    assert Routes(Stored(s, rec)) == Routes(s)[rec.name := RouteOf(rec)];
  }

  lemma {:induction false} HearFollows(env: Env, op: Op, s: State, es: seq<Event>)
    requires LegalTrace(env, op, s, es)
    ensures Hear(Routes(s), es) == Routes(ApplyAll(s, es))
  {
    if es != [] {
      HearFollows(env, op, s, es[..|es| - 1]);
      HearOneFollows(ApplyAll(s, es[..|es| - 1]), es[|es| - 1]);
    }
  }

  lemma {:induction false} HearAppend(routes: map<string, Route>, es: seq<Event>, fs: seq<Event>)
    ensures Hear(routes, es + fs) == Hear(Hear(routes, es), fs)
  {
    if fs == [] {
      assert es + fs == es;
    } else {
      HearAppend(routes, es, fs[..|fs| - 1]);
      assert (es + fs)[..|es + fs| - 1] == es + fs[..|fs| - 1];
    }
  }

  /** It is always right about each tunnel's relay, state and port. */
  lemma {:induction false} PushedReaderIsRight(s: State, run: Run)
    requires WellKeyed(s)
    ensures Hear(Routes(s), Log(s, run)) == Routes(Exec(s, run))
  {
    if run != [] {
      var (env, op) := run[|run| - 1];
      var st := Exec(s, run[..|run| - 1]);
      PushedReaderIsRight(s, run[..|run| - 1]);
      ReplayGivesTheTables(s, run[..|run| - 1]);
      EventsLegal(env, st, op);
      HearFollows(env, op, st, Events(env, st, op));
      HearAppend(Routes(s), Log(s, run[..|run| - 1]), Events(env, st, op));
    }
  }

  /** A change is pushed exactly when it changes where some tunnel's traffic goes. */
  lemma PushedExactlyWhen(s: State, e: Event)
    requires Disciplined(s, e)
    ensures Pushed(e) <==> Routes(Apply(s, e)) != Routes(s)
  {
    HearOneFollows(s, e);
    if e.TunnelChanged? {
      var name := e.tunnel.name;
      if e.change == Deleted || e.change == Created {
        assert name in Routes(s) <==> name !in Routes(Apply(s, e));
      } else if e.change == Moved {
        assert Routes(Apply(s, e))[name] != Routes(s)[name];
      }
    }
  }
}
