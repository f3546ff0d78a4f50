/** Runs in which a standalone relay and the claims engine part: a reservation given up
    or a token revoked while the agent is away, and a registration that fails after it
    reclaimed a name. */
module AlikeExamples {
  import opened Wrappers
  import opened Records
  import opened ClaimRules
  import opened ClaimTraces
  import opened Alike
  import opened AlikeRuns
  import S = Standalone
  import ST = StandaloneTheorems
  import C = Claims
  import CT = ClaimTheorems
  import D = DomainReaders

  predicate Open(env: C.Env) { env.rules.NameAllowed("a") && env.rules.Host("a") !in env.sites }

  /** The agent of token t opens its http tunnel a in the session. */
  function Opening(env: C.Env, session: string): Act { Claim(env, D.Asks(session, []), D.Asks(session, []).tunnels[0]) }

  function Ending(env: C.Env, session: string): Act { Park(env, D.Asks(session, []).(names := ["a"])) }

  /** The name is nobody's else. */
  ghost predicate Mine(w: World) {
    && (w.engine == C.EmptyState || Away(w.engine, "a"))
    && (forall n | n in w.engine.tunnels :: n == "a" && w.engine.tunnels["a"].tokenId == "t")
    && w.engine.byDomain == map[] && w.listed in {[], [Reservation("a", "t", 0)]}
  }

  /** Opening a name that is free or away connects it. */
  lemma Opens(cfg: S.Config, w: World, env: C.Env, session: string)
    requires Together(cfg, "r", w) && Mine(w) && Open(env) && session != ""
    ensures Fits(cfg, "r", w, Opening(env, session))
    ensures var t := Next(cfg, w, Opening(env, session));
            && t.engine.tunnels.Keys == {"a"} && t.listed == w.listed && t.engine.byDomain == map[]
            && var rec := t.engine.tunnels["a"];
               rec.tokenId == "t" && rec.state == Active && rec.sessionId == session && rec.relayId == "r" && rec.domains == []
  {
    hide ST.Inv, AlikeAll, C.Step, C.Events, C.Stored, S.Claimed;
    var now, req := At(env, w), D.Asks(session, []);
    var spec := req.tunnels[0];
    var rec := C.Granted(now, req, spec, 0);
    ChecksOut(now, w.engine, req, spec, rec);
    CT.ClaimOfOne(now, w.engine, req, spec, rec);
    StoredOnly(w.engine, rec);
  }

  lemma ChecksOut(env: C.Env, e: C.State, req: Request, spec: Tunnel, rec: Tunnel)
    requires Open(env) && req == D.Asks(req.sessionId, []) && req.sessionId != "" && spec == req.tunnels[0]
    requires rec == C.Granted(env, req, spec, 0) && env.reservations in {[], [Reservation("a", "t", 0)]}
    requires "a" in e.tunnels ==> e.tunnels["a"].tokenId == "t" && e.tunnels["a"].state != Active
    ensures C.Check(env, e, req, [], spec) == Ok(rec) && !C.TakesOver(e, req, "a") && Placed(env, e, req, spec)
  {
    assert C.NamesOf([]) == {};
    assert C.ReservationOf([], "a") == None;
    assert C.ReservationOf([Reservation("a", "t", 0)], "a") == Some(Reservation("a", "t", 0));
  }

  lemma StoredOnly(e: C.State, rec: Tunnel)
    requires rec.name == "a" && rec.domains == [] && e.byDomain == map[] && forall n | n in e.tunnels :: n == "a"
    ensures C.Stored(e, rec).tunnels == map["a" := rec] && C.Stored(e, rec).byDomain == map[]
  {
  }

  /** The session ends. */
  lemma Ends(cfg: S.Config, w: World, env: C.Env, session: string)
    requires Together(cfg, "r", w) && w.engine.tunnels.Keys == {"a"} && w.engine.byDomain == map[] && session != ""
    requires w.engine.tunnels["a"].tokenId == "t" && w.engine.tunnels["a"].sessionId == session
    requires w.engine.tunnels["a"].domains == [] && w.listed in {[], [Reservation("a", "t", 0)]}
    ensures Fits(cfg, "r", w, Ending(env, session))
    ensures var t := Next(cfg, w, Ending(env, session)); Mine(t) && Away(t.engine, "a") && t.listed == w.listed
  {
    hide ST.Inv, AlikeAll, C.Stored, ParkEach;
    var now, req := At(env, w), D.Asks(session, []).(names := ["a"]);
    var until := C.ParkUntil(now, req);
    var rec := C.Parked(w.engine.tunnels["a"], until);
    assert w.engine.tunnels["a"].relayId == "r" && w.engine.tunnels["a"].name == "a";
    assert ["a"][..0] == [];
    assert C.ForEach(w.engine, ["a"][..0], C.ParkStep(req, until)) == [];
    assert C.ApplyAll(w.engine, []) == w.engine;
    assert C.ForEach(w.engine, ["a"], C.ParkStep(req, until)) == [C.StoreEvent(w.engine, rec)];
    ApplyOne(w.engine, C.StoreEvent(w.engine, rec));
    StoreEventStores(w.engine, rec);
    StoredOnly(w.engine, rec);
  }

  lemma TwoFit(cfg: S.Config, id: string, w: World, a: Act, b: Act)
    requires Fits(cfg, id, w, a) && Fits(cfg, id, Next(cfg, w, a), b)
    ensures FitsAll(cfg, id, w, [a, b]) && After(cfg, id, w, [a, b]) == Next(cfg, Next(cfg, w, a), b)
  {
    hide Next;
    assert [a, b][1..] == [b] && [b][1..] == [];
    var t := Next(cfg, w, a);
    assert FitsAll(cfg, id, Next(cfg, t, b), []);
    assert FitsAll(cfg, id, t, [b]);
    assert After(cfg, id, t, [b]) == After(cfg, id, Next(cfg, t, b), []);
  }

  lemma ThenFits(cfg: S.Config, id: string, w: World, a: Act, acts: seq<Act>)
    requires Fits(cfg, id, w, a) && FitsAll(cfg, id, Next(cfg, w, a), acts)
    ensures FitsAll(cfg, id, w, [a] + acts) && After(cfg, id, w, [a] + acts) == After(cfg, id, Next(cfg, w, a), acts)
  {
    hide Next;
    assert ([a] + acts)[1..] == acts;
  }

  /** After it opened and ended, the agent is away in both. */
  lemma GoesAway(cfg: S.Config, w: World, env: C.Env)
    requires Together(cfg, "r", w) && Mine(w) && Open(env)
    ensures var acts := [Opening(env, "s1"), Ending(env, "s1")];
            && FitsAll(cfg, "r", w, acts)
            && var t := After(cfg, "r", w, acts);
               Together(cfg, "r", t) && Mine(t) && Away(t.engine, "a") && t.listed == w.listed
  {
    hide Fits, Next, Together;
    Opens(cfg, w, env, "s1");
    StepKeeps(cfg, "r", w, Opening(env, "s1"));
    Ends(cfg, Next(cfg, w, Opening(env, "s1")), env, "s1");
    StepKeeps(cfg, "r", Next(cfg, w, Opening(env, "s1")), Ending(env, "s1"));
    TwoFit(cfg, "r", w, Opening(env, "s1"), Ending(env, "s1"));
  }

  /** What another token's claim of the name is answered. */
  function RelaySays(w: World): Result<Decision, Refusal> { S.ClaimAnswer(w.relay, "a", "u", "y", "s9", 0) }

  function EngineSays(env: C.Env, w: World): Option<C.ClaimError> {
    C.NameRefusal(At(env, w), w.engine, D.Asks("s9", []).(tokenId := "u", agentId := "y"), [], D.Asks("s9", []).tunnels[0])
  }

  /** Without a reservation, each goes by its own holder. */
  lemma HoldersAnswer(env: C.Env, w: World)
    requires Open(env) && w.listed == []
    requires "a" in w.engine.tunnels ==> w.engine.tunnels["a"].tokenId == "t"
    ensures EngineSays(env, w) == if "a" in w.engine.tunnels then Some(C.NameTaken) else None
    ensures "a" !in w.relay.names ==> RelaySays(w) == Ok(New)
    ensures "a" in w.relay.names && w.relay.names["a"] in w.relay.entries && w.relay.entries[w.relay.names["a"]].tokenId == "t" ==>
              RelaySays(w) == Err(Taken)
  {
    hide S.ConnectedOf, C.ActiveCount;
    assert C.NamesOf([]) == {};
    assert C.ReservationOf([], "a") == None;
  }

  /** A reserved name is given up while its agent is away. */
  lemma UnreservedParts(cfg: S.Config, env: C.Env)
    requires !cfg.clustered && Open(env)
    ensures var acts := [Reserve("a", "t", 0, [Reservation("a", "t", 0)]), Opening(env, "s1"), Ending(env, "s1")];
            && FitsAll(cfg, "r", EmptyWorld, acts)
            && var end := Next(cfg, After(cfg, "r", EmptyWorld, acts), Unreserve("a", []));
               RelaySays(end) == Ok(New) && EngineSays(env, end) == Some(C.NameTaken)
  {
    hide Together, FitsAll, After, Fits, Next, RelaySays, EngineSays;
    var act := Reserve("a", "t", 0, [Reservation("a", "t", 0)]);
    EmptyTogether(cfg, "r");
    ReservesFirst(cfg, act);
    StepKeeps(cfg, "r", EmptyWorld, act);
    var w := Next(cfg, EmptyWorld, act);
    GoesAway(cfg, w, env);
    ThenFits(cfg, "r", EmptyWorld, act, [Opening(env, "s1"), Ending(env, "s1")]);
    assert [act] + [Opening(env, "s1"), Ending(env, "s1")] == [act, Opening(env, "s1"), Ending(env, "s1")];
    var t := After(cfg, "r", w, [Opening(env, "s1"), Ending(env, "s1")]);
    AwayAndReserved(cfg, t, env);
  }

  lemma ReservesFirst(cfg: S.Config, act: Act)
    requires act == Reserve("a", "t", 0, [Reservation("a", "t", 0)])
    ensures Fits(cfg, "r", EmptyWorld, act)
    ensures Next(cfg, EmptyWorld, act).engine == C.EmptyState && Next(cfg, EmptyWorld, act).listed == act.listed
  {
    OnlyListed();
  }

  lemma OnlyListed()
    ensures Relisted([], [Reservation("a", "t", 0)], "a", Some("t"))
  {
    var rs := [Reservation("a", "t", 0)];
    assert rs[..0] == [];
    forall m | m != "a" ensures C.ReservationOf(rs, m) == C.ReservationOf([], m) {
      assert C.ReservationOf(rs[..0], m) == None;
    }
  }

  lemma AwayAndReserved(cfg: S.Config, w: World, env: C.Env)
    requires Together(cfg, "r", w) && w.listed == [Reservation("a", "t", 0)] && Mine(w) && Away(w.engine, "a") && Open(env)
    ensures var end := Next(cfg, w, Unreserve("a", [])); RelaySays(end) == Ok(New) && EngineSays(env, end) == Some(C.NameTaken)
  {
    hide ST.Inv, S.Unreserved, RelaySays, EngineSays;
    ST.InvNames(w.relay);
    assert AlikeAt(w.relay, w.engine.tunnels, w.listed, "a");
    assert C.ReservationOf(w.listed, "a").Some?;
    UnreservedEntry(w.relay, "a");
    HoldersAnswer(env, Next(cfg, w, Unreserve("a", [])));
  }

  /** A token is revoked while its agent is away. */
  lemma RevokedParts(cfg: S.Config, env: C.Env)
    requires !cfg.clustered && Open(env)
    ensures var acts := [Opening(env, "s1"), Ending(env, "s1")];
            && FitsAll(cfg, "r", EmptyWorld, acts)
            && var end := Next(cfg, After(cfg, "r", EmptyWorld, acts), Revoke(env, "t", [], []));
               RelaySays(end) == Ok(New) && EngineSays(env, end) == Some(C.NameTaken)
  {
    hide Together, FitsAll, After, Fits, Next, RelaySays, EngineSays;
    EmptyTogether(cfg, "r");
    GoesAway(cfg, EmptyWorld, env);
    AwayAndRevoked(cfg, After(cfg, "r", EmptyWorld, [Opening(env, "s1"), Ending(env, "s1")]), env);
  }

  lemma AwayAndRevoked(cfg: S.Config, w: World, env: C.Env)
    requires Together(cfg, "r", w) && Mine(w) && Away(w.engine, "a") && Open(env)
    ensures var end := Next(cfg, w, Revoke(env, "t", [], [])); RelaySays(end) == Ok(New) && EngineSays(env, end) == Some(C.NameTaken)
  {
    hide ST.Inv, RelaySays, EngineSays;
    ST.InvNames(w.relay);
    assert AlikeAt(w.relay, w.engine.tunnels, w.listed, "a");
    HoldersAnswer(env, Next(cfg, w, Revoke(env, "t", [], [])));
  }

  /** An agent comes back, and its registration fails after the name was reclaimed. */
  lemma UndoneParts(cfg: S.Config, env: C.Env)
    requires !cfg.clustered && Open(env)
    ensures var acts := [Opening(env, "s1"), Ending(env, "s1")];
            && FitsAll(cfg, "r", EmptyWorld, acts)
            && var away := After(cfg, "r", EmptyWorld, acts);
               var end := Next(cfg, Next(cfg, away, Opening(env, "s2")), Undo(env, "a", true, D.Asks("s2", []).(names := ["a"])));
               && Fits(cfg, "r", away, Opening(env, "s2"))
               && RelaySays(end) == Err(Taken) && EngineSays(env, end) == None
  {
    hide Together, FitsAll, After, Fits, Next, RelaySays, EngineSays;
    EmptyTogether(cfg, "r");
    GoesAway(cfg, EmptyWorld, env);
    var away := After(cfg, "r", EmptyWorld, [Opening(env, "s1"), Ending(env, "s1")]);
    Opens(cfg, away, env, "s2");
    StepKeeps(cfg, "r", away, Opening(env, "s2"));
    var w := Next(cfg, away, Opening(env, "s2"));
    GivenUp(cfg, w, env);
    HoldersAnswer(env, Next(cfg, w, Undo(env, "a", true, D.Asks("s2", []).(names := ["a"]))));
  }

  lemma GivenUp(cfg: S.Config, w: World, env: C.Env)
    requires Together(cfg, "r", w) && w.engine.tunnels.Keys == {"a"}
    requires var rec := w.engine.tunnels["a"]; rec.state == Active && rec.sessionId == "s2" && rec.relayId == "r" && rec.tokenId == "t"
    ensures var end := Next(cfg, w, Undo(env, "a", true, D.Asks("s2", []).(names := ["a"])));
            && "a" !in end.engine.tunnels && end.listed == w.listed
            && "a" in end.relay.names && end.relay.names["a"] in end.relay.entries
            && end.relay.entries[end.relay.names["a"]].tokenId == "t"
  {
    hide AlikeAll, ST.Inv, C.Step, S.RolledBack;
    var req := D.Asks("s2", []).(names := ["a"]);
    ST.InvNames(w.relay);
    AlikeEntry(w.relay, w.engine.tunnels, w.listed);
    RolledBackEntry(cfg, w.relay, "a", "s2", true, env.now);
    ReleaseStepTunnels(At(env, w), w.engine, req);
  }

  lemma AlikeEntry(s: S.State, ts: map<string, Tunnel>, rs: seq<Reservation>)
    requires AlikeAll(s, ts, rs) && "a" in ts && ts["a"].state == Active
    ensures "a" in s.names && s.names["a"] in s.entries
    ensures s.entries[s.names["a"]].session == Some(ts["a"].sessionId) && s.entries[s.names["a"]].tokenId == ts["a"].tokenId
  {
    assert AlikeAt(s, ts, rs, "a");
  }
}
