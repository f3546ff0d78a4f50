/** A standalone relay beside the claims engine: what happens to the one happens to
    the other, through their own locked sections and requests, for whole runs. */
module AlikeRuns {
  import opened Wrappers
  import opened Records
  import opened ClaimRules
  import opened ClaimTraces
  import opened Alike
  import S = Standalone
  import ST = StandaloneTheorems
  import C = Claims
  import CT = ClaimTheorems
  import Sweeps = SweepTheorems

  /** The relay, the engine, and the reservations the engine's directory lists. */
  datatype World = World(relay: S.State, engine: C.State, listed: seq<Reservation>)

  /** What happens to both. listed are the reservations the directory has after an
      operator's change; due are the names whose expiry fires in the relay. */
  datatype Act =
    | Claim(env: C.Env, req: Request, spec: Tunnel)
    | Park(env: C.Env, req: Request)
    | Expire(env: C.Env, order: C.SweepOrder, due: seq<string>)
    | Reserve(name: string, tokenId: string, port: int, listed: seq<Reservation>)
    | Unreserve(name: string, listed: seq<Reservation>)
    | Revoke(env: C.Env, tokenId: string, reqs: seq<Request>, listed: seq<Reservation>)
    | Undo(env: C.Env, name: string, existed: bool, req: Request)
    | OnRelay(section: S.Op)
    | OnEngine(env: C.Env, call: C.Op)

  // ---------------------------------------------------------------------
  // The steps
  // ---------------------------------------------------------------------

  function At(env: C.Env, w: World): C.Env { env.(reservations := w.listed) }

  /** One section on the reservation registered under the name, if there is one. */
  function OnName(cfg: S.Config, s: S.State, n: string, op: S.Handle -> S.Op): S.State {
    if n in s.names && S.Known(s, op(s.names[n])) then S.Next(cfg, s, op(s.names[n])) else s
  }

  /** The session's names parked one after the other. */
  function ParkEach(cfg: S.Config, s: S.State, names: seq<string>, session: string, now: int): S.State {
    if names == [] then s else
      OnName(cfg, ParkEach(cfg, s, names[..|names| - 1], session, now), names[|names| - 1],
             (h: S.Handle) => S.Park(h, session, now))
  }

  function ExpireEach(cfg: S.Config, s: S.State, names: seq<string>): S.State {
    if names == [] then s else
      OnName(cfg, ExpireEach(cfg, s, names[..|names| - 1]), names[|names| - 1], (h: S.Handle) => S.Expire(h))
  }

  /** The revoked token's sessions release their names in the engine. */
  function ReleaseEach(env: C.Env, e: C.State, reqs: seq<Request>): C.State {
    if reqs == [] then e else C.Step(env, ReleaseEach(env, e, reqs[..|reqs| - 1]), C.ReleaseOp(reqs[|reqs| - 1]))
  }

  function Next(cfg: S.Config, w: World, act: Act): World
    requires act.OnRelay? ==> S.Known(w.relay, act.section)
  {
    match act
    case Claim(env, req, spec) =>
      w.(relay := S.Next(cfg, w.relay, S.Claim(spec.name, spec.kind, req.tokenId, req.agentId, req.sessionId, req.maxTunnels)),
         engine := C.Step(At(env, w), w.engine, C.ClaimOp(req)))
    case Park(env, req) =>
      w.(relay := ParkEach(cfg, w.relay, req.names, req.sessionId, env.now), engine := C.Step(At(env, w), w.engine, C.ParkOp(req)))
    case Expire(env, order, due) =>
      w.(relay := ExpireEach(cfg, w.relay, due), engine := C.Step(At(env, w), w.engine, C.SweepOp(order)))
    case Reserve(name, tokenId, port, listed) =>
      w.(relay := S.Next(cfg, w.relay, S.Reserve(name, tokenId, port)), listed := listed)
    case Unreserve(name, listed) =>
      w.(relay := S.Next(cfg, w.relay, S.Unreserve(name)), listed := listed)
    case Revoke(env, tokenId, reqs, listed) =>
      World(S.Next(cfg, w.relay, S.ReleaseToken(tokenId)), ReleaseEach(At(env, w), w.engine, reqs), listed)
    case Undo(env, name, existed, req) =>
      w.(relay := OnName(cfg, w.relay, name, (h: S.Handle) => S.Rollback(h, req.sessionId, existed, env.now)),
         engine := C.Step(At(env, w), w.engine, C.ReleaseOp(req)))
    case OnRelay(op) => w.(relay := S.Next(cfg, w.relay, op))
    case OnEngine(env, op) => w.(engine := C.Step(At(env, w), w.engine, op))
  }

  // ---------------------------------------------------------------------
  // When the two are given the same
  // ---------------------------------------------------------------------

  /** The directory lists the name for the token now, if any, and every other name as before. */
  ghost predicate Relisted(was: seq<Reservation>, now: seq<Reservation>, name: string, tokenId: Option<string>) {
    && (tokenId.None? <==> C.ReservationOf(now, name).None?)
    && (tokenId.Some? ==> C.ReservationOf(now, name).value.tokenId == tokenId.value)
    && forall m | m != name :: C.ReservationOf(now, m) == C.ReservationOf(was, m)
  }

  /** The token's reservations are gone, the others are as before. */
  ghost predicate Unlisted(was: seq<Reservation>, now: seq<Reservation>, tokenId: string) {
    forall m :: C.ReservationOf(now, m) ==
      if C.ReservationOf(was, m).Some? && C.ReservationOf(was, m).value.tokenId == tokenId then None else C.ReservationOf(was, m)
  }

  /** The claim's one tunnel passes the checks a relay makes outside its name registry. */
  predicate Placed(env: C.Env, e: C.State, req: Request, spec: Tunnel) {
    && req.tunnels == [spec] && req.agentId != "" && req.tokenId != "" && req.sessionId != ""
    && (spec.simulated ==> env.allowSimulated) && env.rules.NameAllowed(spec.name) && env.rules.Host(spec.name) !in env.sites
    && C.DomainsFree(e, [], spec)
    && (C.HasPort(spec.kind) && !spec.accessToken ==> C.ChoosePort(env, e, req, [], spec).Ok?)
  }

  /** The engine holds the name for an agent that is away. */
  predicate Away(e: C.State, n: string) { n in e.tunnels && e.tunnels[n].state != Active }

  predicate Permanent(s: S.State, n: string) { n in s.names && s.names[n] in s.entries && s.entries[s.names[n]].permanent }

  /** The relay that serves the tunnels is not taken for lost while they are connected. */
  ghost predicate NoneLost(env: C.Env, e: C.State) {
    forall n | n in e.tunnels && e.tunnels[n].state == Active :: !Sweeps.LostIn(env, e, e.tunnels[n].relayId)
  }

  predicate Gone(env: C.Env, e: C.State, n: string) { n in e.tunnels && C.IsExpired(env, e.tunnels[n]) }

  ghost predicate SweepFits(env: C.Env, e: C.State, order: C.SweepOrder, due: seq<string>) {
    Sweeps.ValidOrder(env, e, order) && forall n :: n in due <==> Gone(env, e, n)
  }

  /** The request releases connected tunnels of the token that its session serves. */
  ghost predicate Releases(id: string, e: C.State, tokenId: string, r: Request) {
    forall n | n in r.names :: n in C.ActiveOf(e, tokenId) && r.relayId == id && e.tunnels[n].sessionId == r.sessionId
  }

  /** Each session of the token releases names it serves, and together they release all. */
  ghost predicate ReleasesAll(id: string, e: C.State, tokenId: string, reqs: seq<Request>) {
    && (forall r | r in reqs :: Releases(id, e, tokenId, r))
    && forall n | n in C.ActiveOf(e, tokenId) :: exists r | r in reqs :: n in r.names
  }

  /** The session that just connected the tunnel gives it up again. */
  predicate GivesUp(id: string, e: C.State, n: string, req: Request) {
    && req.relayId == id && req.names == [n]
    && n in e.tunnels && e.tunnels[n].state == Active && e.tunnels[n].sessionId == req.sessionId
  }

  predicate RelayOnly(op: S.Op) {
    op.Activate? || op.SetDomains? || op.ReservePort? || op.ReleasePort? || op.SetPort?
  }

  predicate EngineOnly(op: C.Op) {
    op.HeartbeatOp? || op.AgentUpOp? || op.AgentDownOp? || op.CommandOp?
  }

  /** The relay named id is the engine's only one, and the act is the same to both. */
  ghost predicate Fits(cfg: S.Config, id: string, w: World, act: Act) {
    match act
    case Claim(env, req, spec) => req.relayId == id && Placed(At(env, w), w.engine, req, spec)
    case Park(env, req) => req.relayId == id && req.sessionId != ""
    case Expire(env, order, due) => SweepFits(At(env, w), w.engine, order, due) && NoneLost(At(env, w), w.engine)
    case Reserve(name, tokenId, port, listed) =>
      if S.ReserveRefusal(w.relay, name, tokenId, port).Some? then listed == w.listed
      else Relisted(w.listed, listed, name, Some(tokenId))
    case Unreserve(name, listed) =>
      Relisted(w.listed, listed, name, None) && !(Permanent(w.relay, name) && Away(w.engine, name))
    case Revoke(env, tokenId, reqs, listed) =>
      && Unlisted(w.listed, listed, tokenId) && ReleasesAll(id, w.engine, tokenId, reqs)
      && forall n | Away(w.engine, n) :: w.engine.tunnels[n].tokenId != tokenId
    case Undo(env, name, existed, req) => GivesUp(id, w.engine, name, req) && (existed <==> Permanent(w.relay, name))
    case OnRelay(op) => RelayOnly(op) && S.Enabled(w.relay, op)
    case OnEngine(env, op) => EngineOnly(op)
  }

  ghost predicate Together(cfg: S.Config, id: string, w: World) {
    && !cfg.clustered && !w.relay.closed && id != ""
    && ST.Inv(w.relay) && WellKeyed(w.engine)
    && (forall n | n in w.engine.tunnels :: w.engine.tunnels[n].relayId == id)
    && AlikeAll(w.relay, w.engine.tunnels, w.listed)
  }

  // ---------------------------------------------------------------------
  // Claims, parks and expiries
  // ---------------------------------------------------------------------

  lemma ClaimedTunnels(env: C.Env, e: C.State, req: Request, spec: Tunnel)
    requires req.relayId != "" && Placed(env, e, req, spec)
    ensures var st := C.Step(env, e, C.ClaimOp(req));
            if C.NameRefusal(env, e, req, [], spec).Some? then st == e
            else exists port :: st.tunnels == C.Stored(e, C.Granted(env, req, spec, port)).tunnels
  {
    hide C.NameRefusal, C.ChoosePort, C.DomainsFree;
    assert [spec][..0] == [];
    assert C.Stage(env, e, req, [spec][..0]) == Ok([]);
    CT.ClaimAllOrNothing(env, e, req);
    if C.NameRefusal(env, e, req, [], spec).None? {
      var rec := C.Check(env, e, req, [], spec).value;
      assert C.ClaimResult(env, e, req) == Ok([rec]) by { assert [] + [rec] == [rec]; }
      CT.ClaimStores(env, e, req);
      assert [rec][..0] == [];
      assert StoreAll(e, [rec][..0]) == e;
      assert StoreAll(e, [rec]) == C.Stored(e, rec);
      assert rec == C.Granted(env, req, spec, rec.publicPort);
    }
  }

  lemma ClaimKeeps(cfg: S.Config, id: string, w: World, env: C.Env, req: Request, spec: Tunnel)
    requires Together(cfg, id, w) && req.relayId == id && Placed(At(env, w), w.engine, req, spec)
    ensures Together(cfg, id, Next(cfg, w, Claim(env, req, spec)))
  {
    hide AlikeAll, ST.Inv, ST.NamesOk, S.ClaimAnswer, C.NameRefusal, C.Step, Placed, C.Stored, S.Claimed;
    var now := At(env, w);
    ST.StepKeeps(cfg, w.relay, S.Claim(spec.name, spec.kind, req.tokenId, req.agentId, req.sessionId, req.maxTunnels));
    ClaimedTunnels(now, w.engine, req, spec);
    PlacedFirst(now, w.engine, req, spec);
    DecideAlike(now, w.relay, w.engine, req, spec);
    StepKeepsKeys(now, w.engine, C.ClaimOp(req));
    ClaimedStaysOpen(w.relay, spec.name, spec.kind, req.tokenId, req.agentId, req.sessionId, req.maxTunnels);
    if C.NameRefusal(now, w.engine, req, [], spec).None? {
      var port :| C.Step(now, w.engine, C.ClaimOp(req)).tunnels == C.Stored(w.engine, C.Granted(now, req, spec, port)).tunnels;
      ST.InvNames(w.relay);
      ClaimKeepsAlike(now, w.relay, w.engine, req, spec, port);
      StoredTunnels(w.engine, C.Granted(now, req, spec, port));
    }
  }

  lemma PlacedFirst(env: C.Env, e: C.State, req: Request, spec: Tunnel)
    requires Placed(env, e, req, spec)
    ensures (spec.simulated ==> env.allowSimulated) && env.rules.NameAllowed(spec.name) && env.rules.Host(spec.name) !in env.sites
  {
  }

  lemma ClaimedStaysOpen(s: S.State, name: string, kind: TunnelType, tokenId: string, agentId: string, session: string, max: int)
    ensures S.Claimed(s, name, kind, tokenId, agentId, session, max).closed == s.closed
    ensures S.ClaimAnswer(s, name, tokenId, agentId, session, max).Err? ==> S.Claimed(s, name, kind, tokenId, agentId, session, max) == s
  {
  }

  lemma StepKeepsKeys(env: C.Env, e: C.State, op: C.Op)
    requires WellKeyed(e)
    ensures WellKeyed(C.Step(env, e, op))
  {
    hide C.Events, WellKeyed;
    WellKeyedKept(e, C.Events(env, e, op));
  }

  // Parking.

  lemma ParkOne(cfg: S.Config, id: string, w: World, n: string, req: Request, until: int, now: int)
    requires Together(cfg, id, w) && req.relayId == id && req.sessionId != ""
    ensures var s := OnName(cfg, w.relay, n, (h: S.Handle) => S.Park(h, req.sessionId, now));
            var e := C.ApplyAll(w.engine, C.ParkStep(req, until)(w.engine, n));
            Together(cfg, id, w.(relay := s, engine := e))
  {
    hide ST.Inv, S.Parked, C.Stored, C.ReservationOf;
    var s, e := w.relay, w.engine;
    ST.InvNames(s);
    assert AlikeAt(s, e.tunnels, w.listed, n);
    WellKeyedKept(e, C.ParkStep(req, until)(e, n));
    if n in s.names {
      ST.StepKeeps(cfg, s, S.Park(s.names[n], req.sessionId, now));
    }
    if n in e.tunnels && C.Serves(req, e.tunnels[n]) {
      ApplyOne(e, C.StoreEvent(e, C.Parked(e.tunnels[n], until)));
      StoredTunnels(e, C.Parked(e.tunnels[n], until));
    }
    ParkOneAlike(cfg, s, e.tunnels, w.listed, n, req, until, now);
  }

  lemma ParkOneAlike(cfg: S.Config, s: S.State, ts: map<string, Tunnel>, rs: seq<Reservation>, n: string, req: Request, until: int, now: int)
    requires ST.NamesOk(s) && AlikeAll(s, ts, rs) && !cfg.clustered && !s.closed && req.sessionId != ""
    requires n in ts ==> ts[n].relayId == req.relayId
    ensures var t := OnName(cfg, s, n, (h: S.Handle) => S.Park(h, req.sessionId, now));
            && !t.closed
            && AlikeAll(t, if n in ts && C.Serves(req, ts[n]) then ts[n := C.Parked(ts[n], until)] else ts, rs)
  {
    hide C.ReservationOf;
    var t := OnName(cfg, s, n, (h: S.Handle) => S.Park(h, req.sessionId, now));
    var us := if n in ts && C.Serves(req, ts[n]) then ts[n := C.Parked(ts[n], until)] else ts;
    assert AlikeAt(s, ts, rs, n);
    forall m ensures AlikeAt(t, us, rs, m) {
      assert AlikeAt(s, ts, rs, m);
    }
  }

  lemma {:induction false} ParkAll(cfg: S.Config, id: string, w: World, env: C.Env, names: seq<string>, req: Request, until: int)
    requires Together(cfg, id, w) && req.relayId == id && req.sessionId != ""
    ensures Together(cfg, id, w.(relay := ParkEach(cfg, w.relay, names, req.sessionId, env.now),
                                 engine := C.ApplyAll(w.engine, C.ForEach(w.engine, names, C.ParkStep(req, until)))))
  {
    hide Together, OnName, C.ParkStep, C.Apply;
    if names != [] {
      var init, n := names[..|names| - 1], names[|names| - 1];
      ParkAll(cfg, id, w, env, init, req, until);
      var es := C.ForEach(w.engine, init, C.ParkStep(req, until));
      var e := C.ApplyAll(w.engine, es);
      ParkOne(cfg, id, w.(relay := ParkEach(cfg, w.relay, init, req.sessionId, env.now), engine := e), n, req, until, env.now);
      ApplyAllAppend(w.engine, es, C.ParkStep(req, until)(e, n));
    }
  }

  // Expiring.

  /** The names expire in the relay and are deleted in the engine. */
  lemma {:induction false} ExpireAlike(cfg: S.Config, s: S.State, ts: map<string, Tunnel>, rs: seq<Reservation>, names: seq<string>)
    requires ST.Inv(s) && !s.closed && AlikeAll(s, ts, rs)
    requires forall n | n in names :: n in ts && ts[n].state != Active
    ensures var t := ExpireEach(cfg, s, names);
            ST.Inv(t) && !t.closed && AlikeAll(t, ts - (set n | n in names), rs)
  {
    hide ST.Inv, AlikeAll, OnName;
    if names == [] {
      assert ts - (set n | n in names) == ts;
    } else {
      var init, n := names[..|names| - 1], names[|names| - 1];
      ExpireAlike(cfg, s, ts, rs, init);
      ExpireOneAlike(cfg, ExpireEach(cfg, s, init), ts - (set m | m in init), rs, n);
      assert ts - (set m | m in init) - {n} == ts - (set m | m in names) by {
        assert names == init + [n];
      }
    }
  }

  lemma ExpireOneAlike(cfg: S.Config, s: S.State, ts: map<string, Tunnel>, rs: seq<Reservation>, n: string)
    requires ST.Inv(s) && !s.closed && AlikeAll(s, ts, rs)
    requires n in ts ==> ts[n].state != Active
    ensures var t := OnName(cfg, s, n, (h: S.Handle) => S.Expire(h));
            ST.Inv(t) && !t.closed && AlikeAll(t, ts - {n}, rs)
  {
    hide ST.Inv, C.ReservationOf;
    ST.InvNames(s);
    var t := OnName(cfg, s, n, (h: S.Handle) => S.Expire(h));
    if n in s.names { ST.StepKeeps(cfg, s, S.Expire(s.names[n])); }
    assert AlikeAt(s, ts, rs, n);
    forall m ensures AlikeAt(t, ts - {n}, rs, m) { assert AlikeAt(s, ts, rs, m); }
  }

  /** A sweep keeps the two alike exactly when it takes no connected tunnel's relay for lost. */
  lemma SweepKeepsAlikeIff(cfg: S.Config, id: string, w: World, env: C.Env, order: C.SweepOrder, due: seq<string>)
    requires Together(cfg, id, w) && SweepFits(At(env, w), w.engine, order, due)
    ensures Together(cfg, id, Next(cfg, w, Expire(env, order, due))) <==> NoneLost(At(env, w), w.engine)
  {
    hide ST.Inv, AlikeAll, Sweeps.ValidOrder, C.Step, C.IsExpired, ExpireEach, Sweeps.Over;
    forall t: Tunnel ensures Sweeps.Over(At(env, w), t) <==> C.IsExpired(At(env, w), t) { Sweeps.OverIs(At(env, w), t); }
    var now, e := At(env, w), w.engine;
    var e' := C.Step(now, e, C.SweepOp(order));
    Sweeps.SweepOutcome(now, e, order);
    StepKeepsKeys(now, e, C.SweepOp(order));
    assert e'.tunnels == Sweeps.SweptTunnels(now, e);
    forall n | n in due ensures n in e.tunnels && e.tunnels[n].state != Active { ExpiredIsAway(now, e, n); }
    ExpireAlike(cfg, w.relay, e.tunnels, w.listed, due);
    if NoneLost(now, e) {
      assert e'.tunnels == e.tunnels - (set n | n in due);
    } else {
      var n :| n in e.tunnels && e.tunnels[n].state == Active && Sweeps.LostIn(now, e, e.tunnels[n].relayId);
      LostIsNotAlike(cfg, w, e', due, n);
    }
  }

  lemma ExpiredIsAway(env: C.Env, e: C.State, n: string)
    requires Gone(env, e, n)
    ensures Away(e, n)
  {
  }

  lemma LostIsNotAlike(cfg: S.Config, w: World, e': C.State, due: seq<string>, n: string)
    requires AlikeAll(ExpireEach(cfg, w.relay, due), w.engine.tunnels - (set m | m in due), w.listed)
    requires n in w.engine.tunnels && w.engine.tunnels[n].state == Active && n !in due
    requires n in e'.tunnels ==> e'.tunnels[n].state != Active
    ensures !AlikeAll(ExpireEach(cfg, w.relay, due), e'.tunnels, w.listed)
  {
    hide ExpireEach, C.ReservationOf;
    assert AlikeAt(ExpireEach(cfg, w.relay, due), w.engine.tunnels - (set m | m in due), w.listed, n);
    assert !AlikeAt(ExpireEach(cfg, w.relay, due), e'.tunnels, w.listed, n);
  }

  // ---------------------------------------------------------------------
  // Operators
  // ---------------------------------------------------------------------

  /** t holds the name for the same agent, session and token as s. */
  ghost predicate SameAt(s: S.State, t: S.State, n: string) {
    && (n in s.names <==> n in t.names)
    && (n in s.names && s.names[n] in s.entries ==>
          && t.names[n] == s.names[n] && s.names[n] in t.entries
          && var a, b := s.entries[s.names[n]], t.entries[s.names[n]];
             b == a.(port := b.port, domains := b.domains, tunnel := b.tunnel, armed := b.armed))
  }

  lemma SameStaysAlike(s: S.State, t: S.State, ts: map<string, Tunnel>, was: seq<Reservation>, now: seq<Reservation>, n: string)
    requires ST.NamesOk(s) && AlikeAt(s, ts, was, n) && SameAt(s, t, n) && C.ReservationOf(was, n) == C.ReservationOf(now, n)
    ensures AlikeAt(t, ts, now, n)
  {
    hide C.ReservationOf;
  }

  lemma KeptEntry(s: S.State, name: string, tokenId: string)
    requires ST.NamesOk(s) && (name in s.names ==> s.entries[s.names[name]].tokenId == tokenId)
    ensures var t := S.Kept(s, name, tokenId);
            && name in t.names && t.names[name] in t.entries
            && var e := t.entries[t.names[name]];
               && e.permanent && e.tokenId == tokenId
               && (name in s.names ==> e.session == s.entries[s.names[name]].session && e.agentId == s.entries[s.names[name]].agentId)
               && (name !in s.names ==> e.session.None?)
  {
  }

  lemma KeptElsewhere(s: S.State, name: string, tokenId: string, m: string)
    requires ST.NamesOk(s) && m != name
    ensures SameAt(s, S.Kept(s, name, tokenId), m)
  {
  }

  lemma KeptKeepsNames(s: S.State, name: string, tokenId: string)
    requires ST.NamesOk(s)
    ensures ST.NamesOk(S.Kept(s, name, tokenId))
  {
  }

  lemma PortMovedSame(s: S.State, h: S.Handle, port: int, m: string)
    requires ST.NamesOk(s) && h in s.entries
    ensures SameAt(s, S.PortMoved(s, h, port), m)
  {
  }

  lemma ReserveKeepsAlike(s: S.State, ts: map<string, Tunnel>, was: seq<Reservation>, now: seq<Reservation>,
                          name: string, tokenId: string, port: int)
    requires ST.NamesOk(s) && AlikeAll(s, ts, was) && S.ReserveRefusal(s, name, tokenId, port).None?
    requires Relisted(was, now, name, Some(tokenId))
    ensures AlikeAll(S.ReservedName(s, name, tokenId, port), ts, now)
  {
    hide C.ReservationOf, S.Kept, S.PortMoved, SameAt;
    var t, u := S.Kept(s, name, tokenId), S.ReservedName(s, name, tokenId, port);
    KeptEntry(s, name, tokenId);
    KeptKeepsNames(s, name, tokenId);
    forall m ensures AlikeAt(u, ts, now, m) {
      KeptAlike(s, ts, was, now, name, tokenId, m);
      if t != u {
        PortMovedSame(t, t.names[name], port, m);
        SameStaysAlike(t, u, ts, now, now, m);
      }
    }
  }

  lemma KeptAlike(s: S.State, ts: map<string, Tunnel>, was: seq<Reservation>, now: seq<Reservation>, name: string, tokenId: string, m: string)
    requires ST.NamesOk(s) && AlikeAll(s, ts, was) && (name in s.names ==> s.entries[s.names[name]].tokenId == tokenId)
    requires Relisted(was, now, name, Some(tokenId))
    ensures AlikeAt(S.Kept(s, name, tokenId), ts, now, m)
  {
    hide C.ReservationOf, S.Kept, SameAt;
    assert AlikeAt(s, ts, was, m);
    if m == name {
      KeptEntry(s, name, tokenId);
    } else {
      KeptElsewhere(s, name, tokenId, m);
      SameStaysAlike(s, S.Kept(s, name, tokenId), ts, was, now, m);
    }
  }

  lemma ReserveKeeps(cfg: S.Config, id: string, w: World, act: Act)
    requires Together(cfg, id, w) && act.Reserve? && Fits(cfg, id, w, act)
    ensures Together(cfg, id, Next(cfg, w, act))
  {
    hide ST.Inv, AlikeAll, Relisted, S.Kept;
    ST.InvNames(w.relay);
    ST.StepKeeps(cfg, w.relay, S.Reserve(act.name, act.tokenId, act.port));
    if S.ReserveRefusal(w.relay, act.name, act.tokenId, act.port).None? {
      ReserveKeepsAlike(w.relay, w.engine.tunnels, w.listed, act.listed, act.name, act.tokenId, act.port);
      assert !S.Kept(w.relay, act.name, act.tokenId).closed by { KeptStaysOpen(w.relay, act.name, act.tokenId); }
    }
  }

  lemma KeptStaysOpen(s: S.State, name: string, tokenId: string)
    ensures S.Kept(s, name, tokenId).closed == s.closed
  {
  }

  lemma UnreservedElsewhere(s: S.State, name: string, m: string)
    requires ST.NamesOk(s) && m != name
    ensures SameAt(s, S.Unreserved(s, name), m)
  {
  }

  lemma UnreservedEntry(s: S.State, name: string)
    requires ST.NamesOk(s)
    ensures var t := S.Unreserved(s, name);
            && t.closed == s.closed
            && if !Permanent(s, name) then t == s
               else if s.entries[s.names[name]].session.None? then name !in t.names
               else
                 && name in t.names && t.names[name] == s.names[name] && s.names[name] in t.entries
                 && t.entries[s.names[name]] == s.entries[s.names[name]].(permanent := false)
  {
  }

  lemma UnreservedAlikeIff(s: S.State, e: C.State, was: seq<Reservation>, now: seq<Reservation>, name: string)
    requires ST.NamesOk(s) && AlikeAll(s, e.tunnels, was) && Relisted(was, now, name, None)
    ensures S.Unreserved(s, name).closed == s.closed
    ensures AlikeAll(S.Unreserved(s, name), e.tunnels, now) <==> !(Permanent(s, name) && Away(e, name))
  {
    hide C.ReservationOf, S.Unreserved, SameAt;
    UnreservedEntry(s, name);
    assert AlikeAt(s, e.tunnels, was, name);
    forall m | m != name ensures AlikeAt(S.Unreserved(s, name), e.tunnels, now, m) {
      assert AlikeAt(s, e.tunnels, was, m);
      UnreservedElsewhere(s, name, m);
      SameStaysAlike(s, S.Unreserved(s, name), e.tunnels, was, now, m);
    }
    assert AlikeAt(S.Unreserved(s, name), e.tunnels, now, name) <==> !(Permanent(s, name) && Away(e, name));
  }

  /** Giving a reservation up frees a parked name at once in the relay, while the
      engine still holds it for the grace period. */
  lemma UnreserveKeepsAlikeIff(cfg: S.Config, id: string, w: World, name: string, listed: seq<Reservation>)
    requires Together(cfg, id, w) && Relisted(w.listed, listed, name, None)
    ensures Together(cfg, id, Next(cfg, w, Unreserve(name, listed))) <==> !(Permanent(w.relay, name) && Away(w.engine, name))
  {
    hide ST.Inv, AlikeAll, Relisted, S.Unreserved, Permanent, Away;
    ST.InvNames(w.relay);
    ST.StepKeeps(cfg, w.relay, S.Unreserve(name));
    UnreservedAlikeIff(w.relay, w.engine, w.listed, listed, name);
  }

  // Revoking a token.

  lemma ReleasedOne(e: C.State, req: Request, n: string)
    requires WellKeyed(e) && (n in e.tunnels ==> C.Serves(req, e.tunnels[n]))
    ensures C.ApplyAll(e, C.ReleaseStep(req)(e, n)).tunnels == e.tunnels - {n}
  {
    hide C.Serves, C.Unindexed;
    if n in e.tunnels {
      ApplyOne(e, C.TunnelChanged(e.tunnels[n], C.Deleted));
      assert C.Removed(e, n).tunnels == e.tunnels - {n} by { RemovedTunnels(e, n); }
    }
  }

  lemma RemovedTunnels(e: C.State, n: string)
    ensures C.Removed(e, n).tunnels == e.tunnels - {n}
  {
  }

  lemma {:induction false} ReleasedNames(e: C.State, req: Request, names: seq<string>)
    requires WellKeyed(e) && forall n | n in names && n in e.tunnels :: C.Serves(req, e.tunnels[n])
    ensures C.ApplyAll(e, C.ForEach(e, names, C.ReleaseStep(req))).tunnels == e.tunnels - (set n | n in names)
  {
    hide C.Serves, C.ReleaseStep, C.Apply, WellKeyed;
    if names == [] {
      assert e.tunnels - (set n | n in names) == e.tunnels;
    } else {
      var init, n := names[..|names| - 1], names[|names| - 1];
      ReleasedNames(e, req, init);
      var es := C.ForEach(e, init, C.ReleaseStep(req));
      var st := C.ApplyAll(e, es);
      WellKeyedKept(e, es);
      ApplyAllAppend(e, es, C.ReleaseStep(req)(st, n));
      ReleasedOne(st, req, n);
      assert e.tunnels - (set m | m in init) - {n} == e.tunnels - (set m | m in names) by {
        assert names == init + [n];
      }
    }
  }

  function NamesIn(reqs: seq<Request>): set<string> { set r, n | r in reqs && n in r.names :: n }

  lemma ReleasedAll(env: C.Env, e: C.State, id: string, tokenId: string, reqs: seq<Request>)
    requires WellKeyed(e) && id != "" && ReleasesAll(id, e, tokenId, reqs)
    requires forall n | n in e.tunnels :: e.tunnels[n].relayId == id
    ensures WellKeyed(ReleaseEach(env, e, reqs)) && ReleaseEach(env, e, reqs).tunnels == e.tunnels - C.ActiveOf(e, tokenId)
  {
    hide WellKeyed;
    ReleasedSome(env, e, id, tokenId, reqs);
    assert NamesIn(reqs) == C.ActiveOf(e, tokenId);
  }

  lemma {:induction false} ReleasedSome(env: C.Env, e: C.State, id: string, tokenId: string, reqs: seq<Request>)
    requires WellKeyed(e) && id != ""
    requires forall r | r in reqs :: Releases(id, e, tokenId, r)
    requires forall n | n in e.tunnels :: e.tunnels[n].relayId == id
    ensures WellKeyed(ReleaseEach(env, e, reqs)) && ReleaseEach(env, e, reqs).tunnels == e.tunnels - NamesIn(reqs)
  {
    hide WellKeyed, C.Step;
    if reqs == [] {
      assert e.tunnels - NamesIn(reqs) == e.tunnels;
    } else {
      var init, r := reqs[..|reqs| - 1], reqs[|reqs| - 1];
      ReleasedSome(env, e, id, tokenId, init);
      var st := ReleaseEach(env, e, init);
      StepKeepsKeys(env, st, C.ReleaseOp(r));
      assert Releases(id, e, tokenId, r);
      assert r.names != [] ==> r.names[0] in r.names;
      ReleaseStepTunnels(env, st, r);
      assert e.tunnels - NamesIn(init) - (set n | n in r.names) == e.tunnels - NamesIn(reqs) by {
        assert reqs == init + [r];
      }
    }
  }

  lemma ReleaseStepTunnels(env: C.Env, e: C.State, r: Request)
    requires WellKeyed(e) && forall n | n in r.names && n in e.tunnels :: C.Serves(r, e.tunnels[n])
    requires r.names != [] ==> r.relayId != ""
    ensures C.Step(env, e, C.ReleaseOp(r)).tunnels == e.tunnels - (set n | n in r.names)
  {
    hide C.Serves;
    if r.names == [] {
      assert e.tunnels - (set n | n in r.names) == e.tunnels;
    } else {
      ReleasedNames(e, r, r.names);
    }
  }

  /** Revoking a token frees its parked names at once in the relay only. */
  lemma RevokeKeepsAlikeIff(cfg: S.Config, id: string, w: World, env: C.Env, tokenId: string, reqs: seq<Request>, listed: seq<Reservation>)
    requires Together(cfg, id, w) && Unlisted(w.listed, listed, tokenId) && ReleasesAll(id, w.engine, tokenId, reqs)
    ensures Together(cfg, id, Next(cfg, w, Revoke(env, tokenId, reqs, listed))) <==>
            forall n | Away(w.engine, n) :: w.engine.tunnels[n].tokenId != tokenId
  {
    hide ST.Inv, AlikeAll, S.DeletedAll, ReleaseEach, Unlisted, ReleasesAll, C.ActiveOf, S.NamesOfToken;
    ST.InvNames(w.relay);
    ST.StepKeeps(cfg, w.relay, S.ReleaseToken(tokenId));
    ReleasedAll(At(env, w), w.engine, id, tokenId, reqs);
    RevokedAlikeIff(w.relay, w.engine, w.listed, listed, tokenId);
  }

  lemma RevokedAlikeIff(s: S.State, e: C.State, was: seq<Reservation>, now: seq<Reservation>, tokenId: string)
    requires ST.NamesOk(s) && AlikeAll(s, e.tunnels, was) && Unlisted(was, now, tokenId)
    ensures var t := S.DeletedAll(s, S.NamesOfToken(s, tokenId));
            && t.closed == s.closed
            && (AlikeAll(t, e.tunnels - C.ActiveOf(e, tokenId), now) <==>
                forall n | Away(e, n) :: e.tunnels[n].tokenId != tokenId)
  {
    hide C.ReservationOf;
    var t, ts := S.DeletedAll(s, S.NamesOfToken(s, tokenId)), e.tunnels - C.ActiveOf(e, tokenId);
    if n :| Away(e, n) && e.tunnels[n].tokenId == tokenId {
      assert AlikeAt(s, e.tunnels, was, n);
      assert !AlikeAt(t, ts, now, n);
    } else {
      forall m ensures AlikeAt(t, ts, now, m) {
        assert AlikeAt(s, e.tunnels, was, m);
      }
    }
  }

  // Undoing a failed registration.

  lemma RolledBackEntry(cfg: S.Config, s: S.State, n: string, session: string, existed: bool, now: int)
    requires ST.NamesOk(s) && !cfg.clustered && !s.closed && n in s.names && s.entries[s.names[n]].session == Some(session)
    ensures var h := s.names[n];
            var t := S.RolledBack(s, cfg, h, session, existed, now);
            && t.closed == s.closed
            && (existed ==>
                  && n in t.names && t.names[n] == h && h in t.entries && t.entries[h].session.None?
                  && t.entries[h].permanent == s.entries[h].permanent && t.entries[h].tokenId == s.entries[h].tokenId)
            && (!existed ==> n !in t.names)
  {
  }

  lemma RolledBackElsewhere(cfg: S.Config, s: S.State, n: string, session: string, existed: bool, now: int, m: string)
    requires ST.NamesOk(s) && !cfg.clustered && !s.closed && n in s.names && m != n
    ensures SameAt(s, S.RolledBack(s, cfg, s.names[n], session, existed, now), m)
  {
  }

  lemma RolledBackAlikeIff(cfg: S.Config, s: S.State, ts: map<string, Tunnel>, rs: seq<Reservation>, n: string,
                           session: string, existed: bool, now: int)
    requires ST.NamesOk(s) && AlikeAll(s, ts, rs) && !cfg.clustered && !s.closed
    requires n in ts && ts[n].state == Active && ts[n].sessionId == session
    ensures n in s.names && S.RolledBack(s, cfg, s.names[n], session, existed, now).closed == s.closed
    ensures AlikeAll(S.RolledBack(s, cfg, s.names[n], session, existed, now), ts - {n}, rs) <==> (existed <==> Permanent(s, n))
  {
    hide C.ReservationOf, S.RolledBack, SameAt;
    assert AlikeAt(s, ts, rs, n);
    var t := S.RolledBack(s, cfg, s.names[n], session, existed, now);
    RolledBackEntry(cfg, s, n, session, existed, now);
    forall m | m != n ensures AlikeAt(t, ts - {n}, rs, m) {
      assert AlikeAt(s, ts, rs, m);
      RolledBackElsewhere(cfg, s, n, session, existed, now, m);
      SameStaysAlike(s, t, ts, rs, rs, m);
      OtherGone(t, ts, rs, n, m);
    }
    assert AlikeAt(t, ts - {n}, rs, n) <==> (existed <==> Permanent(s, n));
  }

  lemma OtherGone(t: S.State, ts: map<string, Tunnel>, rs: seq<Reservation>, n: string, m: string)
    requires AlikeAt(t, ts, rs, m) && m != n
    ensures AlikeAt(t, ts - {n}, rs, m)
  {
    hide C.ReservationOf;
  }

  /** A registration that failed after it connected a tunnel: the relay parks again what
      it had, the engine frees the name. They stay alike exactly when a reservation the
      relay had before is a permanent one. */
  lemma UndoKeepsAlikeIff(cfg: S.Config, id: string, w: World, env: C.Env, name: string, existed: bool, req: Request)
    requires Together(cfg, id, w) && GivesUp(id, w.engine, name, req)
    ensures Together(cfg, id, Next(cfg, w, Undo(env, name, existed, req))) <==> (existed <==> Permanent(w.relay, name))
  {
    hide ST.Inv, AlikeAll, S.RolledBack, Permanent, C.Step;
    ST.InvNames(w.relay);
    RolledBackAlikeIff(cfg, w.relay, w.engine.tunnels, w.listed, name, req.sessionId, existed, env.now);
    ST.StepKeeps(cfg, w.relay, S.Rollback(w.relay.names[name], req.sessionId, existed, env.now));
    StepKeepsKeys(At(env, w), w.engine, C.ReleaseOp(req));
    ReleaseStepTunnels(At(env, w), w.engine, req);
    assert (set n | n in req.names) == {name};
  }

  // ---------------------------------------------------------------------
  // What only one of them does
  // ---------------------------------------------------------------------

  lemma DomainsSetSame(s: S.State, h: S.Handle, domains: seq<string>, n: string)
    requires ST.NamesOk(s) && h in s.entries
    ensures S.DomainsSet(s, h, domains).closed == s.closed && SameAt(s, S.DomainsSet(s, h, domains), n)
  {
    hide S.TakenDomain;
  }

  lemma PortSetSame(s: S.State, h: S.Handle, port: int, n: string)
    requires ST.NamesOk(s) && h in s.entries
    ensures S.PortSet(s, h, port).closed == s.closed && SameAt(s, S.PortSet(s, h, port), n)
  {
  }

  lemma RelayOnlySame(cfg: S.Config, s: S.State, op: S.Op, n: string)
    requires ST.NamesOk(s) && RelayOnly(op) && S.Known(s, op)
    ensures S.Next(cfg, s, op).closed == s.closed && SameAt(s, S.Next(cfg, s, op), n)
  {
    hide S.DomainsSet, S.PortSet;
    match op
    case SetDomains(h, domains) => DomainsSetSame(s, h, domains, n);
    case SetPort(h, port) => PortSetSame(s, h, port, n);
    case _ =>
  }

  lemma RelayOnlyKeeps(cfg: S.Config, id: string, w: World, op: S.Op)
    requires Together(cfg, id, w) && RelayOnly(op) && S.Enabled(w.relay, op)
    ensures Together(cfg, id, Next(cfg, w, OnRelay(op)))
  {
    hide ST.Inv, AlikeAt, S.Next, SameAt, C.ReservationOf;
    ST.InvNames(w.relay);
    ST.StepKeeps(cfg, w.relay, op);
    RelayOnlySame(cfg, w.relay, op, "");
    forall n ensures AlikeAt(S.Next(cfg, w.relay, op), w.engine.tunnels, w.listed, n) {
      RelayOnlySame(cfg, w.relay, op, n);
      SameStaysAlike(w.relay, S.Next(cfg, w.relay, op), w.engine.tunnels, w.listed, w.listed, n);
    }
  }

  /** The engine holds every name for the same agent, session and token as before. */
  ghost predicate SameHolders(ts: map<string, Tunnel>, us: map<string, Tunnel>) {
    && ts.Keys == us.Keys
    && forall n | n in ts ::
         && us[n].relayId == ts[n].relayId && us[n].tokenId == ts[n].tokenId && us[n].state == ts[n].state
         && us[n].agentId == ts[n].agentId && us[n].sessionId == ts[n].sessionId
  }

  lemma EngineOnlyEvent(env: C.Env, op: C.Op, e: C.State, ev: C.Event)
    requires EngineOnly(op) && Legal(env, op, e, ev)
    ensures SameHolders(e.tunnels, C.Apply(e, ev).tunnels)
  {
    hide C.Stored, C.Removed;
    if ev.TunnelChanged? { StoredTunnels(e, ev.tunnel); }
  }

  lemma {:induction false} EngineOnlySame(env: C.Env, op: C.Op, e: C.State, es: seq<C.Event>)
    requires EngineOnly(op) && LegalTrace(env, op, e, es)
    ensures SameHolders(e.tunnels, C.ApplyAll(e, es).tunnels)
  {
    hide Legal, C.Apply;
    if es != [] {
      EngineOnlySame(env, op, e, es[..|es| - 1]);
      EngineOnlyEvent(env, op, C.ApplyAll(e, es[..|es| - 1]), es[|es| - 1]);
    }
  }

  lemma EngineOnlyKeeps(cfg: S.Config, id: string, w: World, env: C.Env, op: C.Op)
    requires Together(cfg, id, w) && EngineOnly(op)
    ensures Together(cfg, id, Next(cfg, w, OnEngine(env, op)))
  {
    hide ST.Inv, C.ReservationOf, C.Events, WellKeyed, LegalTrace, C.ApplyAll;
    var e' := C.Step(At(env, w), w.engine, op);
    EventsLegal(At(env, w), w.engine, op);
    EngineOnlySame(At(env, w), op, w.engine, C.Events(At(env, w), w.engine, op));
    forall n ensures AlikeAt(w.relay, e'.tunnels, w.listed, n) {
      assert AlikeAt(w.relay, w.engine.tunnels, w.listed, n);
    }
  }

  // ---------------------------------------------------------------------
  // Runs
  // ---------------------------------------------------------------------

  lemma StepKeeps(cfg: S.Config, id: string, w: World, act: Act)
    requires Together(cfg, id, w) && Fits(cfg, id, w, act)
    ensures Together(cfg, id, Next(cfg, w, act))
  {
    hide Together, C.Step, S.Next, ParkEach, ExpireEach, ReleaseEach, Placed, SweepFits, Relisted, Unlisted, ReleasesAll;
    match act
    case Claim(env, req, spec) => ClaimKeeps(cfg, id, w, env, req, spec);
    case Park(env, req) => ParkKeeps(cfg, id, w, env, req);
    case Expire(env, order, due) => SweepKeepsAlikeIff(cfg, id, w, env, order, due);
    case Reserve(_, _, _, _) => ReserveKeeps(cfg, id, w, act);
    case Unreserve(name, listed) => UnreserveKeepsAlikeIff(cfg, id, w, name, listed);
    case Revoke(env, tokenId, reqs, listed) => RevokeKeepsAlikeIff(cfg, id, w, env, tokenId, reqs, listed);
    case Undo(env, name, existed, req) => UndoKeepsAlikeIff(cfg, id, w, env, name, existed, req);
    case OnRelay(op) => RelayOnlyKeeps(cfg, id, w, op);
    case OnEngine(env, op) => EngineOnlyKeeps(cfg, id, w, env, op);
  }

  lemma ParkKeeps(cfg: S.Config, id: string, w: World, env: C.Env, req: Request)
    requires Together(cfg, id, w) && req.relayId == id && req.sessionId != ""
    ensures Together(cfg, id, Next(cfg, w, Park(env, req)))
  {
    hide ST.Inv, AlikeAll, ParkEach, C.ForEach, C.ApplyAll;
    ParkAll(cfg, id, w, env, req.names, req, C.ParkUntil(At(env, w), req));
  }

  ghost predicate FitsAll(cfg: S.Config, id: string, w: World, acts: seq<Act>)
    decreases |acts|
  {
    acts == [] || (Fits(cfg, id, w, acts[0]) && FitsAll(cfg, id, Next(cfg, w, acts[0]), acts[1..]))
  }

  ghost function After(cfg: S.Config, id: string, w: World, acts: seq<Act>): World
    requires FitsAll(cfg, id, w, acts)
    decreases |acts|
  {
    if acts == [] then w else After(cfg, id, Next(cfg, w, acts[0]), acts[1..])
  }

  lemma {:induction false} StayTogether(cfg: S.Config, id: string, w: World, acts: seq<Act>)
    requires Together(cfg, id, w) && FitsAll(cfg, id, w, acts)
    ensures Together(cfg, id, After(cfg, id, w, acts))
    decreases |acts|
  {
    hide Together, Next;
    if acts != [] {
      StepKeeps(cfg, id, w, acts[0]);
      StayTogether(cfg, id, Next(cfg, w, acts[0]), acts[1..]);
    }
  }

  const EmptyWorld := World(S.EmptyState, C.EmptyState, [])

  /** However they got there together, the two answer the next claim alike. */
  lemma AlwaysAnswerAlike(cfg: S.Config, id: string, acts: seq<Act>, env: C.Env, req: Request, spec: Tunnel)
    requires !cfg.clustered && id != "" && FitsAll(cfg, id, EmptyWorld, acts)
    requires (spec.simulated ==> env.allowSimulated) && env.rules.NameAllowed(spec.name) && env.rules.Host(spec.name) !in env.sites
    ensures var w := After(cfg, id, EmptyWorld, acts);
            && AlikeAll(w.relay, w.engine.tunnels, w.listed)
            && C.NameRefusal(At(env, w), w.engine, req, [], spec) ==
               match S.ClaimAnswer(w.relay, spec.name, req.tokenId, req.agentId, req.sessionId, req.maxTunnels)
               case Ok(_) => None
               case Err(Taken) => Some(C.NameTaken)
               case Err(CapReached) => Some(C.MaxTunnels)
  {
    hide FitsAll, After, C.NameRefusal, S.ClaimAnswer, Fits, Next;
    EmptyTogether(cfg, id);
    StayTogether(cfg, id, EmptyWorld, acts);
    var w := After(cfg, id, EmptyWorld, acts);
    DecideAlike(At(env, w), w.relay, w.engine, req, spec);
  }

  lemma EmptyTogether(cfg: S.Config, id: string)
    requires !cfg.clustered && id != ""
    ensures Together(cfg, id, EmptyWorld)
  {
    ST.EmptyIsConsistent();
  }
}
