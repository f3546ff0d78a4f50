/** Runs of the registry from its first start: an owner moves its port, and a relay
    that was cut off takes a port back. */
module RegistryExamples {
  import opened Wrappers
  import opened Records
  import opened ClaimRules
  import opened Claims
  import opened ClaimTraces
  import opened ClaimTheorems
  import opened IndexTheorems
  import opened PortTheorems
  import opened PortDirectory
  import opened RegistryRuns
  import Announce = AnnounceTheorems

  const Fresh := Reg(EmptyState, [], [], [], {})

  function TcpOn(name: string, port: int, tokenId: string): Tunnel {
    Tunnel("", name, Tcp, "", [], port, "", "x", tokenId, Active, 0, 0, 0, 0, 0, 0, false, "", false, 0)
  }

  function Sent(relayId: string, tokenId: string, t: Tunnel): Request {
    Request(relayId, "s", "x", tokenId, 0, 0, 0, [t], [], 0, None, [], None, UnspecifiedReason)
  }

  /** Names and ports nobody is kept from. */
  predicate Open(rules: Rules, env: Env, name: string, port: int) {
    rules.NameAllowed(name) && rules.Host(name) !in env.sites && port != 0 && rules.portMin <= port <= rules.portMax
  }

  /** An empty engine grants the port asked for, unless it is reserved for another. */
  lemma EmptyGrants(env: Env, name: string, tokenId: string, port: int)
    requires Open(env.rules, env, name, port) && tokenId != "" && |env.reservations| <= 1
    requires forall r | r in env.reservations :: r.name == name && r.tokenId == tokenId
    ensures var req := Sent("r", tokenId, TcpOn(name, port, tokenId));
            var rec := Claims.Granted(env, req, req.tunnels[0], port);
            && ClaimResult(env, EmptyState, req) == Ok([rec])
            && Step(env, EmptyState, ClaimOp(req)).tunnels == map[name := rec]
  {
    hide Step, Events, Stored, ClaimResult, Check;
    var req := Sent("r", tokenId, TcpOn(name, port, tokenId));
    var rec := Claims.Granted(env, req, req.tunnels[0], port);
    EmptyChecks(env, req, rec, name, tokenId, port);
    ClaimOfOne(env, EmptyState, req, req.tunnels[0], rec);
    assert Stored(EmptyState, rec).tunnels == map[name := rec] by { StoredAlone(rec); }
  }

  lemma EmptyChecks(env: Env, req: Request, rec: Tunnel, name: string, tokenId: string, port: int)
    requires Open(env.rules, env, name, port) && tokenId != "" && |env.reservations| <= 1
    requires forall r | r in env.reservations :: r.name == name && r.tokenId == tokenId
    requires req == Sent("r", tokenId, TcpOn(name, port, tokenId)) && rec == Claims.Granted(env, req, req.tunnels[0], port)
    ensures Check(env, EmptyState, req, [], req.tunnels[0]) == Ok(rec) && !TakesOver(EmptyState, req, name)
  {
    assert NamesOf([]) == {} && PortsOf([]) == {};
    assert env.reservations != [] ==> env.reservations == [env.reservations[0]] && env.reservations[0] in env.reservations;
    assert ReservationOf(env.reservations, name).Some? ==> ReservationOf(env.reservations, name).value.tokenId == tokenId;
  }

  lemma StoredAlone(rec: Tunnel)
    ensures Stored(EmptyState, rec).tunnels == map[rec.name := rec]
  {
  }

  lemma OneReserved(rules: Rules, existing: seq<Reservation>, rs: seq<Reservation>, t: Tunnel)
    ensures ReserveEach(rules, existing, rs, [t], [true]) == ReserveOne(rules, existing, rs, t, true)
  {
    assert [t][..0] == [] && [true][..0] == [];
    assert ReserveEach(rules, existing, rs, [t][..0], [true][..0]) == rs;
  }

  /** From an empty engine at rest: the claim, its write and the reload. */
  lemma ClaimFromRest(rules: Rules, reg: Reg, env: Env, name: string, tokenId: string, port: int)
    requires reg.engine == EmptyState && reg.jobs == [] && reg.cached == reg.stored && |reg.stored| <= 1
    requires Open(rules, env, name, port) && tokenId != "" && forall r | r in reg.stored :: r.name == name && r.tokenId == tokenId
    ensures var req := Sent("r", tokenId, TcpOn(name, port, tokenId));
            var end := After(rules, reg, ClaimAndReserve(env, req, [true]));
            && end.stored == [Reservation(name, tokenId, port)] && end.cached == end.stored
            && end.engine.tunnels.Keys == {name} && end.engine.tunnels[name].publicPort == port
            && end.engine.tunnels[name].tokenId == tokenId && end.engine.tunnels[name].relayId == "r"
  {
    hide After, Step, ClaimResult, ReserveEach, ReservationOf;
    var req := Sent("r", tokenId, TcpOn(name, port, tokenId));
    var e := Here(rules, reg, env);
    EmptyGrants(e, name, tokenId, port);
    var rec := ClaimResult(e, reg.engine, req).value[0];
    ClaimAndReserveOutcome(rules, reg, env, req, [true]);
    OneReserved(rules, reg.cached, reg.stored, rec);
    ReservesIt(rules, reg.stored, rec, name, tokenId, port);
  }

  lemma ReservesIt(rules: Rules, rs: seq<Reservation>, t: Tunnel, name: string, tokenId: string, port: int)
    requires |rs| <= 1 && forall r | r in rs :: r.name == name && r.tokenId == tokenId
    requires t.name == name && t.tokenId == tokenId && t.publicPort == port != 0
    requires rules.NameAllowed(name) && rules.portMin <= port <= rules.portMax
    ensures ReserveOne(rules, rs, rs, t, true) == [Reservation(name, tokenId, port)]
  {
    if rs == [] {
      assert [] + [Reservation(name, tokenId, port)] == [Reservation(name, tokenId, port)];
    } else {
      assert rs == [rs[0]] && rs[0] in rs;
    }
  }

  /** The owner gets one port, and after a restart asks for another: its reservation
      is the other one then. */
  lemma OwnerMovesItsPort(rules: Rules, env: Env, port: int, other: int)
    requires Open(rules, env, "a", port) && Open(rules, env, "a", other)
    ensures var acts := ClaimAndReserve(env, Sent("r", "t", TcpOn("a", port, "t")), [true]);
            var more := [Restart(true)] + ClaimAndReserve(env, Sent("r", "t", TcpOn("a", other, "t")), [true]);
            && After(rules, Fresh, acts).stored == [Reservation("a", "t", port)]
            && After(rules, Fresh, acts + more).stored == [Reservation("a", "t", other)]
  {
    hide After;
    var first := ClaimAndReserve(env, Sent("r", "t", TcpOn("a", port, "t")), [true]);
    var second := ClaimAndReserve(env, Sent("r", "t", TcpOn("a", other, "t")), [true]);
    ClaimFromRest(rules, Fresh, env, "a", "t", port);
    var reg := After(rules, Fresh, first);
    AfterOne(rules, reg, Restart(true));
    ClaimFromRest(rules, After(rules, reg, [Restart(true)]), env, "a", "t", other);
    AfterMore(rules, reg, [Restart(true)], second);
    AfterMore(rules, Fresh, first, [Restart(true)] + second);
  }

  lemma AfterOne(rules: Rules, reg: Reg, act: Act)
    ensures After(rules, reg, [act]) == Next(rules, reg, act)
  {
    assert [act][..0] == [];
    assert After(rules, reg, [act][..0]) == reg;
  }

  /** A tunnel's port is lost to a restart before it was written, another tunnel gets
      the port and its reservation; then the first one's relay, which was cut off,
      announces what it was told. */
  function CutOff(env: Env, port: int, order: seq<string>): seq<Act> {
    [Call(env, ClaimOp(Sent("r", "t", TcpOn("a", port, "t")))), Restart(true)] +
    ClaimAndReserve(env, Sent("r", "u", TcpOn("b", port, "u")), [true]) +
    [Call(env, AnnounceOp(Sent("q", "t", TcpOn("a", port, "t")), order))]
  }

  lemma Forgotten(rules: Rules, env: Env, port: int)
    requires Open(rules, env, "a", port)
    ensures After(rules, Fresh, [Call(env, ClaimOp(Sent("r", "t", TcpOn("a", port, "t")))), Restart(true)]) ==
            Fresh.(told := {("a", port, "t")})
  {
    hide After, Next, Step, Answered;
    var call := Call(env, ClaimOp(Sent("r", "t", TcpOn("a", port, "t"))));
    ToldThePort(rules, env, port);
    AfterOne(rules, Fresh, call);
    var reg := Next(rules, Fresh, call);
    AfterOne(rules, reg, Restart(true));
    AfterMore(rules, Fresh, [call], [Restart(true)]);
    assert [call] + [Restart(true)] == [call, Restart(true)];
    Restarts(rules, reg);
  }

  lemma ToldThePort(rules: Rules, env: Env, port: int)
    requires Open(rules, env, "a", port)
    ensures var reg := Next(rules, Fresh, Call(env, ClaimOp(Sent("r", "t", TcpOn("a", port, "t")))));
            reg.told == {("a", port, "t")} && reg.stored == []
  {
    hide Step, Answered, ClaimResult;
    var e, op := Here(rules, Fresh, env), ClaimOp(Sent("r", "t", TcpOn("a", port, "t")));
    EmptyGrants(e, "a", "t", port);
    var st := Step(e, EmptyState, op);
    assert ToldBy(st) == {("a", port, "t")} by { assert "a" in st.tunnels; }
  }

  lemma Restarts(rules: Rules, reg: Reg)
    requires reg.stored == []
    ensures Next(rules, reg, Restart(true)) == Fresh.(told := reg.told)
  {
  }

  /** Both then have the port, although it is reserved for the second: what the relays
      were told did not fit, and the relay announced only that. */
  lemma CutOffRelayTakesThePort(rules: Rules, env: Env, port: int, order: seq<string>)
    requires Open(rules, env, "a", port) && Open(rules, env, "b", port)
    ensures var acts, r := CutOff(env, port, order), Reservation("b", "u", port);
            var before, end := After(rules, Fresh, acts[..|acts| - 1]), After(rules, Fresh, acts);
            && r in end.stored && r in end.cached && ("a", port, "t") in before.told
            && Respected(before.engine, r) && !Respected(end.engine, r)
  {
    hide After, Step;
    var r := Reservation("b", "u", port);
    var first := [Call(env, ClaimOp(Sent("r", "t", TcpOn("a", port, "t")))), Restart(true)];
    var claim := ClaimAndReserve(env, Sent("r", "u", TcpOn("b", port, "u")), [true]);
    var last := Call(env, AnnounceOp(Sent("q", "t", TcpOn("a", port, "t")), order));
    var acts := CutOff(env, port, order);
    assert acts == first + claim + [last] && acts[..|acts| - 1] == first + claim;
    Forgotten(rules, env, port);
    var reg := After(rules, Fresh, first);
    ClaimFromRest(rules, reg, env, "b", "u", port);
    ToldStays(rules, reg, env, port);
    AfterMore(rules, Fresh, first, claim);
    var before := After(rules, Fresh, first + claim);
    AfterMore(rules, Fresh, first + claim, [last]);
    AfterOne(rules, before, last);
    assert "a" != "b";
    AnnouncedBeside(Here(rules, before, env), before.engine, port, order);
  }

  lemma ToldStays(rules: Rules, reg: Reg, env: Env, port: int)
    requires reg == Fresh.(told := {("a", port, "t")}) && Open(rules, env, "b", port)
    ensures var end := After(rules, reg, ClaimAndReserve(env, Sent("r", "u", TcpOn("b", port, "u")), [true]));
            ("a", port, "t") in end.told && Sound(end.engine)
  {
    hide After, Step, ReserveEach, ClaimResult, Events;
    var req := Sent("r", "u", TcpOn("b", port, "u"));
    EmptyGrants(Here(rules, reg, env), "b", "u", port);
    ClaimAndReserveOutcome(rules, reg, env, req, [true]);
    var e := Here(rules, reg, env);
    assert Sound(EmptyState);
    SoundKept(EmptyState, Events(e, EmptyState, ClaimOp(req)));
    StepIs(e, EmptyState, ClaimOp(req));
  }

  lemma AnnouncedBeside(env: Env, s: State, port: int, order: seq<string>)
    requires Sound(s) && s.tunnels.Keys == {"b"}
    ensures var st := Step(env, s, AnnounceOp(Sent("q", "t", TcpOn("a", port, "t")), order));
            "a" in st.tunnels && st.tunnels["a"].publicPort == port
  {
    hide Step, Sound;
    var req := Sent("q", "t", TcpOn("a", port, "t"));
    var x := req.tunnels[0];
    assert Announce.IsStored(env, s, req, x);
    Announce.AnnouncedHoldings(env, s, req, order);
    assert Announce.HoldsAs(Step(env, s, AnnounceOp(req, order)), "a", x);
  }
}
