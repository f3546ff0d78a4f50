/** What every single change the engine reports looks like at the moment it is
    made. The safety theorems are proved change by change from `Legal`. */
module ClaimTraces {
  import opened Wrappers
  import opened Records
  import opened ClaimRules
  import opened Claims

  /** Every record is stored under its own key. */
  ghost predicate WellKeyed(s: State) {
    && (forall n | n in s.tunnels :: s.tunnels[n].name == n)
    && (forall a | a in s.agents :: s.agents[a].agentId == a)
    && (forall r | r in s.relays :: s.relays[r].relayId == r)
  }

  /** Created is reported for absent keys only; every other change for present
      ones, and Deleted carries the record that goes. */
  ghost predicate Disciplined(s: State, e: Event) {
    match e
    case TunnelChanged(t, Deleted) => t.name in s.tunnels && t == s.tunnels[t.name]
    case TunnelChanged(t, _) => e == StoreEvent(s, t)
    case AgentChanged(a, Deleted) => a.agentId in s.agents && a == s.agents[a.agentId]
    case AgentChanged(a, _) => e == AgentEvent(s, a)
    case RelayChanged(r, Deleted) => r.relayId in s.relays && r == s.relays[r.relayId]
    case RelayChanged(r, _) => e == RelayEvent(s, r)
    case CommandSent(_) => true
  }

  /** The port and the domains of rec belong to nobody else. */
  predicate Unclaimed(s: State, rec: Tunnel) {
    && rec.name != ""
    && (rec.publicPort != 0 ==> Owner(s.byPort, rec.publicPort) in {"", rec.name})
    && forall d | d in rec.domains :: Owner(s.byDomain, d) in {"", rec.name}
  }

  /** A claim may replace the record it finds. */
  predicate MayReplace(s: State, req: Request, name: string) {
    name in s.tunnels ==>
      var cur := s.tunnels[name];
      cur.tokenId == req.tokenId && (cur.state == Active ==> cur.agentId == req.agentId && cur.sessionId != req.sessionId)
  }

  /** The port respects the reservations: never another name's, and the name's
      own unless the claim asked for a port outright, which is then the one it got. */
  predicate PortRespectsReservations(env: Env, spec: Tunnel, port: int) {
    && (port != 0 ==> !ReservedByOther(env.reservations, port, spec.name))
    && (port != 0 && spec.publicPort != 0 ==> port == spec.publicPort)
    && (port != 0 && spec.publicPort == 0 ==>
          var resv := ReservationOf(env.reservations, spec.name);
          resv.Some? && resv.value.publicPort != 0 ==> port == resv.value.publicPort)
  }

  ghost predicate LegalClaim(env: Env, req: Request, s: State, t: Tunnel) {
    && Unclaimed(s, t)
    && MayReplace(s, req, t.name)
    && (ReservationOf(env.reservations, t.name).Some? ==> ReservationOf(env.reservations, t.name).value.tokenId == req.tokenId)
    && exists spec | spec in req.tunnels :: t == Granted(env, req, spec, t.publicPort) && PortRespectsReservations(env, spec, t.publicPort)
  }

  ghost predicate LegalAnnounce(env: Env, req: Request, s: State, t: Tunnel) {
    || (exists x | x in req.tunnels :: t == Announced(req, x) && !Conflicts(s, req, x))
    || (&& t.name in s.tunnels && s.tunnels[t.name].state == Active && s.tunnels[t.name].relayId == req.relayId
        && t == s.tunnels[t.name].(state := Grace, graceUntil := env.now + env.grace))
  }

  /** When op stores rec over the state s. */
  ghost predicate LegalStore(env: Env, op: Op, s: State, t: Tunnel) {
    match op
    case ClaimOp(req) => LegalClaim(env, req, s, t)
    case ParkOp(req) =>
      t.name in req.names && t.name in s.tunnels && Serves(req, s.tunnels[t.name]) && t == Parked(s.tunnels[t.name], ParkUntil(env, req))
    case AnnounceOp(req, _) => LegalAnnounce(env, req, s, t)
    case HeartbeatOp(req) =>
      && t.name in s.tunnels && s.tunnels[t.name].state == Active && s.tunnels[t.name].relayId == req.relayId
      && t == WithCounters(s.tunnels[t.name], t)
    case SweepOp(_) =>
      && t.name in s.tunnels && s.tunnels[t.name].state == Active
      && s.tunnels[t.name].relayId in s.relays && s.relays[s.tunnels[t.name].relayId].state == Down
      && t == Parked(s.tunnels[t.name], env.now + env.grace)
    case _ => false
  }

  ghost predicate LegalDelete(env: Env, op: Op, t: Tunnel) {
    match op
    case ReleaseOp(req) => t.name in req.names && Serves(req, t)
    case SweepOp(_) => IsExpired(env, t)
    case _ => false
  }

  /** A change op may make to the state s. */
  ghost predicate Legal(env: Env, op: Op, s: State, e: Event) {
    && !Anonymous(op)
    && Disciplined(s, e)
    && (e.TunnelChanged? ==> if e.change == Deleted then LegalDelete(env, op, e.tunnel) else LegalStore(env, op, s, e.tunnel))
  }

  ghost predicate LegalTrace(env: Env, op: Op, s: State, es: seq<Event>) {
    es == [] ||
    var init := es[..|es| - 1];
    LegalTrace(env, op, s, init) && Legal(env, op, ApplyAll(s, init), es[|es| - 1])
  }

  // ---------------------------------------------------------------------
  // Sequences of changes
  // ---------------------------------------------------------------------

  lemma {:induction false} ApplyAllAppend(s: State, es: seq<Event>, fs: seq<Event>)
    ensures ApplyAll(s, es + fs) == ApplyAll(ApplyAll(s, es), fs)
  {
    if fs == [] {
      assert es + fs == es;
    } else {
      ApplyAllAppend(s, es, fs[..|fs| - 1]);
      assert (es + fs)[..|es + fs| - 1] == es + fs[..|fs| - 1];
    }
  }

  lemma {:induction false} LegalAppend(env: Env, op: Op, s: State, es: seq<Event>, fs: seq<Event>)
    requires LegalTrace(env, op, s, es) && LegalTrace(env, op, ApplyAll(s, es), fs)
    ensures LegalTrace(env, op, s, es + fs)
  {
    if fs == [] {
      assert es + fs == es;
    } else {
      var init := fs[..|fs| - 1];
      LegalAppend(env, op, s, es, init);
      ApplyAllAppend(s, es, init);
      assert (es + fs)[..|es + fs| - 1] == es + init;
    }
  }

  lemma {:induction false} WellKeyedKept(s: State, es: seq<Event>)
    requires WellKeyed(s)
    ensures WellKeyed(ApplyAll(s, es))
  {
    if es != [] { WellKeyedKept(s, es[..|es| - 1]); }
  }

  lemma StoredTunnels(s: State, rec: Tunnel)
    ensures Stored(s, rec).tunnels == s.tunnels[rec.name := rec]
  {
  }

  lemma StoreEventStores(s: State, rec: Tunnel)
    ensures Apply(s, StoreEvent(s, rec)) == Stored(s, rec)
  {
  }

  lemma ApplyOne(s: State, e: Event)
    ensures ApplyAll(s, [e]) == Apply(s, e)
  {
    assert [e][..0] == [];
    assert ApplyAll(s, [e][..0]) == s;
  }

  lemma LegalOne(env: Env, op: Op, s: State, e: Event)
    requires Legal(env, op, s, e)
    ensures LegalTrace(env, op, s, [e])
  {
    assert [e][..0] == [];
  }

  /** Two legal stretches, one after the other. */
  lemma LegalThen(env: Env, op: Op, s: State, es: seq<Event>, fs: seq<Event>)
    requires WellKeyed(s) && LegalTrace(env, op, s, es) && LegalTrace(env, op, ApplyAll(s, es), fs)
    ensures LegalTrace(env, op, s, es + fs)
    ensures ApplyAll(s, es + fs) == ApplyAll(ApplyAll(s, es), fs)
    ensures WellKeyed(ApplyAll(s, es + fs))
  {
    LegalAppend(env, op, s, es, fs);
    ApplyAllAppend(s, es, fs);
    WellKeyedKept(s, es + fs);
  }

  lemma LegalThen3(env: Env, op: Op, s: State, es: seq<Event>, fs: seq<Event>, gs: seq<Event>)
    requires WellKeyed(s) && LegalTrace(env, op, s, es) && LegalTrace(env, op, ApplyAll(s, es), fs)
    requires LegalTrace(env, op, ApplyAll(ApplyAll(s, es), fs), gs)
    ensures LegalTrace(env, op, s, es + fs + gs)
  {
    LegalThen(env, op, s, es, fs);
    LegalThen(env, op, s, es + fs, gs);
  }

  /** A step that makes at most one change, and only a legal one. */
  ghost predicate LegalStep<T(!new)>(env: Env, op: Op, st: State, x: T, step: (State, T) -> seq<Event>) {
    step(st, x) == [] || (|step(st, x)| == 1 && Legal(env, op, st, step(st, x)[0]))
  }

  /** A loop is legal when each of its steps is, in whatever state it runs. */
  lemma {:induction false} ForEachLegal<T(!new)>(env: Env, op: Op, s: State, xs: seq<T>, step: (State, T) -> seq<Event>)
    requires WellKeyed(s)
    requires forall st: State, x: T :: WellKeyed(st) && x in xs ==> LegalStep(env, op, st, x, step)
    ensures LegalTrace(env, op, s, ForEach(s, xs, step))
    ensures WellKeyed(ApplyAll(s, ForEach(s, xs, step)))
  {
    if xs != [] {
      var es := ForEach(s, xs[..|xs| - 1], step);
      ForEachLegal(env, op, s, xs[..|xs| - 1], step);
      var st, x := ApplyAll(s, es), xs[|xs| - 1];
      assert LegalStep(env, op, st, x, step);
      if step(st, x) != [] { LegalOne(env, op, st, step(st, x)[0]); assert step(st, x) == [step(st, x)[0]]; }
      LegalThen(env, op, s, es, step(st, x));
    }
  }

  // ---------------------------------------------------------------------
  // Every operation but CLAIM
  // ---------------------------------------------------------------------

  lemma ParkLegal(env: Env, s: State, req: Request)
    requires WellKeyed(s) && req.relayId != ""
    ensures LegalTrace(env, ParkOp(req), s, Events(env, s, ParkOp(req)))
  {
    ForEachLegal(env, ParkOp(req), s, req.names, ParkStep(req, ParkUntil(env, req)));
  }

  lemma ReleaseLegal(env: Env, s: State, req: Request)
    requires WellKeyed(s) && req.relayId != ""
    ensures LegalTrace(env, ReleaseOp(req), s, Events(env, s, ReleaseOp(req)))
  {
    ForEachLegal(env, ReleaseOp(req), s, req.names, ReleaseStep(req));
  }

  lemma AnnouncedTunnelsLegal(env: Env, op: Op, s: State)
    requires op.AnnounceOp? && op.req.relayId != "" && WellKeyed(s)
    ensures LegalTrace(env, op, s, ForEach(s, op.req.tunnels, AnnounceStep(env, op.req)))
    ensures WellKeyed(ApplyAll(s, ForEach(s, op.req.tunnels, AnnounceStep(env, op.req))))
  {
    ForEachLegal(env, op, s, op.req.tunnels, AnnounceStep(env, op.req));
  }

  lemma UnreportedLegal(env: Env, op: Op, s: State, reported: set<string>, xs: seq<string>)
    requires op.AnnounceOp? && op.req.relayId != "" && WellKeyed(s)
    ensures LegalTrace(env, op, s, ForEach(s, xs, UnreportedStep(env, op.req, reported)))
    ensures WellKeyed(ApplyAll(s, ForEach(s, xs, UnreportedStep(env, op.req, reported))))
  {
    ForEachLegal(env, op, s, xs, UnreportedStep(env, op.req, reported));
  }

  lemma AnnouncedAgentsLegal(env: Env, op: Op, s: State, xs: seq<Agent>)
    requires op.AnnounceOp? && op.req.relayId != "" && WellKeyed(s)
    ensures LegalTrace(env, op, s, ForEach(s, xs, AnnounceAgentStep(env, op.req)))
    ensures WellKeyed(ApplyAll(s, ForEach(s, xs, AnnounceAgentStep(env, op.req))))
  {
    ForEachLegal(env, op, s, xs, AnnounceAgentStep(env, op.req));
  }

  lemma AnnounceLegal(env: Env, s: State, req: Request, order: seq<string>)
    requires WellKeyed(s) && req.relayId != ""
    ensures LegalTrace(env, AnnounceOp(req, order), s, Events(env, s, AnnounceOp(req, order)))
  {
    var op := AnnounceOp(req, order);
    if !AnnounceRefused(env, req) {
      var es0 := AnnounceReport(env, s, req);
      if es0 != [] { LegalOne(env, op, s, es0[0]); }
      WellKeyedKept(s, es0);
      var s0 := ApplyAll(s, es0);
      var es1 := ForEach(s0, req.tunnels, AnnounceStep(env, req));
      AnnouncedTunnelsLegal(env, op, s0);
      LegalThen(env, op, s, es0, es1);
      var s1 := ApplyAll(s0, es1);
      var unreported := UnreportedStep(env, req, Reported(env, s0, req, req.tunnels).0);
      UnreportedLegal(env, op, s1, Reported(env, s0, req, req.tunnels).0, order);
      LegalThen(env, op, s, es0 + es1, ForEach(s1, order, unreported));
      var s2 := ApplyAll(s1, ForEach(s1, order, unreported));
      AnnouncedAgentsLegal(env, op, s2, req.agents);
      LegalThen(env, op, s, es0 + es1 + ForEach(s1, order, unreported), ForEach(s2, req.agents, AnnounceAgentStep(env, req)));
    }
  }

  lemma CountersLegal(env: Env, op: Op, s: State, xs: seq<Tunnel>)
    requires op.HeartbeatOp? && op.req.relayId != "" && WellKeyed(s)
    ensures LegalTrace(env, op, s, ForEach(s, xs, CountersStep(op.req)))
    ensures WellKeyed(ApplyAll(s, ForEach(s, xs, CountersStep(op.req))))
  {
    ForEachLegal(env, op, s, xs, CountersStep(op.req));
  }

  lemma AgentBeatsLegal(env: Env, op: Op, s: State, xs: seq<Agent>)
    requires op.HeartbeatOp? && op.req.relayId != "" && WellKeyed(s)
    ensures LegalTrace(env, op, s, ForEach(s, xs, AgentBeatStep(env, op.req)))
    ensures WellKeyed(ApplyAll(s, ForEach(s, xs, AgentBeatStep(env, op.req))))
  {
    ForEachLegal(env, op, s, xs, AgentBeatStep(env, op.req));
  }

  lemma HeartbeatLegal(env: Env, s: State, req: Request)
    requires WellKeyed(s) && req.relayId != ""
    ensures LegalTrace(env, HeartbeatOp(req), s, HeartbeatEvents(env, s, req))
  {
    var op := HeartbeatOp(req);
    var es0 := RelayReport(env, s, req);
    LegalOne(env, op, s, es0[0]);
    var s0 := ApplyAll(s, es0);
    WellKeyedKept(s, es0);
    var es1 := ForEach(s0, req.tunnels, CountersStep(req));
    assert LegalTrace(env, op, s0, es1) && WellKeyed(ApplyAll(s0, es1)) by { CountersLegal(env, op, s0, req.tunnels); }
    var es2 := ForEach(ApplyAll(s0, es1), req.agents, AgentBeatStep(env, req));
    assert LegalTrace(env, op, ApplyAll(s0, es1), es2) by { AgentBeatsLegal(env, op, ApplyAll(s0, es1), req.agents); }
    LegalThen3(env, op, s, es0, es1, es2);
  }

  /** While the relay id is down, parking its tunnels keeps it down. */
  lemma {:induction false} LostTunnelsLegal(env: Env, op: Op, s: State, id: string, names: seq<string>)
    requires op.SweepOp? && WellKeyed(s) && id in s.relays && s.relays[id].state == Down
    ensures LegalTrace(env, op, s, ForEach(s, names, LostTunnelStep(env, id)))
    ensures ApplyAll(s, ForEach(s, names, LostTunnelStep(env, id))).relays == s.relays
    ensures WellKeyed(ApplyAll(s, ForEach(s, names, LostTunnelStep(env, id))))
  {
    if names != [] {
      var es := ForEach(s, names[..|names| - 1], LostTunnelStep(env, id));
      LostTunnelsLegal(env, op, s, id, names[..|names| - 1]);
      var st := ApplyAll(s, es);
      var fs := LostTunnelStep(env, id)(st, names[|names| - 1]);
      if fs != [] { LegalOne(env, op, st, fs[0]); ApplyOne(st, fs[0]); }
      LegalThen(env, op, s, es, fs);
    }
  }

  lemma LostLegal(env: Env, op: Op, s: State, visit: RelayVisit)
    requires op.SweepOp? && WellKeyed(s) && visit.id in s.relays
    ensures LegalTrace(env, op, s, LostEvents(env, s, s.relays[visit.id], visit))
  {
    var es0 := [RelayEvent(s, s.relays[visit.id].(state := Down, sessions := 0, tunnels := 0))];
    LegalOne(env, op, s, es0[0]);
    ApplyOne(s, es0[0]);
    WellKeyedKept(s, es0);
    var s0 := ApplyAll(s, es0);
    var es1 := ForEach(s0, visit.tunnels, LostTunnelStep(env, visit.id));
    LostTunnelsLegal(env, op, s0, visit.id, visit.tunnels);
    LegalThen(env, op, s, es0, es1);
    ForEachLegal(env, op, ApplyAll(s0, es1), visit.agents, LostAgentStep(env, visit.id));
    LegalThen(env, op, s, es0 + es1, ForEach(ApplyAll(s0, es1), visit.agents, LostAgentStep(env, visit.id)));
  }

  lemma {:induction false} SweepRelaysLegal(env: Env, op: Op, s: State, visits: seq<RelayVisit>)
    requires op.SweepOp? && WellKeyed(s)
    ensures LegalTrace(env, op, s, ForEach(s, visits, SweepRelayStep(env)))
    ensures WellKeyed(ApplyAll(s, ForEach(s, visits, SweepRelayStep(env))))
  {
    if visits != [] {
      var es := ForEach(s, visits[..|visits| - 1], SweepRelayStep(env));
      SweepRelaysLegal(env, op, s, visits[..|visits| - 1]);
      var st, x := ApplyAll(s, es), visits[|visits| - 1];
      var fs := SweepRelayStep(env)(st, x);
      if x.id in st.relays && IsLost(env, st.relays[x.id]) {
        LostLegal(env, op, st, x);
      } else if fs != [] {
        LegalOne(env, op, st, fs[0]);
      }
      LegalThen(env, op, s, es, fs);
    }
  }

  lemma ExpiredTunnelsLegal(env: Env, op: Op, s: State, xs: seq<string>)
    requires op.SweepOp? && WellKeyed(s)
    ensures LegalTrace(env, op, s, ForEach(s, xs, SweepTunnelStep(env)))
    ensures WellKeyed(ApplyAll(s, ForEach(s, xs, SweepTunnelStep(env))))
  {
    ForEachLegal(env, op, s, xs, SweepTunnelStep(env));
  }

  lemma SweptAgentsLegal(env: Env, op: Op, s: State, xs: seq<string>)
    requires op.SweepOp? && WellKeyed(s)
    ensures LegalTrace(env, op, s, ForEach(s, xs, SweepAgentStep(env)))
    ensures WellKeyed(ApplyAll(s, ForEach(s, xs, SweepAgentStep(env))))
  {
    ForEachLegal(env, op, s, xs, SweepAgentStep(env));
  }

  lemma SweepLegal(env: Env, s: State, order: SweepOrder)
    requires WellKeyed(s)
    ensures LegalTrace(env, SweepOp(order), s, SweepEvents(env, s, order))
  {
    var op := SweepOp(order);
    var es0 := ForEach(s, order.relays, SweepRelayStep(env));
    var s0 := ApplyAll(s, es0);
    var es1 := ForEach(s0, order.tunnels, SweepTunnelStep(env));
    var s1 := ApplyAll(s0, es1);
    assert LegalTrace(env, op, s, es0) && WellKeyed(s0) by { SweepRelaysLegal(env, op, s, order.relays); }
    assert LegalTrace(env, op, s0, es1) && WellKeyed(s1) by { ExpiredTunnelsLegal(env, op, s0, order.tunnels); }
    var es2 := ForEach(s1, order.agents, SweepAgentStep(env));
    assert LegalTrace(env, op, s1, es2) by { SweptAgentsLegal(env, op, s1, order.agents); }
    LegalThen3(env, op, s, es0, es1, es2);
  }

  lemma CommandLegal(env: Env, s: State, cmd: Command, pick: string)
    requires WellKeyed(s)
    ensures LegalTrace(env, CommandOp(cmd, pick), s, Events(env, s, CommandOp(cmd, pick)))
  {
    var op := CommandOp(cmd, pick);
    var es := Events(env, s, op);
    if |es| == 1 {
      assert es == [es[0]];
      LegalOne(env, op, s, es[0]);
    } else if |es| == 2 {
      LegalOne(env, op, s, es[0]);
      LegalOne(env, op, ApplyAll(s, [es[0]]), es[1]);
      LegalAppend(env, op, s, [es[0]], [es[1]]);
      assert es == [es[0]] + [es[1]];
    }
  }

  lemma AgentLegal(env: Env, s: State, op: Op)
    requires WellKeyed(s) && (op.AgentUpOp? || op.AgentDownOp?) && op.req.relayId != ""
    ensures LegalTrace(env, op, s, Events(env, s, op))
  {
    var es := Events(env, s, op);
    if es != [] {
      assert es == [es[0]];
      LegalOne(env, op, s, es[0]);
    }
  }

  // ---------------------------------------------------------------------
  // CLAIM
  // ---------------------------------------------------------------------

  /** What a granted tunnel satisfies against the state and the records staged before it. */
  ghost predicate Grantable(env: Env, s: State, req: Request, recs: seq<Tunnel>, spec: Tunnel, rec: Tunnel) {
    && rec == Granted(env, req, spec, rec.publicPort)
    && Unclaimed(s, rec) && MayReplace(s, req, rec.name)
    && (ReservationOf(env.reservations, rec.name).Some? ==>
          ReservationOf(env.reservations, rec.name).value.tokenId == req.tokenId)
    && PortRespectsReservations(env, spec, rec.publicPort)
    && rec.name !in NamesOf(recs)
    && (rec.publicPort != 0 ==> rec.publicPort !in PortsOf(recs))
    && forall d | d in rec.domains :: d !in DomainsOf(recs)
  }

  lemma FirstFreeIsFree(env: Env, s: State, recs: seq<Tunnel>, name: string, lo: int, hi: int)
    ensures FirstFree(env, s, recs, name, lo, hi).Some? ==>
              PortFree(env, s, recs, name, FirstFree(env, s, recs, name, lo, hi).value)
    decreases hi - lo
  {
  }

  lemma ChosenPortIsFree(env: Env, s: State, req: Request, recs: seq<Tunnel>, spec: Tunnel)
    requires ChoosePort(env, s, req, recs, spec).Ok?
    ensures var port := ChoosePort(env, s, req, recs, spec).value;
            PortFree(env, s, recs, spec.name, port) && PortRespectsReservations(env, spec, port)
  {
    FirstFreeIsFree(env, s, recs, spec.name, LowPort(env, req), HighPort(env, req));
  }

  lemma NameGrants(env: Env, s: State, req: Request, recs: seq<Tunnel>, spec: Tunnel)
    requires NameRefusal(env, s, req, recs, spec).None?
    ensures spec.name != "" && spec.name !in NamesOf(recs) && MayReplace(s, req, spec.name)
    ensures ReservationOf(env.reservations, spec.name).Some? ==>
              ReservationOf(env.reservations, spec.name).value.tokenId == req.tokenId
  {
  }

  lemma CheckGrants(env: Env, s: State, req: Request, recs: seq<Tunnel>, spec: Tunnel)
    requires Check(env, s, req, recs, spec).Ok?
    ensures Grantable(env, s, req, recs, spec, Check(env, s, req, recs, spec).value)
  {
    NameGrants(env, s, req, recs, spec);
    if HasPort(spec.kind) && !spec.accessToken { ChosenPortIsFree(env, s, req, recs, spec); }
  }

  lemma {:induction false} StageEach(env: Env, s: State, req: Request, specs: seq<Tunnel>, i: nat)
    requires Stage(env, s, req, specs).Ok?
    ensures |Stage(env, s, req, specs).value| == |specs|
    ensures i < |specs| ==>
              var recs := Stage(env, s, req, specs).value;
              Check(env, s, req, recs[..i], specs[i]) == Ok(recs[i])
  {
    if specs != [] {
      var recs := Stage(env, s, req, specs).value;
      var init := Stage(env, s, req, specs[..|specs| - 1]).value;
      StageEach(env, s, req, specs[..|specs| - 1], i);
      if i < |specs| {
        assert recs[..i] == init[..i];
        if i == |specs| - 1 { assert init[..i] == init; }
      }
    }
  }

  /** Storing one record leaves the port and domains of another untouched. */
  lemma StoreKeepsUnclaimed(s: State, a: Tunnel, b: Tunnel)
    requires Unclaimed(s, b) && a.name != b.name
    requires b.publicPort != 0 ==> a.publicPort != b.publicPort
    requires forall d | d in b.domains :: d !in a.domains
    ensures Unclaimed(Stored(s, a), b)
  {
  }

  /** The records a granted claim stores, in order. */
  ghost predicate Claimable(env: Env, s: State, req: Request, recs: seq<Tunnel>) {
    && |recs| == |req.tunnels|
    && forall i | 0 <= i < |recs| :: Grantable(env, s, req, recs[..i], req.tunnels[i], recs[i])
  }

  lemma ClaimableRecords(env: Env, s: State, req: Request)
    requires ClaimResult(env, s, req).Ok?
    ensures Claimable(env, s, req, ClaimResult(env, s, req).value)
  {
    var recs := ClaimResult(env, s, req).value;
    StageEach(env, s, req, req.tunnels, 0);
    forall i | 0 <= i < |recs| ensures Grantable(env, s, req, recs[..i], req.tunnels[i], recs[i]) {
      StageEach(env, s, req, req.tunnels, i);
      CheckGrants(env, s, req, recs[..i], req.tunnels[i]);
    }
  }

  /** Distinct records of one claim share no name, port or domain. */
  lemma ClaimableApart(env: Env, s: State, req: Request, recs: seq<Tunnel>, i: int, j: int)
    requires Claimable(env, s, req, recs) && 0 <= i < j < |recs|
    ensures recs[i].name != recs[j].name
    ensures recs[j].publicPort != 0 ==> recs[i].publicPort != recs[j].publicPort
    ensures forall d | d in recs[j].domains :: d !in recs[i].domains
  {
    assert Grantable(env, s, req, recs[..j], req.tunnels[j], recs[j]);
    assert recs[..j][i] == recs[i];
    assert recs[i] in recs[..j];
  }

  lemma ClaimStoreLegal(env: Env, s: State, req: Request, recs: seq<Tunnel>, i: nat, st: State)
    requires req.relayId != "" && Claimable(env, s, req, recs) && i < |recs|
    requires Unclaimed(st, recs[i]) && MayReplace(st, req, recs[i].name)
    ensures Legal(env, ClaimOp(req), st, StoreEvent(st, recs[i]))
  {
    assert Grantable(env, s, req, recs[..i], req.tunnels[i], recs[i]);
    assert req.tunnels[i] in req.tunnels;
  }

  /** The records of a claim from the k-th on can still be stored in st. */
  ghost predicate StillClaimable(st: State, req: Request, recs: seq<Tunnel>, i: nat) {
    forall k | i <= k < |recs| :: Unclaimed(st, recs[k]) && MayReplace(st, req, recs[k].name)
  }

  lemma StoreKeepsClaimable(env: Env, s: State, req: Request, recs: seq<Tunnel>, i: nat, st: State)
    requires Claimable(env, s, req, recs) && i < |recs| && StillClaimable(st, req, recs, i)
    ensures StillClaimable(Stored(st, recs[i]), req, recs, i + 1)
  {
    forall k | i + 1 <= k < |recs|
      ensures Unclaimed(Stored(st, recs[i]), recs[k]) && MayReplace(Stored(st, recs[i]), req, recs[k].name)
    {
      ClaimableApart(env, s, req, recs, i, k);
      StoreKeepsUnclaimed(st, recs[i], recs[k]);
    }
  }

  lemma ClaimableAtFirst(env: Env, s: State, req: Request, recs: seq<Tunnel>)
    requires Claimable(env, s, req, recs)
    ensures StillClaimable(s, req, recs, 0)
  {
    forall k | 0 <= k < |recs| ensures Unclaimed(s, recs[k]) && MayReplace(s, req, recs[k].name) {
      assert Grantable(env, s, req, recs[..k], req.tunnels[k], recs[k]);
    }
  }

  /** The state with recs stored in order. */
  function StoreAll(s: State, recs: seq<Tunnel>): State {
    if recs == [] then s else Stored(StoreAll(s, recs[..|recs| - 1]), recs[|recs| - 1])
  }

  lemma {:induction false} StoreAllEvents(s: State, recs: seq<Tunnel>)
    ensures ApplyAll(s, ForEach(s, recs, StoreStep())) == StoreAll(s, recs)
  {
    if recs != [] {
      var es := ForEach(s, recs[..|recs| - 1], StoreStep());
      StoreAllEvents(s, recs[..|recs| - 1]);
      var e := StoreEvent(ApplyAll(s, es), recs[|recs| - 1]);
      ApplyAllAppend(s, es, [e]);
      ApplyOne(ApplyAll(s, es), e);
    }
  }

  lemma {:induction false} StoreAllClaimable(env: Env, s: State, req: Request, recs: seq<Tunnel>, i: nat)
    requires Claimable(env, s, req, recs) && i <= |recs|
    ensures StillClaimable(StoreAll(s, recs[..i]), req, recs, i)
  {
    if i == 0 {
      ClaimableAtFirst(env, s, req, recs);
    } else {
      StoreAllClaimable(env, s, req, recs, i - 1);
      assert recs[..i][..i - 1] == recs[..i - 1];
      StoreKeepsClaimable(env, s, req, recs, i - 1, StoreAll(s, recs[..i - 1]));
    }
  }

  ghost predicate LegalAt(env: Env, op: Op, s: State, recs: seq<Tunnel>, i: nat)
    requires i < |recs|
  {
    Legal(env, op, StoreAll(s, recs[..i]), StoreEvent(StoreAll(s, recs[..i]), recs[i]))
  }

  lemma {:induction false} StoresLegal(env: Env, op: Op, s: State, recs: seq<Tunnel>, i: nat)
    requires i <= |recs| && forall k: nat | k < |recs| :: LegalAt(env, op, s, recs, k)
    ensures LegalTrace(env, op, s, ForEach(s, recs[..i], StoreStep()))
  {
    if i > 0 {
      StoresLegal(env, op, s, recs, i - 1);
      assert LegalAt(env, op, s, recs, i - 1);
      var es := ForEach(s, recs[..i - 1], StoreStep());
      StoreAllEvents(s, recs[..i - 1]);
      assert recs[..i][..i - 1] == recs[..i - 1];
      LegalOne(env, op, ApplyAll(s, es), StoreEvent(ApplyAll(s, es), recs[i - 1]));
      LegalAppend(env, op, s, es, [StoreEvent(ApplyAll(s, es), recs[i - 1])]);
    }
  }

  lemma ClaimStoresLegal(env: Env, s: State, req: Request, recs: seq<Tunnel>)
    requires req.relayId != "" && Claimable(env, s, req, recs)
    ensures LegalTrace(env, ClaimOp(req), s, ForEach(s, recs, StoreStep()))
  {
    forall k: nat | k < |recs| ensures LegalAt(env, ClaimOp(req), s, recs, k) {
      StoreAllClaimable(env, s, req, recs, k);
      ClaimStoreLegal(env, s, req, recs, k, StoreAll(s, recs[..k]));
    }
    StoresLegal(env, ClaimOp(req), s, recs, |recs|);
    assert recs[..|recs|] == recs;
  }

  lemma {:induction false} CommandsLegal(env: Env, op: Op, s: State, st: State, req: Request, specs: seq<Tunnel>)
    requires WellKeyed(st) && !Anonymous(op)
    ensures LegalTrace(env, op, st, TakeoverCommands(s, req, specs))
  {
    if specs != [] {
      CommandsLegal(env, op, s, st, req, specs[..|specs| - 1]);
      var es := TakeoverCommands(s, req, specs[..|specs| - 1]);
      if TakesOver(s, req, specs[|specs| - 1].name) {
        var cur := s.tunnels[specs[|specs| - 1].name];
        LegalOne(env, op, ApplyAll(st, es), CommandSent(Command(TakenOver, cur.relayId, cur.agentId, cur.tunnelId)));
        LegalThen(env, op, st, es, [CommandSent(Command(TakenOver, cur.relayId, cur.agentId, cur.tunnelId))]);
      } else {
        assert es + [] == es;
      }
    }
  }

  lemma ClaimLegal(env: Env, s: State, req: Request)
    requires WellKeyed(s) && req.relayId != ""
    ensures LegalTrace(env, ClaimOp(req), s, ClaimEvents(env, s, req))
  {
    if ClaimResult(env, s, req).Ok? {
      var recs := ClaimResult(env, s, req).value;
      ClaimableRecords(env, s, req);
      ClaimStoresLegal(env, s, req, recs);
      var es := ForEach(s, recs, StoreStep());
      WellKeyedKept(s, es);
      CommandsLegal(env, ClaimOp(req), s, ApplyAll(s, es), req, req.tunnels);
      LegalThen(env, ClaimOp(req), s, es, TakeoverCommands(s, req, req.tunnels));
    }
  }

  /** Every change of every call is legal when it is made. */
  lemma EventsLegal(env: Env, s: State, op: Op)
    requires WellKeyed(s)
    ensures LegalTrace(env, op, s, Events(env, s, op))
    ensures WellKeyed(Step(env, s, op))
  {
    WellKeyedKept(s, Events(env, s, op));
    if !Anonymous(op) {
      match op
      case ClaimOp(req) => ClaimLegal(env, s, req);
      case ParkOp(req) => ParkLegal(env, s, req);
      case ReleaseOp(req) => ReleaseLegal(env, s, req);
      case AnnounceOp(req, order) => AnnounceLegal(env, s, req, order);
      case HeartbeatOp(req) => HeartbeatLegal(env, s, req);
      case AgentUpOp(_) => AgentLegal(env, s, op);
      case AgentDownOp(_) => AgentLegal(env, s, op);
      case SweepOp(order) => SweepLegal(env, s, order);
      case CommandOp(cmd, pick) => CommandLegal(env, s, cmd, pick);
    }
  }
}
