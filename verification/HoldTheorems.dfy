/** Who can disturb a tunnel, connected or parked, over whole runs of the engine. */
module HoldTheorems {
  import opened Wrappers
  import opened Records
  import opened ClaimRules
  import opened Claims
  import opened ClaimTraces
  import opened ClaimTheorems
  import opened IndexTheorems
  import opened ReplayTheorems
  import opened SweepTheorems

  // ---------------------------------------------------------------------
  // A connected tunnel and messages of dead sessions
  // ---------------------------------------------------------------------

  /** A call that is not about the record: it comes from another session or
      relay, or asks for the name without being entitled to it. */
  predicate Harmless(rec: Tunnel, op: Op) {
    match op
    case ClaimOp(req) =>
      rec.name in NamesOf(req.tunnels) ==>
        req.tokenId != rec.tokenId || req.agentId != rec.agentId || req.sessionId == rec.sessionId
    case ParkOp(req) => rec.name in req.names ==> !Serves(req, rec)
    case ReleaseOp(req) => rec.name in req.names ==> !Serves(req, rec)
    case HeartbeatOp(req) => req.relayId != rec.relayId
    case AnnounceOp(req, _) =>
      req.relayId != rec.relayId && forall x | x in req.tunnels && x.name == rec.name :: x.agentId != rec.agentId
    case _ => true
  }

  ghost predicate Keeps(s: State, rec: Tunnel) { rec.name in s.tunnels && s.tunnels[rec.name] == rec }

  lemma HarmlessEvent(env: Env, op: Op, s: State, e: Event, rec: Tunnel)
    requires Keeps(s, rec) && rec.state == Active && Harmless(rec, op) && !op.SweepOp? && Legal(env, op, s, e)
    ensures Keeps(Apply(s, e), rec)
  {
  }

  lemma {:induction false} HarmlessTrace(env: Env, op: Op, s: State, es: seq<Event>, rec: Tunnel)
    requires Keeps(s, rec) && rec.state == Active && Harmless(rec, op) && !op.SweepOp? && LegalTrace(env, op, s, es)
    ensures Keeps(ApplyAll(s, es), rec)
  {
    if es != [] {
      HarmlessTrace(env, op, s, es[..|es| - 1], rec);
      HarmlessEvent(env, op, ApplyAll(s, es[..|es| - 1]), es[|es| - 1], rec);
    }
  }

  /** A sweep touches a connected tunnel exactly when it finds its relay lost. */
  lemma SweepTouchesLostOnly(env: Env, s: State, order: SweepOrder, rec: Tunnel)
    requires WellKeyed(s) && ValidOrder(env, s, order) && Keeps(s, rec) && rec.state == Active
    ensures Keeps(Step(env, s, SweepOp(order)), rec) <==> !LostIn(env, s, rec.relayId)
  {
    SweepOutcome(env, s, order);
  }

  ghost predicate HarmlessRun(s: State, run: Run, rec: Tunnel) {
    run == [] ||
    var (env, op) := run[|run| - 1];
    var st := Exec(s, run[..|run| - 1]);
    && HarmlessRun(s, run[..|run| - 1], rec)
    && Harmless(rec, op)
    && (op.SweepOp? ==> ValidOrder(env, st, op.sweep) && !LostIn(env, st, rec.relayId))
  }

  /** A connected tunnel's record survives every run of calls that are not its
      own session's and do not lose its relay: claims of others, late or repeated
      messages of dead sessions, other relays' reports, sweeps, commands. */
  lemma {:induction false} ConnectedTunnelUndisturbed(s: State, run: Run, rec: Tunnel)
    requires WellKeyed(s) && Keeps(s, rec) && rec.state == Active && HarmlessRun(s, run, rec)
    ensures WellKeyed(Exec(s, run)) && Keeps(Exec(s, run), rec)
  {
    if run != [] {
      var (env, op) := run[|run| - 1];
      var st := Exec(s, run[..|run| - 1]);
      ConnectedTunnelUndisturbed(s, run[..|run| - 1], rec);
      EventsLegal(env, st, op);
      if op.SweepOp? {
        SweepTouchesLostOnly(env, st, op.sweep, rec);
      } else {
        HarmlessTrace(env, op, st, Events(env, st, op), rec);
      }
    }
  }

  /** What relays send from background goroutines for a session that is over,
      and what other relays report. */
  predicate Stale(rec: Tunnel, op: Op) {
    match op
    case ParkOp(req) => req.sessionId != "" && req.sessionId != rec.sessionId
    case ReleaseOp(req) => req.sessionId != "" && req.sessionId != rec.sessionId
    case AgentDownOp(_) => true
    case HeartbeatOp(req) => req.relayId != rec.relayId
    case _ => false
  }

  lemma {:induction false} StaleRunIsHarmless(s: State, run: Run, rec: Tunnel)
    requires forall i | 0 <= i < |run| :: Stale(rec, run[i].1)
    ensures HarmlessRun(s, run, rec)
  {
    if run != [] { StaleRunIsHarmless(s, run[..|run| - 1], rec); }
  }

  lemma ClaimConnects(env: Env, s: State, req: Request, i: nat)
    requires WellKeyed(s) && req.relayId != "" && ClaimResult(env, s, req).Ok? && i < |req.tunnels|
    ensures |ClaimResult(env, s, req).value| == |req.tunnels|
    ensures var rec := ClaimResult(env, s, req).value[i];
            && WellKeyed(Step(env, s, ClaimOp(req))) && Keeps(Step(env, s, ClaimOp(req)), rec)
            && rec.state == Active && rec.relayId == req.relayId && rec.sessionId == req.sessionId
  {
    hide Events, ClaimResult;
    ClaimAllOrNothing(env, s, req);
    EventsLegal(env, s, ClaimOp(req));
  }

  /** After a session claimed its tunnels, any sequence, order or repetition of
      PARK, RELEASE and AGENT_DOWN messages of other sessions, and of other
      relays' heartbeats, leaves every one of its records as the claim made it. */
  lemma {:induction false} LateMessagesAreHarmless(env: Env, s: State, req: Request, i: nat, run: Run, rec: Tunnel)
    requires WellKeyed(s) && req.relayId != "" && i < |req.tunnels|
    requires ClaimResult(env, s, req).Ok? && i < |ClaimResult(env, s, req).value| && rec == ClaimResult(env, s, req).value[i]
    requires forall k | 0 <= k < |run| :: Stale(rec, run[k].1)
    ensures Keeps(Exec(Step(env, s, ClaimOp(req)), run), rec)
  {
    hide Step, ClaimResult;
    ClaimConnects(env, s, req, i);
    StaleRunIsHarmless(Step(env, s, ClaimOp(req)), run, rec);
    ConnectedTunnelUndisturbed(Step(env, s, ClaimOp(req)), run, rec);
  }

  // ---------------------------------------------------------------------
  // A parked tunnel
  // ---------------------------------------------------------------------

  /** The record is parked until at least the deadline, and its port and domains
      are indexed under its name. */
  ghost predicate Held(s: State, rec: Tunnel, deadline: int) {
    && rec.name in s.tunnels
    && var cur := s.tunnels[rec.name];
       && cur == rec.(graceUntil := cur.graceUntil, activeConns := cur.activeConns)
       && cur.state == Grace && cur.graceUntil >= deadline
       && (rec.publicPort != 0 ==> Owner(s.byPort, rec.publicPort) == rec.name)
       && forall d | d in rec.domains :: Owner(s.byDomain, d) == rec.name
  }

  /** No other tunnel has the record's port or one of its domains. */
  ghost predicate Alone(s: State, rec: Tunnel) {
    forall n | n in s.tunnels && n != rec.name ::
      (rec.publicPort != 0 ==> s.tunnels[n].publicPort != rec.publicPort) && forall d | d in rec.domains :: d !in s.tunnels[n].domains
  }

  /** Sound and complete indexes leave no room for another. */
  lemma CompleteLeavesAlone(s: State, rec: Tunnel)
    requires Complete(s) && rec.name in s.tunnels
    requires s.tunnels[rec.name].publicPort == rec.publicPort && s.tunnels[rec.name].domains == rec.domains
    ensures rec.name != "" && Alone(s, rec)
  {
  }

  /** A call that does not end the hold: no matching release, no claim by the
      owning token, no announcement of the name or of what it holds, no sweep at
      or after the deadline. */
  predicate LeavesHeld(env: Env, rec: Tunnel, deadline: int, op: Op) {
    match op
    case ClaimOp(req) => rec.name in NamesOf(req.tunnels) ==> req.tokenId != rec.tokenId
    case ParkOp(req) => rec.name in req.names && Serves(req, rec) ==> ParkUntil(env, req) >= deadline
    case ReleaseOp(req) => rec.name in req.names ==> !Serves(req, rec)
    case AnnounceOp(req, _) =>
      forall x | x in req.tunnels ::
        && x.name != rec.name && (rec.publicPort != 0 ==> x.publicPort != rec.publicPort)
        && forall d | d in rec.domains :: d !in x.domains
    case SweepOp(_) => rec.simulated || env.now < deadline
    case _ => true
  }

  /** Storing another name's record takes neither the port nor the domains. */
  lemma StoreElsewhere(s: State, rec: Tunnel, deadline: int, t: Tunnel)
    requires WellKeyed(s) && Held(s, rec, deadline) && t.name != rec.name
    requires rec.publicPort != 0 ==> t.publicPort != rec.publicPort
    requires forall d | d in rec.domains :: d !in t.domains
    ensures Held(Stored(s, t), rec, deadline)
  {
  }

  /** The record of another name that a legal store writes holds none of it. */
  lemma StoredElsewhereApart(env: Env, op: Op, s: State, rec: Tunnel, deadline: int, t: Tunnel)
    requires Held(s, rec, deadline) && Alone(s, rec) && LeavesHeld(env, rec, deadline, op)
    requires LegalStore(env, op, s, t) && t.name != rec.name && rec.name != ""
    ensures rec.publicPort != 0 ==> t.publicPort != rec.publicPort
    ensures forall d | d in rec.domains :: d !in t.domains
  {
    hide PortRespectsReservations, MayReplace, Conflicts, ReservationOf;
  }

  lemma StoreSame(env: Env, op: Op, s: State, rec: Tunnel, deadline: int, t: Tunnel)
    requires WellKeyed(s) && Held(s, rec, deadline) && LeavesHeld(env, rec, deadline, op)
    requires LegalStore(env, op, s, t) && t.name == rec.name
    ensures Held(Stored(s, t), rec, deadline)
  {
    if !op.ClaimOp? && !op.SweepOp? {
      assert t == Parked(s.tunnels[rec.name], t.graceUntil);
    }
  }

  lemma RemoveElsewhere(s: State, rec: Tunnel, deadline: int, name: string)
    requires WellKeyed(s) && Held(s, rec, deadline) && name != rec.name
    ensures Held(Removed(s, name), rec, deadline)
  {
  }

  lemma AloneAfterStore(s: State, rec: Tunnel, t: Tunnel)
    requires Alone(s, rec)
    requires t.name != rec.name ==> (rec.publicPort != 0 ==> t.publicPort != rec.publicPort) && forall d | d in rec.domains :: d !in t.domains
    ensures Alone(Stored(s, t), rec)
  {
  }

  /** What a legal event deletes is not the held record. */
  lemma DeletesElsewhere(env: Env, op: Op, s: State, rec: Tunnel, deadline: int, t: Tunnel)
    requires Held(s, rec, deadline) && LeavesHeld(env, rec, deadline, op) && LegalDelete(env, op, t)
    requires t.name in s.tunnels && t == s.tunnels[t.name]
    ensures t.name != rec.name
  {
  }

  lemma HeldEvent(env: Env, op: Op, s: State, rec: Tunnel, deadline: int, e: Event)
    requires WellKeyed(s) && Held(s, rec, deadline) && Alone(s, rec) && rec.name != "" && LeavesHeld(env, rec, deadline, op)
    requires Legal(env, op, s, e)
    ensures Held(Apply(s, e), rec, deadline) && Alone(Apply(s, e), rec)
  {
    hide Held, Alone, LeavesHeld, LegalStore, LegalDelete, WellKeyed, Stored, Removed;
    if e.TunnelChanged? {
      var t := e.tunnel;
      if e.change == Deleted {
        DeletesElsewhere(env, op, s, rec, deadline, t);
        RemoveElsewhere(s, rec, deadline, t.name);
        AloneAfterRemove(s, rec, t.name);
      } else if t.name == rec.name {
        StoreSame(env, op, s, rec, deadline, t);
        AloneAfterStore(s, rec, t);
      } else {
        StoredElsewhereApart(env, op, s, rec, deadline, t);
        StoreElsewhere(s, rec, deadline, t);
        AloneAfterStore(s, rec, t);
      }
    } else {
      HeldAside(s, rec, deadline, e);
    }
  }

  lemma AloneAfterRemove(s: State, rec: Tunnel, name: string)
    requires Alone(s, rec)
    ensures Alone(Removed(s, name), rec)
  {
  }

  lemma HeldAside(s: State, rec: Tunnel, deadline: int, e: Event)
    requires Held(s, rec, deadline) && Alone(s, rec) && !e.TunnelChanged?
    ensures Held(Apply(s, e), rec, deadline) && Alone(Apply(s, e), rec)
  {
  }

  lemma {:induction false} HeldTrace(env: Env, op: Op, s: State, rec: Tunnel, deadline: int, es: seq<Event>)
    requires WellKeyed(s) && Held(s, rec, deadline) && Alone(s, rec) && rec.name != "" && LeavesHeld(env, rec, deadline, op)
    requires LegalTrace(env, op, s, es)
    ensures Held(ApplyAll(s, es), rec, deadline) && Alone(ApplyAll(s, es), rec)
  {
    hide Held, Alone, LeavesHeld, Legal, WellKeyed;
    if es != [] {
      var init := es[..|es| - 1];
      HeldTrace(env, op, s, rec, deadline, init);
      WellKeyedKept(s, init);
      HeldEvent(env, op, ApplyAll(s, init), rec, deadline, es[|es| - 1]);
    }
  }

  lemma HeldStep(env: Env, s: State, op: Op, rec: Tunnel, deadline: int)
    requires WellKeyed(s) && Held(s, rec, deadline) && Alone(s, rec) && rec.name != "" && LeavesHeld(env, rec, deadline, op)
    ensures WellKeyed(Step(env, s, op)) && Held(Step(env, s, op), rec, deadline) && Alone(Step(env, s, op), rec)
  {
    hide Held, Alone, LeavesHeld, WellKeyed, Events;
    EventsLegal(env, s, op);
    WellKeyedKept(s, Events(env, s, op));
    HeldTrace(env, op, s, rec, deadline, Events(env, s, op));
  }

  /** A sweep before the deadline leaves the hold; the first one at or after it
      ends it. */
  lemma SweepKeepsHold(env: Env, s: State, order: SweepOrder, rec: Tunnel, deadline: int)
    requires WellKeyed(s) && Held(s, rec, deadline) && Alone(s, rec) && rec.name != ""
    ensures env.now < deadline ==> Held(Step(env, s, SweepOp(order)), rec, deadline)
    ensures ValidOrder(env, s, order) && !rec.simulated && s.tunnels[rec.name].graceUntil <= env.now ==>
              rec.name !in Step(env, s, SweepOp(order)).tunnels
  {
    hide Step;
    if env.now < deadline { HeldStep(env, s, SweepOp(order), rec, deadline); }
    if ValidOrder(env, s, order) { SweepOutcome(env, s, order); }
  }

  /** Until its deadline a parked tunnel that shares nothing keeps its name, port and
      domains in every run without a matching release, an announcement of the name or
      of what it holds, a claim by its own token or a sweep at the deadline. */
  lemma {:induction false} GraceHold(s: State, run: Run, rec: Tunnel, deadline: int)
    requires WellKeyed(s) && Held(s, rec, deadline) && Alone(s, rec) && rec.name != ""
    requires forall i | 0 <= i < |run| :: LeavesHeld(run[i].0, rec, deadline, run[i].1)
    ensures WellKeyed(Exec(s, run)) && Held(Exec(s, run), rec, deadline) && Alone(Exec(s, run), rec)
  {
    hide Held, Alone, LeavesHeld, WellKeyed, Step;
    if run != [] {
      GraceHold(s, run[..|run| - 1], rec, deadline);
      HeldStep(run[|run| - 1].0, Exec(s, run[..|run| - 1]), run[|run| - 1].1, rec, deadline);
    }
  }

  /** While the hold lasts no claim of another token gets the name, and no claim
      gets the port or a domain for another name. */
  lemma HoldKeepsOthersOff(env: Env, s: State, rec: Tunnel, deadline: int, req: Request, i: nat)
    requires Held(s, rec, deadline) && rec.name != "" && ClaimResult(env, s, req).Ok? && i < |req.tunnels|
    ensures |ClaimResult(env, s, req).value| == |req.tunnels|
    ensures var t := ClaimResult(env, s, req).value[i];
            if t.name == rec.name then req.tokenId == rec.tokenId
            else (rec.publicPort != 0 ==> t.publicPort != rec.publicPort) && forall d | d in rec.domains :: d !in t.domains
  {
    ClaimableRecords(env, s, req);
    var recs := ClaimResult(env, s, req).value;
    assert Grantable(env, s, req, recs[..i], req.tunnels[i], recs[i]);
  }

  /** The held port is free for its owner, whatever was staged before. */
  lemma HeldPortIsChosen(env: Env, s: State, rec: Tunnel, deadline: int, req: Request, specs: seq<Tunnel>, spec: Tunnel)
    requires Held(s, rec, deadline) && rec.name != "" && rec.publicPort != 0
    requires env.rules.portMin <= rec.publicPort <= env.rules.portMax
    requires !ReservedByOther(env.reservations, rec.publicPort, rec.name)
    requires var resv := ReservationOf(env.reservations, rec.name);
             resv.None? || resv.value.publicPort == 0 || resv.value.publicPort == rec.publicPort
    requires spec.name == rec.name && spec.publicPort == 0
    requires Stage(env, s, req, specs).Ok? && rec.name !in NamesOf(Stage(env, s, req, specs).value)
    ensures ChoosePort(env, s, req, Stage(env, s, req, specs).value, spec) == Ok(rec.publicPort)
  {
    var recs := Stage(env, s, req, specs).value;
    StageEach(env, s, req, specs, 0);
    forall t | t in recs ensures t.publicPort != rec.publicPort {
      var i :| 0 <= i < |recs| && recs[i] == t;
      StageEach(env, s, req, specs, i);
      CheckGrants(env, s, req, recs[..i], specs[i]);
    }
    assert PortFree(env, s, recs, rec.name, rec.publicPort);
  }

  /** The owner's own claim gets the held port back, unless it asks for another or
      the name has another one reserved: it is never refused for its port, and the
      record it gets has it. */
  lemma OwnerReclaimsItsPort(env: Env, s: State, rec: Tunnel, deadline: int, req: Request, i: nat)
    requires Held(s, rec, deadline) && rec.name != "" && rec.publicPort != 0
    requires env.rules.portMin <= rec.publicPort <= env.rules.portMax
    requires !ReservedByOther(env.reservations, rec.publicPort, rec.name)
    requires var resv := ReservationOf(env.reservations, rec.name);
             resv.None? || resv.value.publicPort == 0 || resv.value.publicPort == rec.publicPort
    requires i < |req.tunnels| && req.tunnels[i].name == rec.name && req.tunnels[i].publicPort == 0
    requires HasPort(req.tunnels[i].kind) && !req.tunnels[i].accessToken
    ensures Stage(env, s, req, req.tunnels[..i]).Ok? ==>
              Check(env, s, req, Stage(env, s, req, req.tunnels[..i]).value, req.tunnels[i]) !in {Err(PortUnavailable), Err(PortNotAllowed)}
    ensures ClaimResult(env, s, req).Ok? ==>
              |ClaimResult(env, s, req).value| == |req.tunnels| && ClaimResult(env, s, req).value[i].publicPort == rec.publicPort
  {
    hide ChoosePort, Stage, PortFree;
    var spec := req.tunnels[i];
    if Stage(env, s, req, req.tunnels[..i]).Ok? {
      var recs := Stage(env, s, req, req.tunnels[..i]).value;
      if rec.name !in NamesOf(recs) { HeldPortIsChosen(env, s, rec, deadline, req, req.tunnels[..i], spec); }
      NotRefusedForPort(env, s, req, recs, spec);
    }
    if ClaimResult(env, s, req).Ok? {
      StageEach(env, s, req, req.tunnels, i);
      PortChoice(env, s, req, ClaimResult(env, s, req).value[..i], spec);
    }
  }

  /** A tunnel whose relay a sweep declares lost is held from that sweep on for
      the whole grace period, provided the clock's second changes within it; otherwise
      the same sweep frees it at once. */
  lemma LostRelayIsHeld(env: Env, s: State, order: SweepOrder, rec: Tunnel)
    requires Sound(s) && Complete(s) && ValidOrder(env, s, order)
    requires Keeps(s, rec) && rec.state == Active && !rec.simulated && LostIn(env, s, rec.relayId)
    ensures Held(Step(env, s, SweepOp(order)), rec.(state := Grace), env.now + env.grace) <==> env.grace >= 1
    ensures rec.name in Step(env, s, SweepOp(order)).tunnels <==> env.grace >= 1
    ensures env.grace >= 1 ==> WellKeyed(Step(env, s, SweepOp(order))) && Alone(Step(env, s, SweepOp(order)), rec) && rec.name != ""
  {
    SweepOutcome(env, s, order);
    SweepKeepsIndexes(env, s, order);
    if env.grace >= 1 { CompleteLeavesAlone(Step(env, s, SweepOp(order)), rec); }
  }

  const SECOND := 1_000_000_000

  /** By how many seconds the clock, in nanoseconds, changes over the span. */
  function Ticks(clock: nat, span: nat): nat { (clock + span) / SECOND - clock / SECOND }

  lemma TicksMeans(clock: nat, span: nat)
    ensures Ticks(clock, span) >= 1 <==> clock % SECOND + span >= SECOND
  {
  }

  /** In the clock's own nanoseconds: a grace of a second or more always holds the
      tunnel, a shorter one exactly when it crosses into the clock's next second. */
  lemma LostRelayIsHeldIff(clock: nat, grace: nat, env: Env, s: State, order: SweepOrder, rec: Tunnel)
    requires env.now == clock / SECOND && env.grace == Ticks(clock, grace)
    requires Sound(s) && Complete(s) && ValidOrder(env, s, order)
    requires Keeps(s, rec) && rec.state == Active && !rec.simulated && LostIn(env, s, rec.relayId)
    ensures var st := Step(env, s, SweepOp(order));
            && (rec.name in st.tunnels <==> clock % SECOND + grace >= SECOND)
            && (rec.name in st.tunnels ==> Held(st, rec.(state := Grace), (clock + grace) / SECOND))
  {
    hide Sound, Complete, ValidOrder, Step, Keeps, Held;
    TicksMeans(clock, grace);
    LostRelayIsHeld(env, s, order, rec);
  }

  // ---------------------------------------------------------------------
  // PARK and RELEASE, record by record
  // ---------------------------------------------------------------------

  /** The request is of the relay that serves the tunnel, and of its session if it
      names one. */
  predicate FromItsSession(req: Request, rec: Tunnel) {
    rec.relayId == req.relayId && (req.sessionId != "" ==> rec.sessionId == req.sessionId)
  }

  function AfterPark(tunnels: map<string, Tunnel>, req: Request, until: int, names: set<string>): map<string, Tunnel> {
    map n | n in tunnels ::
      if n in names && FromItsSession(req, tunnels[n])
      then tunnels[n].(state := Grace, graceUntil := until, activeConns := 0) else tunnels[n]
  }

  lemma AfterParkMore(tunnels: map<string, Tunnel>, req: Request, until: int, names: set<string>, x: string)
    ensures var cur := AfterPark(tunnels, req, until, names);
            AfterPark(tunnels, req, until, names + {x}) ==
            if x in cur && Serves(req, cur[x]) then cur[x := Parked(cur[x], until)] else cur
  {
  }

  lemma {:induction false} ParkLoop(s: State, req: Request, until: int, names: seq<string>)
    requires WellKeyed(s)
    ensures var st := ApplyAll(s, ForEach(s, names, ParkStep(req, until)));
            WellKeyed(st) && TablesOf(st) == TablesOf(s).(tunnels := AfterPark(s.tunnels, req, until, Elements(names)))
  {
    if names == [] {
      assert AfterPark(s.tunnels, req, until, {}) == s.tunnels;
    } else {
      var init, x := names[..|names| - 1], names[|names| - 1];
      ParkLoop(s, req, until, init);
      var es := ForEach(s, init, ParkStep(req, until));
      var st := ApplyAll(s, es);
      AfterParkMore(s.tunnels, req, until, Elements(init), x);
      ElementsAppend(names);
      if ParkStep(req, until)(st, x) != [] { StoreTables(st, Parked(st.tunnels[x], until)); }
      ApplyAllAppend(s, es, ParkStep(req, until)(st, x));
      WellKeyedKept(s, ForEach(s, names, ParkStep(req, until)));
    }
  }

  /** PARK holds exactly the named tunnels that the sending relay and session
      still serve, whatever else is on the list. */
  lemma ParkOutcome(env: Env, s: State, req: Request)
    requires WellKeyed(s) && req.relayId != ""
    ensures TablesOf(Step(env, s, ParkOp(req))) ==
            TablesOf(s).(tunnels := AfterPark(s.tunnels, req, if req.graceUntil == 0 then env.now + env.grace else req.graceUntil,
                                              Elements(req.names)))
  {
    ParkLoop(s, req, ParkUntil(env, req), req.names);
  }

  lemma ParkKeepsIndexes(env: Env, s: State, req: Request)
    requires Sound(s) && Complete(s)
    ensures Sound(Step(env, s, ParkOp(req))) && Complete(Step(env, s, ParkOp(req)))
  {
    hide Sound, Complete, Events;
    SoundIsKeyed(s);
    EventsLegal(env, s, ParkOp(req));
    SoundKept(s, Events(env, s, ParkOp(req)));
    CompleteKept(env, ParkOp(req), s, Events(env, s, ParkOp(req)));
  }

  lemma CompleteOwns(s: State, name: string)
    requires Complete(s) && name in s.tunnels
    ensures var t := s.tunnels[name];
            (t.publicPort != 0 ==> Owner(s.byPort, t.publicPort) == name) && forall d | d in t.domains :: Owner(s.byDomain, d) == name
  {
  }

  /** A tunnel its own session parks is held until the deadline the request
      carries, or for the grace period. */
  lemma ParkHolds(env: Env, s: State, req: Request, rec: Tunnel)
    requires Sound(s) && Complete(s) && req.relayId != "" && Keeps(s, rec) && rec.name in req.names && FromItsSession(req, rec)
    ensures Held(Step(env, s, ParkOp(req)), rec.(state := Grace), if req.graceUntil == 0 then env.now + env.grace else req.graceUntil)
    ensures WellKeyed(Step(env, s, ParkOp(req))) && Alone(Step(env, s, ParkOp(req)), rec) && rec.name != ""
  {
    hide Sound, Complete, Alone, Events, ApplyAll, FromItsSession, Step;
    SoundIsKeyed(s);
    ParkOutcome(env, s, req);
    ParkKeepsIndexes(env, s, req);
    assert rec.name in Elements(req.names);
    SoundIsKeyed(Step(env, s, ParkOp(req)));
    CompleteOwns(Step(env, s, ParkOp(req)), rec.name);
    CompleteLeavesAlone(Step(env, s, ParkOp(req)), rec);
  }

  function AfterRelease(tunnels: map<string, Tunnel>, req: Request, names: set<string>): map<string, Tunnel> {
    map n | n in tunnels && !(n in names && FromItsSession(req, tunnels[n])) :: tunnels[n]
  }

  lemma AfterReleaseMore(tunnels: map<string, Tunnel>, req: Request, names: set<string>, x: string)
    ensures var cur := AfterRelease(tunnels, req, names);
            AfterRelease(tunnels, req, names + {x}) == if x in cur && Serves(req, cur[x]) then cur - {x} else cur
  {
  }

  lemma {:induction false} ReleaseLoop(s: State, req: Request, names: seq<string>)
    requires WellKeyed(s)
    ensures var st := ApplyAll(s, ForEach(s, names, ReleaseStep(req)));
            WellKeyed(st) && TablesOf(st) == TablesOf(s).(tunnels := AfterRelease(s.tunnels, req, Elements(names)))
  {
    if names == [] {
      assert AfterRelease(s.tunnels, req, {}) == s.tunnels;
    } else {
      var init, x := names[..|names| - 1], names[|names| - 1];
      ReleaseLoop(s, req, init);
      var es := ForEach(s, init, ReleaseStep(req));
      var st := ApplyAll(s, es);
      ElementsAppend(names);
      AfterReleaseMore(s.tunnels, req, Elements(init), x);
      if ReleaseStep(req)(st, x) != [] { RemoveTables(st, st.tunnels[x]); }
      ApplyAllAppend(s, es, ReleaseStep(req)(st, x));
      WellKeyedKept(s, ForEach(s, names, ReleaseStep(req)));
    }
  }

  /** RELEASE frees exactly the named tunnels that the sending relay and session
      still serve. */
  lemma ReleaseOutcome(env: Env, s: State, req: Request)
    requires WellKeyed(s) && req.relayId != ""
    ensures TablesOf(Step(env, s, ReleaseOp(req))) ==
            TablesOf(s).(tunnels := AfterRelease(s.tunnels, req, Elements(req.names)))
  {
    ReleaseLoop(s, req, req.names);
  }
}
