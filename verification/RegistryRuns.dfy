/** The registry as a whole: the engine, the reservations in the backend, the copy
    claims are checked against, the writes that follow a claim in the background, and
    restarts that forget the engine (go/tun/live). */
module RegistryRuns {
  import opened Wrappers
  import opened Records
  import opened ClaimRules
  import opened Claims
  import opened ClaimTraces
  import opened ClaimTheorems
  import opened IndexTheorems
  import opened PortTheorems
  import opened PortDirectory

  /** One background reservation: the copy it read when it began, and the tunnels
      it has still to write. */
  datatype Job = Job(existing: Option<seq<Reservation>>, todo: seq<Tunnel>)

  /** A name, the port it had and its token, as relays learnt them from the engine. */
  type Fact = (string, int, string)

  datatype Reg = Reg(engine: State, stored: seq<Reservation>, cached: seq<Reservation>, jobs: seq<Job>, told: set<Fact>)

  /** What happens to it: a call of the engine, a step of a background reservation,
      whose write may not get through, a reload that does, a restart whose reload
      does or does not, and a change by an operator. */
  datatype Act =
    | Call(env: Env, op: Op)
    | Begin(job: nat)
    | Write(job: nat, up: bool)
    | Refresh
    | Restart(loaded: bool)
    | Operate(rs: seq<Reservation>)

  function ToldBy(s: State): set<Fact> { set n | n in s.tunnels :: (n, s.tunnels[n].publicPort, s.tunnels[n].tokenId) }

  /** The tunnels whose ports a call leaves to reserve. */
  function Answered(env: Env, s: State, op: Op): seq<Tunnel> {
    if Anonymous(op) then [] else
    match op
    case ClaimOp(req) =>
      (match ClaimResult(env, s, req)
       case Ok(recs) => OwnedAll(Assigned(PortDirectory.Granted(recs)), req.tokenId)
       case Err(_) => [])
    case AnnounceOp(req, _) =>
      if AnnounceRefused(env, req) then [] else
        var conflicts := Reported(env, ApplyAll(s, AnnounceReport(env, s, req)), req, req.tunnels).1;
        OwnedAll(Assigned(PortDirectory.Announced(req.tunnels, conflicts)), req.tokenId)
    case _ => []
  }

  /** The call as the registry makes it: with its own rules and copy. */
  function Here(rules: Rules, reg: Reg, env: Env): Env { env.(rules := rules, reservations := reg.cached) }

  function Next(rules: Rules, reg: Reg, act: Act): Reg {
    match act
    case Call(env, op) =>
      var e := Here(rules, reg, env);
      var engine := Step(e, reg.engine, op);
      reg.(engine := engine, told := reg.told + ToldBy(engine), jobs := reg.jobs + [Job(None, Answered(e, reg.engine, op))])
    case Begin(j) =>
      if j < |reg.jobs| && reg.jobs[j].existing.None? then reg.(jobs := reg.jobs[j := reg.jobs[j].(existing := Some(reg.cached))]) else reg
    case Write(j, up) =>
      if j < |reg.jobs| && reg.jobs[j].existing.Some? && reg.jobs[j].todo != [] then
        reg.(stored := ReserveOne(rules, reg.jobs[j].existing.value, reg.stored, reg.jobs[j].todo[0], up),
             jobs := reg.jobs[j := reg.jobs[j].(todo := reg.jobs[j].todo[1..])])
      else reg
    case Refresh => reg.(cached := reg.stored)
    case Restart(loaded) => reg.(engine := EmptyState, cached := if loaded then reg.stored else [], jobs := [])
    case Operate(rs) => reg.(stored := rs)
  }

  function After(rules: Rules, reg: Reg, acts: seq<Act>): Reg {
    if acts == [] then reg else Next(rules, After(rules, reg, acts[..|acts| - 1]), acts[|acts| - 1])
  }

  // ---------------------------------------------------------------------
  // The reservation stays
  // ---------------------------------------------------------------------

  ghost predicate TokensAgree(rs: seq<Reservation>, r: Reservation) {
    forall e | e in rs && e.name == r.name :: e.tokenId == r.tokenId
  }

  /** The name is listed, and nobody ever read it listed for another token. */
  ghost predicate NameKept(reg: Reg, r: Reservation) {
    && TokensAgree(reg.stored, r) && NameListed(reg.stored, r.name) && TokensAgree(reg.cached, r)
    && forall j | 0 <= j < |reg.jobs| && reg.jobs[j].existing.Some? :: TokensAgree(reg.jobs[j].existing.value, r)
  }

  /** The write gets through and moves the name's reservation to another port its own
      token got or announced: the copy the write goes by has the name with that token
      and not yet with that port, and the backend has the port for nobody else. */
  predicate Moves(rules: Rules, reg: Reg, act: Act, r: Reservation) {
    && act.Write? && act.up && act.job < |reg.jobs| && reg.jobs[act.job].existing.Some? && reg.jobs[act.job].todo != []
    && MovedBy(rules, reg.jobs[act.job].existing.value, reg.stored, reg.jobs[act.job].todo[0], r)
  }

  predicate MovedBy(rules: Rules, existing: seq<Reservation>, rs: seq<Reservation>, t: Tunnel, r: Reservation) {
    && t.name == r.name && t.tokenId == r.tokenId && t.publicPort != 0 && t.publicPort != r.publicPort
    && ReservationOf(existing, r.name).Some? && ReservationOf(existing, r.name).value.publicPort != t.publicPort
    && MayPut(rules, rs, Reservation(t.name, t.tokenId, t.publicPort))
  }

  lemma PostKeepsName(rules: Rules, rs: seq<Reservation>, x: Reservation, r: Reservation)
    requires MayPost(rules, rs, x) && TokensAgree(rs, r) && NameListed(rs, r.name)
    ensures TokensAgree(rs + [x], r) && NameListed(rs + [x], r.name) && (r in rs ==> r in rs + [x])
  {
    var i :| 0 <= i < |rs| && rs[i].name == r.name;
    assert (rs + [x])[i] == rs[i];
  }

  lemma PutKeepsName(rs: seq<Reservation>, x: Reservation, r: Reservation)
    requires TokensAgree(rs, r) && NameListed(rs, r.name) && (x.name == r.name ==> x.tokenId == r.tokenId)
    ensures TokensAgree(Put(rs, x), r) && NameListed(Put(rs, x), r.name)
    ensures r in rs ==> (r in Put(rs, x) <==> x.name != r.name || x == r)
  {
    var out := Put(rs, x);
    var i :| 0 <= i < |rs| && rs[i].name == r.name;
    assert out[i].name == r.name;
    if r in rs {
      var k :| 0 <= k < |rs| && rs[k] == r;
      assert out[k] in out;
    }
  }

  lemma WriteKeepsName(rules: Rules, existing: seq<Reservation>, rs: seq<Reservation>, t: Tunnel, up: bool, r: Reservation)
    requires TokensAgree(existing, r) && TokensAgree(rs, r) && NameListed(rs, r.name)
    ensures var out := ReserveOne(rules, existing, rs, t, up);
            && TokensAgree(out, r) && NameListed(out, r.name)
            && (r in rs ==> (r in out <==> !(up && MovedBy(rules, existing, rs, t, r))))
  {
    hide MayPost, MayPut, NameListed;
    var x, cur := Reservation(t.name, t.tokenId, t.publicPort), ReservationOf(existing, t.name);
    if t.publicPort != 0 && cur.None? && up && MayPost(rules, rs, x) {
      PostKeepsName(rules, rs, x, r);
    } else if cur.Some? {
      ReservationIsListed(existing, t.name);
      if cur.value.tokenId == t.tokenId { PutKeepsName(rs, x, r); }
    }
  }

  /** Operators may do anything but take the reservation away. */
  ghost predicate LeavesReservation(act: Act, r: Reservation) {
    act.Operate? ==> r in act.rs && TokensAgree(act.rs, r)
  }

  lemma ActKeepsName(rules: Rules, reg: Reg, act: Act, r: Reservation)
    requires NameKept(reg, r) && LeavesReservation(act, r)
    ensures NameKept(Next(rules, reg, act), r)
    ensures r in reg.stored ==> (r in Next(rules, reg, act).stored <==> !Moves(rules, reg, act, r))
  {
    hide ReserveOne, Step, Answered, MovedBy;
    match act
    case Write(j, up) =>
      if j < |reg.jobs| && reg.jobs[j].existing.Some? && reg.jobs[j].todo != [] {
        WriteKeepsName(rules, reg.jobs[j].existing.value, reg.stored, reg.jobs[j].todo[0], up, r);
      }
    case Operate(rs) =>
      var i :| 0 <= i < |rs| && rs[i] == r;
    case _ =>
  }

  /** r is stored after every act so far. */
  ghost predicate AlwaysStored(rules: Rules, reg: Reg, acts: seq<Act>, r: Reservation) {
    r in After(rules, reg, acts).stored && (acts == [] || AlwaysStored(rules, reg, acts[..|acts| - 1], r))
  }

  ghost predicate NeverMoves(rules: Rules, reg: Reg, acts: seq<Act>, r: Reservation) {
    acts == [] ||
    (NeverMoves(rules, reg, acts[..|acts| - 1], r) && !Moves(rules, After(rules, reg, acts[..|acts| - 1]), acts[|acts| - 1], r))
  }

  /** Whatever relays claim and announce, whichever writes and reloads fail, and
      however often the registry restarts, a reservation stays as it is exactly as long
      as no write moves it to another port of its own token; its name stays its
      token's. */
  lemma {:induction false} ReservationStays(rules: Rules, reg: Reg, acts: seq<Act>, r: Reservation)
    requires NameKept(reg, r) && r in reg.stored
    requires forall i | 0 <= i < |acts| :: LeavesReservation(acts[i], r)
    ensures NameKept(After(rules, reg, acts), r)
    ensures AlwaysStored(rules, reg, acts, r) <==> NeverMoves(rules, reg, acts, r)
  {
    hide NameKept, Next, Moves, LeavesReservation;
    if acts != [] {
      var n := |acts| - 1;
      ReservationStays(rules, reg, acts[..n], r);
      ActKeepsName(rules, After(rules, reg, acts[..n]), acts[n], r);
    }
  }

  // ---------------------------------------------------------------------
  // The port stays the name's
  // ---------------------------------------------------------------------

  /** The name and port go together, for the token. */
  predicate Fits(r: Reservation, name: string, port: int, tokenId: string) {
    && (name != r.name ==> port != r.publicPort)
    && (name == r.name ==> tokenId == r.tokenId && (port == 0 || port == r.publicPort))
  }

  ghost predicate EngineFits(s: State, r: Reservation) {
    forall n | n in s.tunnels :: Fits(r, n, s.tunnels[n].publicPort, s.tunnels[n].tokenId)
  }

  ghost predicate FactsFit(told: set<Fact>, r: Reservation) { forall f | f in told :: Fits(r, f.0, f.1, f.2) }

  ghost predicate TunnelsFit(ts: seq<Tunnel>, r: Reservation) {
    forall t | t in ts :: Fits(r, t.name, t.publicPort, t.tokenId)
  }

  /** r is listed, and no name or port twice. */
  ghost predicate Lists(rs: seq<Reservation>, r: Reservation) { Unique(rs) && r in rs }

  ghost predicate JobFits(job: Job, r: Reservation) {
    TunnelsFit(job.todo, r) && (job.existing.Some? && job.todo != [] ==> Lists(job.existing.value, r))
  }

  /** A reservation of a port in range. */
  predicate InUse(rules: Rules, r: Reservation) {
    r.tokenId != "" && r.publicPort != 0 && rules.portMin <= r.publicPort <= rules.portMax
  }

  /** The backend and the copy list r; the engine, what it told the relays and what
      is being written fit it. */
  ghost predicate Holds(rules: Rules, reg: Reg, r: Reservation) {
    && InUse(rules, r)
    && Lists(reg.stored, r) && Lists(reg.cached, r)
    && WellKeyed(reg.engine) && EngineFits(reg.engine, r) && FactsFit(reg.told, r)
    && forall j | 0 <= j < |reg.jobs| :: JobFits(reg.jobs[j], r)
  }

  /** A claim of the name asks for no other port; relays announce only what the
      engine once told them; operators leave r; a restart reloads the reservations. */
  ghost predicate Keeps(reg: Reg, act: Act, r: Reservation) {
    match act
    case Call(_, ClaimOp(req)) => forall x | x in req.tunnels && x.name == r.name :: x.publicPort in {0, r.publicPort}
    case Call(_, AnnounceOp(req, _)) => forall x | x in req.tunnels :: (x.name, x.publicPort, x.tokenId) in reg.told
    case Operate(rs) => Lists(rs, r)
    case Restart(loaded) => loaded
    case _ => true
  }

  lemma ListedIsReserved(rules: Rules, env: Env, r: Reservation)
    requires Lists(env.reservations, r) && InUse(rules, r) && env.rules == rules
    ensures Reserved(env, r)
  {
    var i :| 0 <= i < |env.reservations| && env.reservations[i] == r;
    ListedReservation(env.reservations, i);
    NotReservedByOther(env.reservations, r);
  }

  // The engine

  ghost predicate CallFits(op: Op, told: set<Fact>, r: Reservation) {
    && (op.ClaimOp? ==> forall x | x in op.req.tunnels && x.name == r.name :: x.publicPort in {0, r.publicPort})
    && (op.AnnounceOp? ==> forall x | x in op.req.tunnels :: Fits(r, x.name, x.publicPort, x.tokenId))
  }

  /** A granted record fits the reservation. */
  lemma GrantFits(env: Env, req: Request, spec: Tunnel, t: Tunnel, r: Reservation)
    requires Reserved(env, r) && (spec.name == r.name ==> spec.publicPort in {0, r.publicPort})
    requires t == Claims.Granted(env, req, spec, t.publicPort) && PortRespectsReservations(env, spec, t.publicPort)
    requires ReservationOf(env.reservations, t.name).Some? ==> ReservationOf(env.reservations, t.name).value.tokenId == req.tokenId
    ensures Fits(r, t.name, t.publicPort, t.tokenId)
  {
    ReservationIsListed(env.reservations, r.name);
  }

  lemma StoreFits(env: Env, op: Op, s: State, t: Tunnel, told: set<Fact>, r: Reservation)
    requires Reserved(env, r) && EngineFits(s, r) && CallFits(op, told, r) && LegalStore(env, op, s, t)
    ensures Fits(r, t.name, t.publicPort, t.tokenId)
  {
    hide Reserved, PortRespectsReservations, ReservationOf;
    if op.ClaimOp? {
      var spec :| spec in op.req.tunnels && t == Claims.Granted(env, op.req, spec, t.publicPort) && PortRespectsReservations(env, spec, t.publicPort);
      GrantFits(env, op.req, spec, t, r);
    }
  }

  lemma {:induction false} TraceFits(env: Env, op: Op, s: State, es: seq<Event>, told: set<Fact>, r: Reservation)
    requires Reserved(env, r) && EngineFits(s, r) && CallFits(op, told, r) && LegalTrace(env, op, s, es)
    ensures EngineFits(ApplyAll(s, es), r)
  {
    hide Reserved, CallFits, LegalStore, LegalDelete, Fits;
    if es != [] {
      var init, e := es[..|es| - 1], es[|es| - 1];
      TraceFits(env, op, s, init, told, r);
      var st := ApplyAll(s, init);
      if e.TunnelChanged? && e.change != Deleted { StoreFits(env, op, st, e.tunnel, told, r); }
      ApplyFits(st, e, r);
    }
  }

  lemma ApplyFits(s: State, e: Event, r: Reservation)
    requires EngineFits(s, r)
    requires e.TunnelChanged? && e.change != Deleted ==> Fits(r, e.tunnel.name, e.tunnel.publicPort, e.tunnel.tokenId)
    ensures EngineFits(Apply(s, e), r)
  {
    hide Fits;
  }

  // What is to be written

  lemma {:induction false} OwnedFit(ts: seq<Tunnel>, tokenId: string, r: Reservation)
    requires TunnelsFit(ts, r) && r.tokenId != ""
    ensures TunnelsFit(OwnedAll(ts, tokenId), r)
  {
    if ts != [] { OwnedFit(ts[..|ts| - 1], tokenId, r); assert ts[|ts| - 1] in ts; }
  }

  lemma {:induction false} KeptFit(ts: seq<Tunnel>, conflicts: seq<string>)
    ensures forall t | t in Keep(ts, conflicts) :: t in ts
  {
    if ts != [] { KeptFit(ts[..|ts| - 1], conflicts); }
  }

  lemma ClaimedFit(env: Env, s: State, req: Request, r: Reservation)
    requires Reserved(env, r) && ClaimResult(env, s, req).Ok?
    requires forall x | x in req.tunnels && x.name == r.name :: x.publicPort in {0, r.publicPort}
    ensures TunnelsFit(ClaimResult(env, s, req).value, r)
  {
    hide Reserved, PortRespectsReservations, Unclaimed, MayReplace, Fits, ReservationOf;
    var recs := ClaimResult(env, s, req).value;
    ClaimableRecords(env, s, req);
    forall t | t in recs ensures Fits(r, t.name, t.publicPort, t.tokenId) {
      var i :| 0 <= i < |recs| && recs[i] == t;
      assert Grantable(env, s, req, recs[..i], req.tunnels[i], recs[i]);
      GrantFits(env, req, req.tunnels[i], t, r);
    }
  }

  lemma AnsweredFit(env: Env, s: State, op: Op, told: set<Fact>, r: Reservation)
    requires Reserved(env, r) && CallFits(op, told, r) && r.tokenId != ""
    ensures TunnelsFit(Answered(env, s, op), r)
  {
    hide Reserved, ClaimResult, Reported, Fits;
    if op.ClaimOp? && ClaimResult(env, s, op.req).Ok? {
      ClaimedFit(env, s, op.req, r);
      OwnedFit(ClaimResult(env, s, op.req).value, op.req.tokenId, r);
    } else if op.AnnounceOp? {
      var conflicts := Reported(env, ApplyAll(s, AnnounceReport(env, s, op.req)), op.req, op.req.tunnels).1;
      KeptFit(op.req.tunnels, conflicts);
      OwnedFit(Keep(op.req.tunnels, conflicts), op.req.tokenId, r);
    }
  }

  lemma CallHolds(rules: Rules, reg: Reg, env: Env, op: Op, r: Reservation)
    requires Holds(rules, reg, r) && Keeps(reg, Call(env, op), r)
    ensures Holds(rules, Next(rules, reg, Call(env, op)), r)
  {
    hide Fits, Lists, Step, Answered, WellKeyed, EngineFits, InUse, JobFits;
    var e := Here(rules, reg, env);
    ListedIsReserved(rules, e, r);
    FactsGive(reg, env, op, r);
    StepFits(e, op, reg.engine, reg.told, r);
    TokenGiven(rules, r);
    AnsweredFit(e, reg.engine, op, reg.told, r);
    NewJobFits(Answered(e, reg.engine, op), r);
    ToldFit(Step(e, reg.engine, op), r);
  }

  lemma TokenGiven(rules: Rules, r: Reservation)
    requires InUse(rules, r)
    ensures r.tokenId != ""
  {
  }

  lemma FactsGive(reg: Reg, env: Env, op: Op, r: Reservation)
    requires FactsFit(reg.told, r) && Keeps(reg, Call(env, op), r)
    ensures CallFits(op, reg.told, r)
  {
    hide Fits;
    if op.AnnounceOp? {
      forall x | x in op.req.tunnels ensures Fits(r, x.name, x.publicPort, x.tokenId) {
        assert (x.name, x.publicPort, x.tokenId) in reg.told;
      }
    }
  }

  lemma NewJobFits(ts: seq<Tunnel>, r: Reservation)
    requires TunnelsFit(ts, r)
    ensures JobFits(Job(None, ts), r)
  {
  }

  lemma StepFits(env: Env, op: Op, s: State, told: set<Fact>, r: Reservation)
    requires Reserved(env, r) && WellKeyed(s) && EngineFits(s, r) && CallFits(op, told, r)
    ensures WellKeyed(Step(env, s, op)) && EngineFits(Step(env, s, op), r)
  {
    hide Reserved, CallFits, EngineFits, WellKeyed, Events;
    EventsLegal(env, s, op);
    WellKeyedKept(s, Events(env, s, op));
    TraceFits(env, op, s, Events(env, s, op), told, r);
  }

  lemma ToldFit(s: State, r: Reservation)
    requires EngineFits(s, r)
    ensures FactsFit(ToldBy(s), r)
  {
    hide Fits;
  }

  /** Writing a tunnel that fits leaves r listed, whether it gets through or not. */
  lemma WriteHolds(rules: Rules, existing: seq<Reservation>, rs: seq<Reservation>, t: Tunnel, up: bool, r: Reservation)
    requires Lists(existing, r) && Lists(rs, r) && Fits(r, t.name, t.publicPort, t.tokenId)
    ensures Lists(ReserveOne(rules, existing, rs, t, up), r)
  {
    OneKeepsUnique(rules, existing, rs, t, up);
    var i :| 0 <= i < |existing| && existing[i] == r;
    ListedReservation(existing, i);
    var k :| 0 <= k < |rs| && rs[k] == r;
    var x := Reservation(t.name, t.tokenId, t.publicPort);
    assert (rs + [x])[k] == r;
    if t.name != r.name { assert Put(rs, x)[k] == r; }
  }

  lemma ActHolds(rules: Rules, reg: Reg, act: Act, r: Reservation)
    requires Holds(rules, reg, r) && Keeps(reg, act, r)
    ensures Holds(rules, Next(rules, reg, act), r)
  {
    hide Fits, Lists, ReserveOne, Step, InUse, WellKeyed;
    match act
    case Call(env, op) => CallHolds(rules, reg, env, op, r);
    case Write(j, up) =>
      if j < |reg.jobs| && reg.jobs[j].existing.Some? && reg.jobs[j].todo != [] {
        var job := reg.jobs[j];
        assert JobFits(job, r) && job.todo[0] in job.todo;
        WriteHolds(rules, job.existing.value, reg.stored, job.todo[0], up, r);
      }
    case Restart(_) => EmptyKeyed();
    case _ =>
  }

  lemma EmptyKeyed()
    ensures WellKeyed(EmptyState)
  {
  }

  ghost predicate KeepsAll(rules: Rules, reg: Reg, acts: seq<Act>, r: Reservation) {
    acts == [] ||
    (KeepsAll(rules, reg, acts[..|acts| - 1], r) && Keeps(After(rules, reg, acts[..|acts| - 1]), acts[|acts| - 1], r))
  }

  /** In every run of claims, parks, releases, announcements of what the engine once
      said, sweeps, reservations whose writes may fail, reloads, operators' changes and
      restarts that reload, no other name gets the port, no other token the name, and
      the reservation stays. */
  lemma {:induction false} PortSurvivesRestarts(rules: Rules, reg: Reg, acts: seq<Act>, r: Reservation)
    requires Holds(rules, reg, r) && KeepsAll(rules, reg, acts, r)
    ensures Holds(rules, After(rules, reg, acts), r) && Respected(After(rules, reg, acts).engine, r)
  {
    hide Keeps, Next;
    if acts != [] {
      PortSurvivesRestarts(rules, reg, acts[..|acts| - 1], r);
      ActHolds(rules, After(rules, reg, acts[..|acts| - 1]), acts[|acts| - 1], r);
    }
  }

  /** And every claim of the name that is granted gets the port, or none if its kind
      has none. */
  lemma ClaimsGetThePort(rules: Rules, reg: Reg, env: Env, req: Request, i: nat, r: Reservation)
    requires Holds(rules, reg, r) && Keeps(reg, Call(env, ClaimOp(req)), r)
    requires ClaimResult(Here(rules, reg, env), reg.engine, req).Ok? && i < |req.tunnels| && req.tunnels[i].name == r.name
    ensures var recs := ClaimResult(Here(rules, reg, env), reg.engine, req).value;
            && |recs| == |req.tunnels| && recs[i].tokenId == r.tokenId
            && recs[i].publicPort == if HasPort(req.tunnels[i].kind) && !req.tunnels[i].accessToken then r.publicPort else 0
  {
    hide Reserved;
    var e := Here(rules, reg, env);
    ListedIsReserved(rules, e, r);
    GrantedKeepsSpec(e, reg.engine, req, i);
    GrantedPort(e, reg.engine, req, i);
    AcceptedClaimsRespect(e, reg.engine, r, req, i);
  }

  lemma GrantedPort(env: Env, s: State, req: Request, i: nat)
    requires ClaimResult(env, s, req).Ok? && i < |req.tunnels|
    ensures |ClaimResult(env, s, req).value| == |req.tunnels|
    ensures var t, x := ClaimResult(env, s, req).value[i], req.tunnels[i];
            && (!(HasPort(x.kind) && !x.accessToken) ==> t.publicPort == 0)
            && (HasPort(x.kind) && !x.accessToken && x.publicPort != 0 ==> t.publicPort == x.publicPort)
  {
    StageEach(env, s, req, req.tunnels, i);
    PortChoice(env, s, req, ClaimResult(env, s, req).value[..i], req.tunnels[i]);
  }

  // ---------------------------------------------------------------------
  // Restarts that cannot reload
  // ---------------------------------------------------------------------

  function Asking(name: string, tokenId: string): Request {
    Request("relay", "session", "agent", tokenId, 0, 0, 0,
            [Tunnel("", name, Http, "", [], 0, "", "", "", Active, 0, 0, 0, 0, 0, 0, false, "", false, 0)], [], 0, None, [], None, UnspecifiedReason)
  }

  /** A new engine without reservations gives the name to whoever asks. */
  lemma AnybodyGetsTheName(env: Env, name: string, tokenId: string)
    requires env.reservations == [] && env.rules.NameAllowed(name) && env.rules.Host(name) !in env.sites && tokenId != ""
    ensures var st := Step(env, EmptyState, ClaimOp(Asking(name, tokenId)));
            name in st.tunnels && st.tunnels[name].tokenId == tokenId
  {
    hide Step;
    var req := Asking(name, tokenId);
    var spec := req.tunnels[0];
    assert ActiveOf(EmptyState, tokenId) == {} && NamesOf([]) == {};
    assert ActiveCount(EmptyState, tokenId, name, []) == 0;
    assert Check(env, EmptyState, req, [], spec) == Ok(Claims.Granted(env, req, spec, 0));
    assert req.tunnels[..0] == [];
    assert Stage(env, EmptyState, req, []) == Ok([]);
    assert Stage(env, EmptyState, req, req.tunnels) == Ok([] + [Claims.Granted(env, req, spec, 0)]);
    ClaimAllOrNothing(env, EmptyState, req);
  }

  /** After a restart no claim can take the port or the name exactly when the
      reservations were reloaded. */
  lemma RestartNeedsTheReservations(rules: Rules, reg: Reg, env: Env, r: Reservation, loaded: bool)
    requires Holds(rules, reg, r) && rules.NameAllowed(r.name) && rules.Host(r.name) !in env.sites
    ensures var now := Next(rules, reg, Restart(loaded));
            (forall req: Request :: Respected(Step(Here(rules, now, env), now.engine, ClaimOp(req)), r)) <==> loaded
  {
    hide Step, Events;
    var now := Next(rules, reg, Restart(loaded));
    var e := Here(rules, now, env);
    EmptyKeyed();
    if loaded {
      ListedIsReserved(rules, e, r);
      forall req: Request ensures Respected(Step(e, now.engine, ClaimOp(req)), r) {
        EventsLegal(e, EmptyState, ClaimOp(req));
        RespectedStep(e, ClaimOp(req), r);
      }
    } else {
      var other := Asking(r.name, r.tokenId + "x");
      AnybodyGetsTheName(e, r.name, r.tokenId + "x");
      assert |r.tokenId + "x"| > |r.tokenId|;
      assert !Respected(Step(e, now.engine, ClaimOp(other)), r);
    }
  }

  lemma RespectedStep(env: Env, op: Op, r: Reservation)
    requires Reserved(env, r) && LegalTrace(env, op, EmptyState, Events(env, EmptyState, op)) && !op.AnnounceOp?
    ensures Respected(Step(env, EmptyState, op), r)
  {
    hide Events;
    EmptyKeyed();
    RespectedTrace(env, op, EmptyState, r, Events(env, EmptyState, op));
  }

  // ---------------------------------------------------------------------
  // How it begins
  // ---------------------------------------------------------------------

  lemma {:induction false} AfterMore(rules: Rules, reg: Reg, acts: seq<Act>, more: seq<Act>)
    ensures After(rules, reg, acts + more) == After(rules, After(rules, reg, acts), more)
  {
    hide Next;
    if more == [] {
      assert acts + more == acts;
    } else {
      AfterMore(rules, reg, acts, more[..|more| - 1]);
      assert (acts + more)[..|acts + more| - 1] == acts + more[..|more| - 1];
    }
  }

  function Writes(up: seq<bool>): (acts: seq<Act>)
    ensures |acts| == |up|
  {
    if up == [] then [] else Writes(up[..|up| - 1]) + [Write(0, up[|up| - 1])]
  }

  lemma {:induction false} AfterWrites(rules: Rules, reg: Reg, existing: seq<Reservation>, ts: seq<Tunnel>, up: seq<bool>)
    requires reg.jobs == [Job(Some(existing), ts)] && |up| <= |ts|
    ensures After(rules, reg, Writes(up)) ==
            reg.(stored := ReserveEach(rules, existing, reg.stored, ts[..|up|], up), jobs := [Job(Some(existing), ts[|up|..])])
  {
    hide ReserveOne, ToldBy, Answered, Here, Step;
    if up != [] {
      var n := |up| - 1;
      AfterWrites(rules, reg, existing, ts, up[..n]);
      assert Writes(up)[..n] == Writes(up[..n]);
      assert ts[..n + 1][..n] == ts[..n] && ts[n..][0] == ts[n] && ts[n..][1..] == ts[n + 1..];
    }
  }

  lemma {:induction false} OwnedSame(ts: seq<Tunnel>, tokenId: string)
    requires forall t | t in ts :: t.tokenId != ""
    ensures OwnedAll(ts, tokenId) == ts
  {
    if ts != [] {
      assert ts[|ts| - 1] in ts;
      OwnedSame(ts[..|ts| - 1], tokenId);
      assert ts == ts[..|ts| - 1] + [ts[|ts| - 1]];
    }
  }

  /** A claim and its background reservation, then a reload. */
  function ClaimAndReserve(env: Env, req: Request, up: seq<bool>): seq<Act> {
    [Call(env, ClaimOp(req)), Begin(0)] + Writes(up) + [Refresh]
  }

  lemma ClaimBegins(rules: Rules, reg: Reg, env: Env, req: Request)
    requires reg.jobs == [] && req.relayId != "" && ClaimResult(Here(rules, reg, env), reg.engine, req).Ok?
    ensures var e := Here(rules, reg, env);
            var begun := After(rules, reg, [Call(env, ClaimOp(req)), Begin(0)]);
            && begun.engine == Step(e, reg.engine, ClaimOp(req)) && begun.stored == reg.stored && begun.cached == reg.cached
            && begun.jobs == [Job(Some(reg.cached), ClaimResult(e, reg.engine, req).value)]
            && begun.told == reg.told + ToldBy(begun.engine)
  {
    hide Step, ClaimResult;
    var e := Here(rules, reg, env);
    var recs := ClaimResult(e, reg.engine, req).value;
    ClaimTokens(e, reg.engine, req);
    OwnedSame(recs, req.tokenId);
    var start := [Call(env, ClaimOp(req)), Begin(0)];
    assert start[..1] == [start[0]] && [start[0]][..0] == [];
    assert After(rules, reg, []) == reg && After(rules, reg, [start[0]]) == Next(rules, reg, start[0]);
  }

  lemma ClaimAndReserveOutcome(rules: Rules, reg: Reg, env: Env, req: Request, up: seq<bool>)
    requires reg.jobs == [] && req.relayId != "" && ClaimResult(Here(rules, reg, env), reg.engine, req).Ok?
    requires |up| == |ClaimResult(Here(rules, reg, env), reg.engine, req).value|
    ensures var e := Here(rules, reg, env);
            var recs := ClaimResult(e, reg.engine, req).value;
            var end, stored := After(rules, reg, ClaimAndReserve(env, req, up)), ReserveEach(rules, reg.cached, reg.stored, recs, up);
            && end.engine == Step(e, reg.engine, ClaimOp(req)) && end.stored == stored && end.cached == stored
            && end.jobs == [Job(Some(reg.cached), [])] && end.told == reg.told + ToldBy(end.engine)
  {
    hide Step, ClaimResult, ReserveEach, Here;
    var recs := ClaimResult(Here(rules, reg, env), reg.engine, req).value;
    var start := [Call(env, ClaimOp(req)), Begin(0)];
    var begun := After(rules, reg, start);
    ClaimBegins(rules, reg, env, req);
    AfterWrites(rules, begun, reg.cached, recs, up);
    assert recs[..|up|] == recs && recs[|up|..] == [];
    AfterMore(rules, reg, start, Writes(up));
    AfterMore(rules, reg, start + Writes(up), [Refresh]);
    var written := After(rules, begun, Writes(up));
    assert [Refresh][..0] == [];
    assert After(rules, written, []) == written;
    assert After(rules, written, [Refresh]) == Next(rules, written, Refresh);
  }

  lemma ClaimTokens(env: Env, s: State, req: Request)
    requires ClaimResult(env, s, req).Ok?
    ensures req.tokenId != "" && forall t | t in ClaimResult(env, s, req).value :: t.tokenId == req.tokenId
  {
    hide Check;
    var recs := ClaimResult(env, s, req).value;
    StageEach(env, s, req, req.tunnels, 0);
    forall t | t in recs ensures t.tokenId == req.tokenId {
      var i :| 0 <= i < |recs| && recs[i] == t;
      GrantedKeepsSpec(env, s, req, i);
    }
  }

  /** From a registry at rest, after a claim, its background writes and a reload, every
      assigned port whose write got through is the name's, in a state the permanence
      theorem starts from, exactly when nothing the relays were told before is against
      it: a relay may still announce that. */
  lemma PermanenceBegins(rules: Rules, reg: Reg, env: Env, req: Request, up: seq<bool>, i: nat)
    requires reg.jobs == [] && req.relayId != "" && reg.cached == reg.stored && Unique(reg.stored)
    requires Sound(reg.engine) && Complete(reg.engine) && ClaimResult(Here(rules, reg, env), reg.engine, req).Ok?
    requires rules.portMin <= LowPort(Here(rules, reg, env), req) && HighPort(Here(rules, reg, env), req) <= rules.portMax
    requires |up| == |ClaimResult(Here(rules, reg, env), reg.engine, req).value| && i < |up| && up[i]
    requires ClaimResult(Here(rules, reg, env), reg.engine, req).value[i].publicPort != 0
    ensures var t := ClaimResult(Here(rules, reg, env), reg.engine, req).value[i];
            var end := After(rules, reg, ClaimAndReserve(env, req, up));
            Holds(rules, end, Reservation(t.name, t.tokenId, t.publicPort)) <==>
            FactsFit(reg.told, Reservation(t.name, t.tokenId, t.publicPort))
  {
    hide Step, ClaimResult, ReserveEach, After, Sound, Complete, Unique;
    var e := Here(rules, reg, env);
    var t := ClaimResult(e, reg.engine, req).value[i];
    var r := Reservation(t.name, t.tokenId, t.publicPort);
    var end := After(rules, reg, ClaimAndReserve(env, req, up));
    ClaimAndReserveOutcome(rules, reg, env, req, up);
    var later := e.(reservations := end.stored);
    AssignedPortsAreReserved(e, reg.engine, req, up, i, later);
    ReservationIsListed(later.reservations, r.name);
    ClaimTokens(e, reg.engine, req);
    ClaimedFits(e, reg.engine, req, i);
    ToldFit(end.engine, r);
  }

  lemma ClaimedFits(env: Env, s: State, req: Request, i: nat)
    requires Sound(s) && Complete(s) && req.relayId != "" && ClaimResult(env, s, req).Ok? && i < |ClaimResult(env, s, req).value|
    requires ClaimResult(env, s, req).value[i].publicPort != 0
    ensures var t := ClaimResult(env, s, req).value[i];
            WellKeyed(Step(env, s, ClaimOp(req))) && EngineFits(Step(env, s, ClaimOp(req)), Reservation(t.name, t.tokenId, t.publicPort))
  {
    hide Step, ClaimResult, Events, Sound, Complete;
    SoundKept(s, Events(env, s, ClaimOp(req)));
    SoundIsKeyed(s);
    EventsLegal(env, s, ClaimOp(req));
    CompleteKept(env, ClaimOp(req), s, Events(env, s, ClaimOp(req)));
    ClaimAllOrNothing(env, s, req);
    var u := Step(env, s, ClaimOp(req));
    StepIs(env, s, ClaimOp(req));
    SoundIsKeyed(u);
    CompleteIsExclusive(u);
  }

  lemma StepIs(env: Env, s: State, op: Op)
    ensures Step(env, s, op) == ApplyAll(s, Events(env, s, op))
  {
  }
}
