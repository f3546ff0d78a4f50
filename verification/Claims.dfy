/** The claims engine as a function of its state: which changes each request
    reports, and what a change does to the engine's five maps
    (go/tunnel/claims). The class in Engine.dfy is proved against it. */
module Claims {
  import opened Wrappers
  import opened Records
  import opened ClaimRules

  /** What a claim is checked against, and the clock of one call in whole seconds; the
      spans are by how many of them the clock of that call changes over each, so a
      span of less than a second may be 0 or 1. */
  datatype Env = Env(
    rules: Rules, grace: int, relayTimeout: int, offlineRetention: int, downRetention: int, allowSimulated: bool,
    now: int, reservations: seq<Reservation>, sites: set<string>)

  datatype State = State(
    tunnels: map<string, Tunnel>, byPort: map<int, string>, byDomain: map<string, string>,
    agents: map<string, Agent>, relays: map<string, Relay>)

  const EmptyState := State(map[], map[], map[], map[], map[])

  datatype Change = Created | Updated | Moved | Deleted

  /** What the sink is told. */
  datatype Event =
    | TunnelChanged(tunnel: Tunnel, change: Change)
    | AgentChanged(agent: Agent, change: Change)
    | RelayChanged(relay: Relay, change: Change)
    | CommandSent(cmd: Command)

  // ---------------------------------------------------------------------
  // One change
  // ---------------------------------------------------------------------

  /** A Go map read: "" when the key is absent. */
  function Owner<K>(index: map<K, string>, k: K): string {
    if k in index then index[k] else ""
  }

  function UnindexPort(byPort: map<int, string>, rec: Tunnel): map<int, string> {
    if rec.publicPort != 0 && Owner(byPort, rec.publicPort) == rec.name then byPort - {rec.publicPort} else byPort
  }

  function UnindexDomains(byDomain: map<string, string>, rec: Tunnel): map<string, string> {
    map d | d in byDomain && !(d in rec.domains && byDomain[d] == rec.name) :: byDomain[d]
  }

  function Unindexed(s: State, rec: Tunnel): State {
    s.(byPort := UnindexPort(s.byPort, rec), byDomain := UnindexDomains(s.byDomain, rec))
  }

  function IndexPort(byPort: map<int, string>, rec: Tunnel): map<int, string> {
    if rec.publicPort != 0 then byPort[rec.publicPort := rec.name] else byPort
  }

  function IndexDomains(byDomain: map<string, string>, rec: Tunnel): map<string, string> {
    byDomain + map d | d in rec.domains :: rec.name
  }

  /** setTunnel: the record and its port and domains replace the name's old ones. */
  function Stored(s: State, rec: Tunnel): State {
    var u := if rec.name in s.tunnels then Unindexed(s, s.tunnels[rec.name]) else s;
    u.(tunnels := u.tunnels[rec.name := rec],
       byPort := IndexPort(u.byPort, rec), byDomain := IndexDomains(u.byDomain, rec))
  }

  function Removed(s: State, name: string): State {
    if name in s.tunnels then
      var u := Unindexed(s, s.tunnels[name]);
      u.(tunnels := u.tunnels - {name})
    else s
  }

  function Apply(s: State, e: Event): State {
    match e
    case TunnelChanged(t, change) => if change == Deleted then Removed(s, t.name) else Stored(s, t)
    case AgentChanged(a, change) =>
      s.(agents := if change == Deleted then s.agents - {a.agentId} else s.agents[a.agentId := a])
    case RelayChanged(r, change) =>
      s.(relays := if change == Deleted then s.relays - {r.relayId} else s.relays[r.relayId := r])
    case CommandSent(_) => s
  }

  function ApplyAll(s: State, es: seq<Event>): State {
    if es == [] then s else Apply(ApplyAll(s, es[..|es| - 1]), es[|es| - 1])
  }

  /** The change setTunnel reports: a change of relay, state or port moves traffic. */
  function StoreEvent(s: State, rec: Tunnel): Event {
    TunnelChanged(rec,
      if rec.name !in s.tunnels then Created
      else
        var cur := s.tunnels[rec.name];
        if cur.relayId != rec.relayId || cur.state != rec.state || cur.publicPort != rec.publicPort then Moved
        else Updated)
  }

  function AgentEvent(s: State, a: Agent): Event {
    AgentChanged(a, if a.agentId in s.agents then Updated else Created)
  }

  function RelayEvent(s: State, r: Relay): Event {
    RelayChanged(r, if r.relayId in s.relays then Updated else Created)
  }

  /** The events of a loop: each step sees the state the earlier ones left. */
  function ForEach<T>(s: State, xs: seq<T>, step: (State, T) -> seq<Event>): seq<Event> {
    if xs == [] then [] else
      var es := ForEach(s, xs[..|xs| - 1], step);
      es + step(ApplyAll(s, es), xs[|xs| - 1])
  }

  // ---------------------------------------------------------------------
  // CLAIM
  // ---------------------------------------------------------------------

  datatype ClaimError = NameTaken | MaxTunnels | PortUnavailable | PortNotAllowed | Forbidden | Invalid

  /** Why no port was assigned; Held and NoneFree are both reported as PortUnavailable. */
  datatype PortError = OutsideRange | Held | NoneFree

  /** The last reservation listed for a name. */
  function ReservationOf(rs: seq<Reservation>, name: string): Option<Reservation> {
    if rs == [] then None
    else if rs[|rs| - 1].name == name then Some(rs[|rs| - 1])
    else ReservationOf(rs[..|rs| - 1], name)
  }

  predicate ReservedByOther(rs: seq<Reservation>, port: int, name: string) {
    exists r | r in rs :: r.publicPort == port && r.name != name
  }

  /** The token's connected tunnels. */
  function ActiveOf(s: State, tokenId: string): set<string> {
    set n | n in s.tunnels && s.tunnels[n].tokenId == tokenId && s.tunnels[n].state == Active
  }

  function NamesOf(recs: seq<Tunnel>): set<string> { set t | t in recs :: t.name }

  function PortsOf(recs: seq<Tunnel>): set<int> { set t | t in recs && t.publicPort != 0 :: t.publicPort }

  function DomainsOf(recs: seq<Tunnel>): set<string> { set t, d | t in recs && d in t.domains :: d }

  /** The token's connected tunnels other than name, with the ones staged in
      this request counted once each. */
  function ActiveCount(s: State, tokenId: string, name: string, recs: seq<Tunnel>): nat {
    |ActiveOf(s, tokenId) - {name} - NamesOf(recs)| + |recs|
  }

  predicate HasPort(kind: TunnelType) { kind == Tcp || kind == Ssh }

  /** Nobody else holds, has staged or has reserved the port. */
  predicate PortFree(env: Env, s: State, recs: seq<Tunnel>, name: string, port: int) {
    && (Owner(s.byPort, port) == "" || Owner(s.byPort, port) == name)
    && port !in PortsOf(recs)
    && !ReservedByOther(env.reservations, port, name)
  }

  function LowPort(env: Env, req: Request): int { if req.portMin == 0 then env.rules.portMin else req.portMin }

  function HighPort(env: Env, req: Request): int { if req.portMin == 0 then env.rules.portMax else req.portMax }

  function FirstFree(env: Env, s: State, recs: seq<Tunnel>, name: string, lo: int, hi: int): Option<int>
    decreases hi - lo
  {
    if lo > hi then None
    else if PortFree(env, s, recs, name, lo) then Some(lo)
    else FirstFree(env, s, recs, name, lo + 1, hi)
  }

  /** The port asked for outright: requested, else reserved, else held. */
  function WantedPort(env: Env, s: State, spec: Tunnel): int {
    var resv := ReservationOf(env.reservations, spec.name);
    if spec.publicPort != 0 then spec.publicPort
    else if resv.Some? && resv.value.publicPort != 0 then resv.value.publicPort
    else if spec.name in s.tunnels then s.tunnels[spec.name].publicPort
    else 0
  }

  function ChoosePort(env: Env, s: State, req: Request, recs: seq<Tunnel>, spec: Tunnel): Result<int, PortError> {
    var lo, hi := LowPort(env, req), HighPort(env, req);
    var want := WantedPort(env, s, spec);
    if want == 0 && lo <= spec.previousPort <= hi && PortFree(env, s, recs, spec.name, spec.previousPort) then
      Ok(spec.previousPort)
    else if want != 0 then
      if want < env.rules.portMin || want > env.rules.portMax then Err(OutsideRange)
      else if !PortFree(env, s, recs, spec.name, want) then Err(Held)
      else Ok(want)
    else
      match FirstFree(env, s, recs, spec.name, lo, hi)
      case Some(p) => Ok(p)
      case None => Err(NoneFree)
  }

  function HolderOf(s: State, req: Request, name: string): Option<Holder> {
    if name in s.tunnels then
      var t := s.tunnels[name];
      Some(Holder(t.tokenId, t.agentId, t.state == Active, t.sessionId == req.sessionId))
    else None
  }

  predicate DomainsFree(s: State, recs: seq<Tunnel>, spec: Tunnel) {
    forall d | d in spec.domains ::
      (Owner(s.byDomain, d) == "" || Owner(s.byDomain, d) == spec.name) && d !in DomainsOf(recs)
  }

  /** The record a granted claim stores. */
  function Granted(env: Env, req: Request, spec: Tunnel, port: int): Tunnel {
    spec.(relayId := req.relayId, agentId := req.agentId, tokenId := req.tokenId, sessionId := req.sessionId,
          state := Active, connectedAt := env.now, graceUntil := 0,
          activeConns := 0, totalConns := 0, bytesIn := 0, bytesOut := 0, publicPort := port, previousPort := 0)
  }

  /** Why the name's holder or the token's cap refuses the claim. */
  function HolderRefusal(s: State, req: Request, recs: seq<Tunnel>, spec: Tunnel): Option<ClaimError> {
    match Decide(HolderOf(s, req, spec.name), req.tokenId, req.agentId,
                 ActiveCount(s, req.tokenId, spec.name, recs), req.maxTunnels)
    case Ok(_) => None
    case Err(CapReached) => Some(MaxTunnels)
    case Err(Taken) => Some(NameTaken)
  }

  /** Why the rules refuse a name, ports and domains aside. */
  function NameRefusal(env: Env, s: State, req: Request, recs: seq<Tunnel>, spec: Tunnel): Option<ClaimError> {
    var resv := ReservationOf(env.reservations, spec.name);
    if spec.simulated && !env.allowSimulated then Some(Forbidden)
    else if spec.name in NamesOf(recs) then Some(Invalid)
    else if !env.rules.NameAllowed(spec.name) then Some(Invalid)
    else if env.rules.Host(spec.name) in env.sites then Some(NameTaken)
    else if resv.Some? && resv.value.tokenId != req.tokenId then Some(NameTaken)
    else HolderRefusal(s, req, recs, spec)
  }

  /** One tunnel of a claim, checked against the state and the records staged so far. */
  function Check(env: Env, s: State, req: Request, recs: seq<Tunnel>, spec: Tunnel): Result<Tunnel, ClaimError> {
    match NameRefusal(env, s, req, recs, spec)
    case Some(e) => Err(e)
    case None =>
      if !DomainsFree(s, recs, spec) then Err(NameTaken)
      else if HasPort(spec.kind) && !spec.accessToken then
        match ChoosePort(env, s, req, recs, spec)
        case Ok(port) => Ok(Granted(env, req, spec, port))
        case Err(OutsideRange) => Err(PortNotAllowed)
        case Err(_) => Err(PortUnavailable)
      else Ok(Granted(env, req, spec, 0))
  }

  function Stage(env: Env, s: State, req: Request, specs: seq<Tunnel>): Result<seq<Tunnel>, ClaimError> {
    if specs == [] then Ok([]) else
      match Stage(env, s, req, specs[..|specs| - 1])
      case Err(e) => Err(e)
      case Ok(recs) =>
        match Check(env, s, req, recs, specs[|specs| - 1])
        case Err(e) => Err(e)
        case Ok(rec) => Ok(recs + [rec])
  }

  function ClaimResult(env: Env, s: State, req: Request): Result<seq<Tunnel>, ClaimError> {
    if req.tunnels == [] then Err(Invalid)
    else if req.agentId == "" || req.tokenId == "" || req.sessionId == "" then Err(Invalid)
    else Stage(env, s, req, req.tunnels)
  }

  /** The claim replaces a tunnel that is still connected through another relay. */
  predicate TakesOver(s: State, req: Request, name: string) {
    name in s.tunnels && s.tunnels[name].state == Active && s.tunnels[name].relayId != req.relayId
  }

  function TakeoverCommands(s: State, req: Request, specs: seq<Tunnel>): seq<Event> {
    if specs == [] then [] else
      var name := specs[|specs| - 1].name;
      TakeoverCommands(s, req, specs[..|specs| - 1]) +
      if TakesOver(s, req, name) then
        var cur := s.tunnels[name];
        [CommandSent(Command(TakenOver, cur.relayId, cur.agentId, cur.tunnelId))]
      else []
  }

  function StoreStep(): (State, Tunnel) -> seq<Event> { (s: State, rec: Tunnel) => [StoreEvent(s, rec)] }

  function ClaimEvents(env: Env, s: State, req: Request): seq<Event> {
    match ClaimResult(env, s, req)
    case Err(_) => []
    case Ok(recs) => ForEach(s, recs, StoreStep()) + TakeoverCommands(s, req, req.tunnels)
  }

  // ---------------------------------------------------------------------
  // PARK and RELEASE
  // ---------------------------------------------------------------------

  /** The request comes from the relay and session that serve the record; an
      empty session id stands for any session of the relay. */
  predicate Serves(req: Request, rec: Tunnel) {
    rec.relayId == req.relayId && (req.sessionId == "" || rec.sessionId == req.sessionId)
  }

  function Parked(rec: Tunnel, until: int): Tunnel {
    rec.(state := Grace, graceUntil := until, activeConns := 0)
  }

  function ParkUntil(env: Env, req: Request): int {
    if req.graceUntil == 0 then env.now + env.grace else req.graceUntil
  }

  function ParkStep(req: Request, until: int): (State, string) -> seq<Event> {
    (s: State, name: string) =>
      if name in s.tunnels && Serves(req, s.tunnels[name]) then [StoreEvent(s, Parked(s.tunnels[name], until))] else []
  }

  function ReleaseStep(req: Request): (State, string) -> seq<Event> {
    (s: State, name: string) =>
      if name in s.tunnels && Serves(req, s.tunnels[name]) then [TunnelChanged(s.tunnels[name], Deleted)] else []
  }

  // ---------------------------------------------------------------------
  // ANNOUNCE and HEARTBEAT
  // ---------------------------------------------------------------------

  function TouchedRelay(env: Env, s: State, id: string, report: Option<Relay>): Relay {
    var rec := if report.Some? then report.value.(relayId := id)
               else Relay(id, "", Ready, 0, 0, 0, 0, false, "");
    var up := if rec.state == UnspecifiedRelay || rec.state == Down then rec.(state := Ready) else rec;
    var seen := up.(lastSeen := env.now);
    if id in s.relays && seen.startedAt == 0 then seen.(startedAt := s.relays[id].startedAt) else seen
  }

  /** Another relay serves the name for a different agent. */
  predicate Conflicts(s: State, req: Request, t: Tunnel) {
    && t.name in s.tunnels
    && var cur := s.tunnels[t.name];
       cur.relayId != req.relayId && cur.state == Active && cur.agentId != t.agentId
  }

  function Announced(req: Request, t: Tunnel): Tunnel {
    var rec := t.(relayId := req.relayId);
    if rec.state == UnspecifiedLive then rec.(state := Active) else rec
  }

  function AnnounceStep(env: Env, req: Request): (State, Tunnel) -> seq<Event> {
    (s: State, t: Tunnel) =>
      if (t.simulated && !env.allowSimulated) || Conflicts(s, req, t) then [] else [StoreEvent(s, Announced(req, t))]
  }

  /** The names stored, and the names refused as conflicts, while the tunnels
      in ts are announced. */
  function Reported(env: Env, s: State, req: Request, ts: seq<Tunnel>): (set<string>, seq<string>) {
    if ts == [] then ({}, []) else
      var (stored, conflicts) := Reported(env, s, req, ts[..|ts| - 1]);
      var t := ts[|ts| - 1];
      var now := ApplyAll(s, ForEach(s, ts[..|ts| - 1], AnnounceStep(env, req)));
      if t.simulated && !env.allowSimulated then (stored, conflicts)
      else if Conflicts(now, req, t) then (stored, conflicts + [t.name])
      else (stored + {t.name}, conflicts)
  }

  function UnreportedStep(env: Env, req: Request, reported: set<string>): (State, string) -> seq<Event> {
    (s: State, name: string) =>
      if name in s.tunnels && s.tunnels[name].relayId == req.relayId && name !in reported && s.tunnels[name].state == Active
      then [StoreEvent(s, s.tunnels[name].(state := Grace, graceUntil := env.now + env.grace))] else []
  }

  function AnnounceAgentStep(env: Env, req: Request): (State, Agent) -> seq<Event> {
    (s: State, a: Agent) =>
      if a.simulated && !env.allowSimulated then [] else [AgentEvent(s, a.(relayId := req.relayId))]
  }

  predicate AnnounceRefused(env: Env, req: Request) {
    req.relay.Some? && req.relay.value.simulated && !env.allowSimulated
  }

  function RelayReport(env: Env, s: State, req: Request): seq<Event> {
    [RelayEvent(s, TouchedRelay(env, s, req.relayId, req.relay))]
  }

  function AnnounceReport(env: Env, s: State, req: Request): seq<Event> {
    if req.relay.Some? then RelayReport(env, s, req) else []
  }

  /** order is the order in which the runtime visits the tunnels map. */
  function AnnounceEvents(env: Env, s: State, req: Request, order: seq<string>): seq<Event> {
    if AnnounceRefused(env, req) then [] else
      var es0 := AnnounceReport(env, s, req);
      var s0 := ApplyAll(s, es0);
      var es1 := ForEach(s0, req.tunnels, AnnounceStep(env, req));
      var s1 := ApplyAll(s0, es1);
      var es2 := ForEach(s1, order, UnreportedStep(env, req, Reported(env, s0, req, req.tunnels).0));
      var s2 := ApplyAll(s1, es2);
      es0 + es1 + es2 + ForEach(s2, req.agents, AnnounceAgentStep(env, req))
  }

  predicate SameCounters(a: Tunnel, b: Tunnel) {
    a.activeConns == b.activeConns && a.totalConns == b.totalConns && a.bytesIn == b.bytesIn && a.bytesOut == b.bytesOut
  }

  function WithCounters(rec: Tunnel, t: Tunnel): Tunnel {
    rec.(activeConns := t.activeConns, totalConns := t.totalConns, bytesIn := t.bytesIn, bytesOut := t.bytesOut)
  }

  function CountersStep(req: Request): (State, Tunnel) -> seq<Event> {
    (s: State, t: Tunnel) =>
      if t.name in s.tunnels && s.tunnels[t.name].relayId == req.relayId && s.tunnels[t.name].state == Active
         && !SameCounters(s.tunnels[t.name], t)
      then [StoreEvent(s, WithCounters(s.tunnels[t.name], t))] else []
  }

  function AgentBeatStep(env: Env, req: Request): (State, Agent) -> seq<Event> {
    (s: State, a: Agent) =>
      if a.agentId in s.agents && s.agents[a.agentId].relayId == req.relayId && s.agents[a.agentId].sessionId == a.sessionId
      then [AgentEvent(s, s.agents[a.agentId].(
              lastHeartbeat := a.lastHeartbeat, rttUs := a.rttUs, tunnelCount := a.tunnelCount,
              activeStreams := a.activeStreams, bytesIn := a.bytesIn, bytesOut := a.bytesOut, lastSeen := env.now))]
      else []
  }

  function HeartbeatEvents(env: Env, s: State, req: Request): seq<Event> {
    var es0 := RelayReport(env, s, req);
    var s0 := ApplyAll(s, es0);
    var es1 := ForEach(s0, req.tunnels, CountersStep(req));
    es0 + es1 + ForEach(ApplyAll(s0, es1), req.agents, AgentBeatStep(env, req))
  }

  // ---------------------------------------------------------------------
  // AGENT_UP and AGENT_DOWN
  // ---------------------------------------------------------------------

  function AgentUpRefusal(env: Env, req: Request): Option<ClaimError> {
    if req.agent.None? || req.agent.value.agentId == "" || req.agent.value.sessionId == "" then Some(Invalid)
    else if req.agent.value.simulated && !env.allowSimulated then Some(Forbidden)
    else None
  }

  function AgentUpEvents(env: Env, s: State, req: Request): seq<Event> {
    if AgentUpRefusal(env, req).Some? then [] else
      var a := req.agent.value;
      [AgentEvent(s, a.(relayId := req.relayId, state := Online, graceUntil := 0, reason := UnspecifiedReason,
                        connectedAt := if a.connectedAt == 0 then env.now else a.connectedAt,
                        lastSeen := env.now, lastHeartbeat := env.now))]
  }

  /** The agent's names are held for the grace period, unless its token was revoked. */
  function DownAgent(env: Env, a: Agent, reason: Reason): Agent {
    a.(state := if reason == TokenRevoked then Offline else AgentGrace, reason := reason,
       graceUntil := if reason == TokenRevoked then 0 else env.now + env.grace, lastSeen := env.now, activeStreams := 0)
  }

  function AgentDownEvents(env: Env, s: State, req: Request): seq<Event> {
    if req.agentId in s.agents && s.agents[req.agentId].relayId == req.relayId
       && s.agents[req.agentId].sessionId == req.sessionId
    then [AgentEvent(s, DownAgent(env, s.agents[req.agentId], req.reason))] else []
  }

  // ---------------------------------------------------------------------
  // Sweep
  // ---------------------------------------------------------------------

  /** One relay as Sweep comes to it, with the orders in which the runtime
      visits the tunnels and agents if the relay turns out to be lost. */
  datatype RelayVisit = RelayVisit(id: string, tunnels: seq<string>, agents: seq<string>)

  /** The orders in which the runtime visits the maps during one Sweep. */
  datatype SweepOrder = SweepOrder(relays: seq<RelayVisit>, tunnels: seq<string>, agents: seq<string>)

  predicate IsLost(env: Env, r: Relay) {
    !r.simulated && r.state != Down && r.lastSeen < env.now - env.relayTimeout
  }

  predicate IsForgotten(env: Env, r: Relay) {
    !r.simulated && r.state == Down && r.lastSeen < env.now - env.downRetention
  }

  function LostTunnelStep(env: Env, id: string): (State, string) -> seq<Event> {
    (s: State, name: string) =>
      if name in s.tunnels && s.tunnels[name].relayId == id && s.tunnels[name].state == Active
      then [StoreEvent(s, Parked(s.tunnels[name], env.now + env.grace))] else []
  }

  function LostAgentStep(env: Env, id: string): (State, string) -> seq<Event> {
    (s: State, agentId: string) =>
      if agentId in s.agents && s.agents[agentId].relayId == id && s.agents[agentId].state == Online
      then [AgentEvent(s, DownAgent(env, s.agents[agentId], RelayLost))] else []
  }

  function LostEvents(env: Env, s: State, r: Relay, visit: RelayVisit): seq<Event> {
    var es0 := [RelayEvent(s, r.(state := Down, sessions := 0, tunnels := 0))];
    var s0 := ApplyAll(s, es0);
    var es1 := ForEach(s0, visit.tunnels, LostTunnelStep(env, visit.id));
    es0 + es1 + ForEach(ApplyAll(s0, es1), visit.agents, LostAgentStep(env, visit.id))
  }

  function SweepRelayStep(env: Env): (State, RelayVisit) -> seq<Event> {
    (s: State, visit: RelayVisit) =>
      if visit.id !in s.relays then []
      else if IsLost(env, s.relays[visit.id]) then LostEvents(env, s, s.relays[visit.id], visit)
      else if IsForgotten(env, s.relays[visit.id]) then [RelayChanged(s.relays[visit.id], Deleted)]
      else []
  }

  predicate IsExpired(env: Env, t: Tunnel) {
    !t.simulated && t.state == Grace && t.graceUntil <= env.now
  }

  function SweepTunnelStep(env: Env): (State, string) -> seq<Event> {
    (s: State, name: string) =>
      if name in s.tunnels && IsExpired(env, s.tunnels[name]) then [TunnelChanged(s.tunnels[name], Deleted)] else []
  }

  function SweepAgentStep(env: Env): (State, string) -> seq<Event> {
    (s: State, id: string) =>
      if id !in s.agents || s.agents[id].simulated then []
      else if s.agents[id].state == AgentGrace && s.agents[id].graceUntil <= env.now then
        [AgentEvent(s, s.agents[id].(state := Offline, graceUntil := 0))]
      else if s.agents[id].state == Offline && s.agents[id].lastSeen < env.now - env.offlineRetention then
        [AgentChanged(s.agents[id], Deleted)]
      else []
  }

  function SweepEvents(env: Env, s: State, order: SweepOrder): seq<Event> {
    var es0 := ForEach(s, order.relays, SweepRelayStep(env));
    var s0 := ApplyAll(s, es0);
    var es1 := ForEach(s0, order.tunnels, SweepTunnelStep(env));
    es0 + es1 + ForEach(ApplyAll(s0, es1), order.agents, SweepAgentStep(env))
  }

  // ---------------------------------------------------------------------
  // Command
  // ---------------------------------------------------------------------

  datatype CommandError = NotFound | Unsupported

  predicate IsConnected(s: State, name: string, tunnelId: string) {
    name in s.tunnels && s.tunnels[name].tunnelId == tunnelId && s.tunnels[name].state == Active
  }

  /** pick is the connected tunnel with the command's id that the scan finds. */
  function CommandResult(s: State, cmd: Command, pick: string): Result<Command, CommandError> {
    match cmd.kind
    case Drain | Resume =>
      if cmd.relayId in s.relays && s.relays[cmd.relayId].state != Down then Ok(cmd) else Err(NotFound)
    case DisconnectAgent =>
      if cmd.agentId in s.agents && s.agents[cmd.agentId].state == Online
      then Ok(cmd.(relayId := s.agents[cmd.agentId].relayId)) else Err(NotFound)
    case DisconnectTunnel =>
      if IsConnected(s, pick, cmd.tunnelId)
      then Ok(cmd.(relayId := s.tunnels[pick].relayId, agentId := s.tunnels[pick].agentId)) else Err(NotFound)
    case Reannounce => Ok(cmd)
    case _ => Err(Unsupported)
  }

  function CommandEvents(s: State, cmd: Command, pick: string): seq<Event> {
    match CommandResult(s, cmd, pick)
    case Err(_) => []
    case Ok(filled) =>
      (if cmd.kind == Drain || cmd.kind == Resume
       then [RelayEvent(s, s.relays[cmd.relayId].(state := if cmd.kind == Drain then Draining else Ready))] else [])
      + [CommandSent(filled)]
  }

  // ---------------------------------------------------------------------
  // Runs
  // ---------------------------------------------------------------------

  /** One call of the engine, with the map orders it happened to use. */
  datatype Op =
    | ClaimOp(req: Request)
    | ParkOp(req: Request)
    | ReleaseOp(req: Request)
    | AnnounceOp(req: Request, order: seq<string>)
    | HeartbeatOp(req: Request)
    | AgentUpOp(req: Request)
    | AgentDownOp(req: Request)
    | SweepOp(sweep: SweepOrder)
    | CommandOp(cmd: Command, pick: string)

  /** A relay request without a relay id is refused before it reaches the maps. */
  predicate Anonymous(op: Op) {
    !op.SweepOp? && !op.CommandOp? && op.req.relayId == ""
  }

  function Events(env: Env, s: State, op: Op): seq<Event> {
    if Anonymous(op) then [] else
    match op
    case ClaimOp(req) => ClaimEvents(env, s, req)
    case ParkOp(req) => ForEach(s, req.names, ParkStep(req, ParkUntil(env, req)))
    case ReleaseOp(req) => ForEach(s, req.names, ReleaseStep(req))
    case AnnounceOp(req, order) => AnnounceEvents(env, s, req, order)
    case HeartbeatOp(req) => HeartbeatEvents(env, s, req)
    case AgentUpOp(req) => AgentUpEvents(env, s, req)
    case AgentDownOp(req) => AgentDownEvents(env, s, req)
    case SweepOp(order) => SweepEvents(env, s, order)
    case CommandOp(cmd, pick) => CommandEvents(s, cmd, pick)
  }

  function Step(env: Env, s: State, op: Op): State { ApplyAll(s, Events(env, s, op)) }

  /** The calls of a run in order, each with its own clock reading and directory. */
  type Run = seq<(Env, Op)>

  function Exec(s: State, run: Run): State {
    if run == [] then s else
      var (env, op) := run[|run| - 1];
      Step(env, Exec(s, run[..|run| - 1]), op)
  }

  function Log(s: State, run: Run): seq<Event> {
    if run == [] then [] else
      var (env, op) := run[|run| - 1];
      Log(s, run[..|run| - 1]) + Events(env, Exec(s, run[..|run| - 1]), op)
  }
}
