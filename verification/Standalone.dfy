/** The names, domains and public ports of a standalone relay as a state machine
    over its locked sections (go/tunnel/relay/registry.go). A reservation is known
    by a handle, so that a section still holding one that was released meanwhile,
    or an expiry that fires late, can be stated. */
module Standalone {
  import opened Wrappers
  import opened Records
  import opened ClaimRules

  type Handle = nat

  /** session and tunnel are None while parked; armed while an expiry is due. */
  datatype Entry = Entry(
    name: string, kind: TunnelType, tokenId: string, agentId: string, port: int, domains: seq<string>,
    permanent: bool, session: Option<string>, tunnel: Option<string>, armed: bool, expires: int)

  /** entries holds every reservation ever made, next is the next one's handle;
      those in names are registered. binding are the ports reserved while a
      listener is being bound to them. */
  datatype State = State(
    entries: map<Handle, Entry>, next: Handle, names: map<string, Handle>, domains: map<string, Handle>,
    ports: set<int>, binding: set<int>, closed: bool)

  /** The grace period, and whether a cluster's registry holds the names. */
  datatype Config = Config(grace: int, clustered: bool)

  const EmptyState := State(map[], 0, map[], map[], {}, {}, false)

  predicate Registered(s: State, h: Handle) {
    h in s.entries && s.entries[h].name in s.names && s.names[s.entries[h].name] == h
  }

  function With(s: State, h: Handle, e: Entry): State { s.(entries := s.entries[h := e]) }

  // ---------------------------------------------------------------------
  // The locked sections
  // ---------------------------------------------------------------------

  /** The names of the token's connected reservations. */
  function ConnectedOf(s: State, tokenId: string): set<string> {
    set n | n in s.names && s.names[n] in s.entries && s.entries[s.names[n]].tokenId == tokenId &&
            s.entries[s.names[n]].session.Some?
  }

  function HolderOf(s: State, name: string, session: string): Option<Holder> {
    if name in s.names && s.names[name] in s.entries then
      var e := s.entries[s.names[name]];
      Some(Holder(e.tokenId, e.agentId, e.session.Some?, e.session == Some(session)))
    else None
  }

  /** How a claim of the name is decided. */
  function ClaimAnswer(s: State, name: string, tokenId: string, agentId: string, session: string, maxTunnels: int):
    Result<Decision, Refusal>
  {
    Decide(HolderOf(s, name, session), tokenId, agentId, |ConnectedOf(s, tokenId) - {name}|, maxTunnels)
  }

  function Claimed(s: State, name: string, kind: TunnelType, tokenId: string, agentId: string, session: string, maxTunnels: int): State {
    match ClaimAnswer(s, name, tokenId, agentId, session, maxTunnels)
    case Err(_) => s
    case Ok(New) =>
      s.(entries := s.entries[s.next := Entry(name, kind, tokenId, agentId, 0, [], false, Some(session), None, false, 0)],
         names := s.names[name := s.next], next := s.next + 1)
    case Ok(_) =>
      var h := s.names[name];
      With(s, h, s.entries[h].(kind := kind, agentId := agentId, session := Some(session), tunnel := None, armed := false))
  }

  /** deleteLocked. */
  function Deleted(s: State, h: Handle): State
    requires h in s.entries
  {
    var e := s.entries[h];
    s.(entries := s.entries[h := e.(armed := false)],
       names := if Registered(s, h) then s.names - {e.name} else s.names,
       ports := if e.port != 0 then s.ports - {e.port} else s.ports,
       domains := map d | d in s.domains && !(d in e.domains && s.domains[d] == h) :: s.domains[d])
  }

  function Parked(s: State, cfg: Config, h: Handle, session: string, now: int): State
    requires h in s.entries
  {
    var e := s.entries[h];
    if e.session != Some(session) then s else
      var left := e.(session := None, tunnel := None);
      var t := With(s, h, left);
      if !Registered(s, h) then t
      else if (s.closed || cfg.clustered) && !e.permanent then Deleted(t, h)
      else if !e.permanent then With(s, h, left.(expires := now + cfg.grace, armed := true))
      else t
  }

  function RolledBack(s: State, cfg: Config, h: Handle, session: string, existed: bool, now: int): State
    requires h in s.entries
  {
    if existed then Parked(s, cfg, h, session, now)
    else if s.entries[h].session == Some(session) then Deleted(s, h)
    else s
  }

  function Expired(s: State, h: Handle): State
    requires h in s.entries
  {
    if Registered(s, h) && s.entries[h].session.None? && !s.entries[h].permanent then Deleted(s, h) else s
  }

  /** The first of the domains another reservation holds. */
  function TakenDomain(s: State, h: Handle, domains: seq<string>): Option<string> {
    if domains == [] then None
    else if domains[0] in s.domains && s.domains[domains[0]] != h then Some(domains[0])
    else TakenDomain(s, h, domains[1..])
  }

  function DomainsSet(s: State, h: Handle, domains: seq<string>): State
    requires h in s.entries
  {
    if TakenDomain(s, h, domains).Some? then s else
      var e := s.entries[h];
      With(s, h, e.(domains := domains)).(
        domains := (map d | d in s.domains && !(d in e.domains && s.domains[d] == h) :: s.domains[d]) +
                   (map d | d in domains :: h))
  }

  datatype ReserveError = NameHeld | PortHeld

  function ReserveRefusal(s: State, name: string, tokenId: string, port: int): Option<ReserveError> {
    var cur := if name in s.names && s.names[name] in s.entries then Some(s.entries[s.names[name]]) else None;
    if cur.Some? && cur.value.tokenId != tokenId then Some(NameHeld)
    else if port != 0 && (cur.None? || cur.value.port != port) && port in s.ports then Some(PortHeld)
    else None
  }

  /** The name's reservation, made if there is none. */
  function WithName(s: State, name: string, tokenId: string): State {
    if name in s.names then s else
      s.(entries := s.entries[s.next := Entry(name, UnspecifiedType, tokenId, "", 0, [], false, None, None, false, 0)],
         names := s.names[name := s.next], next := s.next + 1)
  }

  function PortMoved(s: State, h: Handle, port: int): State
    requires h in s.entries
  {
    var was := s.entries[h].port;
    With(s, h, s.entries[h].(port := port)).(ports := (if was != 0 then s.ports - {was} else s.ports) + {port})
  }

  /** The name reserved permanently, its port aside. */
  function Kept(s: State, name: string, tokenId: string): State {
    var t := WithName(s, name, tokenId);
    var h := t.names[name];
    if h in t.entries then With(t, h, t.entries[h].(permanent := true, armed := false)) else t
  }

  function ReservedName(s: State, name: string, tokenId: string, port: int): State {
    if ReserveRefusal(s, name, tokenId, port).Some? then s else
      var t := Kept(s, name, tokenId);
      var h := t.names[name];
      if h in t.entries && port != 0 && t.entries[h].port != port then PortMoved(t, h, port) else t
  }

  function Unreserved(s: State, name: string): State {
    if name !in s.names || s.names[name] !in s.entries || !s.entries[s.names[name]].permanent then s else
      var h := s.names[name];
      var t := With(s, h, s.entries[h].(permanent := false));
      if s.entries[h].session.None? then Deleted(t, h) else t
  }

  /** The reservations registered under the names. */
  function HandlesOf(s: State, ns: set<string>): set<Handle> {
    set n | n in ns && n in s.names :: s.names[n]
  }

  /** Every reservation registered under one of the names deleted, in whatever order. */
  function DeletedAll(s: State, ns: set<string>): State {
    var gone := HandlesOf(s, ns);
    s.(entries := map h | h in s.entries :: if h in gone then s.entries[h].(armed := false) else s.entries[h],
       names := s.names - ns,
       ports := s.ports - set h | h in gone && h in s.entries && s.entries[h].port != 0 :: s.entries[h].port,
       domains := map d | d in s.domains && !(s.domains[d] in gone && s.domains[d] in s.entries &&
                                               d in s.entries[s.domains[d]].domains) :: s.domains[d])
  }

  function NamesOfToken(s: State, tokenId: string): set<string> {
    set n | n in s.names && s.names[n] in s.entries && s.entries[s.names[n]].tokenId == tokenId
  }

  function ParkedNames(s: State): set<string> {
    set n | n in s.names && s.names[n] in s.entries && s.entries[s.names[n]].session.None?
  }

  function Closed(s: State): State {
    var doomed := set n | n in ParkedNames(s) && !s.entries[s.names[n]].permanent;
    var t := DeletedAll(s, doomed);
    t.(closed := true,
       entries := map h | h in t.entries :: if h in HandlesOf(s, ParkedNames(s)) then t.entries[h].(armed := false) else t.entries[h])
  }

  /** A port reserved for binding, unless it is taken. */
  function PortReserved(s: State, port: int): State {
    if port in s.ports then s else s.(ports := s.ports + {port}, binding := s.binding + {port})
  }

  function PortReleased(s: State, port: int): State {
    s.(ports := s.ports - {port}, binding := s.binding - {port})
  }

  function PortSet(s: State, h: Handle, port: int): State
    requires h in s.entries
  {
    var was := s.entries[h].port;
    With(s, h, s.entries[h].(port := port)).(
      ports := if was != 0 && was != port then s.ports - {was} else s.ports, binding := s.binding - {port})
  }

  // ---------------------------------------------------------------------
  // Runs
  // ---------------------------------------------------------------------

  datatype Op =
    | Claim(name: string, kind: TunnelType, tokenId: string, agentId: string, session: string, maxTunnels: int)
    | Activate(h: Handle, tunnel: string)
    | Park(h: Handle, session: string, now: int)
    | Rollback(h: Handle, session: string, existed: bool, now: int)
    | Expire(h: Handle)
    | SetDomains(h: Handle, domains: seq<string>)
    | Reserve(name: string, tokenId: string, port: int)
    | Unreserve(name: string)
    | ReleaseToken(tokenId: string)
    | ReservePort(port: int)
    | ReleasePort(port: int)
    | SetPort(h: Handle, port: int)
    | Close

  /** The op names a reservation, and only one that was made. */
  predicate Known(s: State, op: Op) {
    match op
    case Activate(h, _) => h in s.entries
    case Park(h, _, _) => h in s.entries
    case Rollback(h, _, _, _) => h in s.entries
    case Expire(h) => h in s.entries
    case SetDomains(h, _) => h in s.entries
    case SetPort(h, _) => h in s.entries
    case _ => true
  }

  function Next(cfg: Config, s: State, op: Op): State
    requires Known(s, op)
  {
    match op
    case Claim(name, kind, tokenId, agentId, session, max) => Claimed(s, name, kind, tokenId, agentId, session, max)
    case Activate(h, tunnel) => With(s, h, s.entries[h].(tunnel := Some(tunnel)))
    case Park(h, session, now) => Parked(s, cfg, h, session, now)
    case Rollback(h, session, existed, now) => RolledBack(s, cfg, h, session, existed, now)
    case Expire(h) => Expired(s, h)
    case SetDomains(h, domains) => DomainsSet(s, h, domains)
    case Reserve(name, tokenId, port) => ReservedName(s, name, tokenId, port)
    case Unreserve(name) => Unreserved(s, name)
    case ReleaseToken(tokenId) => DeletedAll(s, NamesOfToken(s, tokenId))
    case ReservePort(port) => PortReserved(s, port)
    case ReleasePort(port) => PortReleased(s, port)
    case SetPort(h, port) => PortSet(s, h, port)
    case Close => Closed(s)
  }

  /** The new reservation a failed open undoes may have been released meanwhile;
      its port must not be someone else's by then. */
  predicate RollbackSafe(s: State, h: Handle, session: string, existed: bool)
    requires h in s.entries
  {
    existed || Registered(s, h) || s.entries[h].session != Some(session) || s.entries[h].port !in s.ports
  }

  /** setDomains may only reach a released reservation to clear its domains. */
  predicate SetDomainsSafe(s: State, h: Handle, domains: seq<string>)
    requires h in s.entries
  {
    Registered(s, h) || domains == [] || TakenDomain(s, h, domains).Some?
  }

  /** How the relay calls the sections: releasePort and setPort get the port just
      reserved, and what openTunnel works on is still registered. */
  predicate Enabled(s: State, op: Op) {
    && Known(s, op)
    && match op
       case Rollback(h, session, existed, _) => RollbackSafe(s, h, session, existed)
       case SetDomains(h, domains) => SetDomainsSafe(s, h, domains)
       case ReservePort(port) => port != 0
       case ReleasePort(port) => port in s.binding
       case SetPort(h, port) => Registered(s, h) && port in s.binding
       case _ => true
  }

  /** Runs of enabled sections, in any interleaving. */
  ghost predicate Reaches(cfg: Config, s: State, run: seq<Op>)
    decreases |run|
  {
    run == [] || (Enabled(s, run[0]) && Reaches(cfg, Next(cfg, s, run[0]), run[1..]))
  }

  ghost function Exec(cfg: Config, s: State, run: seq<Op>): State
    requires Reaches(cfg, s, run)
    decreases |run|
  {
    if run == [] then s else Exec(cfg, Next(cfg, s, run[0]), run[1..])
  }
}
