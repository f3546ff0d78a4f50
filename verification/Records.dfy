/** The records of the claims engine (proto/tun.proto). Descriptive fields the
    engine copies and never reads are folded into `info`. */
module Records {
  import opened Wrappers

  datatype TunnelType = UnspecifiedType | Tcp | Ssh | Http | Tls

  datatype LiveState = UnspecifiedLive | Active | Grace

  datatype Tunnel = Tunnel(
    tunnelId: string, name: string, kind: TunnelType, hostname: string, domains: seq<string>,
    publicPort: int, relayId: string, agentId: string, tokenId: string, state: LiveState,
    connectedAt: int, graceUntil: int, activeConns: int, totalConns: int, bytesIn: int, bytesOut: int,
    simulated: bool, sessionId: string, accessToken: bool, previousPort: int)

  datatype AgentState = UnspecifiedAgent | Online | AgentGrace | Offline

  datatype Reason = UnspecifiedReason | HeartbeatTimeout | TokenRevoked | RelayDrained | RelayLost | TakenOverElsewhere
    | AgentClosed | Operator

  datatype Agent = Agent(
    agentId: string, tokenId: string, sessionId: string, relayId: string, state: AgentState,
    connectedAt: int, lastHeartbeat: int, rttUs: int, tunnelCount: int, activeStreams: int, bytesIn: int, bytesOut: int,
    graceUntil: int, lastSeen: int, reason: Reason, simulated: bool, info: string)

  datatype RelayState = UnspecifiedRelay | Ready | Draining | Down

  datatype Relay = Relay(
    relayId: string, podIp: string, state: RelayState, sessions: int, tunnels: int,
    startedAt: int, lastSeen: int, simulated: bool, info: string)

  /** A name, and optionally a public port (0 = none), kept for a token. */
  datatype Reservation = Reservation(name: string, tokenId: string, publicPort: int)

  datatype CommandKind = UnspecifiedCommand | Reannounce | Drain | Resume | DisconnectAgent | DisconnectTunnel | TakenOver

  datatype Command = Command(kind: CommandKind, relayId: string, agentId: string, tunnelId: string)

  datatype Request = Request(
    relayId: string, sessionId: string, agentId: string, tokenId: string,
    maxTunnels: int, portMin: int, portMax: int, tunnels: seq<Tunnel>, names: seq<string>, graceUntil: int,
    agent: Option<Agent>, agents: seq<Agent>, relay: Option<Relay>, reason: Reason)
}
