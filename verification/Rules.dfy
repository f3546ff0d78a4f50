/** The claim rules the cluster engine and a standalone relay share
    (go/tunnel/registry/rules.go). */
module ClaimRules {
  import opened Wrappers
  import opened Names

  datatype Rules = Rules(
    baseDomain: string, controlSni: string, authHost: string, reservedNames: seq<string>,
    portMin: int, portMax: int)
  {
    function Host(name: string): string { name + "." + baseDomain }

    predicate IsReserved(name: string) {
      || Host(name) == controlSni
      || (authHost != "" && Host(name) == authHost)
      || name in reservedNames
    }

    predicate NameAllowed(name: string) {
      IsDnsLabel(name) && !IsReserved(name)
    }

    /** The tunnel name of `<name>.<base-domain>`, or "" when host is not a
        tunnel's host name. */
    function TunnelName(host: string): string {
      var suffix := "." + baseDomain;
      if HasSuffix(host, suffix) && IsDnsLabel(host[..|host| - |suffix|]) then host[..|host| - |suffix|] else ""
    }
  }

  /** Host and TunnelName are inverse on valid names, and nothing else has a
      tunnel name. */
  lemma TunnelNameRoundTrip(r: Rules, name: string, host: string)
    requires name != ""
    ensures r.TunnelName(host) == name <==> IsDnsLabel(name) && host == r.Host(name)
  {
    var suffix := "." + r.baseDomain;
    if r.TunnelName(host) == name {
      assert host == host[..|host| - |suffix|] + host[|host| - |suffix|..];
      assert r.Host(name) == name + suffix;
    }
    if host == r.Host(name) {
      assert host == name + suffix;
      assert host[|host| - |suffix|..] == suffix;
      assert host[..|host| - |suffix|] == name;
    }
  }

  /** The current holder of a name, as far as a claim cares. */
  datatype Holder = Holder(tokenId: string, agentId: string, connected: bool, sameSession: bool)

  datatype Decision = New | Reclaim | Takeover

  datatype Refusal = Taken | CapReached

  /** How a claim relates to the name's holder; active counts the token's other
      connected tunnels, and a maxTunnels of 0 means no cap. */
  function Decide(holder: Option<Holder>, tokenId: string, agentId: string, active: int, maxTunnels: int):
    (r: Result<Decision, Refusal>)
  {
    if holder.Some? && holder.value.tokenId != tokenId then
      Err(Taken)
    else if holder.Some? && holder.value.connected && (holder.value.agentId != agentId || holder.value.sameSession) then
      Err(Taken)
    else if maxTunnels > 0 && active >= maxTunnels then
      Err(CapReached)
    else if holder.None? then
      Ok(New)
    else if holder.value.connected then
      Ok(Takeover)
    else
      Ok(Reclaim)
  }
}
