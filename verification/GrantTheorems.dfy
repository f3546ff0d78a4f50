/** When a claim must be granted, with which records, and why it is refused otherwise:
    in the terms of the engine's tunnels, the reservations and the request. */
module GrantTheorems {
  import opened Wrappers
  import opened Names
  import opened Records
  import opened ClaimRules
  import opened Claims
  import opened ClaimTraces
  import opened ClaimTheorems
  import opened IndexTheorems

  // ---------------------------------------------------------------------
  // The conditions
  // ---------------------------------------------------------------------

  /** A label that is not one of the deployment's own host names. */
  predicate GoodName(rules: Rules, name: string) {
    && IsDnsLabel(name) && name !in rules.reservedNames
    && name + "." + rules.baseDomain != rules.controlSni
    && (rules.authHost == "" || name + "." + rules.baseDomain != rules.authHost)
  }

  /** The reservation that counts for the name: the last one listed. */
  predicate Counts(rs: seq<Reservation>, i: int, name: string) {
    0 <= i < |rs| && rs[i].name == name && forall j | i < j < |rs| :: rs[j].name != name
  }

  /** No other token has the name reserved. */
  ghost predicate NotReserved(rs: seq<Reservation>, name: string, tokenId: string) {
    forall i | Counts(rs, i, name) :: rs[i].tokenId == tokenId
  }

  /** With the tunnel and the ones staged before it the token stays within its cap. */
  ghost predicate WithinCap(s: State, req: Request, recs: seq<Tunnel>, name: string) {
    req.maxTunnels > 0 ==>
      |(set n | n in s.tunnels && s.tunnels[n].tokenId == req.tokenId && s.tunnels[n].state == Active)
       + (set t | t in recs :: t.name) + {name}| <= req.maxTunnels
  }

  /** No other tunnel and no staged record has one of the domains. */
  ghost predicate DomainsOpen(s: State, recs: seq<Tunnel>, spec: Tunnel) {
    && (forall n | n in s.tunnels && n != spec.name :: forall d | d in spec.domains :: d !in s.tunnels[n].domains)
    && (forall t | t in recs :: forall d | d in spec.domains :: d !in t.domains)
  }

  /** No other tunnel and no staged record has the port, and no other name has it reserved. */
  ghost predicate PortOpen(env: Env, s: State, recs: seq<Tunnel>, name: string, port: int) {
    && (port != 0 ==> forall n | n in s.tunnels && n != name :: s.tunnels[n].publicPort != port)
    && (port != 0 ==> forall t | t in recs :: t.publicPort != port)
    && (forall r | r in env.reservations :: r.publicPort == port ==> r.name == name)
  }

  predicate NeedsPort(spec: Tunnel) { (spec.kind == Tcp || spec.kind == Ssh) && !spec.accessToken }

  /** The port asked for outright is the request's, else the reserved one, else the one
      the name holds. */
  ghost predicate Asks(env: Env, s: State, spec: Tunnel, port: int) {
    if spec.publicPort != 0 then port == spec.publicPort
    else if exists i :: Counts(env.reservations, i, spec.name) && env.reservations[i].publicPort != 0 then
      exists i :: Counts(env.reservations, i, spec.name) && env.reservations[i].publicPort == port
    else port == if spec.name in s.tunnels then s.tunnels[spec.name].publicPort else 0
  }

  /** The port a tunnel gets: the one asked for if it is open and the rules allow it;
      else the agent's previous one if open and in the token's range; else the lowest
      open one of that range. */
  ghost predicate GetsPort(env: Env, s: State, req: Request, recs: seq<Tunnel>, spec: Tunnel, asked: int, port: int) {
    var lo := if req.portMin == 0 then env.rules.portMin else req.portMin;
    var hi := if req.portMin == 0 then env.rules.portMax else req.portMax;
    if asked != 0 then port == asked && env.rules.portMin <= port <= env.rules.portMax && PortOpen(env, s, recs, spec.name, port)
    else if lo <= spec.previousPort <= hi && PortOpen(env, s, recs, spec.name, spec.previousPort) then port == spec.previousPort
    else lo <= port <= hi && PortOpen(env, s, recs, spec.name, port) && forall q | lo <= q < port :: !PortOpen(env, s, recs, spec.name, q)
  }

  /** The record of a granted tunnel. */
  predicate RecordOf(env: Env, req: Request, spec: Tunnel, rec: Tunnel) {
    && rec.tunnelId == spec.tunnelId && rec.name == spec.name && rec.kind == spec.kind && rec.hostname == spec.hostname
    && rec.domains == spec.domains && rec.simulated == spec.simulated && rec.accessToken == spec.accessToken
    && rec.relayId == req.relayId && rec.agentId == req.agentId && rec.tokenId == req.tokenId && rec.sessionId == req.sessionId
    && rec.state == Active && rec.connectedAt == env.now && rec.graceUntil == 0 && rec.previousPort == 0
    && rec.activeConns == 0 && rec.totalConns == 0 && rec.bytesIn == 0 && rec.bytesOut == 0
  }

  /** The name may be had: nobody else is in the way and the cap has room. */
  ghost predicate NameOpen(env: Env, s: State, req: Request, recs: seq<Tunnel>, spec: Tunnel) {
    && (spec.simulated ==> env.allowSimulated)
    && (forall t | t in recs :: t.name != spec.name)
    && GoodName(env.rules, spec.name) && spec.name + "." + env.rules.baseDomain !in env.sites
    && NotReserved(env.reservations, spec.name, req.tokenId)
    && MayReplace(s, req, spec.name) && WithinCap(s, req, recs, spec.name)
  }

  /** The tunnel is granted with the record, the earlier ones of the claim having recs. */
  ghost predicate Grants(env: Env, s: State, req: Request, recs: seq<Tunnel>, spec: Tunnel, rec: Tunnel) {
    && NameOpen(env, s, req, recs, spec) && DomainsOpen(s, recs, spec) && RecordOf(env, req, spec, rec)
    && if NeedsPort(spec) then exists asked :: Asks(env, s, spec, asked) && GetsPort(env, s, req, recs, spec, asked, rec.publicPort)
       else rec.publicPort == 0
  }

  // ---------------------------------------------------------------------
  // The name
  // ---------------------------------------------------------------------

  lemma {:induction false} ReservationCounts(rs: seq<Reservation>, name: string)
    ensures ReservationOf(rs, name).None? <==> forall r | r in rs :: r.name != name
    ensures ReservationOf(rs, name).None? ==> forall i :: !Counts(rs, i, name)
    ensures ReservationOf(rs, name).Some? ==> exists i :: Counts(rs, i, name) && rs[i] == ReservationOf(rs, name).value
  {
    if rs != [] {
      var init, last := rs[..|rs| - 1], rs[|rs| - 1];
      ReservationCounts(init, name);
      assert forall r :: r in rs <==> r in init || r == last;
      if last.name == name {
        assert Counts(rs, |rs| - 1, name);
      } else if ReservationOf(init, name).Some? {
        var i :| Counts(init, i, name) && init[i] == ReservationOf(init, name).value;
        assert Counts(rs, i, name);
      }
    }
  }

  lemma OneCounts(rs: seq<Reservation>, i: int, j: int, name: string)
    requires Counts(rs, i, name) && Counts(rs, j, name)
    ensures i == j
  {
  }

  lemma NotReservedMeans(rs: seq<Reservation>, name: string, tokenId: string)
    ensures NotReserved(rs, name, tokenId) <==>
            (ReservationOf(rs, name).Some? ==> ReservationOf(rs, name).value.tokenId == tokenId)
  {
    ReservationCounts(rs, name);
    if ReservationOf(rs, name).Some? {
      var i :| Counts(rs, i, name) && rs[i] == ReservationOf(rs, name).value;
      forall j | Counts(rs, j, name) ensures j == i { OneCounts(rs, i, j, name); }
    }
  }

  lemma {:induction false} StagedSize(recs: seq<Tunnel>)
    requires forall i, j | 0 <= i < j < |recs| :: recs[i].name != recs[j].name
    ensures |NamesOf(recs)| == |recs|
  {
    if recs != [] {
      var init, last := recs[..|recs| - 1], recs[|recs| - 1];
      StagedSize(init);
      assert recs == init + [last];
      NamesOfAppend(init, last);
      assert last.name !in NamesOf(init);
    }
  }

  /** The cap in the engine's count and in the set of names. */
  lemma CapMeans(s: State, req: Request, recs: seq<Tunnel>, name: string)
    requires forall i, j | 0 <= i < j < |recs| :: recs[i].name != recs[j].name
    requires name !in NamesOf(recs)
    ensures WithinCap(s, req, recs, name) <==> (req.maxTunnels > 0 ==> ActiveCount(s, req.tokenId, name, recs) < req.maxTunnels)
  {
    StagedSize(recs);
    UnionSize(ActiveOf(s, req.tokenId), NamesOf(recs), name);
  }

  lemma UnionSize(active: set<string>, staged: set<string>, name: string)
    requires name !in staged
    ensures |active + staged + {name}| == |active - {name} - staged| + |staged| + 1
  {
    var rest := active - {name} - staged;
    assert active + staged + {name} == rest + staged + {name};
  }

  /** The holder and the cap let the claim through exactly when the name is free or may
      be replaced, and there is room. */
  lemma HolderGrantsIff(s: State, req: Request, recs: seq<Tunnel>, spec: Tunnel)
    requires forall i, j | 0 <= i < j < |recs| :: recs[i].name != recs[j].name
    requires spec.name !in NamesOf(recs)
    ensures HolderRefusal(s, req, recs, spec) == None <==> MayReplace(s, req, spec.name) && WithinCap(s, req, recs, spec.name)
    ensures HolderRefusal(s, req, recs, spec) == Some(NameTaken) <==> !MayReplace(s, req, spec.name)
    ensures HolderRefusal(s, req, recs, spec) == Some(MaxTunnels) <==> MayReplace(s, req, spec.name) && !WithinCap(s, req, recs, spec.name)
  {
    hide ActiveCount, WithinCap;
    CapMeans(s, req, recs, spec.name);
  }

  lemma GoodNameMeans(rules: Rules, name: string)
    ensures GoodName(rules, name) <==> rules.NameAllowed(name)
    ensures rules.Host(name) == name + "." + rules.baseDomain
  {
    hide IsDnsLabel;
  }

  lemma NamesOfMeans(recs: seq<Tunnel>, name: string)
    ensures name in NamesOf(recs) <==> exists t :: t in recs && t.name == name
  {
  }

  /** The rules let the name through exactly when it may be had; otherwise this is why. */
  lemma NameGrantsIff(env: Env, s: State, req: Request, recs: seq<Tunnel>, spec: Tunnel)
    requires forall i, j | 0 <= i < j < |recs| :: recs[i].name != recs[j].name
    ensures NameRefusal(env, s, req, recs, spec) == None <==> NameOpen(env, s, req, recs, spec)
    ensures NameRefusal(env, s, req, recs, spec) == NameReason(env, s, req, recs, spec)
  {
    hide HolderRefusal, WithinCap, IsDnsLabel, MayReplace, ReservationOf, NotReserved, GoodName;
    GoodNameMeans(env.rules, spec.name);
    NotReservedMeans(env.reservations, spec.name, req.tokenId);
    NamesOfMeans(recs, spec.name);
    if spec.name !in NamesOf(recs) { HolderGrantsIff(s, req, recs, spec); }
  }

  /** The first of the conditions on the name that fails, as an answer. */
  ghost function NameReason(env: Env, s: State, req: Request, recs: seq<Tunnel>, spec: Tunnel): Option<ClaimError> {
    if spec.simulated && !env.allowSimulated then Some(Forbidden)
    else if (exists t :: t in recs && t.name == spec.name) || !GoodName(env.rules, spec.name) then Some(Invalid)
    else if spec.name + "." + env.rules.baseDomain in env.sites || !NotReserved(env.reservations, spec.name, req.tokenId)
            || !MayReplace(s, req, spec.name) then Some(NameTaken)
    else if !WithinCap(s, req, recs, spec.name) then Some(MaxTunnels)
    else None
  }

  // ---------------------------------------------------------------------
  // Domains and port
  // ---------------------------------------------------------------------

  /** The indexes say who has a domain. */
  lemma DomainsOpenMeans(s: State, recs: seq<Tunnel>, spec: Tunnel)
    requires Sound(s) && Complete(s)
    ensures DomainsOpen(s, recs, spec) <==> DomainsFree(s, recs, spec)
  {
    if DomainsOpen(s, recs, spec) {
      forall d | d in spec.domains ensures (Owner(s.byDomain, d) == "" || Owner(s.byDomain, d) == spec.name) && d !in DomainsOf(recs) {
        if d in s.byDomain { assert s.byDomain[d] in s.tunnels; }
      }
    }
    if DomainsFree(s, recs, spec) {
      forall n, d | n in s.tunnels && n != spec.name && d in spec.domains ensures d !in s.tunnels[n].domains {
        assert d in s.tunnels[n].domains ==> Owner(s.byDomain, d) == n;
      }
      forall t, d | t in recs && d in spec.domains ensures d !in t.domains {
        assert d in t.domains ==> d in DomainsOf(recs);
      }
    }
  }

  lemma PortOpenMeans(env: Env, s: State, recs: seq<Tunnel>, name: string, port: int)
    requires Sound(s) && Complete(s)
    ensures PortOpen(env, s, recs, name, port) <==> PortFree(env, s, recs, name, port)
  {
    assert port in PortsOf(recs) <==> port != 0 && exists t :: t in recs && t.publicPort == port;
    if PortFree(env, s, recs, name, port) && port != 0 {
      forall n | n in s.tunnels && n != name ensures s.tunnels[n].publicPort != port {
        assert s.tunnels[n].publicPort == port ==> Owner(s.byPort, port) == n;
      }
    }
  }

  lemma AsksMeans(env: Env, s: State, spec: Tunnel, asked: int)
    ensures Asks(env, s, spec, asked) <==> asked == WantedPort(env, s, spec)
  {
    ReservationCounts(env.reservations, spec.name);
    if ReservationOf(env.reservations, spec.name).Some? {
      var i :| Counts(env.reservations, i, spec.name) && env.reservations[i] == ReservationOf(env.reservations, spec.name).value;
      forall j | Counts(env.reservations, j, spec.name) ensures j == i { OneCounts(env.reservations, i, j, spec.name); }
    }
  }

  /** The port that is chosen is the one the tunnel gets; if there is none, this is why. */
  lemma PortIs(env: Env, s: State, req: Request, recs: seq<Tunnel>, spec: Tunnel, asked: int, port: int)
    requires Sound(s) && Complete(s) && Asks(env, s, spec, asked)
    ensures ChoosePort(env, s, req, recs, spec) == Ok(port) <==> GetsPort(env, s, req, recs, spec, asked, port)
    ensures ChoosePort(env, s, req, recs, spec) == Err(OutsideRange) <==>
            asked != 0 && !(env.rules.portMin <= asked <= env.rules.portMax)
  {
    hide Sound, Complete, PortFree, PortOpen, Asks, WantedPort;
    AsksMeans(env, s, spec, asked);
    FirstFreeIsLowest(env, s, recs, spec.name, LowPort(env, req), HighPort(env, req));
    forall q ensures PortOpen(env, s, recs, spec.name, q) <==> PortFree(env, s, recs, spec.name, q) {
      PortOpenMeans(env, s, recs, spec.name, q);
    }
  }

  // ---------------------------------------------------------------------
  // One tunnel, and a whole claim
  // ---------------------------------------------------------------------

  lemma RecordMeans(env: Env, req: Request, spec: Tunnel, rec: Tunnel)
    ensures RecordOf(env, req, spec, rec) <==> rec == Granted(env, req, spec, rec.publicPort)
  {
  }

  /** The checks of one tunnel give it this record exactly when it is to be granted it. */
  lemma CheckGrantsIff(env: Env, s: State, req: Request, recs: seq<Tunnel>, spec: Tunnel, rec: Tunnel)
    requires Sound(s) && Complete(s) && forall i, j | 0 <= i < j < |recs| :: recs[i].name != recs[j].name
    ensures Check(env, s, req, recs, spec) == Ok(rec) <==> Grants(env, s, req, recs, spec, rec)
  {
    hide Sound, Complete, NameRefusal, NameOpen, DomainsFree, DomainsOpen, ChoosePort, GetsPort, Asks, RecordOf, Granted, WantedPort;
    NameGrantsIff(env, s, req, recs, spec);
    DomainsOpenMeans(s, recs, spec);
    GrantedPort(env, req, spec, 0);
    var asked := WantedPort(env, s, spec);
    AsksMeans(env, s, spec, asked);
    PortIs(env, s, req, recs, spec, asked, rec.publicPort);
    forall a | Asks(env, s, spec, a) ensures a == asked { AsksMeans(env, s, spec, a); }
    if ChoosePort(env, s, req, recs, spec).Ok? { GrantedPort(env, req, spec, ChoosePort(env, s, req, recs, spec).value); }
    RecordMeans(env, req, spec, rec);
  }

  lemma GrantedPort(env: Env, req: Request, spec: Tunnel, port: int)
    ensures Granted(env, req, spec, port).publicPort == port && Granted(env, req, spec, port).name == spec.name
  {
  }

  /** Each tunnel is granted beside the ones before it. */
  ghost predicate GrantsAll(env: Env, s: State, req: Request, specs: seq<Tunnel>, recs: seq<Tunnel>) {
    |recs| == |specs| && forall i | 0 <= i < |specs| :: Grants(env, s, req, recs[..i], specs[i], recs[i])
  }

  lemma GrantedApart(env: Env, s: State, req: Request, specs: seq<Tunnel>, recs: seq<Tunnel>)
    requires GrantsAll(env, s, req, specs, recs)
    ensures forall i, j | 0 <= i < j < |recs| :: recs[i].name != recs[j].name
  {
    forall i, j | 0 <= i < j < |recs| ensures recs[i].name != recs[j].name {
      assert Grants(env, s, req, recs[..j], specs[j], recs[j]);
      assert recs[..j][i] == recs[i] && recs[i] in recs[..j];
    }
  }

  lemma {:induction false} StageGrantsIff(env: Env, s: State, req: Request, specs: seq<Tunnel>, recs: seq<Tunnel>)
    requires Sound(s) && Complete(s)
    ensures Stage(env, s, req, specs) == Ok(recs) <==> GrantsAll(env, s, req, specs, recs)
  {
    hide Sound, Complete, Check, Grants;
    if specs != [] {
      var n := |specs| - 1;
      var init := specs[..n];
      if Stage(env, s, req, init).Ok? {
        var before := Stage(env, s, req, init).value;
        StageGrantsIff(env, s, req, init, before);
        GrantedApart(env, s, req, init, before);
        if Stage(env, s, req, specs) == Ok(recs) {
          var rec := Check(env, s, req, before, specs[n]).value;
          CheckGrantsIff(env, s, req, before, specs[n], rec);
          assert recs == before + [rec] && recs[..n] == before;
          forall i | 0 <= i < |specs| ensures Grants(env, s, req, recs[..i], specs[i], recs[i]) {
            if i < n { assert recs[..i] == before[..i]; }
          }
        }
      }
      if GrantsAll(env, s, req, specs, recs) {
        var before := recs[..n];
        forall i | 0 <= i < n ensures Grants(env, s, req, before[..i], init[i], before[i]) { assert before[..i] == recs[..i]; }
        StageGrantsIff(env, s, req, init, before);
        GrantedApart(env, s, req, init, before);
        CheckGrantsIff(env, s, req, before, specs[n], recs[n]);
        assert recs == before + [recs[n]];
      }
    }
  }

  /** A claim is granted with these records exactly when it names its agent, token and
      session, asks for a tunnel, and each of its tunnels is granted its record. */
  lemma ClaimGrantsExactly(env: Env, s: State, req: Request, recs: seq<Tunnel>)
    requires Sound(s) && Complete(s)
    ensures ClaimResult(env, s, req) == Ok(recs) <==>
            && req.tunnels != [] && req.agentId != "" && req.tokenId != "" && req.sessionId != ""
            && GrantsAll(env, s, req, req.tunnels, recs)
  {
    hide Stage, GrantsAll;
    StageGrantsIff(env, s, req, req.tunnels, recs);
  }

  // ---------------------------------------------------------------------
  // Refusals
  // ---------------------------------------------------------------------

  /** Why the tunnel is refused beside recs. */
  ghost predicate Refuses(env: Env, s: State, req: Request, recs: seq<Tunnel>, spec: Tunnel, e: ClaimError) {
    if !NameOpen(env, s, req, recs, spec) then Some(e) == NameReason(env, s, req, recs, spec)
    else if !DomainsOpen(s, recs, spec) then e == NameTaken
    else
      && NeedsPort(spec) && (forall asked, port | Asks(env, s, spec, asked) :: !GetsPort(env, s, req, recs, spec, asked, port))
      && e == if exists asked :: Asks(env, s, spec, asked) && asked != 0 && !(env.rules.portMin <= asked <= env.rules.portMax)
              then PortNotAllowed else PortUnavailable
  }

  lemma CheckRefusesIff(env: Env, s: State, req: Request, recs: seq<Tunnel>, spec: Tunnel, e: ClaimError)
    requires Sound(s) && Complete(s) && forall i, j | 0 <= i < j < |recs| :: recs[i].name != recs[j].name
    ensures Check(env, s, req, recs, spec) == Err(e) <==> Refuses(env, s, req, recs, spec, e)
  {
    hide Sound, Complete, NameRefusal, NameOpen, NameReason, DomainsFree, DomainsOpen, ChoosePort, GetsPort, Asks, Granted, WantedPort;
    NameGrantsIff(env, s, req, recs, spec);
    DomainsOpenMeans(s, recs, spec);
    var asked := WantedPort(env, s, spec);
    forall a ensures Asks(env, s, spec, a) <==> a == asked { AsksMeans(env, s, spec, a); }
    forall port ensures ChoosePort(env, s, req, recs, spec) == Ok(port) <==> GetsPort(env, s, req, recs, spec, asked, port) {
      PortIs(env, s, req, recs, spec, asked, port);
    }
    PortIs(env, s, req, recs, spec, asked, 0);
  }

  lemma {:induction false} StageRefuses(env: Env, s: State, req: Request, specs: seq<Tunnel>) returns (recs: seq<Tunnel>)
    requires Sound(s) && Complete(s) && Stage(env, s, req, specs).Err?
    ensures |recs| < |specs| && GrantsAll(env, s, req, specs[..|recs|], recs)
    ensures Refuses(env, s, req, recs, specs[|recs|], Stage(env, s, req, specs).error)
  {
    hide Sound, Complete, Check, Grants, Refuses;
    var n := |specs| - 1;
    var init := specs[..n];
    if Stage(env, s, req, init).Ok? {
      recs := Stage(env, s, req, init).value;
      StageGrantsIff(env, s, req, init, recs);
      GrantedApart(env, s, req, init, recs);
      CheckRefusesIff(env, s, req, recs, specs[n], Stage(env, s, req, specs).error);
    } else {
      recs := StageRefuses(env, s, req, init);
      assert init[..|recs|] == specs[..|recs|];
    }
  }

  /** A refused claim is invalid, or some first tunnels of it could be granted and the
      next one is the reason. */
  lemma ClaimRefusedFor(env: Env, s: State, req: Request)
    requires Sound(s) && Complete(s) && ClaimResult(env, s, req).Err?
    ensures var e := ClaimResult(env, s, req).error;
            if req.tunnels == [] || req.agentId == "" || req.tokenId == "" || req.sessionId == "" then e == Invalid
            else exists recs: seq<Tunnel> :: |recs| < |req.tunnels| && GrantsAll(env, s, req, req.tunnels[..|recs|], recs) &&
                                             Refuses(env, s, req, recs, req.tunnels[|recs|], e)
  {
    hide GrantsAll, Refuses, Stage;
    if !(req.tunnels == [] || req.agentId == "" || req.tokenId == "" || req.sessionId == "") {
      var recs := StageRefuses(env, s, req, req.tunnels);
    }
  }
}
