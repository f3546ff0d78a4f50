/** The claims engine as the registry runs it: five maps updated in place under
    one lock, and the sink's log (go/tunnel/claims). Every method is atomic and
    is proved against its specification in Claims. */
module ClaimsEngine {
  import opened Wrappers
  import opened Records
  import opened ClaimRules
  import opened Claims
  import opened ClaimTraces
  import opened SweepTheorems
  import opened ClaimTheorems
  import O = Outcomes

  lemma StoredMore(s: State, es: seq<Event>, rec: Tunnel)
    ensures var st := ApplyAll(s, es); ApplyAll(s, es + [StoreEvent(st, rec)]) == Stored(st, rec)
  {
    ApplyAllAppend(s, es, [StoreEvent(ApplyAll(s, es), rec)]);
    ApplyOne(ApplyAll(s, es), StoreEvent(ApplyAll(s, es), rec));
  }

  lemma RemovedMore(s: State, es: seq<Event>, rec: Tunnel)
    ensures ApplyAll(s, es + [TunnelChanged(rec, Deleted)]) == Removed(ApplyAll(s, es), rec.name)
  {
    ApplyAllAppend(s, es, [TunnelChanged(rec, Deleted)]);
    ApplyOne(ApplyAll(s, es), TunnelChanged(rec, Deleted));
  }

  lemma AgentMore(s: State, es: seq<Event>, a: Agent)
    ensures var st := ApplyAll(s, es);
            && ApplyAll(s, es + [AgentEvent(st, a)]) == st.(agents := st.agents[a.agentId := a])
            && ApplyAll(s, es + [AgentChanged(a, Deleted)]) == st.(agents := st.agents - {a.agentId})
  {
    var st := ApplyAll(s, es);
    ApplyAllAppend(s, es, [AgentEvent(st, a)]);
    ApplyOne(st, AgentEvent(st, a));
    ApplyAllAppend(s, es, [AgentChanged(a, Deleted)]);
    ApplyOne(st, AgentChanged(a, Deleted));
  }

  lemma StoreOnly(s: State, rec: Tunnel)
    ensures ApplyAll(s, [StoreEvent(s, rec)]) == Stored(s, rec)
  {
    ApplyOne(s, StoreEvent(s, rec));
  }

  lemma AgentOnly(s: State, a: Agent)
    ensures ApplyAll(s, [AgentEvent(s, a)]) == s.(agents := s.agents[a.agentId := a])
  {
    ApplyOne(s, AgentEvent(s, a));
  }

  lemma RelayOnly(s: State, r: Relay)
    ensures ApplyAll(s, [RelayEvent(s, r)]) == s.(relays := s.relays[r.relayId := r])
  {
    ApplyOne(s, RelayEvent(s, r));
  }

  lemma Nothing(s: State)
    ensures ApplyAll(s, []) == s
  {
  }

  lemma NoneYet<T>(s: State, xs: seq<T>, step: (State, T) -> seq<Event>)
    ensures ForEach(s, xs[..0], step) == [] && ApplyAll(s, []) == s
  {
  }

  lemma StoredKeys(s: State, rec: Tunnel)
    ensures Stored(s, rec).tunnels.Keys == s.tunnels.Keys + {rec.name}
    ensures Stored(s, rec).agents == s.agents && Stored(s, rec).relays == s.relays
  {
  }

  lemma KeyedAt(s: State, name: string)
    requires WellKeyed(s) && name in s.tunnels
    ensures s.tunnels[name].name == name
  {
  }

  /** One more entry of a map visited in some order. */
  lemma VisitNext(s: State, order: seq<string>, x: string, todo: set<string>, all: set<string>, step: (State, string) -> seq<Event>)
    requires NoDup(order) && Elements(order) == all - todo && x in todo && todo <= all
    ensures NoDup(order + [x]) && Elements(order + [x]) == all - (todo - {x})
    ensures ForEach(s, order + [x], step) == ForEach(s, order, step) + step(ApplyAll(s, ForEach(s, order, step)), x)
  {
    assert (order + [x])[..|order|] == order;
    ElementsAppend(order + [x]);
    assert x !in Elements(order);
    assert forall i | 0 <= i < |order| :: order[i] in Elements(order);
  }

  lemma DownKeepsKey(env: Env, a: Agent, reason: Reason)
    ensures DownAgent(env, a, reason).agentId == a.agentId
  {
  }

  lemma RelayGone(s: State, r: Relay)
    ensures ApplyAll(s, [RelayChanged(r, Deleted)]) == s.(relays := s.relays - {r.relayId})
  {
    ApplyOne(s, RelayChanged(r, Deleted));
  }

  lemma AgentGone(s: State, a: Agent)
    ensures ApplyAll(s, [AgentChanged(a, Deleted)]) == s.(agents := s.agents - {a.agentId})
  {
    ApplyOne(s, AgentChanged(a, Deleted));
  }

  lemma TunnelGone(s: State, t: Tunnel)
    ensures ApplyAll(s, [TunnelChanged(t, Deleted)]) == Removed(s, t.name)
    ensures Removed(s, t.name).tunnels == s.tunnels - {t.name}
    ensures Removed(s, t.name).agents == s.agents && Removed(s, t.name).relays == s.relays
  {
    ApplyOne(s, TunnelChanged(t, Deleted));
  }

  lemma NoVisits()
    ensures NoDup(Ids([])) && Elements(Ids([])) == {}
  {
  }

  /** One more relay visited. */
  lemma VisitRelayNext(s: State, visits: seq<RelayVisit>, v: RelayVisit, todo: set<string>, all: set<string>,
                       step: (State, RelayVisit) -> seq<Event>)
    requires NoDup(Ids(visits)) && Elements(Ids(visits)) == all - todo && v.id in todo && todo <= all
    ensures NoDup(Ids(visits + [v])) && Elements(Ids(visits + [v])) == all - (todo - {v.id})
    ensures ForEach(s, visits + [v], step) == ForEach(s, visits, step) + step(ApplyAll(s, ForEach(s, visits, step)), v)
  {
    assert (visits + [v])[..|visits|] == visits;
    assert Ids(visits + [v]) == Ids(visits) + [v.id];
    VisitNext(s, Ids(visits), v.id, todo, all, (st: State, x: string) => []);
  }

  /** Whether a relay is lost does not change before its turn. */
  lemma CoversSame(env: Env, s: State, st: State, v: RelayVisit)
    requires Covers(env, st, v) && v.id in s.relays && v.id in st.relays && s.relays[v.id] == st.relays[v.id]
    requires s.tunnels.Keys == st.tunnels.Keys && s.agents.Keys == st.agents.Keys
    ensures Covers(env, s, v)
  {
  }

  lemma CommandOnly(s: State, cmd: Command)
    ensures ApplyAll(s, [CommandSent(cmd)]) == s
  {
    ApplyOne(s, CommandSent(cmd));
  }

  lemma RelayThenCommand(s: State, r: Relay, cmd: Command)
    requires WellKeyed(s)
    ensures ApplyAll(s, [RelayEvent(s, r)] + [CommandSent(cmd)]) == s.(relays := s.relays[r.relayId := r])
    ensures WellKeyed(s.(relays := s.relays[r.relayId := r]))
  {
    RelayOnly(s, r);
    WellKeyedKept(s, [RelayEvent(s, r)]);
    ApplyAllAppend(s, [RelayEvent(s, r)], [CommandSent(cmd)]);
    CommandOnly(ApplyAll(s, [RelayEvent(s, r)]), cmd);
  }

  lemma NothingVisited()
    ensures NoDup<string>([]) && Elements<string>([]) == {}
  {
  }

  lemma ForEachNext<T>(s: State, xs: seq<T>, i: nat, step: (State, T) -> seq<Event>)
    requires i < |xs|
    ensures var es := ForEach(s, xs[..i], step);
            ForEach(s, xs[..i + 1], step) == es + step(ApplyAll(s, es), xs[i])
  {
    assert xs[..i + 1][..i] == xs[..i];
  }

  lemma OneVisited<T>(wanted: set<T>, todo: set<T>, k: T)
    requires k in todo
    ensures |wanted - (todo - {k})| == |wanted - todo| + if k in wanted then 1 else 0
  {
    assert wanted - (todo - {k}) == (wanted - todo) + if k in wanted then {k} else {};
  }

  /** The token's connected tunnels but name and the staged ones. */
  ghost function Others(s: State, tokenId: string, name: string, staged: set<string>): (names: set<string>)
    ensures names <= s.tunnels.Keys
  {
    ActiveOf(s, tokenId) - {name} - staged
  }

  lemma CountedIff(s: State, tokenId: string, name: string, staged: set<string>, k: string)
    requires WellKeyed(s) && k in s.tunnels
    ensures var t := s.tunnels[k];
            k in Others(s, tokenId, name, staged) <==> t.tokenId == tokenId && t.name != name && t.state == Active && t.name !in staged
  {
  }

  ghost predicate NamesStaged(recs: seq<Tunnel>, staged: map<string, Tunnel>) {
    && staged.Keys == NamesOf(recs) && |staged| == |recs|
    && (forall i | 0 <= i < |recs| :: recs[i].name in staged && staged[recs[i].name] == recs[i])
  }

  ghost predicate PortsStaged(recs: seq<Tunnel>, ports: map<int, string>) {
    ports.Keys == PortsOf(recs) && forall p | p in ports :: ports[p] != ""
  }

  ghost predicate DomainsStaged(recs: seq<Tunnel>, domains: map<string, string>) {
    domains.Keys == DomainsOf(recs) && forall d | d in domains :: domains[d] != ""
  }

  /** The staged maps of a claim describe the records staged so far. */
  ghost predicate StagedAs(recs: seq<Tunnel>, staged: map<string, Tunnel>, ports: map<int, string>, domains: map<string, string>) {
    NamesStaged(recs, staged) && PortsStaged(recs, ports) && DomainsStaged(recs, domains)
  }

  /** A refused prefix refuses the whole request. */
  lemma {:induction false} StageStops(env: Env, s: State, req: Request, specs: seq<Tunnel>, k: nat)
    requires k <= |specs| && Stage(env, s, req, specs[..k]).Err?
    ensures Stage(env, s, req, specs) == Stage(env, s, req, specs[..k])
  {
    if k == |specs| {
      assert specs[..k] == specs;
    } else {
      assert specs[..|specs| - 1][..k] == specs[..k];
      StageStops(env, s, req, specs[..|specs| - 1], k);
    }
  }

  lemma {:induction false} StageNext(env: Env, s: State, req: Request, specs: seq<Tunnel>, k: nat, recs: seq<Tunnel>)
    requires k < |specs| && Stage(env, s, req, specs[..k]) == Ok(recs)
    ensures Stage(env, s, req, specs[..k + 1]) ==
            match Check(env, s, req, recs, specs[k]) case Err(e) => Err(e) case Ok(rec) => Ok(recs + [rec])
  {
    assert specs[..k + 1][..k] == specs[..k];
  }

  lemma PortsOfAppend(recs: seq<Tunnel>, rec: Tunnel)
    ensures PortsOf(recs + [rec]) == PortsOf(recs) + if rec.publicPort != 0 then {rec.publicPort} else {}
  {
    assert rec in recs + [rec] && forall t | t in recs :: t in recs + [rec];
  }

  lemma DomainsOfAppend(recs: seq<Tunnel>, rec: Tunnel)
    ensures DomainsOf(recs + [rec]) == DomainsOf(recs) + set d | d in rec.domains
  {
    assert rec in recs + [rec] && forall t | t in recs :: t in recs + [rec];
  }

  lemma NamesStagedMore(recs: seq<Tunnel>, staged: map<string, Tunnel>, rec: Tunnel)
    requires NamesStaged(recs, staged) && rec.name !in staged
    ensures NamesStaged(recs + [rec], staged[rec.name := rec])
  {
    hide NamesOf;
    NamesOfAppend(recs, rec);
  }

  lemma PortsStagedMore(recs: seq<Tunnel>, ports: map<int, string>, rec: Tunnel)
    requires PortsStaged(recs, ports) && rec.name != ""
    ensures PortsStaged(recs + [rec], if rec.publicPort != 0 then ports[rec.publicPort := rec.name] else ports)
  {
    hide PortsOf;
    PortsOfAppend(recs, rec);
  }

  lemma DomainsStagedMore(recs: seq<Tunnel>, domains: map<string, string>, rec: Tunnel)
    requires DomainsStaged(recs, domains) && rec.name != ""
    ensures DomainsStaged(recs + [rec], domains + map d | d in rec.domains :: rec.name)
  {
    hide DomainsOf;
    DomainsOfAppend(recs, rec);
    assert (domains + map d | d in rec.domains :: rec.name).Keys == domains.Keys + set d | d in rec.domains;
  }

  /** Staging one more record keeps the maps in step. */
  lemma StagedMore(recs: seq<Tunnel>, staged: map<string, Tunnel>, ports: map<int, string>, domains: map<string, string>, rec: Tunnel)
    requires StagedAs(recs, staged, ports, domains) && rec.name != "" && rec.name !in NamesOf(recs)
    ensures StagedAs(recs + [rec], staged[rec.name := rec],
                     if rec.publicPort != 0 then ports[rec.publicPort := rec.name] else ports,
                     domains + map d | d in rec.domains :: rec.name)
  {
    assert rec.name !in staged;
    hide NamesStaged, PortsStaged, DomainsStaged, NamesOf;
    NamesStagedMore(recs, staged, rec);
    PortsStagedMore(recs, ports, rec);
    DomainsStagedMore(recs, domains, rec);
  }

  lemma RefusedClaim(env: Env, s: State, req: Request)
    ensures ClaimResult(env, s, req).Err? ==> Events(env, s, ClaimOp(req)) == [] && ApplyAll(s, []) == s
  {
  }

  lemma ClaimDone(env: Env, s: State, req: Request, recs: seq<Tunnel>)
    requires WellKeyed(s) && req.relayId != "" && ClaimResult(env, s, req) == Ok(recs)
    ensures Events(env, s, ClaimOp(req)) == ForEach(s, recs, StoreStep()) + TakeoverCommands(s, req, req.tunnels)
    ensures ApplyAll(s, Events(env, s, ClaimOp(req))) == ApplyAll(s, ForEach(s, recs, StoreStep()))
    ensures WellKeyed(ApplyAll(s, ForEach(s, recs, StoreStep())))
  {
    var es := ForEach(s, recs, StoreStep());
    assert Events(env, s, ClaimOp(req)) == es + TakeoverCommands(s, req, req.tunnels);
    hide ForEach, ApplyAll, WellKeyed, Events;
    WellKeyedKept(s, es);
    ApplyAllAppend(s, es, TakeoverCommands(s, req, req.tunnels));
    CommandsChangeNothing(ApplyAll(s, es), s, req, req.tunnels);
  }

  lemma ClaimNames(env: Env, s: State, req: Request, recs: seq<Tunnel>)
    requires Stage(env, s, req, req.tunnels) == Ok(recs)
    ensures |recs| == |req.tunnels| && forall i | 0 <= i < |recs| :: recs[i].name == req.tunnels[i].name
  {
    StageEach(env, s, req, req.tunnels, 0);
    forall i | 0 <= i < |recs| ensures recs[i].name == req.tunnels[i].name {
      StageEach(env, s, req, req.tunnels, i);
      CheckGrants(env, s, req, recs[..i], req.tunnels[i]);
    }
  }

  function TakeoverOf(t: Tunnel): Event { CommandSent(Command(TakenOver, t.relayId, t.agentId, t.tunnelId)) }

  function TakeoversOf(ts: seq<Tunnel>): (es: seq<Event>)
    ensures |es| == |ts| && forall i | 0 <= i < |ts| :: es[i] == TakeoverOf(ts[i])
  {
    seq(|ts|, i requires 0 <= i < |ts| => TakeoverOf(ts[i]))
  }

  lemma TakeoversNext(s: State, req: Request, k: nat, takeovers: seq<Tunnel>)
    requires k < |req.tunnels| && TakeoverCommands(s, req, req.tunnels[..k]) == TakeoversOf(takeovers)
    ensures TakeoverCommands(s, req, req.tunnels[..k + 1]) ==
            TakeoversOf(if TakesOver(s, req, req.tunnels[k].name) then takeovers + [s.tunnels[req.tunnels[k].name]] else takeovers)
  {
    assert req.tunnels[..k + 1][..k] == req.tunnels[..k];
  }

  datatype RequestKind = UnspecifiedKind | ClaimKind | ParkKind | ReleaseKind | AnnounceKind | HeartbeatKind | AgentUpKind | AgentDownKind

  /** The engine's answer; an error claims nothing. */
  datatype Response = Response(error: Option<ClaimError>, tunnels: seq<Tunnel>, conflicts: seq<string>)

  function Refuse(e: ClaimError): Response { Response(Some(e), [], []) }

  function ClaimResponse(r: Result<seq<Tunnel>, ClaimError>): Response {
    match r case Ok(ts) => Response(None, ts, []) case Err(e) => Refuse(e)
  }

  class Engine {
    var tunnels: map<string, Tunnel>
    var byPort: map<int, string>
    var byDomain: map<string, string>
    var agents: map<string, Agent>
    var relays: map<string, Relay>
    /** Everything the sink was told. */
    ghost var log: seq<Event>

    ghost function View(): State
      reads this
    {
      State(tunnels, byPort, byDomain, agents, relays)
    }

    /** The engine made exactly the changes es since it was in state s with log l. */
    ghost predicate Did(s: State, l: seq<Event>, es: seq<Event>)
      reads this
    {
      View() == ApplyAll(s, es) && log == l + es
    }

    ghost predicate Valid()
      reads this
    {
      WellKeyed(View())
    }

    constructor ()
      ensures View() == EmptyState && log == [] && Valid()
    {
      tunnels, byPort, byDomain, agents, relays := map[], map[], map[], map[], map[];
      log := [];
    }

    // -------------------------------------------------------------------
    // Storing and reporting
    // -------------------------------------------------------------------

    method Unindex(rec: Tunnel)
      modifies this
      ensures View() == Unindexed(old(View()), rec) && log == old(log)
    {
      if rec.publicPort != 0 && rec.publicPort in byPort && byPort[rec.publicPort] == rec.name {
        byPort := byPort - {rec.publicPort};
      }
      for i := 0 to |rec.domains|
        invariant tunnels == old(tunnels) && agents == old(agents) && relays == old(relays) && log == old(log)
        invariant byPort == UnindexPort(old(byPort), rec)
        invariant byDomain == map d | d in old(byDomain) && !(d in rec.domains[..i] && old(byDomain)[d] == rec.name) :: old(byDomain)[d]
      {
        var d := rec.domains[i];
        assert rec.domains[..i + 1] == rec.domains[..i] + [d];
        if d in byDomain && byDomain[d] == rec.name {
          byDomain := byDomain - {d};
        }
      }
      assert rec.domains[..|rec.domains|] == rec.domains;
    }

    method Index(rec: Tunnel)
      modifies this
      ensures View() == old(View()).(byPort := IndexPort(old(byPort), rec), byDomain := IndexDomains(old(byDomain), rec))
      ensures log == old(log)
    {
      if rec.publicPort != 0 {
        byPort := byPort[rec.publicPort := rec.name];
      }
      AddDomains(rec.name, rec.domains);
    }

    method AddDomains(name: string, domains: seq<string>)
      modifies this`byDomain
      ensures byDomain == old(byDomain) + map d | d in domains :: name
    {
      for i := 0 to |domains|
        invariant byDomain == old(byDomain) + map d | d in domains[..i] :: name
      {
        byDomain := byDomain[domains[i] := name];
        assert domains[..i + 1] == domains[..i] + [domains[i]];
      }
      assert domains[..|domains|] == domains;
    }

    method SetTunnel(rec: Tunnel)
      modifies this
      ensures View() == Stored(old(View()), rec) && log == old(log) + [StoreEvent(old(View()), rec)]
    {
      var change := Created;
      if rec.name in tunnels {
        var cur := tunnels[rec.name];
        Unindex(cur);
        change := Updated;
        if cur.relayId != rec.relayId || cur.state != rec.state || cur.publicPort != rec.publicPort {
          change := Moved;
        }
      }
      tunnels := tunnels[rec.name := rec];
      Index(rec);
      log := log + [TunnelChanged(rec, change)];
    }

    method DeleteTunnel(name: string)
      modifies this
      ensures View() == Removed(old(View()), name)
      ensures log == if name in old(tunnels) then old(log) + [TunnelChanged(old(tunnels)[name], Deleted)] else old(log)
    {
      if name !in tunnels {
        return;
      }
      var rec := tunnels[name];
      Unindex(rec);
      tunnels := tunnels - {name};
      log := log + [TunnelChanged(rec, Deleted)];
    }

    method SetAgent(a: Agent)
      modifies this
      ensures View() == old(View()).(agents := old(agents)[a.agentId := a]) && log == old(log) + [AgentEvent(old(View()), a)]
    {
      var change := if a.agentId in agents then Updated else Created;
      agents := agents[a.agentId := a];
      log := log + [AgentChanged(a, change)];
    }

    method SetRelay(r: Relay)
      modifies this
      ensures View() == old(View()).(relays := old(relays)[r.relayId := r]) && log == old(log) + [RelayEvent(old(View()), r)]
    {
      var change := if r.relayId in relays then Updated else Created;
      relays := relays[r.relayId := r];
      log := log + [RelayChanged(r, change)];
    }

    // -------------------------------------------------------------------
    // CLAIM
    // -------------------------------------------------------------------

    /** Counts the token's connected tunnels, not counting name, and including
        the staged ones. */
    method Active(tokenId: string, name: string, staged: map<string, Tunnel>) returns (n: nat)
      requires Valid()
      ensures n == |ActiveOf(View(), tokenId) - {name} - staged.Keys| + |staged|
    {
      hide ActiveOf, WellKeyed;
      n := 0;
      var todo := tunnels.Keys;
      ghost var wanted := Others(View(), tokenId, name, staged.Keys);
      assert wanted - todo == {};
      while todo != {}
        invariant todo <= tunnels.Keys && n == |wanted - todo|
        decreases todo
      {
        var k :| k in todo;
        OneVisited(wanted, todo, k);
        todo := todo - {k};
        var t := tunnels[k];
        CountedIff(View(), tokenId, name, staged.Keys, k);
        if t.tokenId == tokenId && t.name != name && t.state == LiveState.Active && t.name !in staged {
          n := n + 1;
        }
      }
      assert wanted - todo == wanted;
      n := n + |staged|;
    }

    /** The tunnel's public port: requested, else reserved, else held, else the
        previous one if free, else the lowest free one. */
    method Port(env: Env, req: Request, spec: Tunnel, ports: map<int, string>, ghost recs: seq<Tunnel>)
      returns (r: Result<int, PortError>)
      requires ports.Keys == PortsOf(recs) && forall p | p in ports :: ports[p] != ""
      ensures r == ChoosePort(env, View(), req, recs, spec)
    {
      var lo, hi := req.portMin, req.portMax;
      if lo == 0 {
        lo, hi := env.rules.portMin, env.rules.portMax;
      }
      var resv := ReservationOf(env.reservations, spec.name);
      var want := spec.publicPort;
      if want == 0 && resv.Some? && resv.value.publicPort != 0 {
        want := resv.value.publicPort;
      }
      if want == 0 && spec.name in tunnels && tunnels[spec.name].publicPort != 0 {
        want := tunnels[spec.name].publicPort;
      }
      if want == 0 && lo <= spec.previousPort <= hi {
        var free := IsFree(env, spec.name, ports, spec.previousPort, recs);
        if free {
          return Ok(spec.previousPort);
        }
      }
      if want != 0 {
        if want < env.rules.portMin || want > env.rules.portMax {
          return Err(OutsideRange);
        }
        var free := IsFree(env, spec.name, ports, want, recs);
        return if free then Ok(want) else Err(Held);
      }
      var p := lo;
      while p <= hi
        invariant lo <= p
        invariant FirstFree(env, View(), recs, spec.name, lo, hi) == FirstFree(env, View(), recs, spec.name, p, hi)
      {
        var free := IsFree(env, spec.name, ports, p, recs);
        if free {
          return Ok(p);
        }
        p := p + 1;
      }
      return Err(NoneFree);
    }

    method IsFree(env: Env, name: string, ports: map<int, string>, port: int, ghost recs: seq<Tunnel>) returns (free: bool)
      requires ports.Keys == PortsOf(recs) && forall p | p in ports :: ports[p] != ""
      ensures free == PortFree(env, View(), recs, name, port)
    {
      var owner := if port in byPort then byPort[port] else "";
      if (owner != "" && owner != name) || port in ports {
        return false;
      }
      for i := 0 to |env.reservations|
        invariant !ReservedByOther(env.reservations[..i], port, name)
      {
        if env.reservations[i].publicPort == port && env.reservations[i].name != name {
          assert env.reservations[i] in env.reservations;
          return false;
        }
        assert env.reservations[..i + 1] == env.reservations[..i] + [env.reservations[i]];
      }
      assert env.reservations[..|env.reservations|] == env.reservations;
      return true;
    }

    method FindReservation(rs: seq<Reservation>, name: string) returns (resv: Option<Reservation>)
      ensures resv == ReservationOf(rs, name)
    {
      resv := None;
      for i := 0 to |rs|
        invariant resv == ReservationOf(rs[..i], name)
      {
        assert rs[..i + 1][..i] == rs[..i];
        if rs[i].name == name {
          resv := Some(rs[i]);
        }
      }
      assert rs[..|rs|] == rs;
    }

    method DecideHolder(req: Request, spec: Tunnel, staged: map<string, Tunnel>, ghost recs: seq<Tunnel>)
      returns (e: Option<ClaimError>)
      requires Valid() && staged.Keys == NamesOf(recs) && |staged| == |recs|
      ensures e == HolderRefusal(View(), req, recs, spec)
    {
      hide NamesOf, WellKeyed, ActiveOf;
      var holder: Option<Holder> := None;
      if spec.name in tunnels {
        var t := tunnels[spec.name];
        holder := Some(Holder(t.tokenId, t.agentId, t.state == LiveState.Active, t.sessionId == req.sessionId));
      }
      var active := Active(req.tokenId, spec.name, staged);
      match Decide(holder, req.tokenId, req.agentId, active, req.maxTunnels) {
        case Err(CapReached) => return Some(MaxTunnels);
        case Err(Taken) => return Some(NameTaken);
        case Ok(_) => return None;
      }
    }

    /** Why the rules refuse the name, if they do. */
    method RefuseName(env: Env, req: Request, spec: Tunnel, staged: map<string, Tunnel>, ghost recs: seq<Tunnel>)
      returns (e: Option<ClaimError>)
      requires Valid() && staged.Keys == NamesOf(recs) && |staged| == |recs|
      ensures e == NameRefusal(env, View(), req, recs, spec)
    {
      hide NamesOf, WellKeyed, ReservationOf, HolderRefusal;
      if spec.simulated && !env.allowSimulated {
        return Some(Forbidden);
      }
      if spec.name in staged || !env.rules.NameAllowed(spec.name) {
        return Some(Invalid);
      }
      if env.rules.Host(spec.name) in env.sites {
        return Some(NameTaken);
      }
      var resv := FindReservation(env.reservations, spec.name);
      if resv.Some? && resv.value.tokenId != req.tokenId {
        return Some(NameTaken);
      }
      e := DecideHolder(req, spec, staged, recs);
    }

    /** Applies the claim rules to one tunnel and builds its record. */
    method CheckSpec(env: Env, req: Request, spec: Tunnel, staged: map<string, Tunnel>, ports: map<int, string>,
                     domains: map<string, string>, ghost recs: seq<Tunnel>) returns (r: Result<Tunnel, ClaimError>)
      requires Valid() && StagedAs(recs, staged, ports, domains)
      ensures r == Check(env, View(), req, recs, spec)
    {
      hide NameRefusal, ChoosePort, DomainsFree, NamesOf, PortsOf, DomainsOf, WellKeyed;
      var refusal := RefuseName(env, req, spec, staged, recs);
      if refusal.Some? {
        return Err(refusal.value);
      }
      var free := CheckDomains(spec, domains, recs);
      if !free {
        return Err(NameTaken);
      }
      if HasPort(spec.kind) && !spec.accessToken {
        var port := Port(env, req, spec, ports, recs);
        match port {
          case Ok(p) => return Ok(Granted(env, req, spec, p));
          case Err(OutsideRange) => return Err(PortNotAllowed);
          case Err(_) => return Err(PortUnavailable);
        }
      }
      return Ok(Granted(env, req, spec, 0));
    }

    method CheckDomains(spec: Tunnel, domains: map<string, string>, ghost recs: seq<Tunnel>) returns (free: bool)
      requires domains.Keys == DomainsOf(recs)
      ensures free == DomainsFree(View(), recs, spec)
    {
      for i := 0 to |spec.domains|
        invariant forall k | 0 <= k < i :: Owner(byDomain, spec.domains[k]) in {"", spec.name} && spec.domains[k] !in domains
      {
        var d := spec.domains[i];
        var owner := if d in byDomain then byDomain[d] else "";
        if (owner != "" && owner != spec.name) || d in domains {
          assert d in spec.domains;
          return false;
        }
      }
      return true;
    }

    /** Checks every tunnel of a claim without storing anything. */
    method StageTunnels(env: Env, req: Request)
      returns (e: Option<ClaimError>, staged: map<string, Tunnel>, takeovers: seq<Tunnel>, ghost recs: seq<Tunnel>)
      requires Valid()
      ensures e.Some? ==> Stage(env, View(), req, req.tunnels) == Err(e.value)
      ensures e.None? ==>
                && Stage(env, View(), req, req.tunnels) == Ok(recs)
                && (forall i | 0 <= i < |recs| :: recs[i].name in staged && staged[recs[i].name] == recs[i])
                && TakeoverCommands(View(), req, req.tunnels) == TakeoversOf(takeovers)
    {
      staged, takeovers, recs := map[], [], [];
      var ports: map<int, string>, domains: map<string, string> := map[], map[];
      for i := 0 to |req.tunnels|
        invariant Stage(env, View(), req, req.tunnels[..i]) == Ok(recs) && StagedAs(recs, staged, ports, domains)
        invariant TakeoverCommands(View(), req, req.tunnels[..i]) == TakeoversOf(takeovers)
      {
        hide Stage, Check, TakeoverCommands, WellKeyed, StagedAs, NamesOf, TakeoversOf;
        var spec := req.tunnels[i];
        var r := CheckSpec(env, req, spec, staged, ports, domains, recs);
        StageNext(env, View(), req, req.tunnels, i, recs);
        if r.Err? {
          StageStops(env, View(), req, req.tunnels, i + 1);
          return Some(r.error), staged, takeovers, recs;
        }
        CheckGrants(env, View(), req, recs, spec);
        TakeoversNext(View(), req, i, takeovers);
        if spec.name in tunnels && tunnels[spec.name].state == LiveState.Active && tunnels[spec.name].relayId != req.relayId {
          takeovers := takeovers + [tunnels[spec.name]];
        }
        var rec := r.value;
        StagedMore(recs, staged, ports, domains, rec);
        staged, recs := staged[rec.name := rec], recs + [rec];
        if rec.publicPort != 0 {
          ports := ports[rec.publicPort := rec.name];
        }
        domains := domains + map d | d in rec.domains :: rec.name;
      }
      assert req.tunnels[..|req.tunnels|] == req.tunnels;
      return None, staged, takeovers, recs;
    }

    /** Registers every tunnel of the request or none of them. */
    method Claim(env: Env, req: Request) returns (r: Result<seq<Tunnel>, ClaimError>)
      requires Valid() && req.relayId != ""
      modifies this
      ensures Valid() && r == ClaimResult(env, old(View()), req)
      ensures Did(old(View()), old(log), Events(env, old(View()), ClaimOp(req)))
    {
      hide Stage, ForEach, ApplyAll, WellKeyed, Events, TakeoverCommands;
      ghost var s := View();
      RefusedClaim(env, s, req);
      if req.tunnels == [] || req.agentId == "" || req.tokenId == "" || req.sessionId == "" {
        return Err(Invalid);
      }
      var e, staged, takeovers, recs := StageTunnels(env, req);
      if e.Some? {
        return Err(e.value);
      }
      ClaimNames(env, s, req, recs);
      ClaimDone(env, s, req, recs);
      var claimed := CommitStaged(req, staged, recs);
      SendTakeovers(takeovers);
      return Ok(claimed);
    }

    method CommitStaged(req: Request, staged: map<string, Tunnel>, ghost recs: seq<Tunnel>) returns (claimed: seq<Tunnel>)
      requires |recs| == |req.tunnels| && forall i | 0 <= i < |recs| :: recs[i].name == req.tunnels[i].name
      requires forall i | 0 <= i < |recs| :: recs[i].name in staged && staged[recs[i].name] == recs[i]
      modifies this
      ensures claimed == recs
      ensures Did(old(View()), old(log), ForEach(old(View()), recs, StoreStep()))
    {
      hide Stored, StoreEvent, Apply, ApplyAll, ForEach;
      claimed := [];
      ghost var s, l := View(), log;
      NoneYet(s, recs, StoreStep());
      for i := 0 to |req.tunnels|
        invariant claimed == recs[..i]
        invariant Did(s, l, ForEach(s, recs[..i], StoreStep()))
      {
        ghost var es := ForEach(s, recs[..i], StoreStep());
        ForEachNext(s, recs, i, StoreStep());
        StoredMore(s, es, recs[i]);
        SetTunnel(staged[req.tunnels[i].name]);
        claimed := claimed + [staged[req.tunnels[i].name]];
      }
      assert recs[..|recs|] == recs;
    }

    /** Tells the old relays to close the tunnels that were taken over. */
    method SendTakeovers(takeovers: seq<Tunnel>)
      modifies this
      ensures View() == old(View()) && log == old(log) + TakeoversOf(takeovers)
    {
      for i := 0 to |takeovers|
        invariant View() == old(View()) && log == old(log) + TakeoversOf(takeovers[..i])
      {
        assert TakeoversOf(takeovers[..i + 1]) == TakeoversOf(takeovers[..i]) + [TakeoverOf(takeovers[i])];
        log := log + [CommandSent(Command(TakenOver, takeovers[i].relayId, takeovers[i].agentId, takeovers[i].tunnelId))];
      }
      assert takeovers[..|takeovers|] == takeovers;
    }

    // -------------------------------------------------------------------
    // PARK and RELEASE
    // -------------------------------------------------------------------

    method Park(env: Env, req: Request)
      requires Valid() && req.relayId != ""
      modifies this
      ensures Valid() && Did(old(View()), old(log), Events(env, old(View()), ParkOp(req)))
    {
      hide Stored, StoreEvent, Apply, ApplyAll, ForEach, WellKeyed;
      ghost var s, l := View(), log;
      var until := if req.graceUntil == 0 then env.now + env.grace else req.graceUntil;
      ghost var step := ParkStep(req, until);
      NoneYet(s, req.names, step);
      for i := 0 to |req.names|
        invariant Valid() && Did(s, l, ForEach(s, req.names[..i], step))
      {
        ghost var es := ForEach(s, req.names[..i], step);
        ForEachNext(s, req.names, i, step);
        var name := req.names[i];
        if name in tunnels && tunnels[name].relayId == req.relayId && (req.sessionId == "" || tunnels[name].sessionId == req.sessionId) {
          var rec := tunnels[name].(state := Grace, graceUntil := until, activeConns := 0);
          StoredMore(s, es, rec);
          SetTunnel(rec);
        } else {
          assert es + [] == es;
        }
        WellKeyedKept(s, ForEach(s, req.names[..i + 1], step));
      }
      assert req.names[..|req.names|] == req.names;
    }

    method Release(env: Env, req: Request)
      requires Valid() && req.relayId != ""
      modifies this
      ensures Valid() && Did(old(View()), old(log), Events(env, old(View()), ReleaseOp(req)))
    {
      hide Removed, Apply, ApplyAll, ForEach;
      ghost var s, l := View(), log;
      ghost var step := ReleaseStep(req);
      NoneYet(s, req.names, step);
      for i := 0 to |req.names|
        invariant Valid() && Did(s, l, ForEach(s, req.names[..i], step))
      {
        ghost var es := ForEach(s, req.names[..i], step);
        ForEachNext(s, req.names, i, step);
        var name := req.names[i];
        if name in tunnels && tunnels[name].relayId == req.relayId && (req.sessionId == "" || tunnels[name].sessionId == req.sessionId) {
          RemovedMore(s, es, tunnels[name]);
          DeleteTunnel(name);
        } else {
          assert es + [] == es;
        }
        WellKeyedKept(s, ForEach(s, req.names[..i + 1], step));
      }
      assert req.names[..|req.names|] == req.names;
    }

    // -------------------------------------------------------------------
    // ANNOUNCE and HEARTBEAT
    // -------------------------------------------------------------------

    /** Records a relay's report; a relay the engine considered lost is back up. */
    method TouchRelay(env: Env, id: string, report: Option<Relay>)
      modifies this
      ensures Did(old(View()), old(log), [RelayEvent(old(View()), TouchedRelay(env, old(View()), id, report))])
    {
      hide ApplyAll, Apply, RelayEvent;
      ghost var s := View();
      var rec := Relay(id, "", Ready, 0, 0, 0, 0, false, "");
      if report.Some? {
        rec := report.value.(relayId := id);
      }
      if rec.state == UnspecifiedRelay || rec.state == Down {
        rec := rec.(state := Ready);
      }
      rec := rec.(lastSeen := env.now);
      if id in relays && rec.startedAt == 0 {
        rec := rec.(startedAt := relays[id].startedAt);
      }
      RelayOnly(s, rec);
      SetRelay(rec);
    }

    /** One announced tunnel: skipped, refused as a conflict, or stored. */
    method AnnounceTunnel(env: Env, req: Request, t: Tunnel) returns (stored: bool, conflict: bool)
      requires Valid()
      modifies this
      ensures Valid() && Did(old(View()), old(log), AnnounceStep(env, req)(old(View()), t))
      ensures !(t.simulated && !env.allowSimulated) ==> conflict == Conflicts(old(View()), req, t) && stored == !conflict
      ensures t.simulated && !env.allowSimulated ==> !stored && !conflict
    {
      hide Stored, StoreEvent, ApplyAll;
      ghost var s := View();
      Nothing(s);
      stored, conflict := false, false;
      if t.simulated && !env.allowSimulated {
        return;
      }
      if t.name in tunnels && tunnels[t.name].relayId != req.relayId
         && tunnels[t.name].state == LiveState.Active && tunnels[t.name].agentId != t.agentId {
        conflict := true;
        return;
      }
      var rec := t.(relayId := req.relayId);
      if rec.state == UnspecifiedLive {
        rec := rec.(state := LiveState.Active);
      }
      StoreOnly(s, rec);
      WellKeyedKept(s, [StoreEvent(s, rec)]);
      SetTunnel(rec);
      stored := true;
    }

    method AnnounceTunnels(env: Env, req: Request) returns (reported: set<string>, conflicts: seq<string>)
      requires Valid()
      modifies this
      ensures Valid() && Did(old(View()), old(log), ForEach(old(View()), req.tunnels, AnnounceStep(env, req)))
      ensures (reported, conflicts) == Reported(env, old(View()), req, req.tunnels)
    {
      hide AnnounceStep, Conflicts, ApplyAll, ForEach, WellKeyed;
      ghost var s, l := View(), log;
      ghost var step := AnnounceStep(env, req);
      NoneYet(s, req.tunnels, step);
      reported, conflicts := {}, [];
      for i := 0 to |req.tunnels|
        invariant Valid() && Did(s, l, ForEach(s, req.tunnels[..i], step))
        invariant (reported, conflicts) == Reported(env, s, req, req.tunnels[..i])
      {
        ForEachNext(s, req.tunnels, i, step);
        ApplyAllAppend(s, ForEach(s, req.tunnels[..i], step), step(View(), req.tunnels[i]));
        assert req.tunnels[..i + 1][..i] == req.tunnels[..i];
        var stored, conflict := AnnounceTunnel(env, req, req.tunnels[i]);
        if stored {
          reported := reported + {req.tunnels[i].name};
        }
        if conflict {
          conflicts := conflicts + [req.tunnels[i].name];
        }
      }
      assert req.tunnels[..|req.tunnels|] == req.tunnels;
    }

    method ParkIfUnreported(env: Env, req: Request, reported: set<string>, name: string)
      requires Valid() && name in tunnels
      modifies this
      ensures Valid() && Did(old(View()), old(log), UnreportedStep(env, req, reported)(old(View()), name))
      ensures tunnels.Keys == old(tunnels).Keys
    {
      hide Stored, StoreEvent, ApplyAll;
      ghost var s := View();
      Nothing(s);
      var t := tunnels[name];
      if t.relayId == req.relayId && name !in reported && t.state == LiveState.Active {
        var rec := t.(state := Grace, graceUntil := env.now + env.grace);
        StoreOnly(s, rec);
        StoredKeys(s, rec);
        WellKeyedKept(s, [StoreEvent(s, rec)]);
        SetTunnel(rec);
      }
    }

    /** Parks the relay's tunnels it no longer reports. */
    method ParkUnreported(env: Env, req: Request, reported: set<string>) returns (ghost order: seq<string>)
      requires Valid()
      modifies this
      ensures Valid() && Did(old(View()), old(log), ForEach(old(View()), order, UnreportedStep(env, req, reported)))
      ensures NoDup(order) && Elements(order) == old(tunnels).Keys == tunnels.Keys
    {
      hide UnreportedStep, ApplyAll, ForEach, WellKeyed, NoDup, Elements;
      ghost var s, l := View(), log;
      ghost var step := UnreportedStep(env, req, reported);
      order := [];
      NoneYet(s, order, step);
      NothingVisited();
      var todo := tunnels.Keys;
      while todo != {}
        invariant Valid() && Did(s, l, ForEach(s, order, step))
        invariant NoDup(order) && Elements(order) == s.tunnels.Keys - todo && todo <= s.tunnels.Keys && tunnels.Keys == s.tunnels.Keys
        decreases todo
      {
        var name :| name in todo;
        VisitNext(s, order, name, todo, s.tunnels.Keys, step);
        ApplyAllAppend(s, ForEach(s, order, step), step(View(), name));
        todo := todo - {name};
        order := order + [name];
        ParkIfUnreported(env, req, reported, name);
      }
    }

    method AnnounceAgents(env: Env, req: Request)
      requires Valid()
      modifies this
      ensures Valid() && Did(old(View()), old(log), ForEach(old(View()), req.agents, AnnounceAgentStep(env, req)))
      ensures tunnels == old(tunnels)
    {
      hide AgentEvent, ApplyAll, ForEach, WellKeyed;
      ghost var s, l := View(), log;
      ghost var step := AnnounceAgentStep(env, req);
      NoneYet(s, req.agents, step);
      for i := 0 to |req.agents|
        invariant Valid() && Did(s, l, ForEach(s, req.agents[..i], step)) && tunnels == s.tunnels
      {
        ghost var es := ForEach(s, req.agents[..i], step);
        ForEachNext(s, req.agents, i, step);
        assert es + [] == es;
        if !(req.agents[i].simulated && !env.allowSimulated) {
          var rec := req.agents[i].(relayId := req.relayId);
          AgentMore(s, es, rec);
          SetAgent(rec);
        }
        WellKeyedKept(s, ForEach(s, req.agents[..i + 1], step));
      }
      assert req.agents[..|req.agents|] == req.agents;
    }

    /** Takes a relay's full state; the answer lists the names now held elsewhere. */
    method Announce(env: Env, req: Request) returns (r: Result<seq<string>, ClaimError>, ghost order: seq<string>)
      requires Valid() && req.relayId != ""
      modifies this
      ensures Valid() && Did(old(View()), old(log), Events(env, old(View()), AnnounceOp(req, order)))
      ensures r == if AnnounceRefused(env, req) then Err(Forbidden)
                   else Ok(Reported(env, ApplyAll(old(View()), AnnounceReport(env, old(View()), req)), req, req.tunnels).1)
      ensures !AnnounceRefused(env, req) ==> NoDup(order) && Elements(order) == tunnels.Keys
    {
      hide ApplyAll, ForEach, WellKeyed, NoDup, Elements, Reported, TouchedRelay, RelayEvent;
      ghost var s, l := View(), log;
      Nothing(s);
      order := [];
      if req.relay.Some? {
        if req.relay.value.simulated && !env.allowSimulated {
          return Err(Forbidden), order;
        }
        TouchRelay(env, req.relayId, req.relay);
      }
      ghost var es0 := AnnounceReport(env, s, req);
      ghost var s0 := View();
      WellKeyedKept(s, es0);
      var reported, conflicts := AnnounceTunnels(env, req);
      ghost var es1 := ForEach(s0, req.tunnels, AnnounceStep(env, req));
      ghost var s1 := View();
      order := ParkUnreported(env, req, reported);
      ghost var es2 := ForEach(s1, order, UnreportedStep(env, req, reported));
      ghost var s2 := View();
      AnnounceAgents(env, req);
      ghost var es3 := ForEach(s2, req.agents, AnnounceAgentStep(env, req));
      ApplyAllAppend(s, es0, es1);
      ApplyAllAppend(s, es0 + es1, es2);
      ApplyAllAppend(s, es0 + es1 + es2, es3);
      return Ok(conflicts), order;
    }

    method BeatTunnels(req: Request)
      requires Valid()
      modifies this
      ensures Valid() && Did(old(View()), old(log), ForEach(old(View()), req.tunnels, CountersStep(req)))
    {
      hide StoreEvent, Stored, ApplyAll, ForEach, WellKeyed;
      ghost var s, l := View(), log;
      ghost var step := CountersStep(req);
      NoneYet(s, req.tunnels, step);
      for i := 0 to |req.tunnels|
        invariant Valid() && Did(s, l, ForEach(s, req.tunnels[..i], step))
      {
        ghost var es := ForEach(s, req.tunnels[..i], step);
        ForEachNext(s, req.tunnels, i, step);
        assert es + [] == es;
        var t := req.tunnels[i];
        if t.name in tunnels && tunnels[t.name].relayId == req.relayId && tunnels[t.name].state == LiveState.Active
           && !(tunnels[t.name].activeConns == t.activeConns && tunnels[t.name].totalConns == t.totalConns
                && tunnels[t.name].bytesIn == t.bytesIn && tunnels[t.name].bytesOut == t.bytesOut) {
          var rec := tunnels[t.name].(activeConns := t.activeConns, totalConns := t.totalConns, bytesIn := t.bytesIn, bytesOut := t.bytesOut);
          StoredMore(s, es, rec);
          SetTunnel(rec);
        }
        WellKeyedKept(s, ForEach(s, req.tunnels[..i + 1], step));
      }
      assert req.tunnels[..|req.tunnels|] == req.tunnels;
    }

    method BeatAgents(env: Env, req: Request)
      requires Valid()
      modifies this
      ensures Valid() && Did(old(View()), old(log), ForEach(old(View()), req.agents, AgentBeatStep(env, req)))
    {
      hide AgentEvent, ApplyAll, ForEach, WellKeyed;
      ghost var s, l := View(), log;
      ghost var step := AgentBeatStep(env, req);
      NoneYet(s, req.agents, step);
      for i := 0 to |req.agents|
        invariant Valid() && Did(s, l, ForEach(s, req.agents[..i], step))
      {
        ghost var es := ForEach(s, req.agents[..i], step);
        ForEachNext(s, req.agents, i, step);
        assert es + [] == es;
        var a := req.agents[i];
        if a.agentId in agents && agents[a.agentId].relayId == req.relayId && agents[a.agentId].sessionId == a.sessionId {
          var rec := agents[a.agentId].(lastHeartbeat := a.lastHeartbeat, rttUs := a.rttUs, tunnelCount := a.tunnelCount,
            activeStreams := a.activeStreams, bytesIn := a.bytesIn, bytesOut := a.bytesOut, lastSeen := env.now);
          AgentMore(s, es, rec);
          SetAgent(rec);
        }
        WellKeyedKept(s, ForEach(s, req.agents[..i + 1], step));
      }
      assert req.agents[..|req.agents|] == req.agents;
    }

    /** Refreshes the relay and the counters of its agents and tunnels. */
    method Heartbeat(env: Env, req: Request)
      requires Valid() && req.relayId != ""
      modifies this
      ensures Valid() && Did(old(View()), old(log), Events(env, old(View()), HeartbeatOp(req)))
    {
      hide ApplyAll, ForEach, WellKeyed, TouchedRelay, RelayEvent;
      ghost var s := View();
      TouchRelay(env, req.relayId, req.relay);
      ghost var es0 := RelayReport(env, s, req);
      ghost var s0 := View();
      WellKeyedKept(s, es0);
      BeatTunnels(req);
      ghost var es1 := ForEach(s0, req.tunnels, CountersStep(req));
      ghost var s1 := View();
      BeatAgents(env, req);
      ApplyAllAppend(s, es0, es1);
      ApplyAllAppend(s, es0 + es1, ForEach(s1, req.agents, AgentBeatStep(env, req)));
    }

    // -------------------------------------------------------------------
    // AGENT_UP and AGENT_DOWN
    // -------------------------------------------------------------------

    method AgentUp(env: Env, req: Request) returns (e: Option<ClaimError>)
      requires Valid() && req.relayId != ""
      modifies this
      ensures Valid() && e == AgentUpRefusal(env, req)
      ensures Did(old(View()), old(log), Events(env, old(View()), AgentUpOp(req)))
    {
      hide AgentEvent, ApplyAll, WellKeyed;
      ghost var s := View();
      Nothing(s);
      if req.agent.None? || req.agent.value.agentId == "" || req.agent.value.sessionId == "" {
        return Some(Invalid);
      }
      var a := req.agent.value;
      if a.simulated && !env.allowSimulated {
        return Some(Forbidden);
      }
      var rec := a.(relayId := req.relayId, state := Online, graceUntil := 0, reason := UnspecifiedReason);
      if rec.connectedAt == 0 {
        rec := rec.(connectedAt := env.now);
      }
      rec := rec.(lastSeen := env.now, lastHeartbeat := env.now);
      AgentOnly(s, rec);
      WellKeyedKept(s, [AgentEvent(s, rec)]);
      SetAgent(rec);
      return None;
    }

    method MarkAgentDown(env: Env, a: Agent, reason: Reason)
      requires Valid()
      modifies this
      ensures Valid() && Did(old(View()), old(log), [AgentEvent(old(View()), DownAgent(env, a, reason))])
      ensures tunnels == old(tunnels) && relays == old(relays) && agents == old(agents)[a.agentId := DownAgent(env, a, reason)]
    {
      hide AgentEvent, ApplyAll, WellKeyed;
      var rec := a.(state := AgentGrace, reason := reason, graceUntil := env.now + env.grace, lastSeen := env.now, activeStreams := 0);
      if reason == TokenRevoked {
        rec := rec.(state := Offline, graceUntil := 0);
      }
      AgentOnly(View(), rec);
      WellKeyedKept(View(), [AgentEvent(View(), rec)]);
      SetAgent(rec);
    }

    /** Holds an agent's names, unless a newer session of it is already up. */
    method AgentDown(env: Env, req: Request)
      requires Valid() && req.relayId != ""
      modifies this
      ensures Valid() && Did(old(View()), old(log), Events(env, old(View()), AgentDownOp(req)))
    {
      hide AgentEvent, ApplyAll, WellKeyed, DownAgent;
      Nothing(View());
      if req.agentId in agents && agents[req.agentId].relayId == req.relayId && agents[req.agentId].sessionId == req.sessionId {
        MarkAgentDown(env, agents[req.agentId], req.reason);
      }
    }

    // -------------------------------------------------------------------
    // Sweep
    // -------------------------------------------------------------------

    method ParkIfServedBy(env: Env, id: string, name: string)
      requires Valid() && name in tunnels
      modifies this
      ensures Valid() && Did(old(View()), old(log), LostTunnelStep(env, id)(old(View()), name))
      ensures tunnels.Keys == old(tunnels).Keys && agents == old(agents) && relays == old(relays)
    {
      hide StoreEvent, ApplyAll, Stored, WellKeyed;
      ghost var s := View();
      Nothing(s);
      KeyedAt(s, name);
      var t := tunnels[name];
      if t.relayId == id && t.state == LiveState.Active {
        var rec := t.(state := Grace, graceUntil := env.now + env.grace, activeConns := 0);
        StoreOnly(s, rec);
        StoredKeys(s, rec);
        WellKeyedKept(s, [StoreEvent(s, rec)]);
        SetTunnel(rec);
      }
    }

    method ParkLostTunnels(env: Env, id: string) returns (ghost order: seq<string>)
      requires Valid()
      modifies this
      ensures Valid() && Did(old(View()), old(log), ForEach(old(View()), order, LostTunnelStep(env, id)))
      ensures NoDup(order) && Elements(order) == old(tunnels).Keys
      ensures tunnels.Keys == old(tunnels).Keys && agents == old(agents) && relays == old(relays)
    {
      hide LostTunnelStep, ApplyAll, ForEach, WellKeyed, NoDup, Elements;
      ghost var s, l := View(), log;
      ghost var step := LostTunnelStep(env, id);
      order := [];
      NoneYet(s, order, step);
      NothingVisited();
      var todo := tunnels.Keys;
      while todo != {}
        invariant Valid() && Did(s, l, ForEach(s, order, step))
        invariant NoDup(order) && Elements(order) == s.tunnels.Keys - todo && todo <= s.tunnels.Keys
        invariant tunnels.Keys == s.tunnels.Keys && agents == s.agents && relays == s.relays
        decreases todo
      {
        var name :| name in todo;
        VisitNext(s, order, name, todo, s.tunnels.Keys, step);
        ApplyAllAppend(s, ForEach(s, order, step), step(View(), name));
        todo := todo - {name};
        order := order + [name];
        ParkIfServedBy(env, id, name);
      }
    }

    method DownIfServedBy(env: Env, id: string, agentId: string)
      requires Valid() && agentId in agents
      modifies this
      ensures Valid() && Did(old(View()), old(log), LostAgentStep(env, id)(old(View()), agentId))
      ensures tunnels == old(tunnels) && agents.Keys == old(agents).Keys && relays == old(relays)
    {
      hide AgentEvent, ApplyAll, DownAgent;
      Nothing(View());
      var a := agents[agentId];
      assert a.agentId == agentId;
      hide WellKeyed;
      if a.relayId == id && a.state == Online {
        MarkAgentDown(env, a, RelayLost);
        DownKeepsKey(env, a, RelayLost);
      }
    }

    method DownLostAgents(env: Env, id: string) returns (ghost order: seq<string>)
      requires Valid()
      modifies this
      ensures Valid() && Did(old(View()), old(log), ForEach(old(View()), order, LostAgentStep(env, id)))
      ensures NoDup(order) && Elements(order) == old(agents).Keys
      ensures tunnels == old(tunnels) && agents.Keys == old(agents).Keys && relays == old(relays)
    {
      hide LostAgentStep, ApplyAll, ForEach, WellKeyed, NoDup, Elements;
      ghost var s, l := View(), log;
      ghost var step := LostAgentStep(env, id);
      order := [];
      NoneYet(s, order, step);
      NothingVisited();
      var todo := agents.Keys;
      while todo != {}
        invariant Valid() && Did(s, l, ForEach(s, order, step))
        invariant NoDup(order) && Elements(order) == s.agents.Keys - todo && todo <= s.agents.Keys
        invariant tunnels == s.tunnels && agents.Keys == s.agents.Keys && relays == s.relays
        decreases todo
      {
        var agentId :| agentId in todo;
        VisitNext(s, order, agentId, todo, s.agents.Keys, step);
        ApplyAllAppend(s, ForEach(s, order, step), step(View(), agentId));
        todo := todo - {agentId};
        order := order + [agentId];
        DownIfServedBy(env, id, agentId);
      }
    }

    /** Marks a silent relay down and parks everything it served. */
    method LostRelay(env: Env, id: string) returns (ghost visit: RelayVisit)
      requires Valid() && id in relays
      modifies this
      ensures Valid() && Did(old(View()), old(log), LostEvents(env, old(View()), old(relays)[id], visit))
      ensures visit.id == id && Elements(visit.tunnels) == tunnels.Keys && Elements(visit.agents) == agents.Keys
      ensures tunnels.Keys == old(tunnels).Keys && agents.Keys == old(agents).Keys
      ensures relays == old(relays)[id := old(relays)[id].(state := Down, sessions := 0, tunnels := 0)]
    {
      hide RelayEvent, LostTunnelStep, LostAgentStep, ApplyAll, ForEach, NoDup, Elements;
      ghost var s := View();
      var rec := relays[id].(state := Down, sessions := 0, tunnels := 0);
      assert rec.relayId == id;
      hide WellKeyed;
      RelayOnly(s, rec);
      ghost var es0 := [RelayEvent(s, rec)];
      WellKeyedKept(s, es0);
      SetRelay(rec);
      ghost var s0 := View();
      ghost var ts := ParkLostTunnels(env, id);
      ghost var s1 := View();
      ghost var ags := DownLostAgents(env, id);
      visit := RelayVisit(id, ts, ags);
      ghost var es1 := ForEach(s0, ts, LostTunnelStep(env, id));
      ApplyAllAppend(s, es0, es1);
      ApplyAllAppend(s, es0 + es1, ForEach(s1, ags, LostAgentStep(env, id)));
    }

    method SweepRelay(env: Env, id: string) returns (ghost visit: RelayVisit)
      requires Valid() && id in relays
      modifies this
      ensures Valid() && Did(old(View()), old(log), SweepRelayStep(env)(old(View()), visit))
      ensures visit.id == id && Covers(env, old(View()), visit)
      ensures tunnels.Keys == old(tunnels).Keys && agents.Keys == old(agents).Keys
      ensures forall k | k in old(relays) && k != id :: k in relays && relays[k] == old(relays)[k]
    {
      hide LostEvents, ApplyAll, Elements;
      ghost var s := View();
      Nothing(s);
      visit := RelayVisit(id, [], []);
      var r := relays[id];
      if r.simulated {
        return;
      }
      if r.state != Down && r.lastSeen < env.now - env.relayTimeout {
        hide WellKeyed;
        visit := LostRelay(env, id);
      } else if r.state == Down && r.lastSeen < env.now - env.downRetention {
        RelayGone(s, r);
        WellKeyedKept(s, [RelayChanged(r, Deleted)]);
        relays := relays - {id};
        log := log + [RelayChanged(r, Deleted)];
      }
    }

    method SweepRelays(env: Env) returns (ghost visits: seq<RelayVisit>)
      requires Valid()
      modifies this
      ensures Valid() && Did(old(View()), old(log), ForEach(old(View()), visits, SweepRelayStep(env)))
      ensures NoDup(Ids(visits)) && Elements(Ids(visits)) == old(relays).Keys
      ensures forall v | v in visits :: Covers(env, old(View()), v)
      ensures tunnels.Keys == old(tunnels).Keys && agents.Keys == old(agents).Keys
    {
      hide SweepRelayStep, ApplyAll, ForEach, WellKeyed, NoDup, Elements, Ids;
      ghost var s, l := View(), log;
      ghost var step := SweepRelayStep(env);
      visits := [];
      NoneYet(s, visits, step);
      NoVisits();
      var todo := relays.Keys;
      while todo != {}
        invariant Valid() && Did(s, l, ForEach(s, visits, step))
        invariant NoDup(Ids(visits)) && Elements(Ids(visits)) == s.relays.Keys - todo && todo <= s.relays.Keys
        invariant forall v | v in visits :: Covers(env, s, v)
        invariant tunnels.Keys == s.tunnels.Keys && agents.Keys == s.agents.Keys
        invariant forall k | k in todo :: k in relays && relays[k] == s.relays[k]
        decreases todo
      {
        var id :| id in todo;
        ghost var st := View();
        ghost var v := SweepRelay(env, id);
        CoversSame(env, s, st, v);
        VisitRelayNext(s, visits, v, todo, s.relays.Keys, step);
        ApplyAllAppend(s, ForEach(s, visits, step), step(st, v));
        todo := todo - {id};
        visits := visits + [v];
      }
    }

    method ExpireTunnel(env: Env, name: string)
      requires Valid() && name in tunnels
      modifies this
      ensures Valid() && Did(old(View()), old(log), SweepTunnelStep(env)(old(View()), name))
      ensures forall k | k in old(tunnels) && k != name :: k in tunnels
      ensures agents == old(agents)
    {
      hide ApplyAll, Removed;
      ghost var s := View();
      Nothing(s);
      var t := tunnels[name];
      if !t.simulated && t.state == Grace && t.graceUntil <= env.now {
        TunnelGone(s, t);
        WellKeyedKept(s, [TunnelChanged(t, Deleted)]);
        DeleteTunnel(name);
      }
    }

    method SweepTunnels(env: Env) returns (ghost order: seq<string>)
      requires Valid()
      modifies this
      ensures Valid() && Did(old(View()), old(log), ForEach(old(View()), order, SweepTunnelStep(env)))
      ensures NoDup(order) && Elements(order) == old(tunnels).Keys && agents == old(agents)
    {
      hide SweepTunnelStep, ApplyAll, ForEach, WellKeyed, NoDup, Elements;
      ghost var s, l := View(), log;
      ghost var step := SweepTunnelStep(env);
      order := [];
      NoneYet(s, order, step);
      NothingVisited();
      var todo := tunnels.Keys;
      while todo != {}
        invariant Valid() && Did(s, l, ForEach(s, order, step)) && agents == s.agents
        invariant NoDup(order) && Elements(order) == s.tunnels.Keys - todo && todo <= s.tunnels.Keys && todo <= tunnels.Keys
        decreases todo
      {
        var name :| name in todo;
        VisitNext(s, order, name, todo, s.tunnels.Keys, step);
        ApplyAllAppend(s, ForEach(s, order, step), step(View(), name));
        todo := todo - {name};
        order := order + [name];
        ExpireTunnel(env, name);
      }
    }

    method AgeAgent(env: Env, id: string)
      requires Valid() && id in agents
      modifies this
      ensures Valid() && Did(old(View()), old(log), SweepAgentStep(env)(old(View()), id))
      ensures forall k | k in old(agents) && k != id :: k in agents
    {
      hide ApplyAll, AgentEvent;
      ghost var s := View();
      Nothing(s);
      var a := agents[id];
      if a.simulated {
        return;
      }
      if a.state == AgentGrace && a.graceUntil <= env.now {
        var rec := a.(state := Offline, graceUntil := 0);
        AgentOnly(s, rec);
        WellKeyedKept(s, [AgentEvent(s, rec)]);
        SetAgent(rec);
      } else if a.state == Offline && a.lastSeen < env.now - env.offlineRetention {
        AgentGone(s, a);
        WellKeyedKept(s, [AgentChanged(a, Deleted)]);
        agents := agents - {id};
        log := log + [AgentChanged(a, Deleted)];
      }
    }

    method SweepAgents(env: Env) returns (ghost order: seq<string>)
      requires Valid()
      modifies this
      ensures Valid() && Did(old(View()), old(log), ForEach(old(View()), order, SweepAgentStep(env)))
      ensures NoDup(order) && Elements(order) == old(agents).Keys
    {
      hide SweepAgentStep, ApplyAll, ForEach, WellKeyed, NoDup, Elements;
      ghost var s, l := View(), log;
      ghost var step := SweepAgentStep(env);
      order := [];
      NoneYet(s, order, step);
      NothingVisited();
      var todo := agents.Keys;
      while todo != {}
        invariant Valid() && Did(s, l, ForEach(s, order, step))
        invariant NoDup(order) && Elements(order) == s.agents.Keys - todo && todo <= s.agents.Keys && todo <= agents.Keys
        decreases todo
      {
        var id :| id in todo;
        VisitNext(s, order, id, todo, s.agents.Keys, step);
        ApplyAllAppend(s, ForEach(s, order, step), step(View(), id));
        todo := todo - {id};
        order := order + [id];
        AgeAgent(env, id);
      }
    }

    /** Applies time: lost relays, expired grace periods, retention. */
    method Sweep(env: Env) returns (ghost order: SweepOrder)
      requires Valid()
      modifies this
      ensures Valid() && ValidOrder(env, old(View()), order)
      ensures Did(old(View()), old(log), Events(env, old(View()), SweepOp(order)))
    {
      hide SweepRelayStep, SweepTunnelStep, SweepAgentStep, ApplyAll, ForEach, WellKeyed, NoDup, Elements, Ids, Covers;
      ghost var s := View();
      ghost var visits := SweepRelays(env);
      ghost var s0 := View();
      ghost var ts := SweepTunnels(env);
      ghost var s1 := View();
      ghost var ags := SweepAgents(env);
      order := SweepOrder(visits, ts, ags);
      ghost var es0 := ForEach(s, visits, SweepRelayStep(env));
      ghost var es1 := ForEach(s0, ts, SweepTunnelStep(env));
      ApplyAllAppend(s, es0, es1);
      ApplyAllAppend(s, es0 + es1, ForEach(s1, ags, SweepAgentStep(env)));
    }

    // -------------------------------------------------------------------
    // Command and Handle
    // -------------------------------------------------------------------

    /** A connected tunnel with the id, if there is one. */
    method FindTunnel(tunnelId: string) returns (pick: string)
      ensures IsConnected(View(), pick, tunnelId) || forall n | n in tunnels :: !IsConnected(View(), n, tunnelId)
    {
      pick := "";
      var todo := tunnels.Keys;
      while todo != {}
        invariant todo <= tunnels.Keys
        invariant IsConnected(View(), pick, tunnelId) || forall n | n in tunnels && n !in todo :: !IsConnected(View(), n, tunnelId)
        decreases todo
      {
        var n :| n in todo;
        todo := todo - {n};
        if tunnels[n].tunnelId == tunnelId && tunnels[n].state == LiveState.Active {
          pick := n;
        }
      }
    }

    method SendCommand(cmd: Command)
      modifies this
      ensures View() == old(View()) && log == old(log) + [CommandSent(cmd)]
    {
      log := log + [CommandSent(cmd)];
    }

    /** Applies an operator's action and forwards it to the relay that carries it out. */
    method Execute(env: Env, cmd: Command) returns (r: Result<Command, CommandError>, ghost pick: string)
      requires Valid()
      modifies this
      ensures Valid() && r == CommandResult(old(View()), cmd, pick)
      ensures cmd.kind == DisconnectTunnel && r.Err? ==> forall n | n in tunnels :: !IsConnected(View(), n, cmd.tunnelId)
      ensures Did(old(View()), old(log), Events(env, old(View()), CommandOp(cmd, pick)))
    {
      hide ApplyAll, RelayEvent;
      ghost var s := View();
      Nothing(s);
      pick := "";
      var filled := cmd;
      match cmd.kind {
        case Drain | Resume =>
          if cmd.relayId !in relays || relays[cmd.relayId].state == Down {
            return Err(NotFound), pick;
          }
          var rec := relays[cmd.relayId].(state := if cmd.kind == Drain then Draining else Ready);
          RelayThenCommand(s, rec, cmd);
          SetRelay(rec);
        case DisconnectAgent =>
          if cmd.agentId !in agents || agents[cmd.agentId].state != Online {
            return Err(NotFound), pick;
          }
          filled := cmd.(relayId := agents[cmd.agentId].relayId);
        case DisconnectTunnel =>
          var found := FindTunnel(cmd.tunnelId);
          pick := found;
          if !(found in tunnels && tunnels[found].tunnelId == cmd.tunnelId && tunnels[found].state == LiveState.Active) {
            return Err(NotFound), pick;
          }
          filled := cmd.(relayId := tunnels[found].relayId, agentId := tunnels[found].agentId);
        case Reannounce =>
        case _ =>
          return Err(Unsupported), pick;
      }
      CommandOnly(s, filled);
      assert [] + [CommandSent(filled)] == [CommandSent(filled)];
      SendCommand(filled);
      return Ok(filled), pick;
    }

    /** Runs one relay request; one without a relay id or a kind changes nothing. */
    method Handle(env: Env, kind: RequestKind, req: Request) returns (r: Response, ghost order: seq<string>)
      requires Valid()
      modifies this
      ensures Valid()
      ensures req.relayId == "" || kind == UnspecifiedKind ==> r == Refuse(Invalid) && View() == old(View()) && log == old(log)
      ensures req.relayId != "" ==>
                var s, done := old(View()), Response(None, [], []);
                match kind
                case UnspecifiedKind => true
                case ClaimKind =>
                  && Did(s, old(log), Events(env, s, ClaimOp(req)))
                  && r == (match ClaimResult(env, s, req) case Ok(ts) => Response(None, ts, []) case Err(e) => Response(Some(e), [], []))
                case ParkKind => Did(s, old(log), Events(env, s, ParkOp(req))) && r == done
                case ReleaseKind => Did(s, old(log), Events(env, s, ReleaseOp(req))) && r == done
                case AnnounceKind =>
                  && Did(s, old(log), Events(env, s, AnnounceOp(req, order)))
                  && if req.relay.Some? && req.relay.value.simulated && !env.allowSimulated then r == Response(Some(Forbidden), [], [])
                     else r == Response(None, [], O.Refused(env, s, req, |req.tunnels|)) && NoDup(order) && Elements(order) == tunnels.Keys
                case HeartbeatKind => Did(s, old(log), Events(env, s, HeartbeatOp(req))) && r == done
                case AgentUpKind => Did(s, old(log), Events(env, s, AgentUpOp(req))) && r == Response(AgentUpRefusal(env, req), [], [])
                case AgentDownKind => Did(s, old(log), Events(env, s, AgentDownOp(req))) && r == done
    {
      hide Events, ClaimResult, Reported;
      order := [];
      r := Response(None, [], []);
      if req.relayId == "" {
        return Refuse(Invalid), order;
      }
      match kind {
        case ClaimKind =>
          var claimed := Claim(env, req);
          r := ClaimResponse(claimed);
        case ParkKind => Park(env, req);
        case ReleaseKind => Release(env, req);
        case AnnounceKind =>
          O.AnnounceAnswers(env, View(), req);
          var conflicts;
          conflicts, order := Announce(env, req);
          r := match conflicts case Ok(names) => Response(None, [], names) case Err(e) => Refuse(e);
        case HeartbeatKind => Heartbeat(env, req);
        case AgentUpKind =>
          var e := AgentUp(env, req);
          r := Response(e, [], []);
        case AgentDownKind => AgentDown(env, req);
        case UnspecifiedKind => r := Refuse(Invalid);
      }
    }
  }
}
