/** Opening the tunnels of one registration on a standalone relay
    (openTunnel in go/tunnel/relay/tunnel.go, register in go/tunnel/relay/session.go),
    as one agent's calls without another's between them. */
module OpenTunnels {
  import opened Wrappers
  import opened Records
  import opened ClaimRules
  import opened Standalone
  import opened StandaloneTheorems
  import opened NameRegistries

  /** One requested tunnel; refused when a check before the claim fails it, listens
      when it gets a public port of its own. */
  datatype Spec = Spec(name: string, kind: TunnelType, domains: seq<string>, refused: bool, listens: bool, requested: int, previous: int)

  datatype Agent = Agent(tokenId: string, agentId: string, session: string, maxTunnels: int)

  datatype OpenError = Refused | NameRefused(why: Refusal) | DomainTaken(domain: string) | NoPort(port: ListenError)

  datatype Opened = Opened(h: Handle, existed: bool)

  /** Only the reservation h changed, if any, and it kept its name. */
  ghost predicate OnlyTouched(s: State, t: State, h: Handle) {
    && t.closed == s.closed
    && (forall g | g in s.entries :: g in t.entries && t.entries[g].name == s.entries[g].name)
    && (forall g | g in s.entries && g != h :: t.entries[g] == s.entries[g])
  }

  /** The tunnel is open: its name is registered and connected to the session. */
  ghost predicate Opens(s: State, t: State, name: string, session: string, o: Opened) {
    && Inv(t) && OnlyTouched(s, t, o.h)
    && Registered(t, o.h) && t.entries[o.h].name == name && t.entries[o.h].session == Some(session)
    && (o.existed ==> t.names == s.names && name in s.names && s.names[name] == o.h &&
                      o.h in s.entries && s.entries[o.h].session != Some(session))
    && (!o.existed ==> name !in s.names && o.h !in s.entries && t.names == s.names[name := o.h])
  }

  /** The tunnel is not open: no name was added, and none was lost unless the relay
      is closing; only the name's own reservation was touched, and it is parked. */
  ghost predicate Fails(s: State, t: State, name: string, session: string) {
    && Inv(t) && t.closed == s.closed
    && (forall n | n in t.names :: n in s.names && t.names[n] == s.names[n])
    && (!s.closed ==> t.names == s.names)
    && (forall n | n in s.names && n !in t.names :: s.names[n] in s.entries && s.entries[s.names[n]].session != Some(session))
    && (forall g | g in s.entries :: g in t.entries && t.entries[g].name == s.entries[g].name)
    && (forall g | g in s.entries && t.entries[g] != s.entries[g] ::
          t.entries[g].name == name && s.entries[g].session != Some(session) && t.entries[g].session.None?)
  }

  // ---------------------------------------------------------------------
  // The reservation itself
  // ---------------------------------------------------------------------

  /** The request reclaims or takes over the name's reservation. */
  predicate Reclaims(s: State, spec: Spec, a: Agent) {
    && !spec.refused && spec.name in s.names && s.names[spec.name] in s.entries
    && ClaimAnswer(s, spec.name, a.tokenId, a.agentId, a.session, a.maxTunnels).Ok?
  }

  /** The port the name's reservation holds. */
  ghost function HeldPort(s: State, name: string): int {
    if name in s.names && s.names[name] in s.entries then s.entries[s.names[name]].port else 0
  }

  /** No other reservation has one of the domains. */
  ghost predicate DomainsFree(s: State, spec: Spec) {
    forall d | d in spec.domains && d in s.domains :: spec.name in s.names && s.domains[d] == s.names[spec.name]
  }

  /** The tunnel can be opened: the name can be claimed, its domains are free, and there
      is a port for it if it needs one. */
  ghost predicate CanOpen(s: State, rules: Rules, range: PortRange, spec: Spec, a: Agent, binds: (int, nat) -> bool) {
    && !spec.refused && ClaimAnswer(s, spec.name, a.tokenId, a.agentId, a.session, a.maxTunnels).Ok? && DomainsFree(s, spec)
    && (spec.listens ==> PortFound(HeldPort(s, spec.name), s.ports, rules, range, spec.requested, spec.previous, binds))
  }

  /** The reservation has the request's name, kind, token, agent, session and domains,
      and no expiry. */
  predicate Serves(u: Entry, spec: Spec, a: Agent, tunnel: string) {
    && u.name == spec.name && u.kind == spec.kind && u.tokenId == a.tokenId && u.agentId == a.agentId
    && u.session == Some(a.session) && u.tunnel == Some(tunnel) && u.domains == spec.domains && !u.armed
  }

  /** The tunnel is open as asked, on the port it gets; a new reservation is not
      permanent. */
  ghost predicate OpenedAs(s: State, t: State, range: PortRange, spec: Spec, a: Agent, tunnel: string, binds: (int, nat) -> bool, o: Opened) {
    && o.h in t.entries && var u := t.entries[o.h];
    && Serves(u, spec, a, tunnel) && (!o.existed ==> !u.permanent)
    && if spec.listens then PortTaken(HeldPort(s, spec.name), s.ports, range, spec.requested, spec.previous, binds, u.port)
       else u.port == HeldPort(s, spec.name)
  }

  lemma DomainsFreeMeans(s: State, spec: Spec, h: Handle)
    requires Inv(s) && h == if spec.name in s.names then s.names[spec.name] else s.next
    ensures DomainsFree(s, spec) <==> TakenDomain(s, h, spec.domains).None?
  {
    hide PortsOk, TimersOk;
    TakenDomainFinds(s, h, spec.domains);
    forall d | d in s.domains ensures s.domains[d] != s.next { assert Registered(s, s.domains[d]); }
  }

  /** A port the reservation holds is kept unless another one is requested. */
  predicate KeepsPort(e: Entry, spec: Spec) {
    !spec.listens || (e.port != 0 && (spec.requested == 0 || spec.requested == e.port))
  }

  /** The reservation reopened: its name, token, permanence and last expiry stay. */
  function Reopened(e: Entry, spec: Spec, a: Agent, tunnel: string, port: int): Entry {
    e.(kind := spec.kind, agentId := a.agentId, session := Some(a.session), tunnel := Some(tunnel), armed := false,
       domains := spec.domains, port := port)
  }

  /** The reservation after an attempt to reopen it was undone. */
  function Undone(cfg: Config, closed: bool, e: Entry, spec: Spec, a: Agent, domains: seq<string>, port: int, now: int): Entry {
    var left := e.(kind := spec.kind, agentId := a.agentId, session := None, tunnel := None, armed := false, domains := domains, port := port);
    if e.permanent || closed then left else left.(expires := now + cfg.grace, armed := true)
  }

  /** The domains a failed attempt leaves: the requested ones, unless they were
      refused. */
  function LeftDomains(s: State, h: Handle, spec: Spec): seq<string>
    requires h in s.entries
  {
    if TakenDomain(s, h, spec.domains).Some? then s.entries[h].domains else spec.domains
  }

  /** After a failed attempt every reservation is as it was but the reclaimed one. */
  ghost predicate FailedEntries(cfg: Config, s: State, t: State, spec: Spec, a: Agent, now: int) {
    forall g | g in s.entries ::
      && g in t.entries
      && t.entries[g] == if Reclaims(s, spec, a) && g == s.names[spec.name]
                         then Undone(cfg, s.closed, s.entries[g], spec, a, LeftDomains(s, g, spec), s.entries[g].port, now)
                         else s.entries[g]
  }

  /** Undoing always keeps the name, the token and whether it is permanent. */
  lemma UndoneKeeps(cfg: Config, closed: bool, e: Entry, spec: Spec, a: Agent, domains: seq<string>, port: int, now: int)
    ensures var u := Undone(cfg, closed, e, spec, a, domains, port, now);
            u.name == e.name && u.tokenId == e.tokenId && u.permanent == e.permanent && u.session.None?
  {
  }

  /** It restores the reservation exactly when it was parked, the attempt was of the
      same kind and agent and left its domains and port, and its expiry, if it has
      one, was set for the same moment. */
  lemma RestoredIff(cfg: Config, s: State, h: Handle, spec: Spec, a: Agent, domains: seq<string>, port: int, now: int)
    requires Inv(s) && Registered(s, h)
    ensures var e := s.entries[h];
            Undone(cfg, s.closed, e, spec, a, domains, port, now) == e <==>
            && spec.kind == e.kind && a.agentId == e.agentId && e.session.None? && e.tunnel.None?
            && domains == e.domains && port == e.port
            && (e.permanent || (!s.closed && e.expires == now + cfg.grace))
  {
    hide NamesOk, DomainsOk, PortsOk;
    assert TimersOk(s);
  }

  /** A failed attempt restores the reservation exactly when also its domains were the
      held ones or were refused. */
  lemma FailedAttemptRestoresIff(cfg: Config, s: State, t: State, spec: Spec, a: Agent, now: int)
    requires Inv(s) && Reclaims(s, spec, a) && FailedEntries(cfg, s, t, spec, a, now)
    ensures var h := s.names[spec.name];
            var e := s.entries[h];
            t.entries[h] == e <==>
            && spec.kind == e.kind && a.agentId == e.agentId && e.session.None? && e.tunnel.None?
            && (TakenDomain(s, h, spec.domains).Some? || spec.domains == e.domains)
            && (e.permanent || (!s.closed && e.expires == now + cfg.grace))
  {
    hide TakenDomain, Undone;
    var h := s.names[spec.name];
    InvNames(s);
    RestoredIff(cfg, s, h, spec, a, LeftDomains(s, h, spec), s.entries[h].port, now);
  }

  /** A granted claim connects the name to the session. */
  lemma ClaimOpens(s: State, spec: Spec, a: Agent)
    requires Inv(s) && ClaimAnswer(s, spec.name, a.tokenId, a.agentId, a.session, a.maxTunnels).Ok?
    ensures var d := ClaimAnswer(s, spec.name, a.tokenId, a.agentId, a.session, a.maxTunnels).value;
            var t := Claimed(s, spec.name, spec.kind, a.tokenId, a.agentId, a.session, a.maxTunnels);
            spec.name in t.names && Opens(s, t, spec.name, a.session, Opened(t.names[spec.name], d != New))
  {
    hide Inv, Opens, Claimed, ClaimAnswer;
    ClaimKeeps(s, spec.name, spec.kind, a.tokenId, a.agentId, a.session, a.maxTunnels);
    InvNames(s);
    ClaimShape(s, spec, a);
    var t := Claimed(s, spec.name, spec.kind, a.tokenId, a.agentId, a.session, a.maxTunnels);
    if ClaimAnswer(s, spec.name, a.tokenId, a.agentId, a.session, a.maxTunnels).value == New {
      NewOpens(s, t, spec.name, a.session);
    } else {
      ReclaimOpens(s, t, spec.name, a.session);
    }
  }

  /** What a granted claim changes. */
  lemma ClaimShape(s: State, spec: Spec, a: Agent)
    requires NamesOk(s) && ClaimAnswer(s, spec.name, a.tokenId, a.agentId, a.session, a.maxTunnels).Ok?
    ensures var d := ClaimAnswer(s, spec.name, a.tokenId, a.agentId, a.session, a.maxTunnels).value;
            var t := Claimed(s, spec.name, spec.kind, a.tokenId, a.agentId, a.session, a.maxTunnels);
            var h := if d == New then s.next else if spec.name in s.names then s.names[spec.name] else 0;
            && t.closed == s.closed && h in t.entries && t.entries == s.entries[h := t.entries[h]]
            && t.entries[h].name == spec.name && t.entries[h].session == Some(a.session)
            && t.entries[h].kind == spec.kind && t.entries[h].tokenId == a.tokenId && t.entries[h].agentId == a.agentId
            && !t.entries[h].armed && (d == New ==> !t.entries[h].permanent)
            && t.domains == s.domains && t.ports == s.ports && t.entries[h].port == HeldPort(s, spec.name)
            && if d == New then spec.name !in s.names && t.names == s.names[spec.name := h]
               else spec.name in s.names && t.names == s.names && s.entries[h].session != Some(a.session) &&
                    t.entries[h] == s.entries[h].(kind := spec.kind, agentId := a.agentId, session := Some(a.session), tunnel := None, armed := false)
  {
    hide ConnectedOf;
  }

  lemma NewOpens(s: State, t: State, name: string, session: string)
    requires NamesOk(s) && Inv(t) && name !in s.names && s.next in t.entries && t.closed == s.closed
    requires t.entries == s.entries[s.next := t.entries[s.next]] && t.names == s.names[name := s.next]
    requires t.entries[s.next].name == name && t.entries[s.next].session == Some(session)
    ensures Opens(s, t, name, session, Opened(s.next, false))
  {
    hide Inv;
  }

  lemma ReclaimOpens(s: State, t: State, name: string, session: string)
    requires NamesOk(s) && Inv(t) && name in s.names && t.names == s.names && t.closed == s.closed
    requires s.names[name] in t.entries && t.entries == s.entries[s.names[name] := t.entries[s.names[name]]]
    requires t.entries[s.names[name]].name == name && t.entries[s.names[name]].session == Some(session)
    requires s.entries[s.names[name]].session != Some(session)
    ensures Opens(s, t, name, session, Opened(s.names[name], true))
  {
    hide Inv;
  }

  /** What keeps an open tunnel open: changing only the domains, port and tunnel of
      its reservation. */
  lemma StaysOpen(s: State, t: State, u: State, name: string, session: string, o: Opened)
    requires Opens(s, t, name, session, o) && Inv(u) && u.names == t.names && u.closed == t.closed && o.h in u.entries
    requires u.entries == t.entries[o.h := u.entries[o.h]]
    requires u.entries[o.h].name == name && u.entries[o.h].session == Some(session)
    ensures Opens(s, u, name, session, o)
  {
    hide Inv;
  }

  /** Undoing an open tunnel. */
  lemma UndoFails(s: State, t: State, cfg: Config, name: string, session: string, o: Opened, now: int)
    requires Inv(s) && Opens(s, t, name, session, o) && !cfg.clustered
    ensures Fails(s, RolledBack(t, cfg, o.h, session, o.existed, now), name, session)
  {
    hide Inv, RolledBack, Fails;
    assert Connected(t, o.h, name, session);
    RollbackKeepsIff(t, cfg, o.h, session, o.existed, now);
    UndoShape(t, cfg, o.h, name, session, o.existed, now);
    InvNames(s);
    ShapeFails(s, t, RolledBack(t, cfg, o.h, session, o.existed, now), name, session, o);
  }

  lemma ShapeFails(s: State, t: State, u: State, name: string, session: string, o: Opened)
    requires NamesOk(s) && Opens(s, t, name, session, o) && Inv(u) && u.closed == t.closed && o.h in u.entries
    requires u.entries == t.entries[o.h := u.entries[o.h]] && u.entries[o.h].name == name
    requires o.existed ==> u.entries[o.h].session.None? && (u.names == t.names || (t.closed && u.names == t.names - {name}))
    requires !o.existed ==> u.names == t.names - {name}
    ensures Fails(s, u, name, session)
  {
    hide Inv, Opens, Fails;
    if o.existed { ReclaimedFails(s, t, u, name, session, o); } else { NewFails(s, t, u, name, session, o); }
  }

  lemma NewFails(s: State, t: State, u: State, name: string, session: string, o: Opened)
    requires Opens(s, t, name, session, o) && !o.existed && Inv(u) && u.closed == t.closed && o.h in u.entries
    requires u.entries == t.entries[o.h := u.entries[o.h]] && u.names == t.names - {name}
    ensures Fails(s, u, name, session)
  {
    hide Inv;
    assert u.names == s.names;
  }

  lemma ReclaimedFails(s: State, t: State, u: State, name: string, session: string, o: Opened)
    requires NamesOk(s) && Opens(s, t, name, session, o) && o.existed && Inv(u) && u.closed == t.closed && o.h in u.entries
    requires u.entries == t.entries[o.h := u.entries[o.h]] && u.entries[o.h].name == name && u.entries[o.h].session.None?
    requires u.names == t.names || (t.closed && u.names == t.names - {name})
    ensures Fails(s, u, name, session)
  {
    hide Inv;
  }

  /** The reservation between the claim and the end of the attempt. */
  function Reclaimed(e: Entry, spec: Spec, a: Agent, domains: seq<string>, port: int): Entry {
    e.(kind := spec.kind, agentId := a.agentId, session := Some(a.session), tunnel := None, armed := false, domains := domains, port := port)
  }

  lemma {:induction false} TakenSame(s: State, t: State, h: Handle, domains: seq<string>)
    requires s.domains == t.domains
    ensures TakenDomain(s, h, domains) == TakenDomain(t, h, domains)
  {
    if domains != [] { TakenSame(s, t, h, domains[1..]); }
  }

  /** Undoing the attempt leaves the reclaimed reservation as said, the others alone. */
  lemma UndoEntries(cfg: Config, s: State, t: State, spec: Spec, a: Agent, o: Opened, now: int)
    requires Opens(s, t, spec.name, a.session, o) && !cfg.clustered && (o.existed <==> Reclaims(s, spec, a))
    requires o.existed ==> t.entries[o.h] == Reclaimed(s.entries[o.h], spec, a, LeftDomains(s, o.h, spec), s.entries[o.h].port)
    ensures FailedEntries(cfg, s, RolledBack(t, cfg, o.h, a.session, o.existed, now), spec, a, now)
  {
    hide Inv, RolledBack, Reclaims, LeftDomains;
    UndoShape(t, cfg, o.h, spec.name, a.session, o.existed, now);
    var u := RolledBack(t, cfg, o.h, a.session, o.existed, now);
    forall g | g in s.entries && !(Reclaims(s, spec, a) && g == s.names[spec.name]) ensures g in u.entries && u.entries[g] == s.entries[g] {
      assert g != o.h;
    }
  }

  lemma SameEntries(cfg: Config, s: State, spec: Spec, a: Agent, now: int)
    requires !Reclaims(s, spec, a)
    ensures FailedEntries(cfg, s, s, spec, a, now)
  {
  }

  /** A port just bound is not the one held before. */
  lemma NewPortDiffers(t: State, h: Handle, port: int)
    requires Inv(t) && Registered(t, h) && port != 0 && port !in t.ports
    ensures port != t.entries[h].port
  {
    hide DomainsOk, TimersOk;
    assert Holds(t, t.entries[h].name, t.entries[h].port);
  }

  /** Undoes the claim of a tunnel that could not be opened. */
  method UndoOpen(r: NameRegistry, ghost s: State, spec: Spec, a: Agent, o: Opened, now: int)
    requires Inv(s) && Opens(s, r.View(), spec.name, a.session, o) && !r.cfg.clustered && (o.existed <==> Reclaims(s, spec, a))
    requires o.existed ==> r.entries[o.h] == Reclaimed(s.entries[o.h], spec, a, LeftDomains(s, o.h, spec), s.entries[o.h].port)
    modifies r
    ensures Fails(s, r.View(), spec.name, a.session) && FailedEntries(r.cfg, s, r.View(), spec, a, now)
  {
    hide Inv, Fails, FailedEntries, RolledBack, LeftDomains, Reclaims;
    UndoFails(s, r.View(), r.cfg, spec.name, a.session, o, now);
    UndoEntries(r.cfg, s, r.View(), spec, a, o, now);
    r.Rollback(o.h, a.session, o.existed, now);
  }

  /** Claims the name, sets its domains and binds its port; undoes the claim when
      one of them fails. */
  method OpenTunnel(r: NameRegistry, rules: Rules, range: PortRange, a: Agent, spec: Spec, tunnel: string,
                    binds: (int, nat) -> bool, now: int)
    returns (res: Result<Opened, OpenError>)
    requires Inv(r.View()) && !r.cfg.clustered && (range.Some? ==> range.value.0 > 0)
    modifies r
    ensures res.Ok? <==> CanOpen(old(r.View()), rules, range, spec, a, binds)
    ensures res == Err(Refused) <==> spec.refused
    ensures forall e :: res == Err(NameRefused(e)) <==>
              !spec.refused && ClaimAnswer(old(r.View()), spec.name, a.tokenId, a.agentId, a.session, a.maxTunnels) == Err(e)
    ensures res.Ok? ==> Opens(old(r.View()), r.View(), spec.name, a.session, res.value)
    ensures res.Ok? ==> OpenedAs(old(r.View()), r.View(), range, spec, a, tunnel, binds, res.value)
    ensures res.Ok? && res.value.existed ==>
              var e, u := old(r.entries)[res.value.h], r.entries[res.value.h];
              u == Reopened(e, spec, a, tunnel, u.port) && (u.port == e.port <==> KeepsPort(e, spec))
    ensures res.Err? ==> Fails(old(r.View()), r.View(), spec.name, a.session)
    ensures res.Err? ==> FailedEntries(r.cfg, old(r.View()), r.View(), spec, a, now)
  {
    hide Inv, Claimed, RolledBack, DomainsSet, Fails, ClaimAnswer, TakenDomain, FailedEntries, NamesOk, OnlyTouched, PortFound,
         PortTaken, DomainsFree, HeldPort;
    ghost var s := r.View();
    InvNames(s);
    if spec.refused {
      NothingFails(s, spec.name, a.session);
      SameEntries(r.cfg, s, spec, a, now);
      return Err(Refused);
    }
    var claimed := r.Claim(spec.name, spec.kind, a.tokenId, a.agentId, a.session, a.maxTunnels);
    if claimed.Err? {
      RefusedIsSame(s, spec, a);
      NothingFails(s, spec.name, a.session);
      SameEntries(r.cfg, s, spec, a, now);
      return Err(NameRefused(claimed.error));
    }
    ClaimOpens(s, spec, a);
    ClaimShape(s, spec, a);
    var o := Opened(claimed.value.0, claimed.value.1);
    ghost var t := r.View();
    assert o.existed <==> Reclaims(s, spec, a);
    TakenSame(s, t, o.h, spec.domains);
    DomainsFreeMeans(s, spec, o.h);
    var taken := r.SetDomains(o.h, spec.domains);
    if taken.Some? {
      SetDomainsRefused(t, o.h, spec.domains);
      UndoOpen(r, s, spec, a, o, now);
      return Err(DomainTaken(taken.value));
    }
    DomainsStayOpen(s, t, spec.name, a.session, o, spec.domains);
    t := r.View();
    if spec.listens {
      var port := ListenTunnelPort(r, rules, range, o.h, spec.requested, spec.previous, binds);
      if port.Err? {
        UndoOpen(r, s, spec, a, o, now);
        return Err(NoPort(port.error));
      }
      PortStaysOpen(s, t, r.View(), spec.name, a.session, o, port.value);
      if port.value !in t.ports { NewPortDiffers(t, o.h, port.value); }
      t := r.View();
    }
    r.Activate(o.h, tunnel);
    ActivateStaysOpen(s, t, spec.name, a.session, o, tunnel);
    res := Ok(o);
  }

  lemma NothingFails(s: State, name: string, session: string)
    requires Inv(s)
    ensures Fails(s, s, name, session)
  {
    hide Inv;
  }

  lemma RefusedIsSame(s: State, spec: Spec, a: Agent)
    requires ClaimAnswer(s, spec.name, a.tokenId, a.agentId, a.session, a.maxTunnels).Err?
    ensures Claimed(s, spec.name, spec.kind, a.tokenId, a.agentId, a.session, a.maxTunnels) == s
  {
    hide ClaimAnswer;
  }

  lemma SetDomainsRefused(t: State, h: Handle, domains: seq<string>)
    requires h in t.entries && TakenDomain(t, h, domains).Some?
    ensures DomainsSet(t, h, domains) == t
  {
    hide TakenDomain;
  }

  lemma DomainsStayOpen(s: State, t: State, name: string, session: string, o: Opened, domains: seq<string>)
    requires Opens(s, t, name, session, o) && TakenDomain(t, o.h, domains).None?
    ensures var u := DomainsSet(t, o.h, domains);
            && Opens(s, u, name, session, o) && u.entries[o.h] == t.entries[o.h].(domains := domains) && Registered(u, o.h)
            && u.ports == t.ports
  {
    SetDomainsKeepsIff(t, o.h, domains);
    hide Inv, TakenDomain;
    var u := DomainsSet(t, o.h, domains);
    assert u.entries == t.entries[o.h := u.entries[o.h]];
    StaysOpen(s, t, u, name, session, o);
  }

  lemma PortStaysOpen(s: State, t: State, u: State, name: string, session: string, o: Opened, port: int)
    requires Opens(s, t, name, session, o) && Inv(u) && (u == t || u == Bound(t, o.h, port))
    ensures Opens(s, u, name, session, o) && u.entries[o.h] == t.entries[o.h].(port := if u == t then t.entries[o.h].port else port)
  {
    hide Inv;
    assert u.entries == t.entries[o.h := u.entries[o.h]];
    StaysOpen(s, t, u, name, session, o);
  }

  lemma ActivateStaysOpen(s: State, t: State, name: string, session: string, o: Opened, tunnel: string)
    requires Opens(s, t, name, session, o)
    ensures Opens(s, With(t, o.h, t.entries[o.h].(tunnel := Some(tunnel))), name, session, o)
  {
    StepKeeps(Config(0, false), t, Activate(o.h, tunnel));
    hide Inv;
    var u := With(t, o.h, t.entries[o.h].(tunnel := Some(tunnel)));
    StaysOpen(s, t, u, name, session, o);
  }

  // ---------------------------------------------------------------------
  // All of them, or none
  // ---------------------------------------------------------------------

  /** g is as it was, or is one of the requested names, parked now and not the
      session's before. */
  ghost predicate Settled(s: State, t: State, names: seq<string>, session: string, g: Handle) {
    && g in s.entries && g in t.entries
    && (t.entries[g] != s.entries[g] ==>
          t.entries[g].name in names && s.entries[g].session != Some(session) && t.entries[g].session.None?)
  }

  /** No name was added, none was lost unless the relay is closing, and every
      reservation is settled. */
  ghost predicate NoneOpen(s: State, t: State, names: seq<string>, session: string) {
    && Inv(t)
    && (forall n | n in t.names :: n in s.names && t.names[n] == s.names[n])
    && (!s.closed ==> t.names == s.names)
    && (forall g | g in s.entries :: Settled(s, t, names, session, g))
  }

  ghost predicate AllOpen(t: State, names: seq<string>, session: string, done: seq<Opened>) {
    && Inv(t) && |done| == |names|
    && forall k | 0 <= k < |done| :: Connected(t, done[k].h, names[k], session)
  }

  ghost predicate Connected(t: State, h: Handle, name: string, session: string) {
    Registered(t, h) && t.entries[h].name == name && t.entries[h].session == Some(session)
  }

  /** What the opened ones were before. */
  ghost predicate WereFree(s: State, names: seq<string>, session: string, done: seq<Opened>) {
    && |done| <= |names|
    && (forall k | 0 <= k < |done| ::
          if done[k].existed then
            names[k] in s.names && s.names[names[k]] == done[k].h && done[k].h in s.entries && s.entries[done[k].h].session != Some(session)
          else names[k] !in s.names && done[k].h !in s.entries)
    && (forall k, l | 0 <= k < l < |done| :: done[k].h != done[l].h)
  }

  ghost predicate HandleFrom(done: seq<Opened>, j: nat, g: Handle) {
    exists k :: j <= k < |done| && done[k].h == g
  }

  /** No name was lost, and reservations other than the opened ones are as they were. */
  ghost predicate Untouched(s: State, t: State, done: seq<Opened>) {
    && (forall n | n in s.names :: n in t.names)
    && (forall g | g in s.entries && !HandleFrom(done, 0, g) :: g in t.entries && t.entries[g] == s.entries[g])
  }

  /** The opened ones from j on are open, the earlier ones undone. */
  ghost predicate Between(s: State, t: State, names: seq<string>, session: string, done: seq<Opened>, j: nat) {
    && Inv(t) && t.closed == s.closed && WereFree(s, names, session, done)
    && StillOpen(t, names, session, done, j) && NamesBetween(s, t, names, done, j)
    && OthersSettled(s, t, names, session, done, j) && EntriesKept(s, t)
  }

  ghost predicate StillOpen(t: State, names: seq<string>, session: string, done: seq<Opened>, j: nat)
    requires |done| <= |names|
  {
    forall k | j <= k < |done| :: Connected(t, done[k].h, names[k], session)
  }

  ghost predicate OthersSettled(s: State, t: State, names: seq<string>, session: string, done: seq<Opened>, j: nat) {
    forall g | g in s.entries && !HandleFrom(done, j, g) :: Settled(s, t, names, session, g)
  }

  ghost predicate EntriesKept(s: State, t: State) {
    forall g | g in s.entries :: g in t.entries && t.entries[g].name == s.entries[g].name
  }

  ghost predicate NamesBetween(s: State, t: State, names: seq<string>, done: seq<Opened>, j: nat)
    requires |done| <= |names|
  {
    && (forall n | n in t.names && n in s.names :: t.names[n] == s.names[n])
    && (!s.closed ==> forall n | n in s.names :: n in t.names)
    && (forall n | n in t.names && n !in s.names :: HandleFrom(done, j, t.names[n]))
  }

  lemma HandlesOfMore(done: seq<Opened>, o: Opened, g: Handle)
    ensures HandleFrom(done + [o], 0, g) <==> HandleFrom(done, 0, g) || o.h == g
  {
    if HandleFrom(done, 0, g) {
      var k :| 0 <= k < |done| && done[k].h == g;
      assert (done + [o])[k].h == g;
    }
    if o.h == g { assert (done + [o])[|done|].h == g; }
  }

  /** What is opened next was not opened before. */
  lemma NotOpenedYet(t: State, u: State, names: seq<string>, session: string, done: seq<Opened>, o: Opened)
    requires |done| < |names| && StillOpen(t, names, session, done, 0) && Opens(t, u, names[|done|], session, o)
    ensures !HandleFrom(done, 0, o.h)
  {
    hide Inv;
    forall k | 0 <= k < |done| ensures done[k].h != o.h {
      assert Connected(t, done[k].h, names[k], session);
    }
  }

  /** And was not the session's. */
  lemma NextWasFree(s: State, t: State, u: State, names: seq<string>, session: string, done: seq<Opened>, o: Opened)
    requires NamesOk(s) && Between(s, t, names, session, done, 0) && Untouched(s, t, done) && |done| < |names|
    requires Opens(t, u, names[|done|], session, o)
    ensures !HandleFrom(done, 0, o.h) && WereFree(s, names, session, done + [o])
  {
    hide Inv, StillOpen, OthersSettled, HandleFrom, WereFree;
    NotOpenedYet(t, u, names, session, done, o);
    var name := names[|done|];
    if o.existed {
      assert t.names[name] == o.h;
      assert name in s.names && s.names[name] == o.h;
      assert t.entries[o.h] == s.entries[o.h];
    }
    FreeMore(s, names, session, done, o);
  }

  lemma FreeMore(s: State, names: seq<string>, session: string, done: seq<Opened>, o: Opened)
    requires WereFree(s, names, session, done) && |done| < |names| && !HandleFrom(done, 0, o.h)
    requires if o.existed then names[|done|] in s.names && s.names[names[|done|]] == o.h && o.h in s.entries && s.entries[o.h].session != Some(session)
             else names[|done|] !in s.names && o.h !in s.entries
    ensures WereFree(s, names, session, done + [o])
  {
    var more := done + [o];
    assert forall k | 0 <= k < |done| :: more[k] == done[k];
  }

  lemma OpenOneMore(s: State, t: State, u: State, names: seq<string>, session: string, done: seq<Opened>, o: Opened)
    requires NamesOk(s) && Between(s, t, names, session, done, 0) && Untouched(s, t, done) && |done| < |names|
    requires Opens(t, u, names[|done|], session, o)
    ensures Between(s, u, names, session, done + [o], 0) && Untouched(s, u, done + [o])
  {
    hide Inv, WereFree, HandleFrom, Settled, StillOpen, OthersSettled, NamesBetween;
    NextWasFree(s, t, u, names, session, done, o);
    var more := done + [o];
    forall g ensures HandleFrom(more, 0, g) <==> HandleFrom(done, 0, g) || o.h == g { HandlesOfMore(done, o, g); }
    OpenedStay(s, t, u, names, session, done, o);
    NamesOneMore(s, t, u, names, session, done, o);
    RestSettled(s, u, names, session, more);
  }

  lemma NamesOneMore(s: State, t: State, u: State, names: seq<string>, session: string, done: seq<Opened>, o: Opened)
    requires |done| < |names| && NamesBetween(s, t, names, done, 0) && Opens(t, u, names[|done|], session, o)
    requires forall n | n in s.names :: n in t.names
    requires forall g :: HandleFrom(done + [o], 0, g) <==> HandleFrom(done, 0, g) || o.h == g
    ensures NamesBetween(s, u, names, done + [o], 0)
  {
    hide Inv, HandleFrom;
  }

  lemma RestSettled(s: State, u: State, names: seq<string>, session: string, done: seq<Opened>)
    requires forall g | g in s.entries && !HandleFrom(done, 0, g) :: g in u.entries && u.entries[g] == s.entries[g]
    ensures OthersSettled(s, u, names, session, done, 0)
  {
    hide HandleFrom, Settled;
    forall g | g in s.entries && !HandleFrom(done, 0, g) ensures Settled(s, u, names, session, g) {
      UnchangedSettled(s, u, names, session, g);
    }
  }

  lemma UnchangedSettled(s: State, t: State, names: seq<string>, session: string, g: Handle)
    requires g in s.entries && g in t.entries && t.entries[g] == s.entries[g]
    ensures Settled(s, t, names, session, g)
  {
  }

  lemma OpenedStay(s: State, t: State, u: State, names: seq<string>, session: string, done: seq<Opened>, o: Opened)
    requires |done| < |names| && StillOpen(t, names, session, done, 0) && Opens(t, u, names[|done|], session, o)
    requires !HandleFrom(done, 0, o.h)
    ensures StillOpen(u, names, session, done + [o], 0)
  {
    hide Inv;
    var more := done + [o];
    forall k | 0 <= k < |more| ensures Connected(u, more[k].h, names[k], session) {
      if k < |done| { assert Connected(t, done[k].h, names[k], session); }
    }
  }

  /** A failed open leaves the opened ones open. */
  lemma FailBetween(s: State, t: State, u: State, names: seq<string>, session: string, done: seq<Opened>)
    requires Between(s, t, names, session, done, 0) && Untouched(s, t, done) && |done| < |names|
    requires Fails(t, u, names[|done|], session)
    ensures Between(s, u, names, session, done, 0)
  {
    hide Inv;
    forall k | 0 <= k < |done| ensures Connected(u, done[k].h, names[k], session) {
      assert Connected(t, done[k].h, names[k], session);
    }
    hide HandleFrom;
  }

  /** What undoing a connected reservation changes. */
  lemma UndoShape(t: State, cfg: Config, h: Handle, name: string, session: string, existed: bool, now: int)
    requires Connected(t, h, name, session) && !cfg.clustered
    ensures var u := RolledBack(t, cfg, h, session, existed, now);
            && u.closed == t.closed && u.entries == t.entries[h := u.entries[h]] && u.entries[h].name == name
            && (existed ==> u.entries[h].session.None? && (u.names == t.names || (t.closed && u.names == t.names - {name})))
            && (existed ==> u.entries[h] == Left(cfg, t.closed, t.entries[h], now))
            && (!existed ==> u.names == t.names - {name})
  {
  }

  /** A connected reservation parked, or deleted on a closing relay. */
  function Left(cfg: Config, closed: bool, e: Entry, now: int): Entry {
    var left := e.(session := None, tunnel := None);
    if e.permanent then left else if closed then left.(armed := false) else left.(expires := now + cfg.grace, armed := true)
  }

  /** Undoing the next opened one. */
  lemma UndoOneMore(s: State, t: State, cfg: Config, names: seq<string>, session: string, done: seq<Opened>, j: nat, now: int)
    requires Between(s, t, names, session, done, j) && j < |done| && !cfg.clustered
    ensures done[j].h in t.entries && Between(s, RolledBack(t, cfg, done[j].h, session, done[j].existed, now), names, session, done, j + 1)
  {
    assert Connected(t, done[j].h, names[j], session);
    RollbackKeepsIff(t, cfg, done[j].h, session, done[j].existed, now);
    UndoShape(t, cfg, done[j].h, names[j], session, done[j].existed, now);
    UndoneIs(s, t, RolledBack(t, cfg, done[j].h, session, done[j].existed, now), names, session, done, j);
  }

  lemma UndoneIs(s: State, t: State, u: State, names: seq<string>, session: string, done: seq<Opened>, j: nat)
    requires Between(s, t, names, session, done, j) && j < |done| && done[j].h in u.entries
    requires Inv(u) && u.closed == t.closed && u.entries == t.entries[done[j].h := u.entries[done[j].h]]
    requires u.entries[done[j].h].name == names[j]
    requires done[j].existed ==> u.entries[done[j].h].session.None?
    requires done[j].existed ==> u.names == t.names || (t.closed && u.names == t.names - {names[j]})
    requires !done[j].existed ==> u.names == t.names - {names[j]}
    ensures Between(s, u, names, session, done, j + 1)
  {
    assert NamesOk(t);
    assert Connected(t, done[j].h, names[j], session);
    hide Inv, NamesBetween, StillOpen, OthersSettled;
    UndoneNames(s, t, u, names, session, done, j);
    UndoneOpen(t, u, names, session, done, j, s);
    UndoneSettled(s, t, u, names, session, done, j);
  }

  lemma UndoneOpen(t: State, u: State, names: seq<string>, session: string, done: seq<Opened>, j: nat, s: State)
    requires j < |done| && WereFree(s, names, session, done) && StillOpen(t, names, session, done, j) && NamesOk(t)
    requires done[j].h in u.entries && u.entries == t.entries[done[j].h := u.entries[done[j].h]]
    requires u.names == t.names || u.names == t.names - {names[j]}
    ensures StillOpen(u, names, session, done, j + 1)
  {
    assert Connected(t, done[j].h, names[j], session);
    forall k | j < k < |done| ensures Connected(u, done[k].h, names[k], session) {
      assert Connected(t, done[k].h, names[k], session);
      assert done[k].h != done[j].h;
    }
  }

  lemma UndoneSettled(s: State, t: State, u: State, names: seq<string>, session: string, done: seq<Opened>, j: nat)
    requires j < |done| && WereFree(s, names, session, done) && OthersSettled(s, t, names, session, done, j) && EntriesKept(s, t)
    requires done[j].h in u.entries && u.entries == t.entries[done[j].h := u.entries[done[j].h]]
    requires u.entries[done[j].h].name == names[j] && (done[j].existed ==> u.entries[done[j].h].session.None?)
    ensures OthersSettled(s, u, names, session, done, j + 1)
  {
    forall g | g in s.entries && !HandleFrom(done, j + 1, g) ensures Settled(s, u, names, session, g) {
      if g != done[j].h {
        assert !HandleFrom(done, j, g);
        assert Settled(s, t, names, session, g);
      }
    }
  }

  lemma UndoneNames(s: State, t: State, u: State, names: seq<string>, session: string, done: seq<Opened>, j: nat)
    requires NamesOk(t) && WereFree(s, names, session, done) && NamesBetween(s, t, names, done, j) && j < |done|
    requires Connected(t, done[j].h, names[j], session) && t.closed == s.closed
    requires done[j].existed ==> u.names == t.names || (t.closed && u.names == t.names - {names[j]})
    requires !done[j].existed ==> u.names == t.names - {names[j]}
    ensures NamesBetween(s, u, names, done, j + 1)
  {
    forall n | n in u.names && n !in s.names ensures HandleFrom(done, j + 1, u.names[n]) {
      assert n != names[j];
      assert t.names[n] != done[j].h;
    }
  }

  // ---------------------------------------------------------------------
  // What undoing leaves of each reservation
  // ---------------------------------------------------------------------

  /** u is e reopened for spec. */
  ghost predicate ReopenedAs(e: Entry, u: Entry, spec: Spec, a: Agent) {
    && u == e.(kind := spec.kind, agentId := a.agentId, session := Some(a.session), tunnel := u.tunnel, armed := false,
               domains := spec.domains, port := u.port)
    && (u.port == e.port <==> KeepsPort(e, spec))
  }

  /** u is e after an attempt to reopen it for spec was undone: a tunnel that was open
      leaves its domains and port, the one that failed leaves the port and either its
      domains or the old ones. */
  ghost predicate UndoneAs(cfg: Config, closed: bool, e: Entry, u: Entry, spec: Spec, a: Agent, now: int, failed: bool) {
    && u == Undone(cfg, closed, e, spec, a, u.domains, u.port, now)
    && if failed then u.port == e.port && (u.domains == e.domains || u.domains == spec.domains)
       else u.domains == spec.domains && (u.port == e.port <==> KeepsPort(e, spec))
  }

  /** The opened ones from j on are reopened, the earlier ones undone. */
  ghost predicate OpenedEntries(cfg: Config, s: State, t: State, specs: seq<Spec>, a: Agent, done: seq<Opened>, j: nat, now: int) {
    && |done| <= |specs|
    && forall k | 0 <= k < |done| && done[k].existed ::
         && done[k].h in s.entries && done[k].h in t.entries
         && if k < j then UndoneAs(cfg, s.closed, s.entries[done[k].h], t.entries[done[k].h], specs[k], a, now, false)
            else ReopenedAs(s.entries[done[k].h], t.entries[done[k].h], specs[k], a)
  }

  /** The others are as they were, but for the one that failed. */
  ghost predicate OtherEntries(cfg: Config, s: State, t: State, specs: seq<Spec>, a: Agent, done: seq<Opened>, now: int) {
    forall g | g in s.entries && !HandleFrom(done, 0, g) ::
      && g in t.entries
      && (t.entries[g] == s.entries[g] || FailedHere(cfg, s, t, specs, a, |done|, g, now))
  }

  ghost predicate FailedHere(cfg: Config, s: State, t: State, specs: seq<Spec>, a: Agent, f: nat, g: Handle, now: int)
    requires g in s.entries && g in t.entries
  {
    && f < |specs| && specs[f].name in s.names && s.names[specs[f].name] == g
    && UndoneAs(cfg, s.closed, s.entries[g], t.entries[g], specs[f], a, now, true)
  }

  /** The names before the failed one are undone reservations, the failed one is
      undone or untouched, and no other reservation changed. */
  ghost predicate EntriesUndone(cfg: Config, s: State, t: State, specs: seq<Spec>, a: Agent, f: nat, now: int) {
    && f <= |specs|
    && (forall k | 0 <= k < f && specs[k].name in s.names ::
          && s.names[specs[k].name] in s.entries && s.names[specs[k].name] in t.entries
          && UndoneAs(cfg, s.closed, s.entries[s.names[specs[k].name]], t.entries[s.names[specs[k].name]], specs[k], a, now, false))
    && (forall g | g in s.entries && (forall k | 0 <= k < f && specs[k].name in s.names :: s.names[specs[k].name] != g) ::
          && g in t.entries
          && (t.entries[g] == s.entries[g] || FailedHere(cfg, s, t, specs, a, f, g, now)))
  }

  /** A reservation that was reopened and then undone is restored exactly when it was
      parked, of the same kind and agent, with the same domains, kept its port, and
      its expiry, if it has one, was set for the same moment. */
  lemma UndoneTunnelRestoredIff(cfg: Config, s: State, t: State, specs: seq<Spec>, a: Agent, f: nat, k: nat, now: int)
    requires Inv(s) && EntriesUndone(cfg, s, t, specs, a, f, now) && k < f && specs[k].name in s.names
    ensures var e, u := s.entries[s.names[specs[k].name]], t.entries[s.names[specs[k].name]];
            u == e <==>
            && specs[k].kind == e.kind && a.agentId == e.agentId && e.session.None? && e.tunnel.None?
            && specs[k].domains == e.domains && KeepsPort(e, specs[k])
            && (e.permanent || (!s.closed && e.expires == now + cfg.grace))
  {
    hide FailedHere, Undone;
    var h := s.names[specs[k].name];
    var u := t.entries[h];
    InvNames(s);
    assert UndoneAs(cfg, s.closed, s.entries[h], u, specs[k], a, now, false);
    RestoredIff(cfg, s, h, specs[k], a, u.domains, u.port, now);
  }

  lemma OpenedOneMore(cfg: Config, s: State, t: State, u: State, specs: seq<Spec>, a: Agent, done: seq<Opened>, o: Opened, now: int)
    requires OpenedEntries(cfg, s, t, specs, a, done, 0, now) && Untouched(s, t, done) && |done| < |specs|
    requires Opens(t, u, specs[|done|].name, a.session, o) && !HandleFrom(done, 0, o.h) && (o.existed ==> o.h in s.entries)
    requires o.existed ==> ReopenedAs(t.entries[o.h], u.entries[o.h], specs[|done|], a)
    ensures OpenedEntries(cfg, s, u, specs, a, done + [o], 0, now)
  {
    hide Inv, ReopenedAs, UndoneAs;
    var more := done + [o];
    forall k | 0 <= k < |more| && more[k].existed
      ensures more[k].h in s.entries && more[k].h in u.entries && ReopenedAs(s.entries[more[k].h], u.entries[more[k].h], specs[k], a)
    {
      if k < |done| {
        assert done[k].h != o.h;
        assert u.entries[done[k].h] == t.entries[done[k].h];
      }
    }
  }

  /** A failed open changes nothing about the opened ones, and leaves its own
      reservation undone. */
  lemma FailEntries(cfg: Config, s: State, t: State, u: State, specs: seq<Spec>, a: Agent, done: seq<Opened>, now: int)
    requires OpenedEntries(cfg, s, t, specs, a, done, 0, now) && Untouched(s, t, done) && |done| < |specs|
    requires Between(s, t, NamesOf(specs), a.session, done, 0)
    requires Fails(t, u, specs[|done|].name, a.session) && FailedEntries(cfg, t, u, specs[|done|], a, now)
    ensures OpenedEntries(cfg, s, u, specs, a, done, 0, now) && OtherEntries(cfg, s, u, specs, a, done, now)
  {
    hide Inv, UndoneAs, Undone, Reclaims, LeftDomains, WereFree, OthersSettled;
    forall k | 0 <= k < |done| && done[k].existed ensures u.entries[done[k].h] == t.entries[done[k].h] {
      assert Connected(t, done[k].h, NamesOf(specs)[k], a.session);
    }
    forall g | g in s.entries && !HandleFrom(done, 0, g) && u.entries[g] != s.entries[g] ensures FailedHere(cfg, s, u, specs, a, |done|, g, now) {
      FailedOne(cfg, s, t, u, specs, a, done, g, now);
    }
  }

  lemma FailedOne(cfg: Config, s: State, t: State, u: State, specs: seq<Spec>, a: Agent, done: seq<Opened>, g: Handle, now: int)
    requires g in s.entries && g in t.entries && g in u.entries && t.entries[g] == s.entries[g] && u.entries[g] != s.entries[g] && t.closed == s.closed
    requires |done| < |specs| && !HandleFrom(done, 0, g) && NamesBetween(s, t, NamesOf(specs), done, 0)
    requires FailedEntries(cfg, t, u, specs[|done|], a, now)
    ensures FailedHere(cfg, s, u, specs, a, |done|, g, now)
  {
    hide HandleFrom, ClaimAnswer, TakenDomain;
  }

  /** Undoing the next opened one. */
  lemma UndoEntry(cfg: Config, s: State, t: State, specs: seq<Spec>, a: Agent, done: seq<Opened>, j: nat, now: int)
    requires OpenedEntries(cfg, s, t, specs, a, done, j, now) && j < |done| && !cfg.clustered && t.closed == s.closed
    requires WereFree(s, NamesOf(specs), a.session, done) && Connected(t, done[j].h, specs[j].name, a.session)
    ensures var u := RolledBack(t, cfg, done[j].h, a.session, done[j].existed, now);
            && OpenedEntries(cfg, s, u, specs, a, done, j + 1, now)
            && u.entries == t.entries[done[j].h := u.entries[done[j].h]]
  {
    hide RolledBack;
    UndoShape(t, cfg, done[j].h, specs[j].name, a.session, done[j].existed, now);
    var u := RolledBack(t, cfg, done[j].h, a.session, done[j].existed, now);
    if done[j].existed { LeftIsUndone(cfg, s.closed, s.entries[done[j].h], t.entries[done[j].h], specs[j], a, now); }
    hide ReopenedAs, UndoneAs, Left;
    forall k | 0 <= k < |done| && done[k].existed && k != j ensures u.entries[done[k].h] == t.entries[done[k].h] {
      assert done[k].h != done[j].h;
    }
  }

  lemma LeftIsUndone(cfg: Config, closed: bool, e: Entry, u: Entry, spec: Spec, a: Agent, now: int)
    requires ReopenedAs(e, u, spec, a)
    ensures UndoneAs(cfg, closed, e, Left(cfg, closed, u, now), spec, a, now, false)
  {
  }

  lemma OthersStay(cfg: Config, s: State, t: State, u: State, specs: seq<Spec>, a: Agent, done: seq<Opened>, j: nat, now: int)
    requires OtherEntries(cfg, s, t, specs, a, done, now) && j < |done|
    requires done[j].h in u.entries && u.entries == t.entries[done[j].h := u.entries[done[j].h]]
    ensures OtherEntries(cfg, s, u, specs, a, done, now)
  {
    hide UndoneAs;
    forall g | g in s.entries && !HandleFrom(done, 0, g) ensures g in u.entries && u.entries[g] == t.entries[g] {
      assert done[j].h != g;
    }
  }

  lemma UndoneAll(cfg: Config, s: State, t: State, specs: seq<Spec>, a: Agent, done: seq<Opened>, now: int)
    requires OpenedEntries(cfg, s, t, specs, a, done, |done|, now) && OtherEntries(cfg, s, t, specs, a, done, now)
    requires WereFree(s, NamesOf(specs), a.session, done)
    ensures EntriesUndone(cfg, s, t, specs, a, |done|, now)
  {
    hide UndoneAs, FailedHere;
    forall g | g in s.entries && (forall k | 0 <= k < |done| && specs[k].name in s.names :: s.names[specs[k].name] != g)
      ensures !HandleFrom(done, 0, g)
    {
      forall k | 0 <= k < |done| ensures done[k].h != g {
        assert NamesOf(specs)[k] == specs[k].name;
      }
    }
    forall k | 0 <= k < |done| && specs[k].name in s.names
      ensures done[k].existed && s.names[specs[k].name] == done[k].h
    {
      assert NamesOf(specs)[k] == specs[k].name;
    }
  }

  // ---------------------------------------------------------------------
  // What it can cost
  // ---------------------------------------------------------------------

  /** A relay with the one reservation e, named "a". */
  function Alone(e: Entry, ports: set<int>, binding: set<int>): State {
    State(map[0 := e], 1, map["a" := 0], map d | d in e.domains :: 0, ports, binding, false)
  }

  function Mine(kind: TunnelType, session: Option<string>, port: int, domains: seq<string>, armed: bool, expires: int): Entry {
    Entry("a", kind, "t1", "x", port, domains, false, session, None, armed, expires)
  }

  lemma FirstClaim(kind: TunnelType)
    ensures Claimed(EmptyState, "a", kind, "t1", "x", "s1", 0) == Alone(Mine(kind, Some("s1"), 0, [], false, 0), {}, {})
  {
    hide ConnectedOf;
  }

  lemma ClaimAgain(kind: TunnelType, port: int, domains: seq<string>, armed: bool, expires: int, ports: set<int>, to: TunnelType)
    ensures Claimed(Alone(Mine(kind, None, port, domains, armed, expires), ports, {}), "a", to, "t1", "x", "s2", 0) ==
            Alone(Mine(to, Some("s2"), port, domains, false, expires), ports, {})
  {
    hide ConnectedOf;
  }

  lemma ParkAlone(cfg: Config, kind: TunnelType, session: string, port: int, domains: seq<string>, expires: int, ports: set<int>)
    requires !cfg.clustered
    ensures Parked(Alone(Mine(kind, Some(session), port, domains, false, expires), ports, {}), cfg, 0, session, 0) ==
            Alone(Mine(kind, None, port, domains, true, cfg.grace), ports, {})
  {
  }

  lemma DomainsAlone(kind: TunnelType, session: string, domains: seq<string>, to: seq<string>, expires: int)
    requires to == [] || domains == []
    ensures DomainsSet(Alone(Mine(kind, Some(session), 0, domains, false, expires), {}, {}), 0, to) ==
            Alone(Mine(kind, Some(session), 0, to, false, expires), {}, {})
  {
    var s := Alone(Mine(kind, Some(session), 0, domains, false, expires), {}, {});
    TakenDomainFinds(s, 0, to);
    hide TakenDomain;
    assert DomainsSet(s, 0, to).domains == map d | d in to :: 0;
  }

  /** A parked http tunnel whose agent comes back with a tcp tunnel of that name and
      gets no port: the domain it held is free although the name is still kept. */
  lemma FailedReopenCanLoseADomain(cfg: Config) returns (run: seq<Op>)
    requires !cfg.clustered
    ensures Reaches(cfg, EmptyState, run) && |run| == 6 && Reaches(cfg, EmptyState, run[..3])
    ensures Exec(cfg, EmptyState, run[..3]) == Alone(Mine(Http, None, 0, ["x.com"], true, cfg.grace), {}, {})
    ensures Exec(cfg, EmptyState, run) == Alone(Mine(Tcp, None, 0, [], true, cfg.grace), {}, {})
    ensures run[3..] == [Claim("a", Tcp, "t1", "x", "s2", 0), SetDomains(0, []), Rollback(0, "s2", true, 0)]
  {
    hide Reaches, Exec, Claimed, Parked, DomainsSet;
    var s := EmptyState;
    run := [];
    NothingRun(cfg);
    s, run := Then(cfg, s, run, Claim("a", Http, "t1", "x", "s1", 0));
    FirstClaim(Http);
    s, run := Then(cfg, s, run, SetDomains(0, ["x.com"]));
    DomainsAlone(Http, "s1", [], ["x.com"], 0);
    s, run := Then(cfg, s, run, Park(0, "s1", 0));
    ParkAlone(cfg, Http, "s1", 0, ["x.com"], 0, {});
    var before := run;
    s, run := Then(cfg, s, run, Claim("a", Tcp, "t1", "x", "s2", 0));
    ClaimAgain(Http, 0, ["x.com"], true, cfg.grace, {}, Tcp);
    s, run := Then(cfg, s, run, SetDomains(0, []));
    DomainsAlone(Tcp, "s2", ["x.com"], [], cfg.grace);
    s, run := Then(cfg, s, run, Rollback(0, "s2", true, 0));
    ParkAlone(cfg, Tcp, "s2", 0, [], cfg.grace, {});
    assert run[..3] == before;
  }

  /** A parked tcp tunnel that is reopened on another port in a registration whose next
      tunnel fails: it is parked again with the other port, and its own is free. */
  lemma FailedRegistrationCanMoveAPort(cfg: Config) returns (run: seq<Op>)
    requires !cfg.clustered
    ensures Reaches(cfg, EmptyState, run) && |run| == 8 && Reaches(cfg, EmptyState, run[..4])
    ensures Exec(cfg, EmptyState, run[..4]) == Alone(Mine(Tcp, None, 7, [], true, cfg.grace), {7}, {})
    ensures Exec(cfg, EmptyState, run) == Alone(Mine(Tcp, None, 8, [], true, cfg.grace), {8}, {})
    ensures run[4..] == [Claim("a", Tcp, "t1", "x", "s2", 0), ReservePort(8), SetPort(0, 8), Rollback(0, "s2", true, 0)]
  {
    hide Reaches, Exec, Claimed, Parked;
    var s := EmptyState;
    run := [];
    NothingRun(cfg);
    s, run := OpenOn(cfg, s, run, "a", "t1", "s1", 7);
    assert s == Alone(Mine(Tcp, Some("s1"), 7, [], false, 0), {7}, {});
    s, run := Then(cfg, s, run, Park(0, "s1", 0));
    ParkAlone(cfg, Tcp, "s1", 7, [], 0, {7});
    var before := run;
    s, run := Then(cfg, s, run, Claim("a", Tcp, "t1", "x", "s2", 0));
    ClaimAgain(Tcp, 7, [], true, cfg.grace, {7}, Tcp);
    s, run := Then(cfg, s, run, ReservePort(8));
    s, run := Then(cfg, s, run, SetPort(0, 8));
    assert s == Alone(Mine(Tcp, Some("s2"), 8, [], false, cfg.grace), {8}, {}) by {
      assert {7} + {8} - {7} == {8};
    }
    s, run := Then(cfg, s, run, Rollback(0, "s2", true, 0));
    ParkAlone(cfg, Tcp, "s2", 8, [], cfg.grace, {8});
    assert run[..4] == before;
  }

  /** Opens every requested tunnel, or none of them; failed is the place of the one
      that could not be opened. */
  method Register(r: NameRegistry, rules: Rules, range: PortRange, a: Agent, specs: seq<Spec>, tunnels: seq<string>,
                  binds: (int, nat) -> bool, now: int)
    returns (res: Result<seq<Opened>, OpenError>, ghost failed: nat, ghost mid: State)
    requires Inv(r.View()) && !r.cfg.clustered && (range.Some? ==> range.value.0 > 0) && |tunnels| == |specs|
    modifies r
    ensures specs == [] ==> res.Err?
    ensures res.Ok? ==> AllOpen(r.View(), NamesOf(specs), a.session, res.value) && AllServed(r.View(), specs, a, tunnels, res.value)
    ensures res.Err? && specs != [] ==>
              failed < |specs| && !CanOpen(mid, rules, range, specs[failed], a, binds) && FirstOpen(mid, NamesOf(specs), a.session, failed)
    ensures res.Err? ==> NoneOpen(old(r.View()), r.View(), NamesOf(specs), a.session)
    ensures res.Err? ==> EntriesUndone(r.cfg, old(r.View()), r.View(), specs, a, failed, now)
  {
    hide Inv, Between, Untouched, Fails, Opens, OpenedEntries, ReopenedAs, FailedEntries, OtherEntries, EntriesUndone, NamesOf,
         CanOpen, ClaimAnswer, FirstOpen, AllOpen, AllServed, OpenedAs, WereFree;
    failed, mid := 0, r.View();
    ghost var s, names := r.View(), NamesOf(specs);
    var done: seq<Opened> := [];
    NothingOpened(r.cfg, s, names, specs, a, now);
    NothingServed(s, specs, a, tunnels);
    InvNames(s);
    if specs == [] {
      return Err(Refused), failed, mid;
    }
    for i := 0 to |specs|
      invariant |done| == i && Inv(r.View())
      invariant Between(s, r.View(), names, a.session, done, 0) && Untouched(s, r.View(), done)
      invariant OpenedEntries(r.cfg, s, r.View(), specs, a, done, 0, now) && AllServed(r.View(), specs, a, tunnels, done)
    {
      ghost var t := r.View();
      assert names[i] == specs[i].name;
      var o := OpenTunnel(r, rules, range, a, specs[i], tunnels[i], binds, now);
      if o.Err? {
        mid := t;
        FirstAreOpen(s, t, names, a.session, done);
        FailBetween(s, t, r.View(), names, a.session, done);
        FailEntries(r.cfg, s, t, r.View(), specs, a, done, now);
        RollbackAll(r, a, s, specs, done, now);
        return Err(o.error), |done|, mid;
      }
      NextWasFree(s, t, r.View(), names, a.session, done, o.value);
      OpenOneMore(s, t, r.View(), names, a.session, done, o.value);
      WasKnown(s, names, a.session, done, o.value);
      ServedOneMore(s, t, r.View(), range, specs, a, tunnels, binds, done, o.value);
      if o.value.existed { OpensOn(t, r.View(), specs[i].name, a.session, o.value); IsReopened(t, r.View(), specs[i], a, tunnels[i], o.value.h); }
      OpenedOneMore(r.cfg, s, t, r.View(), specs, a, done, o.value, now);
      BetweenInv(s, r.View(), names, a.session, done + [o.value], 0);
      done := done + [o.value];
    }
    BetweenIsOpen(s, r.View(), names, a.session, done);
    res := Ok(done);
  }

  /** Every opened tunnel is the one its request asked for. */
  ghost predicate AllServed(t: State, specs: seq<Spec>, a: Agent, tunnels: seq<string>, done: seq<Opened>) {
    && |done| <= |specs| == |tunnels|
    && forall k | 0 <= k < |done| :: done[k].h in t.entries && Serves(t.entries[done[k].h], specs[k], a, tunnels[k])
  }

  lemma NothingServed(s: State, specs: seq<Spec>, a: Agent, tunnels: seq<string>)
    requires |specs| == |tunnels|
    ensures AllServed(s, specs, a, tunnels, [])
  {
  }

  lemma ServedOneMore(s: State, t: State, u: State, range: PortRange, specs: seq<Spec>, a: Agent, tunnels: seq<string>,
                      binds: (int, nat) -> bool, done: seq<Opened>, o: Opened)
    requires AllServed(t, specs, a, tunnels, done) && |done| < |specs| && WereFree(s, NamesOf(specs), a.session, done + [o])
    requires Opens(t, u, specs[|done|].name, a.session, o)
    requires OpenedAs(t, u, range, specs[|done|], a, tunnels[|done|], binds, o)
    ensures AllServed(u, specs, a, tunnels, done + [o])
  {
    hide Inv, HeldPort, PortTaken;
    var more := done + [o];
    assert OnlyTouched(t, u, o.h);
    forall k | 0 <= k < |done| ensures done[k].h in u.entries && u.entries[done[k].h] == t.entries[done[k].h] {
      assert more[k] == done[k] && more[|done|] == o;
    }
  }

  ghost predicate IsOpen(t: State, name: string, session: string) { exists h :: Connected(t, h, name, session) }

  /** The first n names are connected to the session. */
  ghost predicate FirstOpen(t: State, names: seq<string>, session: string, n: nat) {
    n <= |names| && forall k | 0 <= k < n :: IsOpen(t, names[k], session)
  }

  lemma FirstAreOpen(s: State, t: State, names: seq<string>, session: string, done: seq<Opened>)
    requires Between(s, t, names, session, done, 0)
    ensures FirstOpen(t, names, session, |done|)
  {
    hide Inv, Connected;
    assert WereFree(s, names, session, done);
    forall k | 0 <= k < |done| ensures IsOpen(t, names[k], session) {
      assert Connected(t, done[k].h, names[k], session);
    }
  }

  lemma OpensOn(s: State, t: State, name: string, session: string, o: Opened)
    requires Opens(s, t, name, session, o) && o.existed
    ensures o.h in s.entries && o.h in t.entries
  {
    hide Inv;
  }

  lemma NothingOpened(cfg: Config, s: State, names: seq<string>, specs: seq<Spec>, a: Agent, now: int)
    requires Inv(s)
    ensures Between(s, s, names, a.session, [], 0) && Untouched(s, s, []) && OpenedEntries(cfg, s, s, specs, a, [], 0, now)
    ensures specs == [] ==> NoneOpen(s, s, names, a.session) && EntriesUndone(cfg, s, s, specs, a, 0, now)
  {
    InvNames(s);
    hide Inv;
  }

  lemma WasKnown(s: State, names: seq<string>, session: string, done: seq<Opened>, o: Opened)
    requires WereFree(s, names, session, done + [o])
    ensures o.existed ==> o.h in s.entries
  {
    assert (done + [o])[|done|] == o;
  }

  lemma IsReopened(t: State, u: State, spec: Spec, a: Agent, tunnel: string, h: Handle)
    requires h in t.entries && h in u.entries && u.entries[h] == Reopened(t.entries[h], spec, a, tunnel, u.entries[h].port)
    requires u.entries[h].port == t.entries[h].port <==> KeepsPort(t.entries[h], spec)
    ensures ReopenedAs(t.entries[h], u.entries[h], spec, a)
  {
  }

  function NamesOf(specs: seq<Spec>): (names: seq<string>)
    ensures |names| == |specs| && forall i | 0 <= i < |specs| :: names[i] == specs[i].name
  {
    seq(|specs|, i requires 0 <= i < |specs| => specs[i].name)
  }

  /** Undoes the opened ones in turn. */
  method RollbackAll(r: NameRegistry, a: Agent, ghost s: State, ghost specs: seq<Spec>, done: seq<Opened>, now: int)
    requires Between(s, r.View(), NamesOf(specs), a.session, done, 0) && !r.cfg.clustered
    requires OpenedEntries(r.cfg, s, r.View(), specs, a, done, 0, now) && OtherEntries(r.cfg, s, r.View(), specs, a, done, now)
    modifies r
    ensures NoneOpen(s, r.View(), NamesOf(specs), a.session)
    ensures EntriesUndone(r.cfg, s, r.View(), specs, a, |done|, now)
  {
    hide Between, RolledBack, OpenedEntries, OtherEntries, NamesOf, EntriesUndone;
    for j := 0 to |done|
      invariant Between(s, r.View(), NamesOf(specs), a.session, done, j)
      invariant OpenedEntries(r.cfg, s, r.View(), specs, a, done, j, now) && OtherEntries(r.cfg, s, r.View(), specs, a, done, now)
    {
      ghost var t := r.View();
      BetweenGives(s, t, specs, a, done, j);
      UndoOneMore(s, t, r.cfg, NamesOf(specs), a.session, done, j, now);
      UndoEntry(r.cfg, s, t, specs, a, done, j, now);
      r.Rollback(done[j].h, a.session, done[j].existed, now);
      OthersStay(r.cfg, s, t, r.View(), specs, a, done, j, now);
    }
    BetweenIsNone(s, r.View(), NamesOf(specs), a.session, done);
    WereFreeBetween(s, r.View(), NamesOf(specs), a.session, done, |done|);
    UndoneAll(r.cfg, s, r.View(), specs, a, done, now);
  }

  lemma WereFreeBetween(s: State, t: State, names: seq<string>, session: string, done: seq<Opened>, j: nat)
    requires Between(s, t, names, session, done, j)
    ensures WereFree(s, names, session, done)
  {
  }

  lemma BetweenGives(s: State, t: State, specs: seq<Spec>, a: Agent, done: seq<Opened>, j: nat)
    requires Between(s, t, NamesOf(specs), a.session, done, j) && j < |done|
    ensures WereFree(s, NamesOf(specs), a.session, done) && t.closed == s.closed
    ensures |done| <= |specs| && Connected(t, done[j].h, specs[j].name, a.session)
  {
    hide Inv;
    assert Connected(t, done[j].h, NamesOf(specs)[j], a.session);
  }

  lemma BetweenInv(s: State, t: State, names: seq<string>, session: string, done: seq<Opened>, j: nat)
    requires Between(s, t, names, session, done, j)
    ensures Inv(t)
  {
  }

  lemma BetweenIsOpen(s: State, t: State, names: seq<string>, session: string, done: seq<Opened>)
    requires Between(s, t, names, session, done, 0) && |done| == |names|
    ensures AllOpen(t, names, session, done)
  {
  }

  lemma BetweenIsNone(s: State, t: State, names: seq<string>, session: string, done: seq<Opened>)
    requires Between(s, t, names, session, done, |done|)
    ensures NoneOpen(s, t, names, session)
  {
    hide Inv;
  }
}
