/** The standalone relay's name registry (go/tunnel/relay/registry.go) and its
    search for a public port (go/tunnel/relay/tunnel.go). */
module NameRegistries {
  import opened Wrappers
  import opened Records
  import opened ClaimRules
  import opened Standalone
  import opened StandaloneTheorems

  function Unindexed(index: map<string, Handle>, h: Handle, domains: seq<string>): map<string, Handle> {
    map d | d in index && !(d in domains && index[d] == h) :: index[d]
  }

  class NameRegistry {
    const cfg: Config
    /** The reservations by handle, the registered ones by name and by domain, and
        the public ports in use. */
    var entries: map<Handle, Entry>
    var next: Handle
    var names: map<string, Handle>
    var domains: map<string, Handle>
    var ports: set<int>
    var closed: bool
    /** The ports of listeners being bound. */
    ghost var binding: set<int>

    ghost function View(): State
      reads this
    {
      State(entries, next, names, domains, ports, binding, closed)
    }

    constructor (c: Config)
      ensures cfg == c && View() == EmptyState && Inv(View())
    {
      cfg, entries, next, names, domains, ports, closed, binding := c, map[], 0, map[], map[], {}, false, {};
      new;
      EmptyIsConsistent();
    }

    /** The token's connected reservations, not counting except, the one of name. */
    method Active(tokenId: string, name: string, except: Option<Handle>) returns (n: nat)
      requires NamesOk(View()) && except == if name in names then Some(names[name]) else None
      ensures n == |ConnectedOf(View(), tokenId) - {name}|
    {
      n := 0;
      var todo := names.Keys;
      ghost var seen: set<string> := {};
      while todo != {}
        invariant todo <= names.Keys && todo !! seen
        invariant forall m :: m in seen <==>
                    m in names && m !in todo && m in ConnectedOf(View(), tokenId) && Some(names[m]) != except
        invariant n == |seen|
        decreases todo
      {
        var m :| m in todo;
        var e := entries[names[m]];
        if e.tokenId == tokenId && e.session.Some? && Some(names[m]) != except {
          n := n + 1;
          seen := seen + {m};
        }
        todo := todo - {m};
      }
      assert seen == ConnectedOf(View(), tokenId) - {name};
    }

    /** Reserves name for the session: the handle, and whether the reservation
        existed. */
    method Claim(name: string, kind: TunnelType, tokenId: string, agentId: string, session: string, maxTunnels: int)
      returns (r: Result<(Handle, bool), Refusal>)
      requires NamesOk(View())
      modifies this
      ensures View() == Claimed(old(View()), name, kind, tokenId, agentId, session, maxTunnels)
      ensures match ClaimAnswer(old(View()), name, tokenId, agentId, session, maxTunnels)
              case Err(e) => r == Err(e)
              case Ok(d) => name in names && r == Ok((names[name], d != New))
    {
      hide ConnectedOf;
      var holder, res := None, None;
      if name in names {
        var e := entries[names[name]];
        res := Some(names[name]);
        holder := Some(Holder(e.tokenId, e.agentId, e.session.Some?, e.session == Some(session)));
      }
      var active := Active(tokenId, name, res);
      assert Decide(holder, tokenId, agentId, active, maxTunnels) == ClaimAnswer(View(), name, tokenId, agentId, session, maxTunnels);
      match Decide(holder, tokenId, agentId, active, maxTunnels) {
        case Err(e) =>
          return Err(e);
        case Ok(New) =>
          entries := entries[next := Entry(name, kind, tokenId, agentId, 0, [], false, Some(session), None, false, 0)];
          names := names[name := next];
          next := next + 1;
          return Ok((names[name], false));
        case Ok(_) =>
          var h := names[name];
          var e := entries[h].(armed := false);
          entries := entries[h := e.(kind := kind, agentId := agentId, session := Some(session), tunnel := None)];
          return Ok((h, true));
      }
    }

    method Activate(h: Handle, tunnel: string)
      requires h in entries
      modifies this`entries
      ensures View() == With(old(View()), h, old(entries)[h].(tunnel := Some(tunnel)))
    {
      entries := entries[h := entries[h].(tunnel := Some(tunnel))];
    }

    /** Drops the index entries of h among the domains. */
    method Unindex(h: Handle, ds: seq<string>)
      modifies this`domains
      ensures domains == Unindexed(old(domains), h, ds)
    {
      for i := 0 to |ds|
        invariant domains == Unindexed(old(domains), h, ds[..i])
      {
        if ds[i] in domains && domains[ds[i]] == h {
          domains := domains - {ds[i]};
        }
        assert ds[..i + 1] == ds[..i] + [ds[i]];
      }
      assert ds[..|ds|] == ds;
    }

    method Delete(h: Handle)
      requires h in entries
      modifies this
      ensures View() == Deleted(old(View()), h)
    {
      var e := entries[h];
      entries := entries[h := e.(armed := false)];
      if e.name in names && names[e.name] == h {
        names := names - {e.name};
      }
      if e.port != 0 {
        ports := ports - {e.port};
      }
      Unindex(h, e.domains);
    }

    method Park(h: Handle, session: string, now: int)
      requires h in entries
      modifies this
      ensures View() == Parked(old(View()), cfg, h, session, now)
    {
      var e := entries[h];
      if e.session != Some(session) {
        return;
      }
      entries := entries[h := e.(session := None, tunnel := None)];
      if e.name !in names || names[e.name] != h {
        return;
      }
      if (closed || cfg.clustered) && !e.permanent {
        Delete(h);
        return;
      }
      if !e.permanent {
        entries := entries[h := entries[h].(expires := now + cfg.grace, armed := true)];
      }
    }

    method Rollback(h: Handle, session: string, existed: bool, now: int)
      requires h in entries
      modifies this
      ensures View() == RolledBack(old(View()), cfg, h, session, existed, now)
    {
      if existed {
        Park(h, session, now);
      } else if entries[h].session == Some(session) {
        Delete(h);
      }
    }

    method Expire(h: Handle)
      requires h in entries
      modifies this
      ensures View() == Expired(old(View()), h)
    {
      var e := entries[h];
      if e.name in names && names[e.name] == h && e.session.None? && !e.permanent {
        Delete(h);
      }
    }

    /** Replaces the reservation's domains, all or nothing; returns the first
        domain someone else holds. */
    method SetDomains(h: Handle, ds: seq<string>) returns (taken: Option<string>)
      requires h in entries
      modifies this
      ensures taken == TakenDomain(old(View()), h, ds)
      ensures View() == DomainsSet(old(View()), h, ds)
    {
      taken := FindTaken(h, ds);
      if taken.None? {
        Unindex(h, entries[h].domains);
        entries := entries[h := entries[h].(domains := ds)];
        Index(h, ds);
      }
    }

    method FindTaken(h: Handle, ds: seq<string>) returns (taken: Option<string>)
      ensures taken == TakenDomain(View(), h, ds)
    {
      for i := 0 to |ds|
        invariant TakenDomain(View(), h, ds) == TakenDomain(View(), h, ds[i..])
      {
        if ds[i] in domains && domains[ds[i]] != h {
          return Some(ds[i]);
        }
      }
      taken := None;
    }

    method Index(h: Handle, ds: seq<string>)
      modifies this`domains
      ensures domains == old(domains) + map d | d in ds :: h
    {
      for i := 0 to |ds|
        invariant domains == old(domains) + map d | d in ds[..i] :: h
      {
        domains := domains[ds[i] := h];
        assert ds[..i + 1] == ds[..i] + [ds[i]];
      }
      assert ds[..|ds|] == ds;
    }

    method Reserve(name: string, tokenId: string, port: int) returns (e: Option<ReserveError>)
      requires NamesOk(View())
      modifies this
      ensures e == ReserveRefusal(old(View()), name, tokenId, port)
      ensures View() == ReservedName(old(View()), name, tokenId, port)
    {
      if name in names && entries[names[name]].tokenId != tokenId {
        return Some(NameHeld);
      }
      if port != 0 && (name !in names || entries[names[name]].port != port) && port in ports {
        return Some(PortHeld);
      }
      if name !in names {
        entries := entries[next := Entry(name, UnspecifiedType, tokenId, "", 0, [], false, None, None, false, 0)];
        names := names[name := next];
        next := next + 1;
      }
      var h := names[name];
      if port != 0 && entries[h].port != port {
        MovePort(h, port);
      }
      entries := entries[h := entries[h].(permanent := true, armed := false)];
      assert entries == ReservedName(old(View()), name, tokenId, port).entries;
      e := None;
    }

    method MovePort(h: Handle, port: int)
      requires h in entries
      modifies this`entries, this`ports
      ensures View() == PortMoved(old(View()), h, port)
    {
      if entries[h].port != 0 {
        ports := ports - {entries[h].port};
      }
      entries := entries[h := entries[h].(port := port)];
      ports := ports + {port};
    }

    method Unreserve(name: string)
      requires NamesOk(View())
      modifies this
      ensures View() == Unreserved(old(View()), name)
    {
      if name !in names || !entries[names[name]].permanent {
        return;
      }
      var h := names[name];
      entries := entries[h := entries[h].(permanent := false)];
      if entries[h].session.None? {
        Delete(h);
      }
    }

    /** Drops every reservation of the token; returns the sessions still using it. */
    method ReleaseToken(tokenId: string) returns (sessions: seq<string>)
      requires NamesOk(View())
      modifies this
      ensures View() == DeletedAll(old(View()), NamesOfToken(old(View()), tokenId))
      ensures forall x :: x in sessions <==>
                exists n :: n in NamesOfToken(old(View()), tokenId) && old(entries)[old(names)[n]].session == Some(x)
    {
      hide DeletedAll, Deleted;
      sessions := [];
      ghost var s := View();
      ghost var gone: set<string> := {};
      DeleteNone(s);
      var todo := names.Keys;
      while todo != {}
        invariant todo <= s.names.Keys && todo !! gone && gone <= s.names.Keys
        invariant gone == NamesOfToken(s, tokenId) - todo && View() == DeletedAll(s, gone)
        invariant forall x :: x in sessions <==> exists n :: n in gone && s.entries[s.names[n]].session == Some(x)
        decreases todo
      {
        var n :| n in todo;
        todo := todo - {n};
        OthersStay(s, gone, n);
        var h := names[n];
        var e := entries[h];
        if e.tokenId == tokenId {
          DeleteOneMore(s, gone, n);
          if e.session.Some? {
            sessions := sessions + [e.session.value];
          }
          Delete(h);
          gone := gone + {n};
        }
      }
      assert gone == NamesOfToken(s, tokenId);
    }

    /** Reserves port for binding a listener, unless it is taken. */
    method ReservePort(port: int) returns (ok: bool)
      modifies this
      ensures ok == (port !in old(ports)) && View() == PortReserved(old(View()), port)
    {
      if port in ports {
        return false;
      }
      ports := ports + {port};
      binding := binding + {port};
      ok := true;
    }

    method ReleasePort(port: int)
      modifies this
      ensures View() == PortReleased(old(View()), port)
    {
      ports := ports - {port};
      binding := binding - {port};
    }

    method SetPort(h: Handle, port: int)
      requires h in entries
      modifies this
      ensures View() == PortSet(old(View()), h, port)
    {
      var was := entries[h].port;
      if was != 0 && was != port {
        ports := ports - {was};
      }
      entries := entries[h := entries[h].(port := port)];
      binding := binding - {port};
    }

    /** Releases the parked reservations that are not permanent, for good. */
    method Close()
      requires NamesOk(View()) && TimersOk(View())
      modifies this
      ensures View() == Closed(old(View()))
    {
      hide DeletedAll, Closed, Deleted;
      ghost var s := View();
      ClosedIs(s);
      DeleteNone(s);
      ghost var gone: set<string> := {};
      var todo := names.Keys;
      while todo != {}
        invariant todo <= s.names.Keys && todo !! gone && gone <= s.names.Keys
        invariant gone == Doomed(s) - todo && View() == DeletedAll(s, gone)
        decreases todo
      {
        var n :| n in todo;
        todo := todo - {n};
        OthersStay(s, gone, n);
        DeleteOneMore(s, gone, n);
        assert Registered(s, names[n]);
        CloseParked(names[n]);
        if n in Doomed(s) {
          gone := gone + {n};
        }
      }
      assert gone == Doomed(s);
      closed := true;
    }

    method CloseParked(h: Handle)
      requires h in entries && (entries[h].permanent ==> !entries[h].armed)
      modifies this
      ensures View() == if old(entries[h].session.None? && !entries[h].permanent) then Deleted(old(View()), h) else old(View())
    {
      if entries[h].session.None? {
        if entries[h].armed {
          entries := entries[h := entries[h].(armed := false)];
        }
        if !entries[h].permanent {
          Delete(h);
        }
      }
    }
  }

  datatype ListenError = PortOutsideRange | PortForbidden | PortUnavailable

  /** Reserves port and binds it. */
  method TryListen(r: NameRegistry, port: int, binds: bool) returns (ok: bool)
    requires r.binding <= r.ports
    modifies r
    ensures ok == (port !in old(r.ports) && binds)
    ensures r.View() == if ok then PortReserved(old(r.View()), port) else old(r.View())
  {
    ok := r.ReservePort(port);
    if ok && !binds {
      r.ReleasePort(port);
      ok := false;
    }
  }

  /** A token's port range within the relay's, None when they do not overlap. */
  type PortRange = Option<(int, int)>

  predicate Within(range: PortRange, port: int) { range.Some? && range.value.0 <= port <= range.value.1 }

  /** The reservation moved to a port just bound. */
  function Bound(s: State, h: Handle, port: int): State
    requires h in s.entries
  {
    PortSet(PortReserved(s, port), h, port)
  }

  lemma BoundKeeps(s: State, h: Handle, port: int)
    requires Inv(s) && Registered(s, h) && port != 0 && port !in s.ports
    ensures Inv(Bound(s, h, port))
  {
    ReservePortKeeps(s, port);
    hide Inv;
    SetPortKeepsIff(PortReserved(s, port), h, port);
  }

  /** The port to bind outright, and whether it is held already. */
  method ListenRequested(r: NameRegistry, rules: Rules, range: PortRange, h: Handle, requested: int, binds: (int, nat) -> bool)
    returns (res: Result<int, ListenError>)
    requires r.binding <= r.ports && h in r.entries && requested != 0
    modifies r
    ensures r.View() == if res.Ok? then Bound(old(r.View()), h, requested) else old(r.View())
    ensures res == if !(rules.portMin <= requested <= rules.portMax) then Err(PortOutsideRange)
                   else if !Within(range, requested) then Err(PortForbidden)
                   else if requested in old(r.ports) || !binds(requested, 0) then Err(PortUnavailable)
                   else Ok(requested)
  {
    if requested < rules.portMin || requested > rules.portMax {
      return Err(PortOutsideRange);
    }
    if range.None? || requested < range.value.0 || requested > range.value.1 {
      return Err(PortForbidden);
    }
    var ok := TryListen(r, requested, binds(requested, 0));
    if !ok {
      return Err(PortUnavailable);
    }
    r.SetPort(h, requested);
    res := Ok(requested);
  }

  /** Binds the first port of the range that is free and can be bound. */
  method SearchPort(r: NameRegistry, lo: int, hi: int, h: Handle, binds: (int, nat) -> bool) returns (port: Option<int>)
    requires r.binding <= r.ports && h in r.entries
    modifies r
    ensures port.Some? ==>
              && lo <= port.value <= hi && port.value !in old(r.ports) && binds(port.value, 1)
              && r.View() == Bound(old(r.View()), h, port.value)
    ensures port.None? ==> r.View() == old(r.View())
    ensures forall p | lo <= p <= hi && (port.Some? ==> p < port.value) :: p in old(r.ports) || !binds(p, 1)
  {
    var p := lo;
    while p <= hi
      invariant lo <= p && r.View() == old(r.View())
      invariant forall q | lo <= q <= hi && q < p :: q in r.ports || !binds(q, 1)
    {
      var ok := TryListen(r, p, binds(p, 1));
      if ok {
        r.SetPort(h, p);
        return Some(p);
      }
      p := p + 1;
    }
    port := None;
  }

  /** Binds the previous port, or else the first one of the range that can be. */
  method ListenAny(r: NameRegistry, range: PortRange, h: Handle, previous: int, binds: (int, nat) -> bool)
    returns (res: Result<int, ListenError>)
    requires r.binding <= r.ports && h in r.entries
    modifies r
    ensures r.View() == if res.Ok? then Bound(old(r.View()), h, res.value) else old(r.View())
    ensures res.Ok? ==> Within(range, res.value) && res.value !in old(r.ports)
    ensures if Within(range, previous) && previous !in old(r.ports) && binds(previous, 0) then res == Ok(previous)
            else
              && (res.Ok? ==> binds(res.value, 1))
              && (res.Err? ==> res.error == if range.None? then PortForbidden else PortUnavailable)
              && forall p | Within(range, p) && (res.Ok? ==> p < res.value) :: p in old(r.ports) || !binds(p, 1)
  {
    hide Bound;
    if range.None? {
      return Err(PortForbidden);
    }
    if range.value.0 <= previous <= range.value.1 {
      var ok := TryListen(r, previous, binds(previous, 0));
      if ok {
        BoundIs(old(r.View()), h, previous);
        r.SetPort(h, previous);
        return Ok(previous);
      }
    }
    var port := SearchPort(r, range.value.0, range.value.1, h, binds);
    res := if port.Some? then Ok(port.value) else Err(PortUnavailable);
  }

  lemma BoundIs(s: State, h: Handle, port: int)
    requires h in s.entries
    ensures Bound(s, h, port) == PortSet(PortReserved(s, port), h, port)
  {
  }

  /** There is a port to bind: the one held, else the requested one, else the previous
      one or any of the range that is free and can be bound. */
  ghost predicate PortFound(held: int, ports: set<int>, rules: Rules, range: PortRange, requested: int, previous: int, binds: (int, nat) -> bool) {
    if held != 0 && (requested == 0 || requested == held) then binds(held, 0)
    else if requested != 0 then
      rules.portMin <= requested <= rules.portMax && range.Some? && range.value.0 <= requested <= range.value.1 &&
      requested !in ports && binds(requested, 0)
    else
      range.Some? &&
      ((range.value.0 <= previous <= range.value.1 && previous !in ports && binds(previous, 0)) ||
       exists p :: range.value.0 <= p <= range.value.1 && p !in ports && binds(p, 1))
  }

  /** The port that is bound: the one held unless another is requested, else the
      requested one, else the previous one if it can be had, else the lowest that can. */
  ghost predicate PortTaken(held: int, ports: set<int>, range: PortRange, requested: int, previous: int, binds: (int, nat) -> bool, port: int) {
    if held != 0 && (requested == 0 || requested == held) then port == held
    else if requested != 0 then port == requested
    else if Within(range, previous) && previous !in ports && binds(previous, 0) then port == previous
    else
      && Within(range, port) && port !in ports && binds(port, 1)
      && forall p | Within(range, p) && p < port :: p in ports || !binds(p, 1)
  }

  /** Binds the reservation's public port: the one it holds unless another is
      requested, else the requested one, else the previous one while it is free,
      else the first free one of the range. binds(p, k) tells whether the k-th
      attempt to bind p succeeds. */
  method ListenTunnelPort(r: NameRegistry, rules: Rules, range: PortRange, h: Handle, requested: int, previous: int,
                          binds: (int, nat) -> bool)
    returns (res: Result<int, ListenError>)
    requires Inv(r.View()) && Registered(r.View(), h)
    modifies r
    ensures (range.Some? ==> range.value.0 > 0) ==> Inv(r.View())
    ensures res.Err? ==> r.View() == old(r.View())
    ensures res.Ok? <==> PortFound(old(r.entries)[h].port, old(r.ports), rules, range, requested, previous, binds)
    ensures res.Ok? ==> PortTaken(old(r.entries)[h].port, old(r.ports), range, requested, previous, binds, res.value)
    ensures var held := old(r.entries)[h].port;
            if held != 0 && (requested == 0 || requested == held) then
              r.View() == old(r.View()) && res == if binds(held, 0) then Ok(held) else Err(PortUnavailable)
            else
              && (res.Ok? ==> res.value !in old(r.ports) && r.View() == Bound(old(r.View()), h, res.value) && Within(range, res.value))
              && (res.Err? ==>
                    res.error == if requested != 0 && !(rules.portMin <= requested <= rules.portMax) then PortOutsideRange
                                 else if range.None? || (requested != 0 && !Within(range, requested)) then PortForbidden else PortUnavailable)
  {
    assert r.binding <= r.ports;
    hide Inv, Bound;
    ghost var s := r.View();
    var held := r.entries[h].port;
    if held != 0 && (requested == 0 || requested == held) {
      return if binds(held, 0) then Ok(held) else Err(PortUnavailable);
    }
    if requested != 0 {
      res := ListenRequested(r, rules, range, h, requested, binds);
      if res.Ok? { BoundKeeps(s, h, res.value); }
      return;
    }
    res := ListenAny(r, range, h, previous, binds);
    if res.Ok? && res.value != 0 { BoundKeeps(s, h, res.value); }
  }
}
