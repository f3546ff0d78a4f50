/** What each locked section of a standalone relay must do, said of the names, ports,
    domains and reservations and not of the section (go/tunnel/relay/registry.go). */
module StandaloneOutcomes {
  import opened Wrappers
  import opened Records
  import opened ClaimRules
  import opened Standalone
  import opened StandaloneTheorems

  // ---------------------------------------------------------------------
  // Claiming
  // ---------------------------------------------------------------------

  /** With the name, the token's connected names stay within the cap. */
  ghost predicate Room(s: State, name: string, tokenId: string, maxTunnels: int) {
    maxTunnels > 0 ==>
      |(set n | n in s.names && s.names[n] in s.entries && s.entries[s.names[n]].tokenId == tokenId &&
                s.entries[s.names[n]].session.Some?) + {name}| <= maxTunnels
  }

  /** The reservation cannot be claimed: it is another token's, another agent's that is
      connected, or the session's own. */
  predicate InTheWay(e: Entry, tokenId: string, agentId: string, session: string) {
    e.tokenId != tokenId || (e.session.Some? && (e.agentId != agentId || e.session == Some(session)))
  }

  lemma RoomMeans(s: State, name: string, tokenId: string, maxTunnels: int)
    ensures Room(s, name, tokenId, maxTunnels) <==> (maxTunnels > 0 ==> |ConnectedOf(s, tokenId) - {name}| < maxTunnels)
  {
    var c := ConnectedOf(s, tokenId);
    assert c + {name} == c - {name} + {name};
  }

  /** A claim is granted exactly when the name is free or its reservation is not in the
      way, and the cap has room: as a new one, one taken over from an earlier session or
      one reclaimed. */
  lemma ClaimAnswers(s: State, name: string, tokenId: string, agentId: string, session: string, maxTunnels: int)
    requires NamesOk(s)
    ensures var r := ClaimAnswer(s, name, tokenId, agentId, session, maxTunnels);
            if name in s.names then
              var e := s.entries[s.names[name]];
              && (r == Err(Taken) <==> InTheWay(e, tokenId, agentId, session))
              && (r == Err(CapReached) <==> !InTheWay(e, tokenId, agentId, session) && !Room(s, name, tokenId, maxTunnels))
              && (r == Ok(Takeover) <==> !InTheWay(e, tokenId, agentId, session) && Room(s, name, tokenId, maxTunnels) && e.session.Some?)
              && (r == Ok(Reclaim) <==> !InTheWay(e, tokenId, agentId, session) && Room(s, name, tokenId, maxTunnels) && e.session.None?)
            else
              && (r == Err(CapReached) <==> !Room(s, name, tokenId, maxTunnels))
              && (r == Ok(New) <==> Room(s, name, tokenId, maxTunnels))
  {
    hide Room, ConnectedOf;
    RoomMeans(s, name, tokenId, maxTunnels);
  }

  /** A refused claim changes nothing; a new reservation is the name's, connected and
      bare; a reclaimed one is connected to the session, its expiry stopped, with the
      port, the domains and the permanence it had. */
  lemma ClaimOutcome(s: State, name: string, kind: TunnelType, tokenId: string, agentId: string, session: string, maxTunnels: int)
    requires NamesOk(s)
    ensures var r, t := ClaimAnswer(s, name, tokenId, agentId, session, maxTunnels), Claimed(s, name, kind, tokenId, agentId, session, maxTunnels);
            && t.domains == s.domains && t.ports == s.ports && t.binding == s.binding && t.closed == s.closed
            && if r.Err? then t == s
               else if name in s.names then
                 var h := s.names[name];
                 && t.names == s.names && t.next == s.next && t.entries.Keys == s.entries.Keys
                 && (forall g | g in s.entries && g != h :: t.entries[g] == s.entries[g])
                 && t.entries[h] == Entry(name, kind, tokenId, agentId, s.entries[h].port, s.entries[h].domains, s.entries[h].permanent,
                                          Some(session), None, false, s.entries[h].expires)
               else
                 && s.next !in s.entries && t.names == s.names[name := s.next] && t.next == s.next + 1
                 && t.entries == s.entries[s.next := Entry(name, kind, tokenId, agentId, 0, [], false, Some(session), None, false, 0)]
  {
    hide ConnectedOf;
  }

  // ---------------------------------------------------------------------
  // Freeing a reservation
  // ---------------------------------------------------------------------

  /** The registered reservation is gone: its name, its port and its domains are free,
      and everything else is as before. */
  ghost predicate Freed(s: State, t: State, h: Handle)
    requires h in s.entries
  {
    var e := s.entries[h];
    && t.names == s.names - {e.name} && t.next == s.next && t.closed == s.closed && t.binding == s.binding
    && (forall p :: p in t.ports <==> p in s.ports && p != e.port)
    && (forall d :: d in t.domains <==> d in s.domains && s.domains[d] != h)
    && (forall d | d in t.domains :: t.domains[d] == s.domains[d])
    && t.entries.Keys == s.entries.Keys && (forall g | g in s.entries && g != h :: t.entries[g] == s.entries[g])
  }

  /** Deleting it frees it, also once its session or permanence changed. */
  lemma DeletedIsFreed(s: State, h: Handle, e: Entry)
    requires NamesOk(s) && DomainsOk(s) && 0 !in s.ports && Registered(s, h)
    requires e.name == s.entries[h].name && e.port == s.entries[h].port && e.domains == s.entries[h].domains
    ensures Freed(s, Deleted(With(s, h, e), h), h)
  {
    var t := Deleted(With(s, h, e), h);
    forall d ensures d in t.domains <==> d in s.domains && s.domains[d] != h {}
  }

  lemma SameWith(s: State, h: Handle)
    requires h in s.entries
    ensures With(s, h, s.entries[h]) == s
  {
    assert s.entries[h := s.entries[h]] == s.entries;
  }

  /** The session leaves its reservation. If the session moved on, nothing happens; a
      permanent one stays; on a relay that closes or belongs to a cluster it is freed;
      otherwise it expires after the grace period. */
  lemma ParkOutcome(s: State, cfg: Config, h: Handle, session: string, now: int)
    requires Inv(s) && h in s.entries && Registered(s, h)
    ensures var e, t := s.entries[h], Parked(s, cfg, h, session, now);
            if e.session != Some(session) then t == s
            else if e.permanent then t == s.(entries := s.entries[h := e.(session := None, tunnel := None)])
            else if s.closed || cfg.clustered then Freed(s, t, h)
            else t == s.(entries := s.entries[h := e.(session := None, tunnel := None, armed := true, expires := now + cfg.grace)])
  {
    hide PortsOk, TimersOk, DomainsOk, Freed, Deleted;
    PortsPositive(s);
    DeletedIsFreed(s, h, s.entries[h].(session := None, tunnel := None));
  }

  lemma PortsPositive(s: State)
    requires PortsOk(s)
    ensures 0 !in s.ports
  {
  }

  /** One that was released meanwhile only forgets its session. */
  lemma ParkReleased(s: State, cfg: Config, h: Handle, session: string, now: int)
    requires h in s.entries && !Registered(s, h)
    ensures var e, t := s.entries[h], Parked(s, cfg, h, session, now);
            t == if e.session == Some(session) then s.(entries := s.entries[h := e.(session := None, tunnel := None)]) else s
  {
  }

  /** A failed open parks again what it reclaimed, frees what it made, and leaves what
      another session has by now. */
  lemma RollbackOutcome(s: State, cfg: Config, h: Handle, session: string, existed: bool, now: int)
    requires Inv(s) && h in s.entries && Registered(s, h)
    ensures var e, t := s.entries[h], RolledBack(s, cfg, h, session, existed, now);
            if e.session != Some(session) then t == s
            else if !existed then Freed(s, t, h)
            else if e.permanent then t == s.(entries := s.entries[h := e.(session := None, tunnel := None)])
            else if s.closed || cfg.clustered then Freed(s, t, h)
            else t == s.(entries := s.entries[h := e.(session := None, tunnel := None, armed := true, expires := now + cfg.grace)])
  {
    hide TimersOk, Parked;
    PortsPositive(s);
    hide PortsOk;
    if existed { ParkOutcome(s, cfg, h, session, now); }
    else if s.entries[h].session == Some(session) { DeletedIsFreed(s, h, s.entries[h]); SameWith(s, h); }
  }

  /** An expiry frees exactly a reservation that is registered, parked and not
      permanent. */
  lemma ExpireOutcome(s: State, h: Handle)
    requires Inv(s) && h in s.entries
    ensures if Registered(s, h) && s.entries[h].session.None? && !s.entries[h].permanent then Freed(s, Expired(s, h), h)
            else Expired(s, h) == s
  {
    hide TimersOk;
    PortsPositive(s);
    hide PortsOk;
    if Registered(s, h) { DeletedIsFreed(s, h, s.entries[h]); SameWith(s, h); }
  }

  // ---------------------------------------------------------------------
  // Domains
  // ---------------------------------------------------------------------

  /** The domains are refused when another reservation has one of them. Otherwise
      exactly they are the reservation's, in the list and in the index. */
  lemma SetDomainsOutcome(s: State, h: Handle, domains: seq<string>)
    requires Inv(s) && h in s.entries && Registered(s, h)
    ensures var t := DomainsSet(s, h, domains);
            if exists d :: d in domains && d in s.domains && s.domains[d] != h then t == s
            else
              && t.entries == s.entries[h := s.entries[h].(domains := domains)]
              && t.names == s.names && t.ports == s.ports && t.binding == s.binding && t.next == s.next && t.closed == s.closed
              && (forall d :: d in t.domains <==> d in domains || (d in s.domains && s.domains[d] != h))
              && (forall d | d in domains :: t.domains[d] == h)
              && (forall d | d in s.domains && s.domains[d] != h :: t.domains[d] == s.domains[d])
  {
    hide PortsOk, TimersOk;
    TakenDomainFinds(s, h, domains);
  }

  // ---------------------------------------------------------------------
  // Reserving
  // ---------------------------------------------------------------------

  /** Another name's reservation has the port, or it is being bound. */
  ghost predicate PortOfAnother(s: State, name: string, port: int) {
    port in s.binding || exists n :: n in s.names && n != name && s.names[n] in s.entries && s.entries[s.names[n]].port == port
  }

  /** An operator's reservation is refused exactly when the name is another token's, or
      the port asked for is another name's or being bound. */
  lemma ReserveRefusedIff(s: State, name: string, tokenId: string, port: int)
    requires Inv(s)
    ensures var r, held := ReserveRefusal(s, name, tokenId, port), name in s.names && s.entries[s.names[name]].tokenId != tokenId;
            && (r == Some(NameHeld) <==> held)
            && (r == Some(PortHeld) <==> !held && port != 0 && PortOfAnother(s, name, port))
            && (r == None <==> !held && (port != 0 ==> !PortOfAnother(s, name, port)))
  {
    hide DomainsOk, TimersOk;
    if port != 0 {
      assert name in s.names ==> Holds(s, name, s.entries[s.names[name]].port);
      if port in s.ports && port !in s.binding {
        var n :| Holds(s, n, port);
        if n == name { assert s.entries[s.names[name]].port == port; }
      }
      forall n | n in s.names && n != name && s.names[n] in s.entries && s.entries[s.names[n]].port == port
        ensures port in s.ports && (name in s.names ==> s.entries[s.names[name]].port != port) {
        assert Holds(s, n, port);
      }
    }
  }

  /** An accepted one leaves the name registered to the token for good, on the port asked
      for or else the one it had, with everything else it had; its old port is free. */
  lemma ReserveOutcome(s: State, name: string, tokenId: string, port: int)
    requires Inv(s) && ReserveRefusal(s, name, tokenId, port) == None
    ensures var t := ReservedName(s, name, tokenId, port);
            && name in t.names && t.names[name] in t.entries
            && t.domains == s.domains && t.binding == s.binding && t.closed == s.closed
            && var h := t.names[name];
               var was := if name in s.names then s.entries[h] else Entry(name, UnspecifiedType, tokenId, "", 0, [], false, None, None, false, 0);
               && (if name in s.names then t.names == s.names && t.next == s.next
                   else h == s.next && h !in s.entries && t.names == s.names[name := h] && t.next == s.next + 1)
               && t.entries == s.entries[h := was.(permanent := true, armed := false, port := if port != 0 then port else was.port)]
               && (forall p :: p in t.ports <==> (if port != 0 then p == port || (p in s.ports && p != was.port) else p in s.ports))
  {
    hide DomainsOk, TimersOk;
    KeptOutcome(s, name, tokenId);
    hide Kept;
    PortsPositive(s);
    var u := Kept(s, name, tokenId);
    var h := u.names[name];
    if port != 0 && u.entries[h].port == port {
      assert Holds(s, name, port);
    }
  }

  lemma KeptOutcome(s: State, name: string, tokenId: string)
    requires NamesOk(s)
    ensures var t := Kept(s, name, tokenId);
            && name in t.names && t.domains == s.domains && t.binding == s.binding && t.closed == s.closed && t.ports == s.ports
            && var h := t.names[name];
               var was := if name in s.names then s.entries[h] else Entry(name, UnspecifiedType, tokenId, "", 0, [], false, None, None, false, 0);
               && t.entries == s.entries[h := was.(permanent := true, armed := false)]
               && if name in s.names then t.names == s.names && t.next == s.next
                  else h == s.next && h !in s.entries && t.names == s.names[name := h] && t.next == s.next + 1
  {
  }

  /** A refused one changes nothing, and an accepted one repeated is accepted and
      changes nothing. */
  lemma ReserveTwice(s: State, name: string, tokenId: string, port: int)
    requires Inv(s)
    ensures ReserveRefusal(s, name, tokenId, port) != None ==> ReservedName(s, name, tokenId, port) == s
    ensures ReserveRefusal(s, name, tokenId, port) == None ==>
              var t := ReservedName(s, name, tokenId, port);
              ReserveRefusal(t, name, tokenId, port) == None && ReservedName(t, name, tokenId, port) == t
  {
    hide DomainsOk, TimersOk, Holds;
    if ReserveRefusal(s, name, tokenId, port) == None {
      ReserveOutcome(s, name, tokenId, port);
      SettledTwice(ReservedName(s, name, tokenId, port), name, tokenId, port);
    }
  }

  lemma SettledTwice(t: State, name: string, tokenId: string, port: int)
    requires name in t.names && t.names[name] in t.entries
    requires var e := t.entries[t.names[name]]; e.permanent && !e.armed && e.tokenId == tokenId && (port != 0 ==> e.port == port)
    ensures ReserveRefusal(t, name, tokenId, port) == None && ReservedName(t, name, tokenId, port) == t
  {
    var h := t.names[name];
    assert t.entries[h := t.entries[h].(permanent := true, armed := false)] == t.entries;
  }

  /** A reservation given up is no longer permanent, and is freed unless it is
      connected; one that is not permanent is left alone. */
  lemma UnreserveOutcome(s: State, name: string)
    requires Inv(s)
    ensures var t := Unreserved(s, name);
            if name !in s.names || !s.entries[s.names[name]].permanent then t == s
            else if s.entries[s.names[name]].session.None? then Freed(s, t, s.names[name])
            else t == s.(entries := s.entries[s.names[name] := s.entries[s.names[name]].(permanent := false)])
  {
    hide TimersOk, Deleted, Freed;
    PortsPositive(s);
    hide PortsOk;
    if name in s.names && s.entries[s.names[name]].permanent {
      DeletedIsFreed(s, s.names[name], s.entries[s.names[name]].(permanent := false));
    }
  }

  // ---------------------------------------------------------------------
  // Many at once
  // ---------------------------------------------------------------------

  /** Exactly the names of ns are gone, with their ports and domains. */
  ghost predicate AllFreed(s: State, t: State, ns: set<string>) {
    && t.names == s.names - ns && t.next == s.next && t.binding == s.binding
    && (forall p :: p in t.ports <==>
          p in s.ports && !(exists n :: n in ns && n in s.names && s.names[n] in s.entries && s.entries[s.names[n]].port == p))
    && (forall d :: d in t.domains <==>
          d in s.domains && !(exists n :: n in ns && n in s.names && s.names[n] == s.domains[d]))
    && (forall d | d in t.domains :: t.domains[d] == s.domains[d])
    && t.entries.Keys == s.entries.Keys
    && forall g | g in s.entries :: t.entries[g] == s.entries[g].(armed := t.entries[g].armed)
  }

  lemma DeletedAllIsFreed(s: State, ns: set<string>)
    requires Inv(s) && ns <= s.names.Keys
    ensures AllFreed(s, DeletedAll(s, ns), ns)
  {
    hide TimersOk;
    PortsPositive(s);
    var t, gone := DeletedAll(s, ns), HandlesOf(s, ns);
    forall p ensures p in t.ports <==>
                     p in s.ports && !(exists n :: n in ns && n in s.names && s.names[n] in s.entries && s.entries[s.names[n]].port == p) {
      if p in s.ports && p !in t.ports {
        var h :| h in gone && h in s.entries && s.entries[h].port == p;
        var n :| n in ns && n in s.names && s.names[n] == h;
      }
      if n :| p in s.ports && n in ns && n in s.names && s.names[n] in s.entries && s.entries[s.names[n]].port == p {
        assert s.names[n] in gone;
      }
    }
    forall d | d in s.domains ensures d in t.domains <==> !(exists n :: n in ns && n in s.names && s.names[n] == s.domains[d]) {
      assert Registered(s, s.domains[d]) && d in s.entries[s.domains[d]].domains;
    }
  }

  /** Revoking a token frees exactly its reservations, connected and permanent ones
      included. */
  lemma ReleaseTokenOutcome(s: State, tokenId: string)
    requires Inv(s)
    ensures var ns := set n | n in s.names && s.entries[s.names[n]].tokenId == tokenId;
            AllFreed(s, DeletedAll(s, NamesOfToken(s, tokenId)), ns) && DeletedAll(s, NamesOfToken(s, tokenId)).closed == s.closed
  {
    hide AllFreed, DeletedAll, PortsOk, DomainsOk, TimersOk;
    DeletedAllIsFreed(s, NamesOfToken(s, tokenId));
    assert NamesOfToken(s, tokenId) == (set n | n in s.names && s.entries[s.names[n]].tokenId == tokenId);
    AllStaysOpen(s, NamesOfToken(s, tokenId));
  }

  lemma AllStaysOpen(s: State, ns: set<string>)
    ensures DeletedAll(s, ns).closed == s.closed
  {
  }

  /** A closing relay frees exactly the parked reservations that are not permanent; no
      expiry is left. */
  lemma CloseOutcome(s: State)
    requires Inv(s)
    ensures var ns := set n | n in s.names && s.entries[s.names[n]].session.None? && !s.entries[s.names[n]].permanent;
            var t := Closed(s);
            && t.closed && AllFreed(s, t, ns) && forall h | h in t.entries && Registered(t, h) :: !t.entries[h].armed
  {
    hide PortsOk, DomainsOk, AllFreed;
    var ns := set n | n in s.names && s.entries[s.names[n]].session.None? && !s.entries[s.names[n]].permanent;
    ClosedIs(s);
    assert Doomed(s) == ns;
    DeletedAllIsFreed(s, ns);
    ClosedFreed(s, DeletedAll(s, ns), ns);
    ClosedTimers(s);
  }

  lemma ClosedFreed(s: State, t: State, ns: set<string>)
    requires AllFreed(s, t, ns)
    ensures AllFreed(s, t.(closed := true), ns)
  {
  }

  lemma ClosedTimers(s: State)
    requires Inv(s)
    ensures var t := Closed(s); forall h | h in t.entries && Registered(t, h) :: !t.entries[h].armed
  {
    hide PortsOk, DomainsOk;
    var t := Closed(s);
    forall h | h in t.entries && Registered(t, h) ensures !t.entries[h].armed {
      assert Registered(s, h);
      if s.entries[h].session.None? { assert s.entries[h].name in ParkedNames(s) && h in HandlesOf(s, ParkedNames(s)); }
    }
  }

  // ---------------------------------------------------------------------
  // Ports
  // ---------------------------------------------------------------------

  /** A port is taken for binding exactly when nobody has it, and given back. */
  lemma ReservePortOutcome(s: State, port: int)
    ensures var t := PortReserved(s, port);
            && t == s.(ports := t.ports, binding := t.binding) && t.ports == s.ports + {port}
            && t.binding == if port in s.ports then s.binding else s.binding + {port}
    ensures port !in s.ports && port !in s.binding ==> PortReleased(PortReserved(s, port), port) == s
  {
  }

  /** A bound port is the reservation's, the one it had before is free, and the port is
      no longer being bound. */
  lemma SetPortOutcome(s: State, h: Handle, port: int)
    requires Inv(s) && Registered(s, h) && port in s.binding
    ensures var t := PortSet(s, h, port);
            && t == s.(entries := s.entries[h := s.entries[h].(port := port)], ports := t.ports, binding := s.binding - {port})
            && (forall p :: p in t.ports <==> p in s.ports && (p == port || p != s.entries[h].port))
  {
    hide DomainsOk, TimersOk;
    assert Holds(s, s.entries[h].name, s.entries[h].port);
  }
}
