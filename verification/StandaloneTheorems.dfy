/** What every interleaving of a standalone relay's locked sections keeps
    (go/tunnel/relay/registry.go). */
module StandaloneTheorems {
  import opened Wrappers
  import opened Records
  import opened ClaimRules
  import opened Standalone

  // ---------------------------------------------------------------------
  // The invariant
  // ---------------------------------------------------------------------

  ghost predicate NamesOk(s: State) {
    && (forall n | n in s.names :: s.names[n] in s.entries && s.entries[s.names[n]].name == n)
    && (forall h | h in s.entries :: h < s.next)
  }

  /** The domain index matches the registered reservations' lists both ways. */
  ghost predicate DomainsOk(s: State) {
    && (forall d | d in s.domains :: Registered(s, s.domains[d]) && d in s.entries[s.domains[d]].domains)
    && (forall h, d | h in s.entries && Registered(s, h) && d in s.entries[h].domains :: d in s.domains && s.domains[d] == h)
  }

  ghost predicate Holds(s: State, n: string, p: int) {
    n in s.names && s.names[n] in s.entries && s.entries[s.names[n]].port == p
  }

  /** The port set is the ports of the registered reservations, each with one
      holder, and the ports being bound. */
  ghost predicate PortsOk(s: State) {
    && 0 !in s.ports && s.binding <= s.ports
    && (forall n, p | Holds(s, n, p) && p != 0 :: p in s.ports && p !in s.binding)
    && (forall p | p in s.ports && p !in s.binding :: exists n :: Holds(s, n, p))
    && (forall n, m, p | Holds(s, n, p) && Holds(s, m, p) && p != 0 :: n == m)
  }

  /** An expiry is armed exactly for the parked reservations that may expire. */
  ghost predicate TimersOk(s: State) {
    forall h | h in s.entries ::
      s.entries[h].armed <==> Registered(s, h) && s.entries[h].session.None? && !s.entries[h].permanent
  }

  ghost predicate TimersExcept(s: State, h: Handle) {
    forall g | g in s.entries && g != h ::
      s.entries[g].armed <==> Registered(s, g) && s.entries[g].session.None? && !s.entries[g].permanent
  }

  ghost predicate Inv(s: State) {
    NamesOk(s) && DomainsOk(s) && PortsOk(s) && TimersOk(s)
  }

  lemma InvNames(s: State)
    requires Inv(s)
    ensures NamesOk(s)
  {
  }

  // ---------------------------------------------------------------------
  // Deleting
  // ---------------------------------------------------------------------

  lemma DeletedKeepsPorts(s: State, h: Handle)
    requires NamesOk(s) && PortsOk(s) && Registered(s, h)
    ensures PortsOk(Deleted(s, h))
  {
    var t := Deleted(s, h);
    var e := s.entries[h];
    assert Holds(s, e.name, e.port);
    forall n, p | Holds(t, n, p) ensures Holds(s, n, p) && n != e.name {}
    forall p | p in t.ports && p !in t.binding ensures exists n :: Holds(t, n, p) {
      var n :| Holds(s, n, p);
      assert Holds(t, n, p);
    }
  }

  lemma DeletedKeepsDomains(s: State, h: Handle)
    requires NamesOk(s) && DomainsOk(s) && Registered(s, h)
    ensures DomainsOk(Deleted(s, h))
  {
    var t := Deleted(s, h);
    forall g | g in t.entries ensures Registered(t, g) <==> Registered(s, g) && g != h {}
  }

  /** Deleting a registered reservation keeps the invariant, timers aside. */
  lemma DeletedKeeps(s: State, h: Handle)
    requires NamesOk(s) && DomainsOk(s) && PortsOk(s) && Registered(s, h)
    requires TimersExcept(s, h)
    ensures Inv(Deleted(s, h))
  {
    DeletedKeepsPorts(s, h);
    DeletedKeepsDomains(s, h);
    hide PortsOk, DomainsOk;
  }

  // ---------------------------------------------------------------------
  // One reservation
  // ---------------------------------------------------------------------

  /** Changing neither its name, port nor domains leaves the indexes right. */
  lemma WithKeeps(s: State, h: Handle, e: Entry)
    requires NamesOk(s) && DomainsOk(s) && PortsOk(s) && TimersExcept(s, h) && h in s.entries
    requires e.name == s.entries[h].name && e.port == s.entries[h].port && e.domains == s.entries[h].domains
    ensures NamesOk(With(s, h, e)) && DomainsOk(With(s, h, e)) && PortsOk(With(s, h, e)) && TimersExcept(With(s, h, e), h)
    ensures (e.armed <==> Registered(s, h) && e.session.None? && !e.permanent) ==> TimersOk(With(s, h, e))
    ensures Registered(With(s, h, e), h) <==> Registered(s, h)
  {
    hide PortsOk;
    var t := With(s, h, e);
    forall g ensures Registered(t, g) <==> Registered(s, g) {}
    forall n, p ensures Holds(t, n, p) <==> Holds(s, n, p) {}
    hide Holds;
    WithKeepsPorts(s, t);
    WithKeepsDomains(s, t);
    hide DomainsOk;
  }

  lemma WithKeepsDomains(s: State, t: State)
    requires DomainsOk(s) && s.domains == t.domains && forall g :: Registered(t, g) <==> Registered(s, g)
    requires forall g | Registered(s, g) && g in t.entries :: t.entries[g].domains == s.entries[g].domains
    ensures DomainsOk(t)
  {
    assert forall g | Registered(s, g) :: g in t.entries by { assert forall g | Registered(s, g) :: Registered(t, g); }
  }

  lemma WithKeepsPorts(s: State, t: State)
    requires PortsOk(s) && s.ports == t.ports && s.binding == t.binding && forall n, p :: Holds(t, n, p) <==> Holds(s, n, p)
    ensures PortsOk(t)
  {
    forall p | p in t.ports && p !in t.binding ensures exists n :: Holds(t, n, p) {
      var n :| Holds(s, n, p);
      assert Holds(t, n, p);
    }
  }

  /** A new reservation without port and domains. */
  lemma NewKeeps(s: State, e: Entry)
    requires Inv(s) && e.name !in s.names && e.port == 0 && e.domains == []
    ensures var t := s.(entries := s.entries[s.next := e], names := s.names[e.name := s.next], next := s.next + 1);
            && NamesOk(t) && DomainsOk(t) && PortsOk(t) && TimersExcept(t, s.next) && Registered(t, s.next)
  {
    hide PortsOk, DomainsOk, Holds, NamesOk, TimersOk, TimersExcept;
    var t := s.(entries := s.entries[s.next := e], names := s.names[e.name := s.next], next := s.next + 1);
    NewKeepsNames(s, e);
    NewHoldsNothing(s, e);
    NewKeepsPorts(s, t);
    NewKeepsDomains(s, t);
  }

  lemma NewKeepsNames(s: State, e: Entry)
    requires NamesOk(s) && TimersOk(s) && e.name !in s.names
    ensures var t := s.(entries := s.entries[s.next := e], names := s.names[e.name := s.next], next := s.next + 1);
            && NamesOk(t) && TimersExcept(t, s.next) && s.next !in s.entries
            && forall g :: Registered(t, g) <==> Registered(s, g) || g == s.next
  {
  }

  lemma NewHoldsNothing(s: State, e: Entry)
    requires NamesOk(s) && e.name !in s.names && e.port == 0
    ensures var t := s.(entries := s.entries[s.next := e], names := s.names[e.name := s.next], next := s.next + 1);
            forall n, p | p != 0 :: Holds(t, n, p) <==> Holds(s, n, p)
  {
  }

  lemma NewKeepsDomains(s: State, t: State)
    requires DomainsOk(s) && s.domains == t.domains && s.next in t.entries && t.entries[s.next].domains == []
    requires forall g :: Registered(t, g) <==> Registered(s, g) || g == s.next
    requires forall g | Registered(s, g) && g in t.entries :: t.entries[g].domains == s.entries[g].domains
    ensures DomainsOk(t)
  {
    assert forall g | Registered(s, g) :: g in t.entries by { assert forall g | Registered(s, g) :: Registered(t, g); }
  }

  lemma NewKeepsPorts(s: State, t: State)
    requires PortsOk(s) && s.ports == t.ports && s.binding == t.binding
    requires forall n, p | p != 0 :: Holds(t, n, p) <==> Holds(s, n, p)
    ensures PortsOk(t)
  {
    forall p | p in t.ports && p !in t.binding ensures exists n :: Holds(t, n, p) {
      var n :| Holds(s, n, p);
      assert Holds(t, n, p);
    }
  }

  lemma ClaimKeeps(s: State, name: string, kind: TunnelType, tokenId: string, agentId: string, session: string, max: int)
    requires Inv(s)
    ensures Inv(Claimed(s, name, kind, tokenId, agentId, session, max))
  {
    hide DomainsOk, PortsOk, ConnectedOf;
    match ClaimAnswer(s, name, tokenId, agentId, session, max)
    case Err(_) =>
    case Ok(New) =>
      var e := Entry(name, kind, tokenId, agentId, 0, [], false, Some(session), None, false, 0);
      NewKeeps(s, e);
      TimersApart(Claimed(s, name, kind, tokenId, agentId, session, max), s.next);
    case Ok(_) =>
      var h := s.names[name];
      TimersApart(s, h);
      WithKeeps(s, h, s.entries[h].(kind := kind, agentId := agentId, session := Some(session), tunnel := None, armed := false));
  }

  lemma TimersApart(s: State, h: Handle)
    ensures TimersOk(s) ==> TimersExcept(s, h)
    ensures (TimersExcept(s, h) && h in s.entries &&
             (s.entries[h].armed <==> Registered(s, h) && s.entries[h].session.None? && !s.entries[h].permanent)) ==> TimersOk(s)
  {
  }

  lemma ParkKeeps(s: State, cfg: Config, h: Handle, session: string, now: int)
    requires Inv(s) && h in s.entries
    ensures Inv(Parked(s, cfg, h, session, now))
  {
    hide DomainsOk, PortsOk, NamesOk, TimersExcept;
    var e := s.entries[h];
    assert e.session == Some(session) ==> !e.armed;
    TimersApart(s, h);
    hide TimersOk;
    var left := e.(session := None, tunnel := None);
    if e.session == Some(session) {
      WithKeeps(s, h, left);
      if Registered(s, h) && (s.closed || cfg.clustered) && !e.permanent {
        hide Registered, Deleted;
        DeletedKeeps(With(s, h, left), h);
      } else {
        hide Registered;
        WithKeeps(s, h, left.(expires := now + cfg.grace, armed := true));
      }
    }
  }

  lemma ExpireKeeps(s: State, h: Handle)
    requires Inv(s) && h in s.entries
    ensures Inv(Expired(s, h))
  {
    hide DomainsOk, PortsOk, NamesOk;
    TimersApart(s, h);
    if Registered(s, h) { DeletedKeeps(s, h); }
  }

  lemma UnreserveKeeps(s: State, name: string)
    requires Inv(s)
    ensures Inv(Unreserved(s, name))
  {
    hide DomainsOk, PortsOk, TimersExcept;
    if name in s.names && s.entries[s.names[name]].permanent {
      var h := s.names[name];
      var e := s.entries[h].(permanent := false);
      TimersApart(s, h);
      WithKeeps(s, h, e);
      if e.session.None? {
        hide TimersOk, Deleted;
        DeletedKeeps(With(s, h, e), h);
      }
    }
  }

  // ---------------------------------------------------------------------
  // Domains and ports
  // ---------------------------------------------------------------------

  lemma {:induction false} TakenDomainFinds(s: State, h: Handle, domains: seq<string>)
    ensures TakenDomain(s, h, domains).None? <==> forall d | d in domains :: d in s.domains ==> s.domains[d] == h
    ensures TakenDomain(s, h, domains).Some? ==>
              var d := TakenDomain(s, h, domains).value; d in domains && d in s.domains && s.domains[d] != h
  {
    if domains != [] {
      TakenDomainFinds(s, h, domains[1..]);
      assert forall d :: d in domains <==> d == domains[0] || d in domains[1..];
    }
  }

  lemma SetDomainsKeeps(s: State, h: Handle, domains: seq<string>)
    requires Inv(s) && h in s.entries && Registered(s, h)
    ensures Inv(DomainsSet(s, h, domains))
  {
    TakenDomainFinds(s, h, domains);
    if TakenDomain(s, h, domains).None? {
      var t := DomainsSet(s, h, domains);
      forall g ensures Registered(t, g) <==> Registered(s, g) {}
      forall n, p ensures Holds(t, n, p) <==> Holds(s, n, p) {}
      WithKeepsPorts(s, t);
      SetDomainsIndexes(s, h, domains);
    }
  }

  lemma SetDomainsIndexes(s: State, h: Handle, domains: seq<string>)
    requires DomainsOk(s) && h in s.entries && Registered(s, h) && TakenDomain(s, h, domains).None?
    requires forall d | d in domains :: d in s.domains ==> s.domains[d] == h
    ensures DomainsOk(DomainsSet(s, h, domains))
  {
    hide TakenDomain;
    var t := DomainsSet(s, h, domains);
    forall g ensures Registered(t, g) <==> Registered(s, g) {}
    assert forall g | g in s.entries && g != h :: t.entries[g] == s.entries[g];
    forall d | d in t.domains ensures Registered(t, t.domains[d]) && d in t.entries[t.domains[d]].domains {
      if d !in domains { assert s.domains[d] == t.domains[d]; }
    }
    forall g, d | g in t.entries && Registered(t, g) && d in t.entries[g].domains ensures d in t.domains && t.domains[d] == g {
      if g != h { assert s.domains[d] == g; }
    }
  }

  /** A registered reservation's port becomes one that was free or being bound. */
  lemma PortKeeps(s: State, h: Handle, port: int, t: State)
    requires Inv(s) && Registered(s, h) && port != 0 && (port in s.ports ==> port in s.binding)
    requires t.entries == s.entries[h := s.entries[h].(port := port)] && t.next == s.next
    requires t.names == s.names && t.domains == s.domains && t.binding == s.binding - {port}
    requires t.ports == s.ports - {s.entries[h].port} + {port}
    ensures Inv(t)
  {
    var e := s.entries[h];
    assert Holds(s, e.name, e.port) && Holds(t, e.name, port);
    forall g ensures Registered(t, g) <==> Registered(s, g) {}
    forall n, p | n != e.name ensures Holds(t, n, p) <==> Holds(s, n, p) {}
    hide Holds, PortsOk;
    PortKeepsPorts(s, e.name, e.port, port, t);
    WithKeepsDomains(s, t);
    hide DomainsOk;
  }

  lemma PortKeepsPorts(s: State, name: string, was: int, port: int, t: State)
    requires PortsOk(s) && Holds(s, name, was) && Holds(t, name, port) && port != 0 && (port in s.ports ==> port in s.binding)
    requires forall n, p | n != name :: Holds(t, n, p) <==> Holds(s, n, p)
    requires t.binding == s.binding - {port} && t.ports == s.ports - {was} + {port}
    ensures PortsOk(t)
  {
    forall p | p in t.ports && p !in t.binding ensures exists n :: Holds(t, n, p) {
      if p == port { assert Holds(t, name, p); } else {
        var n :| Holds(s, n, p);
        assert Holds(t, n, p);
      }
    }
  }

  lemma ReserveKeeps(s: State, name: string, tokenId: string, port: int)
    requires Inv(s)
    ensures Inv(ReservedName(s, name, tokenId, port))
  {
    if ReserveRefusal(s, name, tokenId, port).None? {
      var t := Kept(s, name, tokenId);
      var h := t.names[name];
      KeptKeeps(s, name, tokenId);
      hide Inv, NamesOk, DomainsOk, PortsOk, TimersOk;
      if port != 0 && t.entries[h].port != port {
        PortMovedKeeps(t, h, port);
      }
    }
  }

  lemma PortMovedKeeps(t: State, h: Handle, port: int)
    requires Inv(t) && Registered(t, h) && port != 0 && port !in t.ports
    ensures Inv(PortMoved(t, h, port))
  {
    var u := PortMoved(t, h, port);
    assert u.ports == t.ports - {t.entries[h].port} + {port};
    assert u.binding == t.binding - {port};
    hide Inv;
    PortKeeps(t, h, port, u);
  }

  lemma KeptKeeps(s: State, name: string, tokenId: string)
    requires Inv(s)
    ensures Inv(Kept(s, name, tokenId)) && Registered(Kept(s, name, tokenId), Kept(s, name, tokenId).names[name])
  {
    hide DomainsOk, PortsOk;
    var t := WithName(s, name, tokenId);
    var h := t.names[name];
    if name in s.names {
      TimersApart(s, h);
    } else {
      NewKeeps(s, Entry(name, UnspecifiedType, tokenId, "", 0, [], false, None, None, false, 0));
    }
    WithKeeps(t, h, t.entries[h].(permanent := true, armed := false));
  }

  // ---------------------------------------------------------------------
  // Deleting several
  // ---------------------------------------------------------------------

  /** Deleting one more name adds it to the set, whatever the order. */
  lemma DeleteOneMore(s: State, ns: set<string>, n: string)
    requires NamesOk(s) && n in s.names && n !in ns
    ensures var t := DeletedAll(s, ns); Registered(t, s.names[n]) && Deleted(t, s.names[n]) == DeletedAll(s, ns + {n})
  {
    var t, h := DeletedAll(s, ns), s.names[n];
    assert HandlesOf(s, ns + {n}) == HandlesOf(s, ns) + {h};
    assert h !in HandlesOf(s, ns);
    var u, v := Deleted(t, h), DeletedAll(s, ns + {n});
    assert u.entries == v.entries;
    assert u.names == v.names;
    assert u.ports == v.ports;
    assert u.domains == v.domains;
  }

  lemma OthersStay(s: State, ns: set<string>, n: string)
    requires NamesOk(s) && n in s.names && n !in ns
    ensures var t, h := DeletedAll(s, ns), s.names[n];
            n in t.names && t.names[n] == h && h in t.entries && t.entries[h] == s.entries[h]
  {
    assert s.names[n] !in HandlesOf(s, ns);
  }

  lemma DeleteNone(s: State)
    ensures DeletedAll(s, {}) == s
  {
    assert HandlesOf(s, {}) == {};
    assert DeletedAll(s, {}).entries == s.entries;
    assert DeletedAll(s, {}).domains == s.domains;
  }

  lemma {:induction false} DeletedAllKeeps(s: State, ns: set<string>)
    requires Inv(s) && ns <= s.names.Keys
    ensures Inv(DeletedAll(s, ns))
    decreases |ns|
  {
    hide DeletedAll, Deleted, DomainsOk, PortsOk, NamesOk, TimersOk, TimersExcept, Registered;
    if ns == {} {
      DeleteNone(s);
    } else {
      var n :| n in ns;
      var less := ns - {n};
      DeletedAllKeeps(s, less);
      DeleteOneMore(s, less, n);
      assert less + {n} == ns;
      TimersApart(DeletedAll(s, less), s.names[n]);
      DeletedKeeps(DeletedAll(s, less), s.names[n]);
    }
  }

  function Doomed(s: State): set<string> {
    set n | n in s.names && s.names[n] in s.entries && s.entries[s.names[n]].session.None? && !s.entries[s.names[n]].permanent
  }

  /** Closing deletes the parked reservations that may expire; a permanent one has
      no expiry to stop. */
  lemma ClosedIs(s: State)
    requires NamesOk(s) && TimersOk(s)
    ensures Closed(s) == DeletedAll(s, Doomed(s)).(closed := true)
  {
    var t := DeletedAll(s, Doomed(s));
    assert (set n | n in ParkedNames(s) && !s.entries[s.names[n]].permanent) == Doomed(s);
    forall h | h in t.entries && h in HandlesOf(s, ParkedNames(s)) ensures !t.entries[h].armed {
      var n :| n in ParkedNames(s) && s.names[n] == h;
    }
    assert Closed(s).entries == t.entries;
  }

  lemma CloseKeeps(s: State)
    requires Inv(s)
    ensures Inv(Closed(s))
  {
    ClosedIs(s);
    DeletedAllKeeps(s, Doomed(s));
    hide Closed, DeletedAll, Inv;
    ClosedAside(DeletedAll(s, Doomed(s)));
  }

  lemma ClosedAside(t: State)
    requires Inv(t)
    ensures Inv(t.(closed := true))
  {
    var u := t.(closed := true);
    forall g ensures Registered(u, g) <==> Registered(t, g) {}
    forall n, p ensures Holds(u, n, p) <==> Holds(t, n, p) {}
    WithKeepsPorts(t, u);
  }

  // ---------------------------------------------------------------------
  // Sections that may find their reservation released
  // ---------------------------------------------------------------------

  /** setPort keeps the invariant exactly when the reservation is still registered. */
  lemma SetPortKeepsIff(s: State, h: Handle, port: int)
    requires Inv(s) && h in s.entries && port in s.binding
    ensures Inv(PortSet(s, h, port)) <==> Registered(s, h)
  {
    var t := PortSet(s, h, port);
    if Registered(s, h) {
      assert Holds(s, s.entries[h].name, s.entries[h].port);
      PortKeeps(s, h, port, t);
    } else {
      forall n ensures !Holds(t, n, port) {
        assert Holds(t, n, port) ==> Holds(s, n, port);
      }
      assert port in t.ports && port !in t.binding;
    }
  }

  /** setDomains keeps it exactly when the reservation is still registered, the
      domains are refused, or there are none. */
  lemma SetDomainsKeepsIff(s: State, h: Handle, domains: seq<string>)
    requires Inv(s) && h in s.entries
    ensures Inv(DomainsSet(s, h, domains)) <==> SetDomainsSafe(s, h, domains)
  {
    hide PortsOk, NamesOk, TimersOk;
    var t := DomainsSet(s, h, domains);
    if Registered(s, h) {
      SetDomainsKeeps(s, h, domains);
    } else if domains == [] {
      ReleasedClear(s, h);
    } else if TakenDomain(s, h, domains).None? {
      assert t.domains[domains[0]] == h && !Registered(t, h);
    }
  }

  lemma ReleasedClear(s: State, h: Handle)
    requires Inv(s) && h in s.entries && !Registered(s, h)
    ensures Inv(DomainsSet(s, h, []))
  {
    var t := DomainsSet(s, h, []);
    assert t.domains == s.domains;
    forall g ensures Registered(t, g) <==> Registered(s, g) {}
    forall n, p ensures Holds(t, n, p) <==> Holds(s, n, p) {}
    hide PortsOk, Holds;
    WithKeepsPorts(s, t);
    WithKeepsDomains(s, t);
    hide DomainsOk;
  }

  /** Undoing a new claim keeps it exactly when the reservation is still registered
      or its port has not gone to someone else. */
  lemma RollbackKeepsIff(s: State, cfg: Config, h: Handle, session: string, existed: bool, now: int)
    requires Inv(s) && h in s.entries
    ensures Inv(RolledBack(s, cfg, h, session, existed, now)) <==> RollbackSafe(s, h, session, existed)
  {
    if existed {
      ParkKeeps(s, cfg, h, session, now);
    } else if s.entries[h].session == Some(session) {
      if Registered(s, h) {
        TimersApart(s, h);
        DeletedKeeps(s, h);
      } else {
        ReleasedRollback(s, h);
      }
    }
  }

  lemma ReleasedRollback(s: State, h: Handle)
    requires Inv(s) && h in s.entries && !Registered(s, h)
    ensures Inv(Deleted(s, h)) <==> s.entries[h].port !in s.ports
  {
    var t, p := Deleted(s, h), s.entries[h].port;
    assert t.domains == s.domains;
    assert t.entries == s.entries;
    if p !in s.ports {
      assert t.ports == s.ports;
    } else if p !in s.binding {
      var n :| Holds(s, n, p);
      assert Holds(t, n, p);
    }
  }

  // ---------------------------------------------------------------------
  // Every step, every run
  // ---------------------------------------------------------------------

  /** Only the ports changed. */
  lemma PortsAside(s: State, t: State)
    requires Inv(s) && t == s.(ports := t.ports, binding := t.binding)
    ensures NamesOk(t) && DomainsOk(t) && TimersOk(t)
    ensures forall n, p :: Holds(t, n, p) <==> Holds(s, n, p)
  {
    hide PortsOk;
    assert forall g :: Registered(t, g) <==> Registered(s, g);
    WithKeepsDomains(s, t);
  }

  lemma ReservePortKeeps(s: State, port: int)
    requires Inv(s) && port != 0
    ensures Inv(PortReserved(s, port))
  {
    var t := PortReserved(s, port);
    PortsAside(s, t);
    hide Holds, NamesOk, DomainsOk, TimersOk;
    forall p | p in t.ports && p !in t.binding ensures exists n :: Holds(t, n, p) {
      var n :| Holds(s, n, p);
      assert Holds(t, n, p);
    }
  }

  lemma ReleasePortKeeps(s: State, port: int)
    requires Inv(s) && port in s.binding
    ensures Inv(PortReleased(s, port))
  {
    var t := PortReleased(s, port);
    PortsAside(s, t);
    hide Holds, NamesOk, DomainsOk, TimersOk;
    forall p | p in t.ports && p !in t.binding ensures exists n :: Holds(t, n, p) {
      var n :| Holds(s, n, p);
      assert Holds(t, n, p);
    }
  }

  lemma StepKeeps(cfg: Config, s: State, op: Op)
    requires Inv(s) && Enabled(s, op)
    ensures Inv(Next(cfg, s, op))
  {
    hide DomainsOk, PortsOk, NamesOk;
    match op
    case Claim(name, kind, tokenId, agentId, session, max) => ClaimKeeps(s, name, kind, tokenId, agentId, session, max);
    case Activate(h, tunnel) => TimersApart(s, h); WithKeeps(s, h, s.entries[h].(tunnel := Some(tunnel)));
    case Park(h, session, now) => ParkKeeps(s, cfg, h, session, now);
    case Rollback(h, session, existed, now) => RollbackKeepsIff(s, cfg, h, session, existed, now);
    case Expire(h) => ExpireKeeps(s, h);
    case SetDomains(h, domains) => SetDomainsKeepsIff(s, h, domains);
    case Reserve(name, tokenId, port) => ReserveKeeps(s, name, tokenId, port);
    case Unreserve(name) => UnreserveKeeps(s, name);
    case ReleaseToken(tokenId) => DeletedAllKeeps(s, NamesOfToken(s, tokenId));
    case ReservePort(port) => ReservePortKeeps(s, port);
    case ReleasePort(port) => ReleasePortKeeps(s, port);
    case SetPort(h, port) => SetPortKeepsIff(s, h, port);
    case Close => CloseKeeps(s);
  }

  /** The bookkeeping is right after every interleaving of the sections. */
  lemma {:induction false} AlwaysConsistent(cfg: Config, s: State, run: seq<Op>)
    requires Inv(s) && Reaches(cfg, s, run)
    ensures Inv(Exec(cfg, s, run))
    decreases |run|
  {
    hide Inv;
    if run != [] {
      StepKeeps(cfg, s, run[0]);
      AlwaysConsistent(cfg, Next(cfg, s, run[0]), run[1..]);
    }
  }

  lemma EmptyIsConsistent()
    ensures Inv(EmptyState)
  {
  }

  // ---------------------------------------------------------------------
  // What the invariant means
  // ---------------------------------------------------------------------

  /** The ports of the registered reservations. */
  ghost function HeldPorts(s: State): set<int> {
    set n | n in s.names && s.names[n] in s.entries && s.entries[s.names[n]].port != 0 :: s.entries[s.names[n]].port
  }

  /** No port and no domain has two holders, the port set is exactly what is held
      or being bound, and nobody can be parked for ever. */
  lemma ConsistentMeans(s: State, n: string, m: string)
    requires Inv(s) && n in s.names && m in s.names
    ensures s.ports == HeldPorts(s) + s.binding && HeldPorts(s) !! s.binding
    ensures var a, b := s.entries[s.names[n]], s.entries[s.names[m]];
            && (a.session.Some? || a.permanent || a.armed)
            && (n != m && a.port != 0 ==> a.port != b.port)
            && (n != m ==> forall d | d in a.domains :: d !in b.domains)
  {
    var a, b := s.entries[s.names[n]], s.entries[s.names[m]];
    forall p ensures p in s.ports <==> p in HeldPorts(s) + s.binding {
      if p in s.ports && p !in s.binding {
        var k :| Holds(s, k, p);
      }
      if p in HeldPorts(s) {
        var k :| k in s.names && s.names[k] in s.entries && s.entries[s.names[k]].port == p;
        assert Holds(s, k, p);
      }
    }
    forall p | p in HeldPorts(s) ensures p !in s.binding {
      var k :| k in s.names && s.names[k] in s.entries && s.entries[s.names[k]].port == p;
      assert Holds(s, k, p);
    }
    assert Holds(s, n, a.port) && Holds(s, m, b.port);
    assert Registered(s, s.names[n]) && Registered(s, s.names[m]);
    forall d | d in a.domains && d in b.domains ensures n == m {
      assert s.domains[d] == s.names[n];
    }
  }

  /** An expiry that fires, however late, removes its reservation exactly when it is
      parked with its expiry armed, and touches no other. */
  lemma LateExpiryIsHarmless(s: State, h: Handle)
    requires Inv(s) && h in s.entries
    ensures Expired(s, h) == s <==> !s.entries[h].armed
    ensures forall n | n in s.names && (n !in Expired(s, h).names || Expired(s, h).names[n] != s.names[n]) ::
              s.names[n] == h && s.entries[h].session.None? && !s.entries[h].permanent
    ensures forall g | g in s.entries && g != h :: Expired(s, h).entries[g] == s.entries[g]
  {
  }

  // ---------------------------------------------------------------------
  // What released and late sections can do
  // ---------------------------------------------------------------------

  lemma {:induction false} OneMore(cfg: Config, s: State, run: seq<Op>, op: Op)
    requires Reaches(cfg, s, run) && Enabled(Exec(cfg, s, run), op)
    ensures Reaches(cfg, s, run + [op]) && Exec(cfg, s, run + [op]) == Next(cfg, Exec(cfg, s, run), op)
    decreases |run|
  {
    if run == [] {
      assert run + [op] == [op] && [op][1..] == [];
    } else {
      assert (run + [op])[1..] == run[1..] + [op];
      OneMore(cfg, Next(cfg, s, run[0]), run[1..], op);
    }
  }

  /** A token revoked while its agent registers: undoing the agent's first tunnel
      later frees the port another token's tunnel got meanwhile. */
  lemma RollbackCanFreeAnothersPort(cfg: Config) returns (run: seq<Op>)
    ensures Reaches(cfg, EmptyState, run)
    ensures var s := Exec(cfg, EmptyState, run);
            0 in s.entries && Holds(s, "b", 7) && 7 in s.ports && 7 !in RolledBack(s, cfg, 0, "s1", false, 0).ports
  {
    var s := EmptyState;
    run := [];
    s, run := OpenOn(cfg, s, run, "a", "t1", "s1", 7);
    s, run := Then(cfg, s, run, ReleaseToken("t1"));
    assert s.names == map[] && s.ports == {} && s.entries[0].port == 7 && s.entries[0].session == Some("s1");
    s, run := OpenOn(cfg, s, run, "b", "t2", "s2", 7);
  }

  /** A new name opened on a free port. */
  lemma OpenOn(cfg: Config, s: State, run: seq<Op>, name: string, tokenId: string, session: string, port: int)
    returns (t: State, more: seq<Op>)
    requires Reaches(cfg, EmptyState, run) && s == Exec(cfg, EmptyState, run)
    requires name !in s.names && s.next !in s.entries && port != 0 && port !in s.ports && port !in s.binding
    ensures Reaches(cfg, EmptyState, more) && t == Exec(cfg, EmptyState, more)
    ensures more == run + [Claim(name, Tcp, tokenId, "x", session, 0), ReservePort(port), SetPort(s.next, port)]
    ensures t == s.(next := s.next + 1, names := s.names[name := s.next], ports := s.ports + {port},
                    entries := s.entries[s.next := Entry(name, Tcp, tokenId, "x", port, [], false, Some(session), None, false, 0)])
  {
    hide Reaches, Exec, Parked, RolledBack, Expired, DomainsSet, ReservedName, Unreserved, DeletedAll, Closed;
    var claimed, bound;
    claimed, more := Then(cfg, s, run, Claim(name, Tcp, tokenId, "x", session, 0));
    assert claimed == Claimed(s, name, Tcp, tokenId, "x", session, 0);
    hide Claimed;
    ClaimsNew(s, name, Tcp, tokenId, session);
    bound, more := Then(cfg, claimed, more, ReservePort(port));
    t, more := Then(cfg, bound, more, SetPort(s.next, port));
    assert t.binding == s.binding && t.ports == s.ports + {port};
  }

  lemma ClaimsNew(s: State, name: string, kind: TunnelType, tokenId: string, session: string)
    requires name !in s.names
    ensures Claimed(s, name, kind, tokenId, "x", session, 0) ==
            s.(next := s.next + 1, names := s.names[name := s.next],
               entries := s.entries[s.next := Entry(name, kind, tokenId, "x", 0, [], false, Some(session), None, false, 0)])
  {
    hide ConnectedOf;
  }

  /** A token revoked while its agent's port is being bound: the port stays taken with
      nobody holding it. */
  lemma SetPortCanLeakAPort(cfg: Config) returns (run: seq<Op>)
    ensures run == [Claim("a", Tcp, "t1", "x", "s1", 0), ReservePort(7), ReleaseToken("t1")] && Reaches(cfg, EmptyState, run)
    ensures var s := Exec(cfg, EmptyState, run);
            && Inv(s) && 0 in s.entries && 7 in s.binding
            && var t := PortSet(s, 0, 7); !Inv(t) && 7 in t.ports && 7 !in t.binding && forall n :: !Holds(t, n, 7)
  {
    hide Inv, Reaches, Exec, Parked, RolledBack, Expired, DomainsSet, ReservedName, Unreserved, Closed, Claimed;
    var s := EmptyState;
    run := [];
    NothingRun(cfg);
    s, run := Then(cfg, s, run, Claim("a", Tcp, "t1", "x", "s1", 0));
    ClaimsNew(EmptyState, "a", Tcp, "t1", "s1");
    s, run := Then(cfg, s, run, ReservePort(7));
    s, run := Then(cfg, s, run, ReleaseToken("t1"));
    assert s.names == map[] && s.binding == {7} && s.ports == {7};
    EmptyIsConsistent();
    AlwaysConsistent(cfg, EmptyState, run);
    SetPortKeepsIff(s, 0, 7);
  }

  /** A token revoked before its agent's domains are set: a domain of nobody's. */
  lemma SetDomainsCanDangle(cfg: Config) returns (run: seq<Op>)
    ensures run == [Claim("a", Http, "t1", "x", "s1", 0), ReleaseToken("t1")] && Reaches(cfg, EmptyState, run)
    ensures var s := Exec(cfg, EmptyState, run);
            && Inv(s) && 0 in s.entries
            && var t := DomainsSet(s, 0, ["x.com"]); !Inv(t) && "x.com" in t.domains && !Registered(t, t.domains["x.com"])
  {
    hide Inv, Reaches, Exec, Parked, RolledBack, Expired, ReservedName, Unreserved, Closed, Claimed;
    var s := EmptyState;
    run := [];
    NothingRun(cfg);
    s, run := Then(cfg, s, run, Claim("a", Http, "t1", "x", "s1", 0));
    ClaimsNew(EmptyState, "a", Http, "t1", "s1");
    s, run := Then(cfg, s, run, ReleaseToken("t1"));
    assert s.names == map[] && s.domains == map[];
    EmptyIsConsistent();
    AlwaysConsistent(cfg, EmptyState, run);
    TakenDomainFinds(s, 0, ["x.com"]);
    SetDomainsKeepsIff(s, 0, ["x.com"]);
  }

  lemma NothingRun(cfg: Config)
    ensures Reaches(cfg, EmptyState, []) && Exec(cfg, EmptyState, []) == EmptyState
  {
  }

  lemma Then(cfg: Config, s: State, run: seq<Op>, op: Op) returns (t: State, more: seq<Op>)
    requires Reaches(cfg, EmptyState, run) && s == Exec(cfg, EmptyState, run) && Enabled(s, op)
    ensures more == run + [op] && t == Next(cfg, s, op) && Reaches(cfg, EmptyState, more) && t == Exec(cfg, EmptyState, more)
  {
    OneMore(cfg, EmptyState, run, op);
    t, more := Next(cfg, s, op), run + [op];
  }

  /** An expiry that fired before its reservation was reclaimed, and gets the lock
      after it was parked again, cuts the new grace period short. */
  lemma LateExpiryCanCutGraceShort(cfg: Config) returns (run: seq<Op>)
    requires cfg.grace > 0 && !cfg.clustered
    ensures Reaches(cfg, EmptyState, run)
    ensures var s := Exec(cfg, EmptyState, run);
            && run == [Claim("a", Tcp, "t1", "x", "s1", 0), Park(0, "s1", 0), Claim("a", Tcp, "t1", "x", "s2", 0), Park(0, "s2", cfg.grace)]
            && "a" in s.names && 0 in s.entries && s.entries[0].expires == 2 * cfg.grace && "a" !in Expired(s, 0).names
  {
    var s := EmptyState;
    run := [];
    s, run := Then(cfg, s, run, Claim("a", Tcp, "t1", "x", "s1", 0));
    assert s.names == map["a" := 0];
    s, run := Then(cfg, s, run, Park(0, "s1", 0));
    assert s.names == map["a" := 0] && s.entries[0].armed;
    s, run := Then(cfg, s, run, Claim("a", Tcp, "t1", "x", "s2", 0));
    assert s.names == map["a" := 0] && s.entries[0].session == Some("s2");
    s, run := Then(cfg, s, run, Park(0, "s2", cfg.grace));
  }
}
