/** Two relays never hand out the same port or domain: the engine's indexes
    match its tunnels in every run. */
module IndexTheorems {
  import opened Wrappers
  import opened Records
  import opened Claims
  import opened ClaimTraces

  ghost predicate PortsSound(s: State) {
    forall p | p in s.byPort :: p != 0 && s.byPort[p] in s.tunnels && s.tunnels[s.byPort[p]].publicPort == p
  }

  ghost predicate DomainsSound(s: State) {
    forall d | d in s.byDomain :: s.byDomain[d] in s.tunnels && d in s.tunnels[s.byDomain[d]].domains
  }

  /** Each index entry points at a stored tunnel that has that port or domain. */
  ghost predicate Sound(s: State) {
    WellKeyed(s) && PortsSound(s) && DomainsSound(s)
  }

  ghost predicate PortsComplete(s: State) {
    forall n | n in s.tunnels :: s.tunnels[n].publicPort != 0 ==> Owner(s.byPort, s.tunnels[n].publicPort) == n
  }

  ghost predicate DomainsComplete(s: State) {
    forall n | n in s.tunnels :: forall d | d in s.tunnels[n].domains :: Owner(s.byDomain, d) == n
  }

  /** Each tunnel's port and domains are indexed under its name. */
  ghost predicate Complete(s: State) {
    "" !in s.tunnels && PortsComplete(s) && DomainsComplete(s)
  }

  lemma SoundIsKeyed(s: State)
    requires Sound(s)
    ensures WellKeyed(s)
  {
  }

  lemma StorePortsSound(s: State, rec: Tunnel)
    requires PortsSound(s) && (rec.name in s.tunnels ==> s.tunnels[rec.name].name == rec.name)
    ensures PortsSound(Stored(s, rec))
  {
  }

  lemma StoreDomainsSound(s: State, rec: Tunnel)
    requires DomainsSound(s) && (rec.name in s.tunnels ==> s.tunnels[rec.name].name == rec.name)
    ensures DomainsSound(Stored(s, rec))
  {
    var st := Stored(s, rec);
    forall d | d in st.byDomain ensures st.byDomain[d] in st.tunnels && d in st.tunnels[st.byDomain[d]].domains {
      if d !in rec.domains { assert d in s.byDomain && s.byDomain[d] == st.byDomain[d]; }
    }
  }

  lemma StoreKeyed(s: State, rec: Tunnel)
    requires WellKeyed(s)
    ensures WellKeyed(Stored(s, rec))
  {
  }

  lemma StoreSound(s: State, rec: Tunnel)
    requires Sound(s)
    ensures Sound(Stored(s, rec))
  {
    hide Stored, PortsSound, DomainsSound;
    StoreKeyed(s, rec);
    StorePortsSound(s, rec);
    StoreDomainsSound(s, rec);
  }

  lemma RemoveSound(s: State, name: string)
    requires Sound(s)
    ensures Sound(Removed(s, name))
  {
    assert PortsSound(Removed(s, name));
    assert DomainsSound(Removed(s, name));
  }

  lemma ApplySound(s: State, e: Event)
    requires Sound(s)
    ensures Sound(Apply(s, e))
  {
    if e.TunnelChanged? {
      if e.change == Deleted { RemoveSound(s, e.tunnel.name); } else { StoreSound(s, e.tunnel); }
    }
  }

  lemma {:induction false} SoundKept(s: State, es: seq<Event>)
    requires Sound(s)
    ensures Sound(ApplyAll(s, es))
  {
    if es != [] {
      SoundKept(s, es[..|es| - 1]);
      ApplySound(ApplyAll(s, es[..|es| - 1]), es[|es| - 1]);
    }
  }

  /** In every run, announces included, no index entry dangles. */
  lemma {:induction false} IndexesAlwaysSound(s: State, run: Run)
    requires Sound(s)
    ensures Sound(Exec(s, run))
  {
    if run != [] {
      var (env, op) := run[|run| - 1];
      IndexesAlwaysSound(s, run[..|run| - 1]);
      SoundKept(Exec(s, run[..|run| - 1]), Events(env, Exec(s, run[..|run| - 1]), op));
    }
  }

  predicate PortUnclaimed(s: State, rec: Tunnel) {
    rec.publicPort != 0 ==> Owner(s.byPort, rec.publicPort) in {"", rec.name}
  }

  predicate DomainsUnclaimed(s: State, rec: Tunnel) {
    forall d | d in rec.domains :: Owner(s.byDomain, d) in {"", rec.name}
  }

  lemma StoreKeepsPorts(s: State, rec: Tunnel)
    requires PortsSound(s) && PortsComplete(s) && "" !in s.tunnels
    ensures PortsComplete(Stored(s, rec)) <==> PortUnclaimed(s, rec)
  {
    var st := Stored(s, rec);
    if !PortUnclaimed(s, rec) {
      var m := s.byPort[rec.publicPort];
      assert st.tunnels[m] == s.tunnels[m] && Owner(st.byPort, rec.publicPort) == rec.name;
    }
  }

  lemma StoreTakesDomain(s: State, rec: Tunnel)
    requires DomainsSound(s) && DomainsComplete(s) && "" !in s.tunnels && !DomainsUnclaimed(s, rec)
    ensures !DomainsComplete(Stored(s, rec))
  {
    var st := Stored(s, rec);
    var d :| d in rec.domains && Owner(s.byDomain, d) !in {"", rec.name};
    var m := s.byDomain[d];
    assert st.tunnels[m] == s.tunnels[m] && Owner(st.byDomain, d) == rec.name;
  }

  lemma StoreKeepsFreeDomains(s: State, rec: Tunnel)
    requires DomainsSound(s) && DomainsComplete(s) && "" !in s.tunnels && DomainsUnclaimed(s, rec)
    ensures DomainsComplete(Stored(s, rec))
  {
    hide IndexPort, UnindexPort;
  }

  lemma StoreKeepsDomains(s: State, rec: Tunnel)
    requires DomainsSound(s) && DomainsComplete(s) && "" !in s.tunnels
    ensures DomainsComplete(Stored(s, rec)) <==> DomainsUnclaimed(s, rec)
  {
    hide DomainsSound, DomainsComplete, DomainsUnclaimed, Stored;
    if DomainsUnclaimed(s, rec) { StoreKeepsFreeDomains(s, rec); } else { StoreTakesDomain(s, rec); }
  }

  /** Storing a record keeps every tunnel indexed exactly when its port and
      domains are held by no other name. */
  lemma StoreKeepsComplete(s: State, rec: Tunnel)
    requires Sound(s) && Complete(s)
    ensures Complete(Stored(s, rec)) <==> Unclaimed(s, rec)
  {
    StoreKeepsPorts(s, rec);
    StoreKeepsDomains(s, rec);
  }

  lemma RemoveKeepsComplete(s: State, name: string)
    requires Sound(s) && Complete(s)
    ensures Complete(Removed(s, name))
  {
  }

  /** Every store but an announced one replaces a record by one with the same
      port and domains, or comes from a checked claim. */
  lemma LegalStoresUnclaimed(env: Env, op: Op, s: State, t: Tunnel)
    requires Sound(s) && Complete(s) && LegalStore(env, op, s, t) && !op.AnnounceOp?
    ensures Unclaimed(s, t)
  {
  }

  lemma {:induction false} CompleteKept(env: Env, op: Op, s: State, es: seq<Event>)
    requires Sound(s) && Complete(s) && LegalTrace(env, op, s, es) && !op.AnnounceOp?
    ensures Complete(ApplyAll(s, es))
  {
    hide Sound, Complete, Legal;
    if es != [] {
      var init, e := es[..|es| - 1], es[|es| - 1];
      CompleteKept(env, op, s, init);
      SoundKept(s, init);
      CompleteAfter(env, op, ApplyAll(s, init), e);
    }
  }

  lemma CompleteAfter(env: Env, op: Op, s: State, e: Event)
    requires Sound(s) && Complete(s) && Legal(env, op, s, e) && !op.AnnounceOp?
    ensures Complete(Apply(s, e))
  {
    if e.TunnelChanged? {
      if e.change == Deleted {
        RemoveKeepsComplete(s, e.tunnel.name);
      } else {
        LegalStoresUnclaimed(env, op, s, e.tunnel);
        StoreKeepsComplete(s, e.tunnel);
      }
    }
  }

  /** No two tunnels share a public port or a custom domain. */
  ghost predicate Exclusive(s: State) {
    forall m, n | m in s.tunnels && n in s.tunnels && m != n ::
      && (s.tunnels[m].publicPort != 0 ==> s.tunnels[m].publicPort != s.tunnels[n].publicPort)
      && forall d | d in s.tunnels[m].domains :: d !in s.tunnels[n].domains
  }

  lemma CompleteIsExclusive(s: State)
    requires Complete(s)
    ensures Exclusive(s)
  {
  }
}
