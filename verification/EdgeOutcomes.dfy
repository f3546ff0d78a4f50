/** What the edge must do, said of the stored domains: which forwards are on a port,
    which listeners and pools there are, where a host goes, and which domains may be
    stored (go/tunnel/edge, go/tunnel/edgeconf/validate.go). */
module EdgeOutcomes {
  import opened Wrappers
  import opened EdgeConf
  import opened EdgeRoutes
  import opened EdgeServer

  // ---------------------------------------------------------------------
  // Routes, listeners and pools
  // ---------------------------------------------------------------------

  /** The forward is on the port: its domain and it are enabled, and the port is its own
      or in its range. */
  predicate OnPort(d: Domain, i: nat, port: int) {
    && d.enabled && d.ipLists && i < |d.forwards| && d.forwards[i].enabled
    && var f := d.forwards[i];
       if f.listenPortEnd == 0 then port == f.listenPort else f.listenPort <= port <= f.listenPortEnd
  }

  function PoolKey(d: Domain, i: nat): string
    requires i < |d.forwards|
  {
    if d.forwards[i].id != "" then d.id + "/" + d.forwards[i].id else d.id + "/#" + Decimal(i)
  }

  /** The route's pool is the forward's own: the stored one while the forward is the
      same, else a new one. */
  predicate PoolOf(pools: map<string, Pool>, d: Domain, i: nat, p: Pool)
    requires i < |d.forwards|
  {
    && p.fwd == d.forwards[i]
    && (PoolKey(d, i) in pools && pools[PoolKey(d, i)].fwd == d.forwards[i] ==> p.state == pools[PoolKey(d, i)].state)
    && (!(PoolKey(d, i) in pools && pools[PoolKey(d, i)].fwd == d.forwards[i]) ==> p.state == 0)
  }

  lemma PoolMeans(pools: map<string, Pool>, d: Domain, i: nat, p: Pool)
    requires i < |d.forwards|
    ensures PoolOf(pools, d, i, p) <==> p == PoolFor(pools, d, i)
    ensures PoolKey(d, i) == KeyOf(d, i)
  {
    assert d.id + "/#" + Decimal(i) == d.id + "/" + ("#" + Decimal(i));
    assert d.id + "/" + d.forwards[i].id == d.id + ("/" + d.forwards[i].id);
  }

  lemma OnPortMeans(d: Domain, i: nat, port: int)
    ensures OnPort(d, i, port) <==> IsOn(d, i, port)
  {
  }

  /** The routes of a port are exactly the forwards on it, each with its pool. */
  lemma RoutesExactly(pools: map<string, Pool>, ds: seq<Domain>, port: int, r: Route)
    ensures r in RoutesOn(pools, ds, port) <==>
            exists d, i: nat :: d in ds && OnPort(d, i, port) && r.domain == d && r.fwd == d.forwards[i] && PoolOf(pools, d, i, r.pool)
  {
    hide PoolOf, PoolFor;
    RoutesAre(pools, ds, port, r);
    if r in RoutesOn(pools, ds, port) {
      var d :| d in ds && IsRouteOn(pools, d, port, r);
      var i: nat :| IsOn(d, i, port) && r == RouteOf(pools, d, i);
      OnPortMeans(d, i, port);
      PoolMeans(pools, d, i, r.pool);
    }
    if d, i: nat :| d in ds && OnPort(d, i, port) && r.domain == d && r.fwd == d.forwards[i] && PoolOf(pools, d, i, r.pool) {
      OnPortMeans(d, i, port);
      PoolMeans(pools, d, i, r.pool);
      assert r == RouteOf(pools, d, i);
      assert IsRouteOn(pools, d, port, r);
    }
  }

  /** The edge listens exactly on the ports some forward is on, speaks the protocol of
      the forwards there, and keeps a listener while that stays the same. */
  lemma ListensExactly(t: Table, ds: seq<Domain>, pools: map<string, Pool>, was: map<int, Listener>, now: map<int, Listener>, version: int, port: int)
    requires TableOk(t) && Lists(ds, t) && Match(now, was, pools, ds, version)
    ensures port in now <==> exists d, i: nat :: d in ds && OnPort(d, i, port)
    ensures forall d, i: nat | d in ds && OnPort(d, i, port) && port in now :: now[port].protocol == d.forwards[i].protocol
    ensures port in now ==> now[port].since == if port in was && was[port].protocol == now[port].protocol then was[port].since else version
  {
    hide TableOk, Lists;
    var routes := RoutesOn(pools, ds, port);
    PortsAreClean(pools, t, ds, port);
    if port in now {
      assert routes[0] in routes;
      RoutesExactly(pools, ds, port, routes[0]);
    }
    forall d, i: nat | d in ds && OnPort(d, i, port) ensures port in now && now[port].protocol == d.forwards[i].protocol {
      var r := Route(d, d.forwards[i], PoolFor(pools, d, i));
      PoolMeans(pools, d, i, r.pool);
      RoutesExactly(pools, ds, port, r);
      assert routes[0] in routes;
    }
  }

  /** There is a pool for exactly the keys of the enabled forwards, and it is one of
      theirs. */
  lemma PoolsExactly(pools: map<string, Pool>, ds: seq<Domain>, key: string)
    ensures key in PoolsOf(pools, ds) <==>
            exists d, i: nat :: d in ds && d.enabled && d.ipLists && i < |d.forwards| && d.forwards[i].enabled && PoolKey(d, i) == key
    ensures key in PoolsOf(pools, ds) ==>
            exists d, i: nat :: d in ds && d.enabled && d.ipLists && i < |d.forwards| && d.forwards[i].enabled && PoolKey(d, i) == key &&
                                PoolOf(pools, d, i, PoolsOf(pools, ds)[key])
  {
    hide PoolOf, PoolFor, PoolKey, KeyOf, PoolsOf;
    PoolsAre(pools, ds);
    if key in PoolsOf(pools, ds) {
      assert HasPool(pools, ds, key, PoolsOf(pools, ds)[key]);
      var d, i: nat :| IsServed(ds, d, i) && KeyOf(d, i) == key && PoolsOf(pools, ds)[key] == PoolFor(pools, d, i);
      PoolMeans(pools, d, i, PoolsOf(pools, ds)[key]);
    }
    if d, i: nat :| d in ds && d.enabled && d.ipLists && i < |d.forwards| && d.forwards[i].enabled && PoolKey(d, i) == key {
      PoolMeans(pools, d, i, PoolFor(pools, d, i));
      assert IsServed(ds, d, i);
    }
  }

  // ---------------------------------------------------------------------
  // Where a host goes
  // ---------------------------------------------------------------------

  /** A site's route that has the host by name. */
  predicate HasHost(r: Route, host: string) {
    r.domain.kind != TunnelBase && (host == r.domain.domain || host in r.domain.aliases) && !(host != "" && host[0] == '*')
  }

  /** "*." and what follows the host's first label. */
  ghost predicate WildFor(n: string, host: string) {
    exists i :: 0 < i < |host| && host[i] == '.' && '.' !in host[..i] && n == "*" + host[i..]
  }

  /** A site's route that has the wildcard of the host's parent. */
  ghost predicate HasParent(r: Route, host: string) {
    r.domain.kind != TunnelBase && exists n :: (n == r.domain.domain || n in r.domain.aliases) && WildFor(n, host)
  }

  lemma HostMeans(r: Route, host: string)
    ensures HasHost(r, host) <==> AnswersExact(r, host)
  {
  }

  lemma DotMeans(host: string, n: string)
    ensures WildFor(n, host) <==> FromDot(host) != "" && n == "*" + FromDot(host)
  {
    var i := DotIn(host);
    if WildFor(n, host) {
      var j :| 0 < j < |host| && host[j] == '.' && '.' !in host[..j] && n == "*" + host[j..];
      assert forall k | 0 <= k < j :: host[..j][k] == host[k];
      assert forall k | 0 <= k < i :: host[..i][k] == host[k];
    }
  }

  lemma ParentMeans(r: Route, host: string)
    ensures HasParent(r, host) <==> FromDot(host) != "" && AnswersWild(r, FromDot(host))
  {
    hide WildFor, FromDot;
    if HasParent(r, host) {
      var n :| (n == r.domain.domain || n in r.domain.aliases) && WildFor(n, host);
      DotMeans(host, n);
      assert n in Names(r.domain) && IsWild(n) && n[1..] == FromDot(host);
    }
    if FromDot(host) != "" && AnswersWild(r, FromDot(host)) {
      var n :| n in Names(r.domain) && IsWild(n) && n[1..] == FromDot(host);
      assert n == "*" + FromDot(host);
      DotMeans(host, n);
    }
  }

  /** On a consistent table every host goes where it belongs: to the site that has it by
      name; else, on a port of the tunnel base, the control name to the least loaded
      relay and a tunnel's host to the relay that serves it; else to the site that has
      the wildcard of its parent; else to the next relay of the base; else nowhere. */
  lemma ResolvesExactly(pools: map<string, Pool>, t: Table, ds: seq<Domain>, port: int, live: Live, host: string)
    requires TableOk(t) && Lists(ds, t)
    ensures var routes := RoutesOn(pools, ds, port);
            var to := Resolve(RouteSetOf(routes), live, host);
            var named := exists q :: q in routes && HasHost(q, host);
            var parent := exists q :: q in routes && HasParent(q, host);
            var based := exists b :: b in routes && b.domain.kind == TunnelBase;
            var control := host != "" && host == live.control;
            var tunnel := host != "" && !control && live.ownerOf(host).Some?;
            && (forall r :: to == ToSite(r) <==>
                  r in routes && (HasHost(r, host) || (HasParent(r, host) && !named && !(based && (control || tunnel)))))
            && (forall b, x :: to == ToRelay(b, x) <==>
                  && b in routes && b.domain.kind == TunnelBase && !named
                  && if control then x == live.least else if tunnel then x == live.ownerOf(host) else !parent && x == live.next)
            && (to == NoTarget <==> !named && !parent && !based)
  {
    hide HasHost, HasParent, FromDot, AnswersExact, AnswersWild, TableOk, Lists, RouteSetOf, RoutesOn;
    var routes := RoutesOn(pools, ds, port);
    PortsAreClean(pools, t, ds, port);
    RouteSetHolds(routes);
    forall r ensures HasHost(r, host) <==> AnswersExact(r, host) { HostMeans(r, host); }
    forall r ensures HasParent(r, host) <==> FromDot(host) != "" && AnswersWild(r, FromDot(host)) { ParentMeans(r, host); }
    hide Clean;
  }

  // ---------------------------------------------------------------------
  // Which domains may be stored
  // ---------------------------------------------------------------------

  /** The forward's ports. */
  predicate Has(f: Forward, port: int) {
    f.listenPort <= port && (if f.listenPortEnd == 0 then port == f.listenPort else port <= f.listenPortEnd)
  }

  predicate ForwardFits(f: Forward) {
    && 1 <= f.listenPort <= 65535 && f.protocol != UnspecifiedProtocol && f.sound
    && (f.listenPortEnd == 0 || (f.listenPort < f.listenPortEnd <= 65535 && f.protocol == Tcp))
  }

  /** Nothing of the other domain is in the domain's way: not both are the tunnel base,
      they share no name, and on a shared port they speak one protocol that is not TCP. */
  ghost predicate Beside(d: Domain, o: Domain) {
    && !(d.kind == TunnelBase && o.kind == TunnelBase)
    && (forall n :: !(Named(d, n) && Named(o, n)))
    && forall f, g, port | f in d.forwards && g in o.forwards && Has(f, port) && Has(g, port) ::
         f.protocol == g.protocol && f.protocol != Tcp
  }

  /** A domain passes the checks exactly when its kind fits, its lists parse, its names
      are distinct, its forwards fit and share no port, and every other stored domain is
      beside it. */
  lemma AcceptsMeans(d: Domain, others: seq<Domain>, baseDomain: string)
    requires forall o, g | o in others && g in o.forwards :: ForwardFits(g)
    ensures ValidateDomain(d, others, baseDomain) == None <==>
            && (d.kind == Site || (d.kind == TunnelBase && d.domain == baseDomain)) && d.ipLists
            && (forall i, j | 0 <= i < j < |d.aliases| :: d.aliases[i] != d.aliases[j]) && d.domain !in d.aliases
            && (forall f | f in d.forwards :: ForwardFits(f))
            && (forall i, j, port | 0 <= i < j < |d.forwards| :: !(Has(d.forwards[i], port) && Has(d.forwards[j], port)))
            && (forall o | o in others && o.id != d.id :: Beside(d, o))
  {
    hide Overlap;
    NamesApart(d);
    forall f ensures ForwardFits(f) <==> ForwardOk(f) {}
    if forall f | f in d.forwards :: ForwardFits(f) {
      forall f, g | f in d.forwards && ForwardFits(g) ensures Overlap(f, g) <==> exists port :: Has(f, port) && Has(g, port) {
        SharesMeans(f, g);
      }
      forall o | o in others ensures Beside(d, o) <==> Compatible(d, o) { BesideMeans(d, o); }
      OwnPorts(d);
    }
  }

  lemma SharesMeans(f: Forward, g: Forward)
    requires ForwardFits(f) && ForwardFits(g)
    ensures Overlap(f, g) <==> exists port :: Has(f, port) && Has(g, port)
  {
    OverlapMeans(f, g);
    forall port ensures (Has(f, port) <==> ListensOn(f, port)) && (Has(g, port) <==> ListensOn(g, port)) {}
  }

  lemma OwnPorts(d: Domain)
    requires forall f | f in d.forwards :: ForwardFits(f)
    ensures (forall i, j, port | 0 <= i < j < |d.forwards| :: !(Has(d.forwards[i], port) && Has(d.forwards[j], port))) <==>
            !(exists i, j | 0 <= i < j < |d.forwards| :: Overlap(d.forwards[i], d.forwards[j]))
  {
    hide Overlap, Has;
    forall i, j | 0 <= i < j < |d.forwards|
      ensures Overlap(d.forwards[i], d.forwards[j]) <==> exists port :: Has(d.forwards[i], port) && Has(d.forwards[j], port) {
      SharesMeans(d.forwards[i], d.forwards[j]);
    }
  }

  lemma NamesApart(d: Domain)
    ensures Distinct(Names(d)) <==> (forall i, j | 0 <= i < j < |d.aliases| :: d.aliases[i] != d.aliases[j]) && d.domain !in d.aliases
  {
    var ns := Names(d);
    assert forall i | 0 <= i < |d.aliases| :: ns[i + 1] == d.aliases[i];
    if Distinct(ns) {
      forall i, j | 0 <= i < j < |d.aliases| ensures d.aliases[i] != d.aliases[j] { assert ns[i + 1] != ns[j + 1]; }
      forall i | 0 <= i < |d.aliases| ensures d.aliases[i] != d.domain { assert ns[0] != ns[i + 1]; }
    }
  }

  /** The domain has the name. */
  predicate Named(d: Domain, n: string) { n == d.domain || n in d.aliases }

  lemma NamedMeans(d: Domain, n: string)
    ensures Named(d, n) <==> n in Names(d)
  {
  }

  lemma RivalsMeans(d: Domain, o: Domain)
    ensures Rivals(d, o) <==> (d.kind == TunnelBase && o.kind == TunnelBase) || exists n :: Named(d, n) && Named(o, n)
  {
    hide Named, Names;
    if n :| Named(d, n) && Named(o, n) {
      NamedMeans(d, n);
      NamedMeans(o, n);
    }
    if n :| n in Names(o) && n in Names(d) {
      NamedMeans(d, n);
      NamedMeans(o, n);
    }
  }

  lemma BesideMeans(d: Domain, o: Domain)
    requires (forall f | f in d.forwards :: ForwardFits(f)) && (forall g | g in o.forwards :: ForwardFits(g))
    ensures Beside(d, o) <==> Compatible(d, o)
  {
    hide Overlap, Has;
    forall f, g | f in d.forwards && g in o.forwards ensures Overlap(f, g) <==> exists port :: Has(f, port) && Has(g, port) {
      SharesMeans(f, g);
    }
    RivalsMeans(d, o);
    hide Rivals;
    if Compatible(d, o) {
      forall f, g, port | f in d.forwards && g in o.forwards && Has(f, port) && Has(g, port)
        ensures f.protocol == g.protocol && f.protocol != Tcp {
        assert !Clash(f, g);
      }
    }
    if Beside(d, o) {
      forall f, g | f in d.forwards && g in o.forwards ensures !Clash(f, g) {}
    }
  }
}
