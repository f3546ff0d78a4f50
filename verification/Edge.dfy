/** The running edge: Apply, the listeners it keeps and how they resolve a host
    (go/tunnel/edge/edge.go, go/tunnel/edge/route.go). */
module EdgeServer {
  import opened Wrappers
  import opened EdgeConf
  import opened EdgeRoutes

  type PortRoutes = map<int, seq<Route>>

  function Get(m: PortRoutes, port: int): seq<Route> { if port in m then m[port] else [] }

  ghost predicate NoneEmpty(m: PortRoutes) { forall port | port in m :: m[port] != [] }

  /** A listener is known by the version it was opened at. */
  datatype Listener = Listener(protocol: Protocol, routes: RouteSet, since: int)

  /** The listener a port with routes gets: the one it had, with the new routes,
      while the protocol is the same. */
  function ListenerFor(listeners: map<int, Listener>, routes: seq<Route>, port: int, version: int): Listener
    requires routes != []
  {
    var protocol := routes[0].fwd.protocol;
    Listener(protocol, RouteSetOf(routes),
             if port in listeners && listeners[port].protocol == protocol then listeners[port].since else version)
  }

  /** Closing the listeners of another protocol first leaves every port the same listener. */
  lemma SameListener(was: map<int, Listener>, left: map<int, Listener>, routes: seq<Route>, port: int, version: int)
    requires routes != []
    requires port in left <==> port in was && was[port].protocol == routes[0].fwd.protocol
    requires port in left ==> left[port] == was[port]
    ensures ListenerFor(left, routes, port, version) == ListenerFor(was, routes, port, version)
  {
    hide RouteSetOf;
  }

  /** The pools of the domain's first n forwards added. */
  function PoolsOfDomain(pools: map<string, Pool>, d: Domain, n: nat, acc: map<string, Pool>): map<string, Pool>
    requires n <= |d.forwards|
  {
    if n == 0 then acc else
      var more := PoolsOfDomain(pools, d, n - 1, acc);
      if d.forwards[n - 1].enabled then more[KeyOf(d, n - 1) := PoolFor(pools, d, n - 1)] else more
  }

  function PoolsOf(pools: map<string, Pool>, ds: seq<Domain>): map<string, Pool> {
    if ds == [] then map[] else
      var d, acc := ds[|ds| - 1], PoolsOf(pools, ds[..|ds| - 1]);
      if Serves(d) then PoolsOfDomain(pools, d, |d.forwards|, acc) else acc
  }

  // ---------------------------------------------------------------------
  // Pools
  // ---------------------------------------------------------------------

  /** The domain's forward i is served. */
  predicate IsServed(ds: seq<Domain>, d: Domain, i: nat) {
    d in ds && Serves(d) && i < |d.forwards| && d.forwards[i].enabled
  }

  ghost predicate HasPool(pools: map<string, Pool>, ds: seq<Domain>, key: string, p: Pool) {
    exists d, i: nat :: IsServed(ds, d, i) && KeyOf(d, i) == key && p == PoolFor(pools, d, i)
  }

  ghost predicate AllServed(pools: map<string, Pool>, ds: seq<Domain>, now: map<string, Pool>) {
    forall key | key in now :: HasPool(pools, ds, key, now[key])
  }

  /** Every key is a served forward's, and every served forward has one. */
  ghost predicate PoolsServe(pools: map<string, Pool>, ds: seq<Domain>, now: map<string, Pool>) {
    && AllServed(pools, ds, now)
    && (forall d, i: nat | IsServed(ds, d, i) :: KeyOf(d, i) in now)
  }

  lemma {:induction false} DomainPools(pools: map<string, Pool>, ds: seq<Domain>, d: Domain, n: nat, acc: map<string, Pool>)
    requires n <= |d.forwards| && d in ds && Serves(d) && AllServed(pools, ds, acc)
    ensures AllServed(pools, ds, PoolsOfDomain(pools, d, n, acc))
    ensures forall key | key in acc :: key in PoolsOfDomain(pools, d, n, acc)
    ensures forall i: nat | i < n && d.forwards[i].enabled :: KeyOf(d, i) in PoolsOfDomain(pools, d, n, acc)
  {
    hide KeyOf, PoolFor, HasPool;
    if n > 0 {
      DomainPools(pools, ds, d, n - 1, acc);
      if d.forwards[n - 1].enabled { OwnPool(pools, ds, d, n - 1); }
    }
  }

  lemma OwnPool(pools: map<string, Pool>, ds: seq<Domain>, d: Domain, i: nat)
    requires IsServed(ds, d, i)
    ensures HasPool(pools, ds, KeyOf(d, i), PoolFor(pools, d, i))
  {
    hide KeyOf, PoolFor;
  }

  lemma MoreDomains(pools: map<string, Pool>, ds: seq<Domain>, d: Domain, key: string, p: Pool)
    requires HasPool(pools, ds, key, p)
    ensures HasPool(pools, ds + [d], key, p)
  {
    hide KeyOf, PoolFor;
    var e, i: nat :| IsServed(ds, e, i) && KeyOf(e, i) == key && p == PoolFor(pools, e, i);
    assert IsServed(ds + [d], e, i);
  }

  lemma {:induction false} PoolsAre(pools: map<string, Pool>, ds: seq<Domain>)
    ensures PoolsServe(pools, ds, PoolsOf(pools, ds))
  {
    hide KeyOf, PoolFor, HasPool;
    if ds != [] {
      var d, less := ds[|ds| - 1], ds[..|ds| - 1];
      assert ds == less + [d];
      PoolsAre(pools, less);
      var acc := PoolsOf(pools, less);
      forall key | key in acc ensures HasPool(pools, ds, key, acc[key]) { MoreDomains(pools, less, d, key, acc[key]); }
      assert AllServed(pools, ds, acc);
      if Serves(d) { DomainPools(pools, ds, d, |d.forwards|, acc); }
      forall e, i: nat | IsServed(ds, e, i) ensures KeyOf(e, i) in PoolsOf(pools, ds) {
        if e in less { assert IsServed(less, e, i); } else { assert e == d; }
      }
    }
  }

  /** Forwards under one key are the same. */
  ghost predicate KeysDetermine(ds: seq<Domain>) {
    forall d, i: nat, e, j: nat | IsServed(ds, d, i) && IsServed(ds, e, j) && KeyOf(d, i) == KeyOf(e, j) ::
      d.forwards[i] == e.forwards[j]
  }

  /** Every route uses the pool stored under its key. */
  ghost predicate RoutesUse(pools: map<string, Pool>, ds: seq<Domain>, now: map<string, Pool>) {
    forall d, i: nat | IsServed(ds, d, i) :: KeyOf(d, i) in now && now[KeyOf(d, i)] == PoolFor(pools, d, i)
  }

  lemma SamePool(pools: map<string, Pool>, d: Domain, i: nat, e: Domain, j: nat)
    requires i < |d.forwards| && j < |e.forwards| && KeyOf(d, i) == KeyOf(e, j)
    ensures PoolFor(pools, d, i) == PoolFor(pools, e, j) <==> d.forwards[i] == e.forwards[j]
  {
    hide KeyOf;
  }

  /** The routes use the stored pools exactly when no two different forwards have one
      key. */
  lemma RoutesUseStoredPoolsIff(pools: map<string, Pool>, ds: seq<Domain>)
    ensures RoutesUse(pools, ds, PoolsOf(pools, ds)) <==> KeysDetermine(ds)
  {
    hide KeyOf, PoolFor, PoolsOf;
    PoolsAre(pools, ds);
    var now := PoolsOf(pools, ds);
    if KeysDetermine(ds) {
      forall d, i: nat | IsServed(ds, d, i) ensures now[KeyOf(d, i)] == PoolFor(pools, d, i) {
        var e, j: nat :| IsServed(ds, e, j) && KeyOf(e, j) == KeyOf(d, i) && now[KeyOf(d, i)] == PoolFor(pools, e, j);
        SamePool(pools, d, i, e, j);
      }
    }
    if RoutesUse(pools, ds, now) {
      forall d, i: nat, e, j: nat | IsServed(ds, d, i) && IsServed(ds, e, j) && KeyOf(d, i) == KeyOf(e, j)
        ensures d.forwards[i] == e.forwards[j]
      {
        SamePool(pools, d, i, e, j);
      }
    }
  }

  lemma PoolsFixed(pools: map<string, Pool>, ds: seq<Domain>, now: map<string, Pool>, other: map<string, Pool>)
    requires PoolsServe(pools, ds, now) && RoutesUse(pools, ds, now)
    requires (forall key | key in other :: exists d, i: nat :: IsServed(ds, d, i) && KeyOf(d, i) == key)
    requires forall d, i: nat | IsServed(ds, d, i) :: KeyOf(d, i) in other && other[KeyOf(d, i)] == PoolFor(pools, d, i)
    ensures now == other
  {
    hide KeyOf, PoolFor;
    forall key ensures key in now <==> key in other {
      if key in now { assert HasPool(pools, ds, key, now[key]); }
    }
    forall key | key in now ensures now[key] == other[key] {
      assert HasPool(pools, ds, key, now[key]);
    }
  }

  /** Then the pools do not depend on the order of the domains, and applying the same
      domains again keeps every pool and what is known about its health. */
  lemma PoolsAreStable(pools: map<string, Pool>, ds: seq<Domain>, es: seq<Domain>)
    requires KeysDetermine(ds) && forall d :: d in ds <==> d in es
    ensures PoolsOf(pools, es) == PoolsOf(pools, ds) && PoolsOf(PoolsOf(pools, ds), es) == PoolsOf(pools, ds)
  {
    hide KeyOf, PoolsOf;
    var now := PoolsOf(pools, ds);
    assert forall d, i: nat :: IsServed(ds, d, i) <==> IsServed(es, d, i);
    assert KeysDetermine(es);
    RoutesUseStoredPoolsIff(pools, ds);
    RoutesUseStoredPoolsIff(pools, es);
    RoutesUseStoredPoolsIff(now, es);
    PoolsAre(pools, ds);
    PoolsAre(pools, es);
    PoolsAre(now, es);
    forall d, i: nat | IsServed(ds, d, i) ensures PoolFor(now, d, i) == PoolFor(pools, d, i) {
      KeptPool(pools, now, d, i);
    }
    SameServing(pools, ds, es, PoolsOf(pools, es));
    SameServing(now, ds, es, PoolsOf(now, es));
    PoolsFixed(pools, ds, now, PoolsOf(pools, es));
    PoolsFixed(pools, ds, now, PoolsOf(now, es));
  }

  lemma KeptPool(pools: map<string, Pool>, now: map<string, Pool>, d: Domain, i: nat)
    requires i < |d.forwards| && KeyOf(d, i) in now && now[KeyOf(d, i)] == PoolFor(pools, d, i)
    ensures PoolFor(now, d, i) == PoolFor(pools, d, i)
  {
    hide KeyOf;
  }

  lemma SameServing(pools: map<string, Pool>, ds: seq<Domain>, es: seq<Domain>, now: map<string, Pool>)
    requires PoolsServe(pools, es, now) && forall d, i: nat :: IsServed(ds, d, i) <==> IsServed(es, d, i)
    ensures forall key | key in now :: exists d, i: nat :: IsServed(ds, d, i) && KeyOf(d, i) == key
  {
    hide KeyOf, PoolFor;
    forall key | key in now ensures exists d, i: nat :: IsServed(ds, d, i) && KeyOf(d, i) == key {
      assert HasPool(pools, es, key, now[key]);
    }
  }

  /** Validation lets two forwards share an id: the first one's pool is not stored, and
      its health is forgotten whenever the domains are applied again. */
  lemma SharedIdForgetsHealth(base: string)
    ensures var f0, f1 := Forward("f", 80, 0, Http, true, true, "x"), Forward("f", 81, 0, Http, true, true, "y");
            var d := Domain("d", "a.com", [], Site, true, [f0, f1], true);
            var pools := map["d/f" := Pool(f0, 5)];
            && ValidateDomain(d, [], base).None?
            && PoolFor(pools, d, 0) == Pool(f0, 5)
            && PoolFor(PoolsOf(pools, [d]), d, 0) == Pool(f0, FreshState)
  {
    var f0, f1 := Forward("f", 80, 0, Http, true, true, "x"), Forward("f", 81, 0, Http, true, true, "y");
    var d := Domain("d", "a.com", [], Site, true, [f0, f1], true);
    var pools := map["d/f" := Pool(f0, 5)];
    assert KeyOf(d, 0) == "d/f" && KeyOf(d, 1) == "d/f";
    assert [d][..0] == [];
    assert PoolsOf(pools, [d][..0]) == map[];
    assert PoolsOf(pools, [d]) == PoolsOfDomain(pools, d, 2, map[]);
    assert PoolsOfDomain(pools, d, 1, map[]) == map["d/f" := PoolFor(pools, d, 0)];
    assert PoolsOf(pools, [d])["d/f"] == Pool(f1, FreshState);
    assert Names(d) == ["a.com"];
  }

  /** The listeners match the routes: they are the ports that have some. */
  ghost predicate Match(now: map<int, Listener>, was: map<int, Listener>, pools: map<string, Pool>, ds: seq<Domain>, version: int) {
    forall port ::
      var routes := RoutesOn(pools, ds, port);
      && (port in now <==> routes != [])
      && (port in now ==> now[port] == ListenerFor(was, routes, port, version))
  }

  /** The order of the stored domains does not show in the listeners. */
  lemma ListenersIgnoreOrder(t: Table, ds: seq<Domain>, es: seq<Domain>, pools: map<string, Pool>,
                             was: map<int, Listener>, a: map<int, Listener>, b: map<int, Listener>, version: int)
    requires TableOk(t) && Lists(ds, t) && Lists(es, t)
    requires Match(a, was, pools, ds, version) && Match(b, was, pools, es, version)
    ensures a == b
  {
    forall port ensures port in a <==> port in b
                ensures port in a ==> a[port] == b[port] {
      var p, q := RoutesOn(pools, ds, port), RoutesOn(pools, es, port);
      forall r ensures r in p <==> r in q { SameRoutes(pools, t, ds, es, port, r); }
      if p != [] { assert p[0] in q; }
      if q != [] { assert q[0] in p; }
      RouteSetIgnoresOrder(pools, t, ds, es, port);
      PortsAreClean(pools, t, ds, port);
    }
  }

  // ---------------------------------------------------------------------
  // Resolving a host
  // ---------------------------------------------------------------------

  datatype RelayTarget = RelayTarget(id: string, ip: string)

  /** What the live tables say: the relay of a tunnel's host, the least-loaded
      relay, and the next one in turn. */
  datatype Live = Live(control: string, ownerOf: string -> Option<RelayTarget>, least: Option<RelayTarget>, next: Option<RelayTarget>)

  datatype Target = ToSite(route: Route) | ToRelay(route: Route, relay: Option<RelayTarget>) | NoTarget

  /** The part of host from its first dot on, "" without one or when it starts with
      one. */
  function FromDot(host: string): string {
    var i := DotIn(host);
    if 0 < i < |host| then host[i..] else ""
  }

  /** The place of the first dot, |host| without one. */
  function DotIn(host: string): (i: nat)
    ensures i <= |host| && '.' !in host[..i] && (i < |host| ==> host[i] == '.')
  {
    if host == "" || host[0] == '.' then 0 else
      var i := 1 + DotIn(host[1..]);
      assert host[..i] == [host[0]] + host[1..][..i - 1];
      i
  }

  function Resolve(rs: RouteSet, live: Live, host: string): Target {
    if host in rs.byName then ToSite(rs.byName[host])
    else if rs.base.Some? && host != "" && host == live.control then ToRelay(rs.base.value, live.least)
    else if rs.base.Some? && host != "" && live.ownerOf(host).Some? then ToRelay(rs.base.value, live.ownerOf(host))
    else if FromDot(host) in rs.wildcards && FromDot(host) != "" then ToSite(rs.wildcards[FromDot(host)])
    else if rs.base.Some? then ToRelay(rs.base.value, live.next)
    else NoTarget
  }

  /** On a consistent table a host goes to a site exactly when one of the port's
      routes has it by name, or, unless a tunnel has it first, by the wildcard of
      its parent; and that route is the only one. */
  lemma ResolvesToItsSite(pools: map<string, Pool>, t: Table, ds: seq<Domain>, port: int, live: Live, host: string, r: Route)
    requires TableOk(t) && Lists(ds, t)
    ensures var routes := RoutesOn(pools, ds, port);
            var byWild := r in routes && FromDot(host) != "" && AnswersWild(r, FromDot(host));
            var tunnel := (exists b :: b in routes && IsBase(b)) && host != "" && (host == live.control || live.ownerOf(host).Some?);
            Resolve(RouteSetOf(routes), live, host) == ToSite(r) <==>
            (r in routes && AnswersExact(r, host)) ||
            (byWild && !tunnel && !(exists q :: q in routes && AnswersExact(q, host)))
  {
    hide RoutesOn, Resolve, RouteSetOf, AnswersExact, AnswersWild, Clean, TableOk, Lists, FromDot, IsBase;
    PortsAreClean(pools, t, ds, port);
    ResolvesOnPort(RoutesOn(pools, ds, port), live, host, r);
  }

  lemma ResolvesOnPort(routes: seq<Route>, live: Live, host: string, r: Route)
    requires Clean(routes)
    ensures var byWild := r in routes && FromDot(host) != "" && AnswersWild(r, FromDot(host));
            var tunnel := (exists b :: b in routes && IsBase(b)) && host != "" && (host == live.control || live.ownerOf(host).Some?);
            Resolve(RouteSetOf(routes), live, host) == ToSite(r) <==>
            (r in routes && AnswersExact(r, host)) ||
            (byWild && !tunnel && !(exists q :: q in routes && AnswersExact(q, host)))
  {
    hide RouteSetOf, AnswersExact, AnswersWild, Clean, FromDot, IsBase;
    RouteSetHolds(routes);
  }

  // ---------------------------------------------------------------------
  // The edge
  // ---------------------------------------------------------------------

  method NewRouteSet(routes: seq<Route>) returns (rs: RouteSet)
    ensures rs == RouteSetOf(routes)
  {
    rs := NoRoutes;
    for i := 0 to |routes|
      invariant rs == RouteSetOf(routes[..i])
    {
      var r := routes[i];
      assert routes[..i + 1][..i] == routes[..i];
      if r.fwd.protocol == Tcp {
        rs := rs.(single := Some(r));
      }
      if IsBase(r) {
        rs := rs.(base := Some(r));
      } else {
        rs := AddNames(rs, r);
      }
    }
    assert routes[..|routes|] == routes;
  }

  method AddNames(rs: RouteSet, r: Route) returns (more: RouteSet)
    ensures more == rs.(byName := rs.byName + Exact(r), wildcards := rs.wildcards + Wild(r))
  {
    hide ExactAmong, WildAmong;
    assert ExactAmong(r, []) == map[] && WildAmong(r, []) == map[] by { NoneAmong(r); }
    var ns, names, wilds := Names(r.domain), rs.byName, rs.wildcards;
    for i := 0 to |ns|
      invariant names == rs.byName + ExactAmong(r, ns[..i]) && wilds == rs.wildcards + WildAmong(r, ns[..i])
    {
      var n := ns[i];
      assert ns[..i + 1] == ns[..i] + [n];
      AmongMore(r, ns[..i], n);
      if n != "" && n[0] == '*' {
        wilds := wilds[n[1..] := r];
      } else {
        names := names[n := r];
      }
    }
    assert ns[..|ns|] == ns;
    more := rs.(byName := names, wildcards := wilds);
  }

  lemma NoneAmong(r: Route)
    ensures ExactAmong(r, []) == map[] && WildAmong(r, []) == map[]
  {
    assert WildsAmong([]) == {};
  }

  /** Some port of the set. */
  method Any(ports: set<int>) returns (port: int)
    requires ports != {}
    ensures port in ports
  {
    assert exists p :: p in ports by {
      assert (forall p :: p !in ports) ==> ports == {};
    }
    port :| port in ports;
  }

  /** Appends the route to every port from lo to hi. */
  method AddPorts(byPort: PortRoutes, r: Route, lo: int, hi: int) returns (more: PortRoutes)
    requires NoneEmpty(byPort)
    ensures NoneEmpty(more)
    ensures forall p :: Get(more, p) == Get(byPort, p) + if lo <= p <= hi then [r] else []
  {
    more := byPort;
    var port := lo;
    while port <= hi
      invariant lo <= port && NoneEmpty(more)
      invariant forall p :: Get(more, p) == Get(byPort, p) + if lo <= p <= hi && p < port then [r] else []
    {
      more := more[port := Get(more, port) + [r]];
      port := port + 1;
    }
  }

  lemma RouteIs(pools: map<string, Pool>, d: Domain, i: nat)
    requires i < |d.forwards|
    ensures RouteOf(pools, d, i) == Route(d, d.forwards[i], PoolFor(pools, d, i))
  {
  }

  lemma NoForwards(pools: map<string, Pool>, d: Domain, p: int, start: seq<Route>)
    ensures start == start + ForwardRoutes(pools, d, 0, p)
  {
  }

  lemma OneMoreForward(pools: map<string, Pool>, d: Domain, i: nat, p: int, start: seq<Route>, before: seq<Route>, after: seq<Route>)
    requires i < |d.forwards| && before == start + ForwardRoutes(pools, d, i, p)
    requires after == before + if d.forwards[i].enabled && ListensOn(d.forwards[i], p) then [RouteOf(pools, d, i)] else []
    ensures after == start + ForwardRoutes(pools, d, i + 1, p)
  {
  }

  class Edge {
    var pools: map<string, Pool>
    var listeners: map<int, Listener>
    var version: int
    var closed: bool

    constructor ()
      ensures pools == map[] && listeners == map[] && !closed
    {
      pools, listeners, version, closed := map[], map[], 0, false;
    }

    /** The domain's routes and pools, added to those of the domains before it. */
    method AddDomain(d: Domain, byPort: PortRoutes, acc: map<string, Pool>) returns (more: PortRoutes, kept: map<string, Pool>)
      requires NoneEmpty(byPort) && Serves(d)
      ensures NoneEmpty(more) && kept == PoolsOfDomain(pools, d, |d.forwards|, acc)
      ensures forall p :: Get(more, p) == Get(byPort, p) + ForwardRoutes(pools, d, |d.forwards|, p)
    {
      hide Get, ForwardRoutes, RouteOf;
      more, kept := byPort, acc;
      forall p ensures Get(more, p) == Get(byPort, p) + ForwardRoutes(pools, d, 0, p) { NoForwards(pools, d, p, Get(byPort, p)); }
      for i := 0 to |d.forwards|
        invariant NoneEmpty(more) && kept == PoolsOfDomain(pools, d, i, acc)
        invariant forall p :: Get(more, p) == Get(byPort, p) + ForwardRoutes(pools, d, i, p)
      {
        var f := d.forwards[i];
        ghost var before := more;
        if f.enabled {
          var key := KeyOf(d, i);
          var pool := if key in pools && pools[key].fwd == f then pools[key] else Pool(f, FreshState);
          kept := kept[key := pool];
          var end := if f.listenPortEnd == 0 then f.listenPort else f.listenPortEnd;
          assert Route(d, f, pool) == RouteOf(pools, d, i) by { RouteIs(pools, d, i); }
          more := AddPorts(more, Route(d, f, pool), f.listenPort, end);
        }
        assert f.enabled ==> forall p :: Get(more, p) == Get(before, p) + if ListensOn(f, p) then [RouteOf(pools, d, i)] else [];
        forall p ensures Get(more, p) == Get(byPort, p) + ForwardRoutes(pools, d, i + 1, p) {
          OneMoreForward(pools, d, i, p, Get(byPort, p), Get(before, p), Get(more, p));
        }
      }
    }

    method Collect(ds: seq<Domain>) returns (byPort: PortRoutes, kept: map<string, Pool>)
      ensures NoneEmpty(byPort) && kept == PoolsOf(pools, ds)
      ensures forall p :: Get(byPort, p) == RoutesOn(pools, ds, p)
    {
      byPort, kept := map[], map[];
      for i := 0 to |ds|
        invariant NoneEmpty(byPort) && kept == PoolsOf(pools, ds[..i])
        invariant forall p :: Get(byPort, p) == RoutesOn(pools, ds[..i], p)
      {
        assert ds[..i + 1][..i] == ds[..i];
        if ds[i].enabled && ds[i].ipLists {
          byPort, kept := AddDomain(ds[i], byPort, kept);
        }
      }
      assert ds[..|ds|] == ds;
    }

    /** Closes the listeners whose port has no routes or another protocol now. */
    method CloseListeners(byPort: PortRoutes)
      requires NoneEmpty(byPort)
      modifies this`listeners
      ensures forall p :: p in listeners <==>
                p in old(listeners) && p in byPort && byPort[p][0].fwd.protocol == old(listeners)[p].protocol
      ensures forall p | p in listeners :: listeners[p] == old(listeners)[p]
    {
      var todo := listeners.Keys;
      while todo != {}
        invariant todo <= old(listeners).Keys
        invariant forall p :: p in listeners <==>
                    p in old(listeners) && (p in todo || (p in byPort && byPort[p][0].fwd.protocol == old(listeners)[p].protocol))
        invariant forall p | p in listeners :: listeners[p] == old(listeners)[p]
        decreases todo
      {
        var port := Any(todo);
        if port !in byPort || byPort[port][0].fwd.protocol != listeners[port].protocol {
          listeners := listeners - {port};
        }
        todo := todo - {port};
      }
    }

    /** Gives every port with routes its listener. */
    method OpenListeners(byPort: PortRoutes, v: int)
      requires NoneEmpty(byPort)
      requires forall p | p in listeners :: p in byPort && listeners[p].protocol == byPort[p][0].fwd.protocol
      modifies this`listeners
      ensures forall p :: p in listeners <==> p in byPort
      ensures forall p | p in listeners :: listeners[p] == ListenerFor(old(listeners), byPort[p], p, v)
    {
      var todo := byPort.Keys;
      while todo != {}
        invariant todo <= byPort.Keys && forall p | p in listeners :: p in byPort
        invariant forall p | p in byPort && p !in todo :: p in listeners && listeners[p] == ListenerFor(old(listeners), byPort[p], p, v)
        invariant forall p | p in todo :: (p in listeners <==> p in old(listeners)) && (p in listeners ==> listeners[p] == old(listeners)[p])
        decreases todo
      {
        var port := Any(todo);
        var rs := NewRouteSet(byPort[port]);
        if port !in listeners {
          listeners := listeners[port := Listener(byPort[port][0].fwd.protocol, NoRoutes, v)];
        }
        listeners := listeners[port := listeners[port].(routes := rs)];
        todo := todo - {port};
      }
    }

    /** Makes the listeners and pools match the domains. */
    method Apply(ds: seq<Domain>, v: int)
      modifies this
      ensures closed == old(closed)
      ensures closed ==> pools == old(pools) && listeners == old(listeners) && version == old(version)
      ensures !closed ==>
                version == v && pools == PoolsOf(old(pools), ds) && Match(listeners, old(listeners), old(pools), ds, v)
    {
      hide RoutesOn, ListenerFor, PoolsOf;
      if closed {
        return;
      }
      var byPort, kept := Collect(ds);
      CloseListeners(byPort);
      ghost var left := listeners;
      OpenListeners(byPort, v);
      forall port
        ensures port in listeners <==> RoutesOn(pools, ds, port) != []
        ensures port in listeners ==> listeners[port] == ListenerFor(old(listeners), RoutesOn(pools, ds, port), port, v)
      {
        assert Get(byPort, port) == RoutesOn(pools, ds, port);
        if port in byPort {
          SameListener(old(listeners), left, byPort[port], port, v);
        }
      }
      pools, version := kept, v;
    }
  }
}
