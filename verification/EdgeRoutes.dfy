/** The edge's listeners and routes (go/tunnel/edge/edge.go, go/tunnel/edge/route.go). */
module EdgeRoutes {
  import opened Wrappers
  import opened EdgeConf

  /** A forward's backends; state stands for what is known about their health. */
  datatype Pool = Pool(fwd: Forward, state: int)

  const FreshState := 0

  /** One domain's port forward on one listener. */
  datatype Route = Route(domain: Domain, fwd: Forward, pool: Pool)

  /** A decimal number, as it appears in a forward's key. */
  function Decimal(n: nat): string {
    if n < 10 then ["0123456789"[n]] else Decimal(n / 10) + ["0123456789"[n % 10]]
  }

  function KeyOf(d: Domain, i: nat): string
    requires i < |d.forwards|
  {
    d.id + "/" + if d.forwards[i].id != "" then d.forwards[i].id else "#" + Decimal(i)
  }

  /** The pool a forward gets: the one it had while the forward is unchanged. */
  function PoolFor(pools: map<string, Pool>, d: Domain, i: nat): Pool
    requires i < |d.forwards|
  {
    var key := KeyOf(d, i);
    if key in pools && pools[key].fwd == d.forwards[i] then pools[key] else Pool(d.forwards[i], FreshState)
  }

  function RouteOf(pools: map<string, Pool>, d: Domain, i: nat): Route
    requires i < |d.forwards|
  {
    Route(d, d.forwards[i], PoolFor(pools, d, i))
  }

  predicate Serves(d: Domain) { d.enabled && d.ipLists }

  /** The routes of the domain's first n forwards on the port. */
  function ForwardRoutes(pools: map<string, Pool>, d: Domain, n: nat, port: int): seq<Route>
    requires n <= |d.forwards|
  {
    if n == 0 then [] else
      ForwardRoutes(pools, d, n - 1, port) +
      if d.forwards[n - 1].enabled && ListensOn(d.forwards[n - 1], port) then [RouteOf(pools, d, n - 1)] else []
  }

  /** The routes on the port, in the order of the domains. */
  function RoutesOn(pools: map<string, Pool>, ds: seq<Domain>, port: int): seq<Route> {
    if ds == [] then [] else
      var d := ds[|ds| - 1];
      RoutesOn(pools, ds[..|ds| - 1], port) + if Serves(d) then ForwardRoutes(pools, d, |d.forwards|, port) else []
  }

  // ---------------------------------------------------------------------
  // What is on a port
  // ---------------------------------------------------------------------

  /** The domain's forward i is on the port. */
  predicate IsOn(d: Domain, i: nat, port: int) {
    i < |d.forwards| && Serves(d) && d.forwards[i].enabled && ListensOn(d.forwards[i], port)
  }

  lemma {:induction false} ForwardRoutesAre(pools: map<string, Pool>, d: Domain, n: nat, port: int, r: Route)
    requires n <= |d.forwards| && Serves(d)
    ensures r in ForwardRoutes(pools, d, n, port) <==> exists i: nat :: i < n && IsOn(d, i, port) && r == RouteOf(pools, d, i)
  {
    if n > 0 { ForwardRoutesAre(pools, d, n - 1, port, r); }
  }

  ghost predicate IsRouteOn(pools: map<string, Pool>, d: Domain, port: int, r: Route) {
    exists i: nat :: IsOn(d, i, port) && r == RouteOf(pools, d, i)
  }

  lemma {:induction false} RoutesAre(pools: map<string, Pool>, ds: seq<Domain>, port: int, r: Route)
    ensures r in RoutesOn(pools, ds, port) <==> exists d :: d in ds && IsRouteOn(pools, d, port, r)
  {
    if ds != [] {
      var d, less := ds[|ds| - 1], ds[..|ds| - 1];
      RoutesAre(pools, less, port, r);
      if Serves(d) { ForwardRoutesAre(pools, d, |d.forwards|, port, r); }
      assert forall o :: o in ds <==> o == d || o in less;
      assert r in RoutesOn(pools, ds, port) <==> r in RoutesOn(pools, less, port) || IsRouteOn(pools, d, port, r);
    }
  }

  predicate IsBase(r: Route) { r.domain.kind == TunnelBase }

  /** The routes of a port can be told apart: they have one protocol, and no two
      share a name, are both the tunnel base's, or are both TCP. */
  ghost predicate Clean(routes: seq<Route>) {
    forall a, b | a in routes && b in routes ::
      && a.fwd.protocol == b.fwd.protocol
      && ((a.fwd.protocol == Tcp || (IsBase(a) && IsBase(b)) || (exists n :: n in Names(a.domain) && n in Names(b.domain))) ==> a == b)
  }

  /** Of one domain there is one route, of two domains their forwards share the port. */
  lemma RoutePair(pools: map<string, Pool>, t: Table, ds: seq<Domain>, port: int, a: Route, b: Route)
    requires TableOk(t) && Lists(ds, t) && a in RoutesOn(pools, ds, port) && b in RoutesOn(pools, ds, port)
    ensures if a.domain == b.domain then a == b else Compatible(a.domain, b.domain) && Overlap(a.fwd, b.fwd)
    ensures a.fwd in a.domain.forwards && b.fwd in b.domain.forwards
  {
    RoutesAre(pools, ds, port, a);
    RoutesAre(pools, ds, port, b);
    var d :| d in ds && IsRouteOn(pools, d, port, a);
    var e :| e in ds && IsRouteOn(pools, e, port, b);
    var i: nat :| IsOn(d, i, port) && a == RouteOf(pools, d, i);
    var j: nat :| IsOn(e, j, port) && b == RouteOf(pools, e, j);
    assert Overlap(a.fwd, b.fwd);
    if d == e {
      assert DomainOk(d);
      assert i == j;
    }
  }

  /** On every port of a consistent table the routes are clean. */
  lemma PortsAreClean(pools: map<string, Pool>, t: Table, ds: seq<Domain>, port: int)
    requires TableOk(t) && Lists(ds, t)
    ensures Clean(RoutesOn(pools, ds, port))
  {
    var routes := RoutesOn(pools, ds, port);
    forall a, b | a in routes && b in routes
      ensures a.fwd.protocol == b.fwd.protocol
      ensures (a.fwd.protocol == Tcp || (IsBase(a) && IsBase(b)) || (exists n :: n in Names(a.domain) && n in Names(b.domain))) ==> a == b
    {
      RoutePair(pools, t, ds, port, a, b);
      if a.domain != b.domain { assert !Clash(a.fwd, b.fwd); }
    }
  }

  /** Two orders of the same table give the same routes. */
  lemma SameRoutes(pools: map<string, Pool>, t: Table, ds: seq<Domain>, es: seq<Domain>, port: int, r: Route)
    requires Lists(ds, t) && Lists(es, t)
    ensures r in RoutesOn(pools, ds, port) <==> r in RoutesOn(pools, es, port)
  {
    RoutesAre(pools, ds, port, r);
    RoutesAre(pools, es, port, r);
    assert forall d :: d in ds <==> d in es;
  }

  // ---------------------------------------------------------------------
  // Route sets
  // ---------------------------------------------------------------------

  /** Everything served on one port. */
  datatype RouteSet = RouteSet(
    byName: map<string, Route>, wildcards: map<string, Route>, base: Option<Route>, single: Option<Route>)

  const NoRoutes := RouteSet(map[], map[], None, None)

  predicate IsWild(n: string) { n != "" && n[0] == '*' }

  function Exact(r: Route): map<string, Route> { ExactAmong(r, Names(r.domain)) }

  function ExactAmong(r: Route, ns: seq<string>): map<string, Route> {
    map n | n in ns && !IsWild(n) :: r
  }

  function Wild(r: Route): map<string, Route> { WildAmong(r, Names(r.domain)) }

  function WildAmong(r: Route, ns: seq<string>): map<string, Route> {
    map w | w in WildsAmong(ns) :: r
  }

  function Wilds(d: Domain): set<string> { WildsAmong(Names(d)) }

  /** "*.example.com" is kept as ".example.com". */
  function WildsAmong(ns: seq<string>): set<string> { set n | n in ns && IsWild(n) :: n[1..] }

  lemma AmongMore(r: Route, ns: seq<string>, n: string)
    ensures ExactAmong(r, ns + [n]) == if IsWild(n) then ExactAmong(r, ns) else ExactAmong(r, ns)[n := r]
    ensures WildAmong(r, ns + [n]) == if IsWild(n) then WildAmong(r, ns)[n[1..] := r] else WildAmong(r, ns)
  {
    assert WildsAmong(ns + [n]) == WildsAmong(ns) + if IsWild(n) then {n[1..]} else {};
  }

  function Add(rs: RouteSet, r: Route): RouteSet {
    var t := if r.fwd.protocol == Tcp then rs.(single := Some(r)) else rs;
    if IsBase(r) then t.(base := Some(r)) else t.(byName := t.byName + Exact(r), wildcards := t.wildcards + Wild(r))
  }

  function RouteSetOf(routes: seq<Route>): RouteSet {
    if routes == [] then NoRoutes else Add(RouteSetOf(routes[..|routes| - 1]), routes[|routes| - 1])
  }

  predicate AnswersExact(r: Route, n: string) { !IsBase(r) && n in Names(r.domain) && !IsWild(n) }

  predicate AnswersWild(r: Route, n: string) { !IsBase(r) && n in Wilds(r.domain) }

  /** The map finds exactly the routes that answer. */
  ghost predicate Finds(m: map<string, Route>, routes: seq<Route>, answers: (Route, string) -> bool) {
    && (forall n :: n in m <==> exists r :: r in routes && answers(r, n))
    && (forall r, n | r in routes && answers(r, n) :: n in m && m[n] == r)
  }

  /** What a route set holds, said without an order. */
  ghost predicate Holds(rs: RouteSet, routes: seq<Route>) {
    && Finds(rs.byName, routes, AnswersExact) && Finds(rs.wildcards, routes, AnswersWild)
    && (rs.base.Some? ==> rs.base.value in routes && IsBase(rs.base.value))
    && (forall r | r in routes && IsBase(r) :: rs.base == Some(r))
    && (rs.single.Some? ==> rs.single.value in routes && rs.single.value.fwd.protocol == Tcp)
    && (forall r | r in routes && r.fwd.protocol == Tcp :: rs.single == Some(r))
  }

  lemma WildSame(r: Route, q: Route, n: string)
    requires n in Wilds(r.domain) && n in Wilds(q.domain)
    ensures exists m :: m in Names(r.domain) && m in Names(q.domain)
  {
    var m :| m in Names(r.domain) && IsWild(m) && m[1..] == n;
    var k :| k in Names(q.domain) && IsWild(k) && k[1..] == n;
    assert m == "*" + n && k == "*" + n;
  }

  /** A clean port's route set is fixed by its routes. */
  lemma {:induction false} RouteSetHolds(routes: seq<Route>)
    requires Clean(routes)
    ensures Holds(RouteSetOf(routes), routes)
  {
    if routes != [] {
      var less, r := routes[..|routes| - 1], routes[|routes| - 1];
      assert forall q :: q in routes <==> q == r || q in less;
      RouteSetHolds(less);
      AddHolds(RouteSetOf(less), less, r, routes);
    }
  }

  lemma AddHolds(rs: RouteSet, less: seq<Route>, r: Route, routes: seq<Route>)
    requires Holds(rs, less) && Clean(routes) && forall q :: q in routes <==> q == r || q in less
    ensures Holds(Add(rs, r), routes)
  {
    hide Finds, Names;
    forall q, n | q in less && AnswersExact(q, n) && AnswersExact(r, n) ensures q == r {
      assert n in Names(q.domain) && n in Names(r.domain);
    }
    forall q, n | q in less && AnswersWild(q, n) && AnswersWild(r, n) ensures q == r { WildSame(q, r, n); }
    if IsBase(r) {
      FindsNoMore(rs.byName, less, r, routes, AnswersExact);
      FindsNoMore(rs.wildcards, less, r, routes, AnswersWild);
    } else {
      FindsMore(rs.byName, less, r, routes, AnswersExact, Exact(r));
      FindsMore(rs.wildcards, less, r, routes, AnswersWild, Wild(r));
    }
  }

  lemma FindsMore(m: map<string, Route>, less: seq<Route>, r: Route, routes: seq<Route>, answers: (Route, string) -> bool, add: map<string, Route>)
    requires Finds(m, less, answers) && forall q :: q in routes <==> q == r || q in less
    requires forall n :: n in add <==> answers(r, n)
    requires forall n | n in add :: add[n] == r
    requires forall q, n | q in less && answers(q, n) && answers(r, n) :: q == r
    ensures Finds(m + add, routes, answers)
  {
  }

  lemma FindsNoMore(m: map<string, Route>, less: seq<Route>, r: Route, routes: seq<Route>, answers: (Route, string) -> bool)
    requires Finds(m, less, answers) && forall q :: q in routes <==> q == r || q in less
    requires forall n :: !answers(r, n)
    ensures Finds(m, routes, answers)
  {
  }

  lemma HoldsOne(a: RouteSet, b: RouteSet, routes: seq<Route>, others: seq<Route>)
    requires Holds(a, routes) && Holds(b, others) && forall r :: r in routes <==> r in others
    ensures a == b
  {
    assert a.byName == b.byName;
    assert a.wildcards == b.wildcards;
  }

  /** The route set of a port does not depend on the order of the stored domains. */
  lemma RouteSetIgnoresOrder(pools: map<string, Pool>, t: Table, ds: seq<Domain>, es: seq<Domain>, port: int)
    requires TableOk(t) && Lists(ds, t) && Lists(es, t)
    ensures RouteSetOf(RoutesOn(pools, ds, port)) == RouteSetOf(RoutesOn(pools, es, port))
  {
    var a, b := RoutesOn(pools, ds, port), RoutesOn(pools, es, port);
    PortsAreClean(pools, t, ds, port);
    PortsAreClean(pools, t, es, port);
    forall r ensures r in a <==> r in b { SameRoutes(pools, t, ds, es, port, r); }
    RouteSetHolds(a);
    RouteSetHolds(b);
    HoldsOne(RouteSetOf(a), RouteSetOf(b), a, b);
  }
}
