/** Who serves a host: the relay's own resolution (go/tunnel/relay/registry.go,
    go/tunnel/relay/router.go) and the cached copy of the live tables
    (go/tun/common/liveview.go). */
module LiveViews {
  import opened Wrappers
  import opened Names
  import opened Records
  import opened ClaimRules

  // ---------------------------------------------------------------------
  // The closest owner
  // ---------------------------------------------------------------------

  /** The first of the keys in the index. */
  function FirstIn<T>(index: map<string, T>, keys: seq<string>): Option<string> {
    if keys == [] then None
    else if keys[0] in index then Some(keys[0])
    else FirstIn(index, keys[1..])
  }

  /** The key that answers for host: host itself, else the first wildcard. */
  function KeyFor<T>(index: map<string, T>, host: string): Option<string> {
    if host in index then Some(host) else FirstIn(index, WildcardsOf(host))
  }

  function Lookup<T>(index: map<string, T>, host: string): Option<T> {
    match KeyFor(index, host)
    case None => None
    case Some(k) => if k in index then Some(index[k]) else None
  }

  lemma {:induction false} FirstInIs<T>(index: map<string, T>, keys: seq<string>)
    ensures FirstIn(index, keys).None? <==> forall k | k in keys :: k !in index
    ensures FirstIn(index, keys).Some? ==>
              exists i :: 0 <= i < |keys| && keys[i] == FirstIn(index, keys).value && keys[i] in index &&
                          forall j | 0 <= j < i :: keys[j] !in index
  {
    if keys != [] && keys[0] !in index {
      FirstInIs(index, keys[1..]);
      assert forall k :: k in keys <==> k == keys[0] || k in keys[1..];
      if FirstIn(index, keys).Some? {
        var i :| 0 <= i < |keys| - 1 && keys[1..][i] == FirstIn(index, keys).value && keys[1..][i] in index &&
                 forall j | 0 <= j < i :: keys[1..][j] !in index;
        forall j | 0 <= j < i + 1 ensures keys[j] !in index {
          if j > 0 { assert keys[j] == keys[1..][j - 1]; }
        }
        assert keys[i + 1] == FirstIn(index, keys).value;
      }
    }
  }

  /** k answers for host: it is host, or host has no entry and k is a covering
      wildcard longer than every other covering one in the index. */
  ghost predicate Closest<T>(index: map<string, T>, host: string, k: string) {
    && k in index
    && if host in index then k == host else
         Covers(k, host) && forall w | w in index && Covers(w, host) && w != k :: |w| < |k|
  }

  /** The exact owner wins, else the owner of the covering wildcard with the most
      labels; none answers exactly when there is no owner of either kind. */
  lemma ClosestOwnerWins<T>(index: map<string, T>, host: string)
    ensures KeyFor(index, host).Some? ==> Closest(index, host, KeyFor(index, host).value)
    ensures KeyFor(index, host).None? <==> host !in index && forall w | w in index :: !Covers(w, host)
  {
    var ws := WildcardsOf(host);
    FirstInIs(index, ws);
    forall w ensures w in ws <==> Covers(w, host) { WildcardsAreCovering(host, w); }
    if host !in index && FirstIn(index, ws).Some? {
      var k := FirstIn(index, ws).value;
      var i :| 0 <= i < |ws| && ws[i] == k && ws[i] in index && forall j | 0 <= j < i :: ws[j] !in index;
      forall w | w in index && Covers(w, host) && w != k ensures |w| < |k| {
        var j :| 0 <= j < |ws| && ws[j] == w;
        assert i < j;
        WildcardsShrink(host, i, j);
      }
    }
  }

  /** There is only one closest owner. */
  lemma OneClosest<T>(index: map<string, T>, host: string, k: string)
    requires Closest(index, host, k)
    ensures KeyFor(index, host) == Some(k)
  {
    ClosestOwnerWins(index, host);
  }

  /** A wildcard never answers for the domain it is made from, nor for a host of
      two labels. */
  lemma NeverItsOwnParent(host: string, w: string)
    requires Covers(w, host)
    ensures w != "*." + host && |Split(host)| >= 3
  {
    WildcardsAreCovering(host, w);
    assert ("*." + host)[2..] == host;
  }

  // ---------------------------------------------------------------------
  // The relay's resolution and the live view's
  // ---------------------------------------------------------------------

  /** resolveHost: a tunnel's host name goes by the name, any other by the domains. */
  function RelayResolve<T>(rules: Rules, names: map<string, T>, domains: map<string, T>, host: string): Option<T> {
    var name := rules.TunnelName(host);
    if name != "" then (if name in names then Some(names[name]) else None) else Lookup(domains, host)
  }

  /** The live view has one map for both. */
  function LiveResolve<T>(rules: Rules, byName: map<string, T>, host: string): Option<T> {
    var name := rules.TunnelName(host);
    Lookup(byName, if name != "" then name else host)
  }

  /** Only the keys and values matter for a lookup, and only those of the host and
      its wildcards. */
  lemma {:induction false} SameFirst<T>(a: map<string, T>, b: map<string, T>, keys: seq<string>)
    requires forall k | k in keys :: (k in a <==> k in b)
    ensures FirstIn(a, keys) == FirstIn(b, keys)
  {
    if keys != [] { SameFirst(a, b, keys[1..]); }
  }

  lemma SameLookup<T>(a: map<string, T>, b: map<string, T>, host: string)
    requires forall k | k == host || k in WildcardsOf(host) :: (k in a <==> k in b) && (k in a ==> a[k] == b[k])
    ensures Lookup(a, host) == Lookup(b, host)
  {
    SameFirst(a, b, WildcardsOf(host));
    FirstInIs(a, WildcardsOf(host));
  }

  lemma LabelHasNoDot(s: string)
    requires IsDnsLabel(s)
    ensures NoDots(s)
  {
  }

  /** With names that are labels and domains of several labels, the one map answers
      as the two do for every host of several labels. */
  lemma LiveViewAgrees<T>(rules: Rules, names: map<string, T>, domains: map<string, T>, host: string)
    requires (forall n | n in names :: IsDnsLabel(n)) && (forall d | d in domains :: !NoDots(d)) && !NoDots(host)
    ensures LiveResolve(rules, names + domains, host) == RelayResolve(rules, names, domains, host)
  {
    var name := rules.TunnelName(host);
    forall n | n in names ensures NoDots(n) { LabelHasNoDot(n); }
    if name != "" {
      TunnelNameRoundTrip(rules, name, host);
      LabelHasNoDot(name);
      JoinSplit(name);
      LabelsHaveNoDots(name);
      JoinDots(Split(name));
      assert WildcardsOf(name) == [];
    } else {
      forall k | k == host || k in WildcardsOf(host) ensures !NoDots(k) {
        if k in WildcardsOf(host) {
          WildcardsAreCovering(host, k);
          assert k[1] == '.';
        }
      }
      SameLookup(names + domains, domains, host);
    }
  }

  // ---------------------------------------------------------------------
  // The copy of the live tables
  // ---------------------------------------------------------------------

  /** The rows the view keeps. */
  predicate Routable(t: Tunnel) { t.name != "" && !t.simulated && t.state == Active }

  /** The row is found under its name and its domains; a later row wins. */
  function ByName(rows: seq<Tunnel>): map<string, Tunnel> {
    if rows == [] then map[] else
      var m, t := ByName(rows[..|rows| - 1]), rows[|rows| - 1];
      if Routable(t) then WithKeys(m[t.name := t], t.domains, t) else m
  }

  function WithKeys(m: map<string, Tunnel>, keys: seq<string>, t: Tunnel): map<string, Tunnel> {
    m + map k | k in keys :: t
  }

  lemma NoKeys(m: map<string, Tunnel>, t: Tunnel)
    ensures WithKeys(m, [], t) == m
  {
  }

  lemma OneMoreKey(m: map<string, Tunnel>, keys: seq<string>, k: string, t: Tunnel)
    ensures WithKeys(m, keys + [k], t) == WithKeys(m, keys, t)[k := t]
  {
  }

  function ByPort(rows: seq<Tunnel>): map<int, Tunnel> {
    if rows == [] then map[] else
      var m, t := ByPort(rows[..|rows| - 1]), rows[|rows| - 1];
      if Routable(t) && t.publicPort != 0 then m[t.publicPort := t] else m
  }

  function ByRelay(rows: seq<Relay>): map<string, Relay> {
    if rows == [] then map[] else
      var m, r := ByRelay(rows[..|rows| - 1]), rows[|rows| - 1];
      if r.relayId != "" && !r.simulated then m[r.relayId := r] else m
  }

  /** No two routable rows share a name or a domain. */
  ghost predicate Unique(rows: seq<Tunnel>) {
    forall i, j, k | 0 <= i < |rows| && 0 <= j < |rows| && Answers(rows[i], k) && Answers(rows[j], k) :: rows[i] == rows[j]
  }

  predicate Answers(t: Tunnel, k: string) { Routable(t) && (k == t.name || k in t.domains) }

  /** The built map finds exactly the rows that answer, whatever their order. */
  lemma {:induction false} BuiltFinds(rows: seq<Tunnel>, k: string)
    requires Unique(rows)
    ensures k in ByName(rows) <==> exists i :: 0 <= i < |rows| && Answers(rows[i], k)
    ensures forall i | 0 <= i < |rows| && Answers(rows[i], k) :: k in ByName(rows) && ByName(rows)[k] == rows[i]
  {
    if rows != [] {
      var less := rows[..|rows| - 1];
      assert Unique(less) by {
        forall i, j, q | 0 <= i < |less| && 0 <= j < |less| && Answers(less[i], q) && Answers(less[j], q) ensures less[i] == less[j] {
          assert rows[i] == less[i] && rows[j] == less[j];
        }
      }
      BuiltFinds(less, k);
      assert forall i | 0 <= i < |less| :: rows[i] == less[i];
    }
  }

  /** No two routable rows share a public port. */
  ghost predicate PortsUnique(rows: seq<Tunnel>) {
    forall i, j, p | 0 <= i < |rows| && 0 <= j < |rows| && HoldsPort(rows[i], p) && HoldsPort(rows[j], p) :: rows[i] == rows[j]
  }

  predicate HoldsPort(t: Tunnel, p: int) { Routable(t) && t.publicPort == p && p != 0 }

  /** So does the port map: it finds exactly the row that holds the port. */
  lemma {:induction false} PortFinds(rows: seq<Tunnel>, p: int)
    requires PortsUnique(rows)
    ensures p in ByPort(rows) <==> exists i :: 0 <= i < |rows| && HoldsPort(rows[i], p)
    ensures forall i | 0 <= i < |rows| && HoldsPort(rows[i], p) :: p in ByPort(rows) && ByPort(rows)[p] == rows[i]
  {
    if rows != [] {
      var less := rows[..|rows| - 1];
      assert forall i | 0 <= i < |less| :: rows[i] == less[i];
      PortFinds(less, p);
    }
  }

  /** The relay's maps of the same tunnels. */
  ghost predicate IndexesOf(rows: seq<Tunnel>, names: map<string, Tunnel>, domains: map<string, Tunnel>) {
    && (forall i | 0 <= i < |rows| && Routable(rows[i]) ::
          && rows[i].name in names && names[rows[i].name] == rows[i]
          && forall d | d in rows[i].domains :: d in domains && domains[d] == rows[i])
    && (forall n | n in names :: Routable(names[n]) && names[n] in rows && names[n].name == n && IsDnsLabel(n))
    && (forall d | d in domains :: Routable(domains[d]) && domains[d] in rows && d in domains[d].domains && !NoDots(d))
  }

  lemma IndexedIsUnique(rows: seq<Tunnel>, names: map<string, Tunnel>, domains: map<string, Tunnel>)
    requires IndexesOf(rows, names, domains)
    ensures Unique(rows)
  {
    forall i, j, k | 0 <= i < |rows| && 0 <= j < |rows| && Answers(rows[i], k) && Answers(rows[j], k) ensures rows[i] == rows[j] {
      if k == rows[i].name { LabelHasNoDot(k); }
      if k == rows[j].name { LabelHasNoDot(k); }
    }
  }

  lemma BuiltIsBoth(rows: seq<Tunnel>, names: map<string, Tunnel>, domains: map<string, Tunnel>)
    requires IndexesOf(rows, names, domains)
    ensures ByName(rows) == names + domains
  {
    hide ByName, Routable;
    IndexedIsUnique(rows, names, domains);
    var both := names + domains;
    forall k ensures k in ByName(rows) <==> k in both {
      BuiltFinds(rows, k);
      if k in both {
        var i :| 0 <= i < |rows| && rows[i] == both[k];
        assert Answers(rows[i], k);
      }
    }
    forall k | k in both ensures ByName(rows)[k] == both[k] {
      BuiltFinds(rows, k);
      var i :| 0 <= i < |rows| && rows[i] == both[k];
      assert Answers(rows[i], k);
    }
  }

  /** A view built from the table, in any order, gives the relay's answer for every
      host of several labels. */
  lemma BuiltViewAgrees(rules: Rules, rows: seq<Tunnel>, names: map<string, Tunnel>, domains: map<string, Tunnel>, host: string)
    requires IndexesOf(rows, names, domains) && !NoDots(host)
    ensures LiveResolve(rules, ByName(rows), host) == RelayResolve(rules, names, domains, host)
  {
    hide LiveResolve, RelayResolve, ByName;
    BuiltIsBoth(rows, names, domains);
    LiveViewAgrees(rules, names, domains, host);
  }

  // ---------------------------------------------------------------------
  // Parked owners
  // ---------------------------------------------------------------------

  function ActiveOnly(m: map<string, Tunnel>): map<string, Tunnel> {
    map k | k in m && m[k].state == Active :: m[k]
  }

  /** The tunnel that serves, None for a parked owner. */
  function Serving(t: Option<Tunnel>): Option<Tunnel> {
    if t.Some? && t.value.state != Active then None else t
  }

  /** The closest owner of host is parked, and a farther one is not. */
  ghost predicate Shadowed(domains: map<string, Tunnel>, host: string) {
    && KeyFor(domains, host).Some? && KeyFor(domains, host).value in domains
    && domains[KeyFor(domains, host).value].state != Active
    && exists w :: w in domains && Covers(w, host) && domains[w].state == Active
  }

  lemma ActiveLookup(domains: map<string, Tunnel>, host: string)
    ensures Lookup(ActiveOnly(domains), host) == Serving(Lookup(domains, host)) <==> !Shadowed(domains, host)
  {
    var active := ActiveOnly(domains);
    ClosestOwnerWins(domains, host);
    ClosestOwnerWins(active, host);
    var k := KeyFor(domains, host);
    if k.Some? && k.value in active {
      assert Closest(active, host, k.value);
      OneClosest(active, host, k.value);
    }
  }

  /** The live view knows only the connected tunnels, where a relay lets a parked
      owner keep its domain: they serve a host alike unless its closest owner is
      parked while a farther one is connected. */
  lemma LiveServesAlike(rules: Rules, names: map<string, Tunnel>, domains: map<string, Tunnel>, host: string)
    requires (forall n | n in names :: IsDnsLabel(n)) && (forall d | d in domains :: !NoDots(d)) && !NoDots(host)
    ensures LiveResolve(rules, ActiveOnly(names) + ActiveOnly(domains), host) == Serving(RelayResolve(rules, names, domains, host))
            <==> rules.TunnelName(host) != "" || !Shadowed(domains, host)
  {
    LiveViewAgrees(rules, ActiveOnly(names), ActiveOnly(domains), host);
    ActiveLookup(domains, host);
  }

  /** Such a host exists. */
  lemma ParkedOwnerIsPassedOver(rules: Rules, t: Tunnel)
    requires rules.baseDomain == "base.net"
    ensures var domains := map["*.b.com" := t.(state := Active), "x.b.com" := t.(state := Grace)];
            RelayResolve(rules, map[], domains, "x.b.com") == Some(t.(state := Grace)) &&
            LiveResolve(rules, ActiveOnly(domains), "x.b.com") == Some(t.(state := Active))
  {
    hide KeyFor, WildcardsOf, IsDnsLabel, Covers;
    var domains := map["*.b.com" := t.(state := Active), "x.b.com" := t.(state := Grace)];
    var host, w := "x.b.com", "*.b.com";
    assert rules.TunnelName(host) == "";
    OneClosest(domains, host, host);
    ExampleCovers();
    OneClosest(ActiveOnly(domains), host, w);
  }

  lemma ExampleCovers()
    ensures Covers("*.b.com", "x.b.com")
  {
    assert "*.b.com"[2..] == "b.com" && "x.b.com"[1..] == ".b.com" && "b.com"[1] == '.';
  }

  // ---------------------------------------------------------------------
  // The view
  // ---------------------------------------------------------------------

  datatype Tables = Tables(tunnels: seq<Tunnel>, relays: seq<Relay>)

  /** t with its relay, when the relay can serve. */
  function Owner(relays: map<string, Relay>, t: Option<Tunnel>): Option<(Tunnel, Relay)> {
    if t.Some? && t.value.relayId in relays && relays[t.value.relayId].state != Down && relays[t.value.relayId].podIp != "" then
      Some((t.value, relays[t.value.relayId]))
    else None
  }

  class LiveView {
    /** Active tunnels by name and custom domain, by public port, and the relays. */
    var byName: map<string, Tunnel>
    var byPort: map<int, Tunnel>
    var relays: map<string, Relay>

    /** Holds a copy of the tables. */
    ghost predicate CopyOf(tables: Tables)
      reads this
    {
      byName == ByName(tables.tunnels) && byPort == ByPort(tables.tunnels) && relays == ByRelay(tables.relays)
    }

    constructor ()
      ensures CopyOf(Tables([], []))
    {
      byName, byPort, relays := map[], map[], map[];
    }

    /** Swaps in the tables just read; a failed read keeps the old copy. */
    method Fetch(read: Option<Tables>)
      modifies this
      ensures read.Some? ==> CopyOf(read.value)
      ensures read.None? ==> byName == old(byName) && byPort == old(byPort) && relays == old(relays)
    {
      if read.None? {
        return;
      }
      var names, ports := IndexTunnels(read.value.tunnels);
      var rows, rs := read.value.relays, map[];
      for i := 0 to |rows|
        invariant rs == ByRelay(rows[..i])
      {
        if rows[i].relayId != "" && !rows[i].simulated {
          rs := rs[rows[i].relayId := rows[i]];
        }
        assert rows[..i + 1][..i] == rows[..i];
      }
      assert rows[..|rows|] == rows;
      byName, byPort, relays := names, ports, rs;
    }

    static method IndexTunnels(rows: seq<Tunnel>) returns (names: map<string, Tunnel>, ports: map<int, Tunnel>)
      ensures names == ByName(rows) && ports == ByPort(rows)
    {
      names, ports := map[], map[];
      for i := 0 to |rows|
        invariant names == ByName(rows[..i]) && ports == ByPort(rows[..i])
      {
        var t := rows[i];
        assert rows[..i + 1][..i] == rows[..i];
        if t.name != "" && !t.simulated && t.state == Active {
          names := AddRow(names, t);
          if t.publicPort != 0 {
            ports := ports[t.publicPort := t];
          }
        }
      }
      assert rows[..|rows|] == rows;
    }

    static method AddRow(names: map<string, Tunnel>, t: Tunnel) returns (more: map<string, Tunnel>)
      ensures more == WithKeys(names[t.name := t], t.domains, t)
    {
      hide WithKeys;
      more := names[t.name := t];
      NoKeys(more, t);
      for j := 0 to |t.domains|
        invariant more == WithKeys(names[t.name := t], t.domains[..j], t)
      {
        more := more[t.domains[j] := t];
        assert t.domains[..j + 1] == t.domains[..j] + [t.domains[j]];
        OneMoreKey(names[t.name := t], t.domains[..j], t.domains[j], t);
      }
      assert t.domains[..|t.domains|] == t.domains;
    }

    /** The tunnel and relay for a host in the current copy. */
    method Find(rules: Rules, host: string) returns (r: Option<(Tunnel, Relay)>)
      ensures r == Owner(relays, LiveResolve(rules, byName, host))
    {
      var key := host;
      var name := rules.TunnelName(host);
      if name != "" {
        key := name;
      }
      var t := if key in byName then Some(byName[key]) else None;
      var ws := WildcardsOf(key);
      for i := 0 to |ws|
        invariant t.Some? ==> t == Lookup(byName, key)
        invariant t.None? ==> key !in byName && FirstIn(byName, ws) == FirstIn(byName, ws[i..])
      {
        if t.Some? {
          break;
        }
        t := if ws[i] in byName then Some(byName[ws[i]]) else None;
      }
      r := Owner(relays, t);
    }

    /** The active tunnel serving host and its relay. A miss, or an owner equal to
        stale, looks again in a copy of the tables as they are by then. */
    method Tunnel(rules: Rules, host: string, stale: string, reread: Option<Tables>) returns (r: Option<(Tunnel, Relay)>)
      modifies this
      ensures var first := Owner(old(relays), LiveResolve(rules, old(byName), host));
              if first.Some? && (stale == "" || first.value.0.relayId != stale) then
                r == first && byName == old(byName) && relays == old(relays)
              else if reread.None? then r == first
              else r == Owner(ByRelay(reread.value.relays), LiveResolve(rules, ByName(reread.value.tunnels), host))
    {
      r := Find(rules, host);
      if r.None? || (stale != "" && r.value.0.relayId == stale) {
        Fetch(reread);
        r := Find(rules, host);
      }
    }

    /** The active tunnel holding a public port and its relay; a miss looks again. */
    method TunnelByPort(port: int, reread: Option<Tables>) returns (r: Option<(Tunnel, Relay)>)
      modifies this
      ensures var first := Owner(old(relays), if port in old(byPort) then Some(old(byPort)[port]) else None);
              if first.Some? then r == first && byPort == old(byPort) && relays == old(relays)
              else if reread.None? then r == None
              else var ports := ByPort(reread.value.tunnels);
                   r == Owner(ByRelay(reread.value.relays), if port in ports then Some(ports[port]) else None)
    {
      r := Owner(relays, if port in byPort then Some(byPort[port]) else None);
      if r.None? {
        Fetch(reread);
        r := Owner(relays, if port in byPort then Some(byPort[port]) else None);
      }
    }
  }
}
