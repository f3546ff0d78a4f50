/** Which tunnel and relay the live view answers with, said of the rows it was read from
    (go/tun/common/liveview.go). */
module LiveOutcomes {
  import opened Wrappers
  import opened Names
  import opened Records
  import opened ClaimRules
  import opened LiveViews

  /** A connected tunnel that is not a simulation. */
  predicate Counts(t: Tunnel) { t.name != "" && !t.simulated && t.state == Active }

  /** The row has the key as its name or one of its domains. */
  predicate Has(t: Tunnel, key: string) { Counts(t) && (key == t.name || key in t.domains) }

  ghost predicate NoneShare(rows: seq<Tunnel>) {
    forall i, j, k | 0 <= i < |rows| && 0 <= j < |rows| && Has(rows[i], k) && Has(rows[j], k) :: rows[i] == rows[j]
  }

  /** The key a host is looked up by: the tunnel's name under the base domain, else the
      host. */
  ghost predicate LookedUpBy(rules: Rules, host: string, key: string) {
    || (IsDnsLabel(key) && host == key + "." + rules.baseDomain)
    || (key == host && forall name :: IsDnsLabel(name) ==> host != name + "." + rules.baseDomain)
  }

  /** The row has the key, or no row has it and the row has the longest wildcard that
      covers it. */
  ghost predicate Nearest(rows: seq<Tunnel>, key: string, t: Tunnel) {
    || Has(t, key)
    || (&& (forall u | u in rows :: !Has(u, key))
        && exists w :: Has(t, w) && Covers(w, key) && forall u, v | u in rows && Has(u, v) && Covers(v, key) :: |v| <= |w|)
  }

  /** The last row of the relay that is not a simulation. */
  predicate LastRow(rs: seq<Relay>, i: int, id: string) {
    && 0 <= i < |rs| && rs[i].relayId == id && id != "" && !rs[i].simulated
    && forall j | i < j < |rs| :: rs[j].relayId == id ==> rs[j].simulated
  }

  /** The relay can take connections. */
  ghost predicate Reachable(rs: seq<Relay>, id: string, r: Relay) {
    (exists i :: LastRow(rs, i, id) && rs[i] == r) && r.state != Down && r.podIp != ""
  }

  lemma HasMeans(t: Tunnel, key: string)
    ensures Has(t, key) <==> Answers(t, key)
  {
  }

  lemma KeyMeans(rules: Rules, host: string, key: string)
    ensures LookedUpBy(rules, host, key) <==> key == if rules.TunnelName(host) != "" then rules.TunnelName(host) else host
  {
    hide IsDnsLabel;
    var name := rules.TunnelName(host);
    EmptyIsNoLabel();
    if name != "" {
      TunnelNameRoundTrip(rules, name, host);
      if IsDnsLabel(key) && key != "" { TunnelNameRoundTrip(rules, key, host); }
    } else {
      forall n | IsDnsLabel(n) ensures host != n + "." + rules.baseDomain { TunnelNameRoundTrip(rules, n, host); }
    }
  }

  lemma EmptyIsNoLabel()
    ensures !IsDnsLabel("")
  {
  }

  lemma {:induction false} RelayRows(rs: seq<Relay>, id: string)
    ensures id in ByRelay(rs) <==> exists i :: LastRow(rs, i, id)
    ensures forall i | LastRow(rs, i, id) :: id in ByRelay(rs) && ByRelay(rs)[id] == rs[i]
  {
    if rs != [] {
      var init, r := rs[..|rs| - 1], rs[|rs| - 1];
      RelayRows(init, id);
      var own := r.relayId == id && id != "" && !r.simulated;
      forall i ensures LastRow(rs, i, id) <==> if own then i == |rs| - 1 else LastRow(init, i, id) {}
      if own {
        assert LastRow(rs, |rs| - 1, id);
      } else if id in ByRelay(init) {
        var i :| LastRow(init, i, id);
        assert LastRow(rs, i, id);
      }
    }
  }

  lemma OwnerMeans(rs: seq<Relay>, t: Tunnel, r: Relay)
    ensures Owner(ByRelay(rs), Some(t)) == Some((t, r)) <==> Reachable(rs, t.relayId, r)
  {
    hide ByRelay;
    RelayRows(rs, t.relayId);
  }

  /** The map finds a row by the nearest of its keys. */
  lemma FindsNearest(rows: seq<Tunnel>, key: string, t: Tunnel)
    requires NoneShare(rows)
    ensures Lookup(ByName(rows), key) == Some(t) <==> t in rows && Nearest(rows, key, t)
  {
    hide ByName, Covers, Has, Answers;
    var m := ByName(rows);
    forall i, k | 0 <= i < |rows| ensures Has(rows[i], k) <==> Answers(rows[i], k) { HasMeans(rows[i], k); }
    assert Unique(rows);
    forall k ensures k in m <==> exists u :: u in rows && Has(u, k)
             ensures forall u | u in rows && Has(u, k) :: k in m && m[k] == u
             ensures k in m ==> m[k] in rows && Has(m[k], k) {
      Indexed(rows, k);
    }
    ClosestOwnerWins(m, key);
    if Lookup(m, key) == Some(t) {
      var k := KeyFor(m, key).value;
      assert Closest(m, key, k);
      if key !in m {
        assert Has(t, k) && Covers(k, key);
        forall u, v | u in rows && Has(u, v) && Covers(v, key) ensures |v| <= |k| { assert v in m; }
      }
    }
    if t in rows && Nearest(rows, key, t) {
      if key !in m {
        var w :| Has(t, w) && Covers(w, key) && forall u, v | u in rows && Has(u, v) && Covers(v, key) :: |v| <= |w|;
        LongestIsClosest(m, key, w);
      }
    }
  }

  lemma Indexed(rows: seq<Tunnel>, k: string)
    requires Unique(rows)
    ensures k in ByName(rows) <==> exists u :: u in rows && Has(u, k)
    ensures forall u | u in rows && Has(u, k) :: k in ByName(rows) && ByName(rows)[k] == u
    ensures k in ByName(rows) ==> ByName(rows)[k] in rows && Has(ByName(rows)[k], k)
  {
    hide ByName;
    BuiltFinds(rows, k);
    if k in ByName(rows) {
      var i :| 0 <= i < |rows| && Answers(rows[i], k);
      assert rows[i] in rows && Has(rows[i], k);
    }
  }

  lemma LongestIsClosest(m: map<string, Tunnel>, key: string, w: string)
    requires w in m && key !in m && Covers(w, key) && forall v | v in m && Covers(v, key) :: |v| <= |w|
    ensures KeyFor(m, key) == Some(w)
  {
    forall v | v in m && Covers(v, key) && v != w ensures |v| < |w| { if |v| == |w| { SameLength(key, v, w); } }
    OneClosest(m, key, w);
  }

  /** Two wildcards of one length that cover the host are one. */
  lemma SameLength(key: string, v: string, w: string)
    requires Covers(v, key) && Covers(w, key) && |v| == |w|
    ensures v == w
  {
    var a, b := "." + v[2..], "." + w[2..];
    assert key[|key| - |a|..] == a && key[|key| - |b|..] == b;
    assert v == "*" + a && w == "*" + b;
  }

  /** The view answers with a tunnel and a relay exactly when the tunnel's row is the
      nearest for the host and its relay can take connections. */
  lemma LiveAnswersExactly(rules: Rules, rows: seq<Tunnel>, rs: seq<Relay>, host: string, t: Tunnel, r: Relay)
    requires NoneShare(rows)
    ensures Owner(ByRelay(rs), LiveResolve(rules, ByName(rows), host)) == Some((t, r)) <==>
            t in rows && (exists key :: LookedUpBy(rules, host, key) && Nearest(rows, key, t)) && Reachable(rs, t.relayId, r)
  {
    hide ByName, ByRelay, LookedUpBy, Nearest, Reachable, Lookup, NoneShare;
    var key := if rules.TunnelName(host) != "" then rules.TunnelName(host) else host;
    forall k ensures LookedUpBy(rules, host, k) <==> k == key { KeyMeans(rules, host, k); }
    FindsNearest(rows, key, t);
    OwnerMeans(rs, t, r);
    var found := Lookup(ByName(rows), key);
    if found.Some? && found.value != t { OwnerIsItsOwn(ByRelay(rs), found.value); }
  }

  lemma OwnerIsItsOwn(relays: map<string, Relay>, t: Tunnel)
    ensures Owner(relays, Some(t)).Some? ==> Owner(relays, Some(t)).value.0 == t
  {
  }

  /** By port, exactly when the connected tunnel has the port. */
  lemma PortAnswersExactly(rows: seq<Tunnel>, rs: seq<Relay>, port: int, t: Tunnel, r: Relay)
    requires forall i, j | 0 <= i < |rows| && 0 <= j < |rows| && Counts(rows[i]) && Counts(rows[j]) &&
                           rows[i].publicPort == rows[j].publicPort != 0 :: rows[i] == rows[j]
    ensures Owner(ByRelay(rs), if port in ByPort(rows) then Some(ByPort(rows)[port]) else None) == Some((t, r)) <==>
            t in rows && Counts(t) && t.publicPort == port && port != 0 && Reachable(rs, t.relayId, r)
  {
    hide ByPort, ByRelay, Reachable;
    PortFinds(rows, port);
    OwnerMeans(rs, t, r);
    if port in ByPort(rows) && ByPort(rows)[port] != t { OwnerIsItsOwn(ByRelay(rs), ByPort(rows)[port]); }
  }
}
