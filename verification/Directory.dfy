/** The registry's directory: after a claim it reserves every port the claim
    assigned, so that the port is the name's for good (go/tun/live/directory.go). */
module PortDirectory {
  import opened Wrappers
  import opened Records
  import opened ClaimRules
  import opened Claims
  import opened ClaimTraces
  import opened ClaimTheorems
  import opened PortTheorems

  /** No name and no port is reserved twice. */
  ghost predicate Unique(rs: seq<Reservation>) {
    forall i, j | 0 <= i < j < |rs| ::
      rs[i].name != rs[j].name && (rs[i].publicPort != 0 ==> rs[i].publicPort != rs[j].publicPort)
  }

  predicate NameListed(rs: seq<Reservation>, name: string) { exists i | 0 <= i < |rs| :: rs[i].name == name }

  predicate PortListedElsewhere(rs: seq<Reservation>, port: int, name: string) {
    exists i | 0 <= i < |rs| :: rs[i].name != name && rs[i].publicPort == port
  }

  predicate InRange(rules: Rules, port: int) { port == 0 || rules.portMin <= port <= rules.portMax }

  /** The management backend stores a new reservation only if its name is a valid
      one, and name and port are free. */
  predicate MayPost(rules: Rules, rs: seq<Reservation>, r: Reservation) {
    && rules.NameAllowed(r.name) && InRange(rules, r.publicPort) && !NameListed(rs, r.name)
    && (r.publicPort != 0 ==> !PortListedElsewhere(rs, r.publicPort, r.name))
  }

  predicate MayPut(rules: Rules, rs: seq<Reservation>, r: Reservation) {
    && rules.NameAllowed(r.name) && InRange(rules, r.publicPort)
    && (r.publicPort != 0 ==> !PortListedElsewhere(rs, r.publicPort, r.name))
  }

  /** The reservation of r's name replaced by r. */
  function Put(rs: seq<Reservation>, r: Reservation): (out: seq<Reservation>)
    ensures |out| == |rs|
    ensures forall i | 0 <= i < |rs| :: out[i] == if rs[i].name == r.name then r else rs[i]
  {
    if rs == [] then [] else Put(rs[..|rs| - 1], r) + [if rs[|rs| - 1].name == r.name then r else rs[|rs| - 1]]
  }

  /** One assigned tunnel: existing is the cached copy, up says whether the
      backend answers. */
  function ReserveOne(rules: Rules, existing: seq<Reservation>, rs: seq<Reservation>, t: Tunnel, up: bool): seq<Reservation> {
    var r := Reservation(t.name, t.tokenId, t.publicPort);
    var cur := ReservationOf(existing, t.name);
    if t.publicPort == 0 then rs
    else if cur.None? then
      if up && MayPost(rules, rs, r) then rs + [r] else rs
    else if cur.value.tokenId == t.tokenId && cur.value.publicPort != t.publicPort then
      if up && MayPut(rules, rs, r) then Put(rs, r) else rs
    else rs
  }

  function ReserveEach(rules: Rules, existing: seq<Reservation>, rs: seq<Reservation>, ts: seq<Tunnel>, up: seq<bool>): seq<Reservation>
    requires |up| == |ts|
  {
    if ts == [] then rs else
      ReserveOne(rules, existing, ReserveEach(rules, existing, rs, ts[..|ts| - 1], up[..|ts| - 1]), ts[|ts| - 1], up[|ts| - 1])
  }

  /** What a request was answered with: a claim's tunnels, an announcement's with
      the names in conflict, or an error. */
  datatype Answer = Granted(tunnels: seq<Tunnel>) | Announced(tunnels: seq<Tunnel>, conflicts: seq<string>) | Refused

  predicate Settled(t: Tunnel, conflicts: seq<string>) { !t.simulated && t.name !in conflicts }

  function Keep(ts: seq<Tunnel>, conflicts: seq<string>): seq<Tunnel> {
    if ts == [] then [] else
      Keep(ts[..|ts| - 1], conflicts) + if Settled(ts[|ts| - 1], conflicts) then [ts[|ts| - 1]] else []
  }

  /** The tunnels whose ports are to be reserved. */
  function Assigned(a: Answer): seq<Tunnel> {
    match a
    case Granted(ts) => ts
    case Announced(ts, conflicts) => Keep(ts, conflicts)
    case Refused => []
  }

  /** A tunnel without a token is the request's. */
  function Owned(t: Tunnel, tokenId: string): Tunnel { if t.tokenId == "" then t.(tokenId := tokenId) else t }

  function OwnedAll(ts: seq<Tunnel>, tokenId: string): (r: seq<Tunnel>)
    ensures |r| == |ts|
  {
    if ts == [] then [] else OwnedAll(ts[..|ts| - 1], tokenId) + [Owned(ts[|ts| - 1], tokenId)]
  }

  class Directory {
    /** The backend's reservations, and the copy claims are checked against. */
    var stored: seq<Reservation>
    var cached: seq<Reservation>

    constructor (rs: seq<Reservation>)
      ensures stored == rs && cached == rs
    {
      stored, cached := rs, rs;
    }

    method Existing() returns (existing: map<string, Reservation>)
      ensures forall n: string :: (n in existing <==> ReservationOf(cached, n).Some?)
      ensures forall n: string | n in existing :: ReservationOf(cached, n) == Some(existing[n])
    {
      existing := map[];
      for i := 0 to |cached|
        invariant forall n: string :: (n in existing <==> ReservationOf(cached[..i], n).Some?)
        invariant forall n: string | n in existing :: ReservationOf(cached[..i], n) == Some(existing[n])
      {
        assert cached[..i + 1][..i] == cached[..i];
        existing := existing[cached[i].name := cached[i]];
      }
      assert cached[..|cached|] == cached;
    }

    static method Select(a: Answer) returns (ts: seq<Tunnel>)
      ensures ts == Assigned(a)
    {
      if a.Refused? {
        return [];
      }
      if a.Granted? {
        return a.tunnels;
      }
      ts := [];
      for i := 0 to |a.tunnels|
        invariant ts == Keep(a.tunnels[..i], a.conflicts)
      {
        assert a.tunnels[..i + 1][..i] == a.tunnels[..i];
        if !a.tunnels[i].simulated && a.tunnels[i].name !in a.conflicts {
          ts := ts + [a.tunnels[i]];
        }
      }
      assert a.tunnels[..|a.tunnels|] == a.tunnels;
    }

    /** Reserves the assigned ports; up[i] is false when the i-th write does not
        reach the backend, refreshed when the reload afterwards does. */
    method ReserveAssigned(rules: Rules, tokenId: string, a: Answer, up: seq<bool>, refreshed: bool)
      requires |up| == |Assigned(a)|
      modifies this
      ensures stored == ReserveEach(rules, old(cached), old(stored), OwnedAll(Assigned(a), tokenId), up)
      ensures cached == old(cached) || cached == stored
      ensures refreshed && stored != old(stored) ==> cached == stored
    {
      hide ReserveOne, ReservationOf, Owned;
      var ts := Select(a);
      var existing := Existing();
      var changed := false;
      for i := 0 to |ts|
        invariant stored == ReserveEach(rules, old(cached), old(stored), OwnedAll(ts[..i], tokenId), up[..i]) && cached == old(cached)
        invariant !changed ==> stored == old(stored)
      {
        OwnedNext(rules, cached, old(stored), ts, tokenId, up, i);
        var wrote := ReserveTunnel(rules, tokenId, ts[i], existing, up[i]);
        changed := changed || wrote;
      }
      assert ts[..|ts|] == ts && up[..|ts|] == up;
      if changed && refreshed {
        cached := stored;
      }
    }

    /** Posts a missing reservation, or moves the token's own to the assigned port. */
    method ReserveTunnel(rules: Rules, tokenId: string, t: Tunnel, existing: map<string, Reservation>, up: bool) returns (wrote: bool)
      requires forall n: string :: (n in existing <==> ReservationOf(cached, n).Some?)
      requires forall n: string | n in existing :: ReservationOf(cached, n) == Some(existing[n])
      modifies this`stored
      ensures stored == ReserveOne(rules, cached, old(stored), Owned(t, tokenId), up)
      ensures !wrote ==> stored == old(stored)
    {
      hide ReservationOf, MayPost, MayPut;
      wrote := false;
      if t.publicPort == 0 {
        return;
      }
      var r := Reservation(t.name, if t.tokenId == "" then tokenId else t.tokenId, t.publicPort);
      if t.name !in existing {
        wrote := up && MayPost(rules, stored, r);
        if wrote {
          stored := stored + [r];
        }
      } else if existing[t.name].tokenId == r.tokenId && existing[t.name].publicPort != t.publicPort {
        wrote := up && MayPut(rules, stored, r);
        if wrote {
          stored := Put(stored, r);
        }
      }
    }
  }

  lemma OwnedNext(rules: Rules, existing: seq<Reservation>, rs: seq<Reservation>, ts: seq<Tunnel>, tokenId: string, up: seq<bool>, i: nat)
    requires i < |ts| == |up|
    ensures ReserveEach(rules, existing, rs, OwnedAll(ts[..i + 1], tokenId), up[..i + 1]) ==
            ReserveOne(rules, existing, ReserveEach(rules, existing, rs, OwnedAll(ts[..i], tokenId), up[..i]), Owned(ts[i], tokenId), up[i])
  {
    hide ReserveOne, Owned;
    assert ts[..i + 1][..i] == ts[..i] && up[..i + 1][..i] == up[..i];
    assert OwnedAll(ts[..i + 1], tokenId)[..i] == OwnedAll(ts[..i], tokenId);
  }

  /** Whatever fails on the way, no name or port is ever reserved twice. */
  lemma {:induction false} ReserveKeepsUnique(rules: Rules, existing: seq<Reservation>, rs: seq<Reservation>, ts: seq<Tunnel>, up: seq<bool>)
    requires |up| == |ts| && Unique(rs)
    ensures Unique(ReserveEach(rules, existing, rs, ts, up))
  {
    if ts != [] {
      ReserveKeepsUnique(rules, existing, rs, ts[..|ts| - 1], up[..|ts| - 1]);
      var st, t := ReserveEach(rules, existing, rs, ts[..|ts| - 1], up[..|ts| - 1]), ts[|ts| - 1];
      OneKeepsUnique(rules, existing, st, t, up[|ts| - 1]);
    }
  }

  lemma OneKeepsUnique(rules: Rules, existing: seq<Reservation>, rs: seq<Reservation>, t: Tunnel, up: bool)
    requires Unique(rs)
    ensures Unique(ReserveOne(rules, existing, rs, t, up))
  {
    var r, out := Reservation(t.name, t.tokenId, t.publicPort), ReserveOne(rules, existing, rs, t, up);
    if out == rs + [r] {
    } else if out == Put(rs, r) {
    }
  }

  // ---------------------------------------------------------------------
  // After a claim
  // ---------------------------------------------------------------------

  /** The tunnels can be reserved one after the other: distinct names and ports,
      none of them reserved for somebody else. */
  ghost predicate Reservable(rules: Rules, rs: seq<Reservation>, ts: seq<Tunnel>) {
    && (forall i | 0 <= i < |ts| ::
          && rules.NameAllowed(ts[i].name) && InRange(rules, ts[i].publicPort)
          && (ReservationOf(rs, ts[i].name).Some? ==> ReservationOf(rs, ts[i].name).value.tokenId == ts[i].tokenId)
          && (ts[i].publicPort != 0 ==> !ReservedByOther(rs, ts[i].publicPort, ts[i].name)))
    && (forall i, j | 0 <= i < j < |ts| ::
          ts[i].name != ts[j].name && (ts[j].publicPort != 0 ==> ts[i].publicPort != ts[j].publicPort))
  }

  /** What each name has reserved once the writes that got through are done: its
      tunnel's port, or what it had. */
  function Expected(rs: seq<Reservation>, ts: seq<Tunnel>, up: seq<bool>, name: string): Option<Reservation>
    requires |up| == |ts|
  {
    if ts == [] then ReservationOf(rs, name)
    else
      var n := |ts| - 1;
      if ts[n].name == name && ts[n].publicPort != 0 && up[n] then Some(Reservation(ts[n].name, ts[n].tokenId, ts[n].publicPort))
      else Expected(rs, ts[..n], up[..n], name)
  }

  lemma {:induction false} ListedReservation(rs: seq<Reservation>, i: nat)
    requires Unique(rs) && i < |rs|
    ensures ReservationOf(rs, rs[i].name) == Some(rs[i])
  {
    if i < |rs| - 1 { ListedReservation(rs[..|rs| - 1], i); }
  }

  lemma {:induction false} PostReservation(rs: seq<Reservation>, r: Reservation, name: string)
    ensures ReservationOf(rs + [r], name) == if r.name == name then Some(r) else ReservationOf(rs, name)
  {
    assert (rs + [r])[..|rs|] == rs;
  }

  lemma {:induction false} PutReservation(rs: seq<Reservation>, r: Reservation, name: string)
    ensures ReservationOf(Put(rs, r), name) ==
            if r.name == name && ReservationOf(rs, name).Some? then Some(r) else ReservationOf(rs, name)
  {
    if rs != [] { PutReservation(rs[..|rs| - 1], r, name); assert Put(rs, r)[..|rs| - 1] == Put(rs[..|rs| - 1], r); }
  }

  lemma {:induction false} UnlistedName(rs: seq<Reservation>, name: string)
    requires ReservationOf(rs, name).None?
    ensures !NameListed(rs, name)
  {
    if rs != [] { UnlistedName(rs[..|rs| - 1], name); }
  }

  /** What a name is expected to have is its own tunnel's, or untouched. */
  lemma {:induction false} ExpectedSource(rs: seq<Reservation>, ts: seq<Tunnel>, up: seq<bool>, name: string)
    requires |up| == |ts|
    ensures Expected(rs, ts, up, name) == ReservationOf(rs, name) ||
            exists k | 0 <= k < |ts| ::
              ts[k].name == name && ts[k].publicPort != 0 &&
              Expected(rs, ts, up, name) == Some(Reservation(ts[k].name, ts[k].tokenId, ts[k].publicPort))
  {
    if ts != [] {
      var n := |ts| - 1;
      ExpectedSource(rs, ts[..n], up[..n], name);
      if Expected(rs, ts, up, name) == Expected(rs, ts[..n], up[..n], name) != ReservationOf(rs, name) {
        var k :| 0 <= k < n && ts[..n][k].name == name && ts[..n][k].publicPort != 0 &&
          Expected(rs, ts, up, name) == Some(Reservation(ts[..n][k].name, ts[..n][k].tokenId, ts[..n][k].publicPort));
        assert ts[k] == ts[..n][k];
      } else if Expected(rs, ts, up, name) != ReservationOf(rs, name) {
        assert ts[n].name == name;
      }
    }
  }

  /** The next tunnel's port and, when it is new, its name are still free. */
  lemma NoClash(rules: Rules, rs: seq<Reservation>, ts: seq<Tunnel>, up: seq<bool>, k: nat, st: seq<Reservation>)
    requires Reservable(rules, rs, ts) && k < |ts| && |up| == k && ts[k].publicPort != 0 && Unique(st)
    requires forall n: string :: ReservationOf(st, n) == Expected(rs, ts[..k], up, n)
    ensures !PortListedElsewhere(st, ts[k].publicPort, ts[k].name)
    ensures Expected(rs, ts[..k], up, ts[k].name) == ReservationOf(rs, ts[k].name)
  {
    var t := ts[k];
    forall i | 0 <= i < |st| ensures st[i].name == t.name || st[i].publicPort != t.publicPort {
      ListedReservation(st, i);
      ExpectedSource(rs, ts[..k], up, st[i].name);
      if ReservationOf(rs, st[i].name) == Some(st[i]) { ReservationIsListed(rs, st[i].name); }
    }
    ExpectedSource(rs, ts[..k], up, t.name);
  }

  lemma ReserveNext(rules: Rules, rs: seq<Reservation>, ts: seq<Tunnel>, up: seq<bool>, k: nat, st: seq<Reservation>, name: string)
    requires Reservable(rules, rs, ts) && k < |ts| && |up| == k + 1 && Unique(st)
    requires forall n: string :: ReservationOf(st, n) == Expected(rs, ts[..k], up[..k], n)
    ensures ReservationOf(ReserveOne(rules, rs, st, ts[k], up[k]), name) == Expected(rs, ts[..k + 1], up, name)
  {
    var t := ts[k];
    var r := Reservation(t.name, t.tokenId, t.publicPort);
    assert ts[..k + 1][..k] == ts[..k];
    if t.publicPort != 0 {
      NoClash(rules, rs, ts, up[..k], k, st);
      PostReservation(st, r, name);
      PutReservation(st, r, name);
      if ReservationOf(rs, t.name).None? {
        UnlistedName(st, t.name);
      } else {
        ReservationIsListed(rs, t.name);
      }
    }
  }

  lemma {:induction false} ReserveAll(rules: Rules, rs: seq<Reservation>, ts: seq<Tunnel>, k: nat, up: seq<bool>)
    requires Reservable(rules, rs, ts) && Unique(rs) && k <= |ts| && |up| == k
    ensures var st := ReserveEach(rules, rs, rs, ts[..k], up);
            Unique(st) && forall n: string :: ReservationOf(st, n) == Expected(rs, ts[..k], up, n)
  {
    ReserveKeepsUnique(rules, rs, rs, ts[..k], up);
    if k > 0 {
      ReserveAll(rules, rs, ts, k - 1, up[..k - 1]);
      assert ts[..k][..k - 1] == ts[..k - 1];
      var st := ReserveEach(rules, rs, rs, ts[..k - 1], up[..k - 1]);
      forall n: string ensures ReservationOf(ReserveOne(rules, rs, st, ts[k - 1], up[k - 1]), n) == Expected(rs, ts[..k], up, n) {
        ReserveNext(rules, rs, ts, up, k - 1, st, n);
      }
    }
  }

  lemma {:induction false} ExpectedAt(rs: seq<Reservation>, ts: seq<Tunnel>, up: seq<bool>, i: nat)
    requires |up| == |ts| && i < |ts| && up[i] && ts[i].publicPort != 0 && forall j | i < j < |ts| :: ts[i].name != ts[j].name
    ensures Expected(rs, ts, up, ts[i].name) == Some(Reservation(ts[i].name, ts[i].tokenId, ts[i].publicPort))
  {
    if i < |ts| - 1 { ExpectedAt(rs, ts[..|ts| - 1], up[..|ts| - 1], i); }
  }

  lemma {:induction false} NotReservedByOther(rs: seq<Reservation>, r: Reservation)
    requires Unique(rs) && r in rs && r.publicPort != 0
    ensures !ReservedByOther(rs, r.publicPort, r.name)
  {
  }

  /** A record the rules grant has an allowed name and a port in range. */
  lemma GrantedInRange(env: Env, s: State, req: Request, recs: seq<Tunnel>, spec: Tunnel)
    requires Check(env, s, req, recs, spec).Ok?
    requires env.rules.portMin <= LowPort(env, req) && HighPort(env, req) <= env.rules.portMax
    ensures var rec := Check(env, s, req, recs, spec).value;
            env.rules.NameAllowed(rec.name) && InRange(env.rules, rec.publicPort)
  {
    hide PortFree, FirstFree, HolderRefusal, ReservationOf;
    PortChoice(env, s, req, recs, spec);
  }

  /** A granted claim's tunnels can all be reserved. */
  lemma ClaimIsReservable(env: Env, s: State, req: Request)
    requires ClaimResult(env, s, req).Ok?
    requires env.rules.portMin <= LowPort(env, req) && HighPort(env, req) <= env.rules.portMax
    ensures Reservable(env.rules, env.reservations, ClaimResult(env, s, req).value)
  {
    hide Check, ReservationOf, Unclaimed, MayReplace;
    var recs := ClaimResult(env, s, req).value;
    ClaimableRecords(env, s, req);
    forall i | 0 <= i < |recs|
      ensures env.rules.NameAllowed(recs[i].name) && InRange(env.rules, recs[i].publicPort)
    {
      StageEach(env, s, req, req.tunnels, i);
      GrantedInRange(env, s, req, recs[..i], req.tunnels[i]);
    }
    forall i, j | 0 <= i < j < |recs|
      ensures recs[i].name != recs[j].name && (recs[j].publicPort != 0 ==> recs[i].publicPort != recs[j].publicPort)
    {
      ClaimableApart(env, s, req, recs, i, j);
    }
    forall i | 0 <= i < |recs| ensures Grantable(env, s, req, recs[..i], req.tunnels[i], recs[i]) {}
  }

  /** Each port a claim assigned whose write got through is reserved for its name
      and token, whichever other writes failed. */
  lemma {:induction false} AssignedPortsAreReserved(env: Env, s: State, req: Request, up: seq<bool>, i: nat, later: Env)
    requires ClaimResult(env, s, req).Ok? && Unique(env.reservations)
    requires env.rules.portMin <= LowPort(env, req) && HighPort(env, req) <= env.rules.portMax
    requires |up| == |ClaimResult(env, s, req).value| && i < |up| && up[i]
    requires later.rules == env.rules
    requires later.reservations == ReserveEach(env.rules, env.reservations, env.reservations, ClaimResult(env, s, req).value, up)
    requires ClaimResult(env, s, req).value[i].publicPort != 0
    ensures var t := ClaimResult(env, s, req).value[i]; Reserved(later, Reservation(t.name, t.tokenId, t.publicPort))
    ensures Unique(later.reservations)
  {
    hide ClaimResult;
    var recs := ClaimResult(env, s, req).value;
    ClaimIsReservable(env, s, req);
    ReserveAll(env.rules, env.reservations, recs, |recs|, up);
    assert recs[..|recs|] == recs;
    ExpectedAt(env.reservations, recs, up, i);
    ReservationIsListed(later.reservations, recs[i].name);
    NotReservedByOther(later.reservations, Reservation(recs[i].name, recs[i].tokenId, recs[i].publicPort));
  }
}
