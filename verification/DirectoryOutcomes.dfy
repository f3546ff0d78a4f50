/** Which ports the directory reserves for a request's answer, and what one write does
    to the stored reservations, said of the tunnels and the reservations
    (go/tun/live/directory.go). */
module DirectoryOutcomes {
  import opened Wrappers
  import opened Records
  import opened ClaimRules
  import opened Claims
  import opened GrantTheorems
  import opened PortDirectory

  /** The tunnel as u says, its token the request's when u has none. */
  predicate IsOwned(u: Tunnel, tokenId: string, t: Tunnel) {
    t == u.(tokenId := t.tokenId) && (if u.tokenId == "" then t.tokenId == tokenId else t.tokenId == u.tokenId)
  }

  /** A tunnel the claim was granted, or one announced without conflict that is not a
      simulation. */
  ghost predicate Due(a: Answer, tokenId: string, t: Tunnel) {
    !a.Refused? && exists k | 0 <= k < |a.tunnels| ::
      IsOwned(a.tunnels[k], tokenId, t) && (a.Announced? ==> !a.tunnels[k].simulated && a.tunnels[k].name !in a.conflicts)
  }

  lemma {:induction false} Kept(ts: seq<Tunnel>, conflicts: seq<string>, t: Tunnel)
    ensures t in Keep(ts, conflicts) <==> t in ts && !t.simulated && t.name !in conflicts
  {
    if ts != [] {
      Kept(ts[..|ts| - 1], conflicts, t);
      assert t in ts <==> t in ts[..|ts| - 1] || t == ts[|ts| - 1];
    }
  }

  lemma {:induction false} OwnedAre(ts: seq<Tunnel>, tokenId: string, t: Tunnel)
    ensures t in OwnedAll(ts, tokenId) <==> exists u :: u in ts && IsOwned(u, tokenId, t)
  {
    if ts != [] {
      var init, last := ts[..|ts| - 1], ts[|ts| - 1];
      OwnedAre(init, tokenId, t);
      assert forall u :: u in ts <==> u in init || u == last;
      assert t == Owned(last, tokenId) <==> IsOwned(last, tokenId, t);
    }
  }

  /** Exactly these tunnels' ports are to be reserved. */
  lemma DueExactly(a: Answer, tokenId: string, t: Tunnel)
    ensures t in OwnedAll(Assigned(a), tokenId) <==> Due(a, tokenId, t)
  {
    hide OwnedAll, Keep, IsOwned;
    OwnedAre(Assigned(a), tokenId, t);
    if a.Announced? {
      forall u ensures u in Assigned(a) <==> u in a.tunnels && !u.simulated && u.name !in a.conflicts { Kept(a.tunnels, a.conflicts, u); }
    }
    if u :| u in Assigned(a) && IsOwned(u, tokenId, t) {
      var k :| 0 <= k < |a.tunnels| && a.tunnels[k] == u;
    }
  }

  /** The backend answers and the tunnel may have its port reserved: its name is one a
      tunnel can have, the port is in the range and no other name's; and the name is
      new, or the token's own with another port. */
  ghost predicate Writes(rules: Rules, existing: seq<Reservation>, rs: seq<Reservation>, t: Tunnel, up: bool) {
    && up && t.publicPort != 0 && rules.portMin <= t.publicPort <= rules.portMax && GoodName(rules, t.name)
    && (forall r | r in rs && r.publicPort == t.publicPort :: r.name == t.name)
    && if exists r :: r in existing && r.name == t.name
       then (exists r :: r in rs && r.name == t.name) &&
            forall i | Counts(existing, i, t.name) :: existing[i].tokenId == t.tokenId && existing[i].publicPort != t.publicPort
       else forall r | r in rs :: r.name != t.name
  }

  lemma CurrentCounts(rs: seq<Reservation>, t: Tunnel)
    ensures var cur := ReservationOf(rs, t.name);
            && (cur.None? <==> !exists r :: r in rs && r.name == t.name)
            && (cur.Some? ==>
                  ((forall i | Counts(rs, i, t.name) :: rs[i].tokenId == t.tokenId && rs[i].publicPort != t.publicPort) <==>
                   cur.value.tokenId == t.tokenId && cur.value.publicPort != t.publicPort))
  {
    hide ReservationOf;
    ReservationCounts(rs, t.name);
    if ReservationOf(rs, t.name).Some? {
      var i :| Counts(rs, i, t.name) && rs[i] == ReservationOf(rs, t.name).value;
      forall j | Counts(rs, j, t.name) ensures j == i { OneCounts(rs, i, j, t.name); }
    }
  }

  lemma PutHas(rs: seq<Reservation>, r: Reservation, x: Reservation)
    ensures x in Put(rs, r) <==> (x in rs && x.name != r.name) || (x == r && exists y :: y in rs && y.name == r.name)
  {
    hide Put;
    var out := Put(rs, r);
    if x in rs && x.name != r.name {
      var i :| 0 <= i < |rs| && rs[i] == x;
      assert out[i] == x;
    }
    if y :| y in rs && y.name == r.name {
      var i :| 0 <= i < |rs| && rs[i] == y;
      assert out[i] == r;
    }
    if x in out {
      var i :| 0 <= i < |out| && out[i] == x;
      assert rs[i] in rs;
    }
  }

  lemma MayMeans(rules: Rules, rs: seq<Reservation>, r: Reservation)
    requires r.publicPort != 0
    ensures MayPut(rules, rs, r) <==>
            rules.portMin <= r.publicPort <= rules.portMax && GoodName(rules, r.name) &&
            forall x | x in rs && x.publicPort == r.publicPort :: x.name == r.name
    ensures MayPost(rules, rs, r) <==> MayPut(rules, rs, r) && forall x | x in rs :: x.name != r.name
  {
    GoodNameMeans(rules, r.name);
    hide GoodName, rules.NameAllowed;
    assert (exists i | 0 <= i < |rs| :: rs[i].name == r.name) <==> exists x :: x in rs && x.name == r.name;
  }

  /** A write that gets through leaves the name exactly the tunnel's reservation and the
      other names theirs; otherwise nothing changes. */
  lemma OneReserved(rules: Rules, existing: seq<Reservation>, rs: seq<Reservation>, t: Tunnel, up: bool, x: Reservation)
    ensures x in ReserveOne(rules, existing, rs, t, up) <==>
            if Writes(rules, existing, rs, t, up) then x == Reservation(t.name, t.tokenId, t.publicPort) || (x in rs && x.name != t.name)
            else x in rs
  {
    hide ReservationOf, MayPost, MayPut, Put, GoodName, Counts;
    var r := Reservation(t.name, t.tokenId, t.publicPort);
    CurrentCounts(existing, t);
    if t.publicPort != 0 { MayMeans(rules, rs, r); }
    PutHas(rs, r, x);
    assert x in rs + [r] <==> x in rs || x == r;
  }
}
