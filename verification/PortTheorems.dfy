/** While a public port is reserved for a name it is the name's, and the name's
    claims get it unless they ask for another (README.md, "Names and ports stay put"). */
module PortTheorems {
  import opened Wrappers
  import opened Records
  import opened ClaimRules
  import opened Claims
  import opened ClaimTraces
  import opened ClaimTheorems
  import opened IndexTheorems

  /** The directory lists r, with a port of the relays' range that no other
      reservation has. */
  ghost predicate Reserved(env: Env, r: Reservation) {
    && r.publicPort != 0 && env.rules.portMin <= r.publicPort <= env.rules.portMax
    && ReservationOf(env.reservations, r.name) == Some(r)
    && !ReservedByOther(env.reservations, r.publicPort, r.name)
  }

  /** Nobody but r's name has r's port, and nobody but r's token has the name. */
  ghost predicate Respected(s: State, r: Reservation) {
    forall n | n in s.tunnels ::
      (n != r.name ==> s.tunnels[n].publicPort != r.publicPort) && (n == r.name ==> s.tunnels[n].tokenId == r.tokenId)
  }

  predicate RespectfulAnnounce(req: Request, r: Reservation) {
    forall x | x in req.tunnels ::
      (x.name != r.name ==> x.publicPort != r.publicPort) && (x.name == r.name ==> x.tokenId == r.tokenId)
  }

  lemma {:induction false} ReservationIsListed(rs: seq<Reservation>, name: string)
    requires ReservationOf(rs, name).Some?
    ensures ReservationOf(rs, name).value in rs && ReservationOf(rs, name).value.name == name
  {
    if rs[|rs| - 1].name != name { ReservationIsListed(rs[..|rs| - 1], name); }
  }

  lemma RespectedByStore(env: Env, op: Op, s: State, r: Reservation, t: Tunnel)
    requires WellKeyed(s) && Reserved(env, r) && Respected(s, r) && LegalStore(env, op, s, t)
    requires op.AnnounceOp? ==> RespectfulAnnounce(op.req, r)
    ensures t.name != r.name ==> t.publicPort != r.publicPort
    ensures t.name == r.name ==> t.tokenId == r.tokenId
  {
    if op.ClaimOp? {
      ReservationIsListed(env.reservations, r.name);
    }
  }

  lemma RespectedKept(env: Env, op: Op, s: State, r: Reservation, e: Event)
    requires WellKeyed(s) && Reserved(env, r) && Respected(s, r) && Legal(env, op, s, e)
    requires op.AnnounceOp? ==> RespectfulAnnounce(op.req, r)
    ensures Respected(Apply(s, e), r)
  {
    if e.TunnelChanged? && e.change != Deleted {
      RespectedByStore(env, op, s, r, e.tunnel);
    }
  }

  lemma {:induction false} RespectedTrace(env: Env, op: Op, s: State, r: Reservation, es: seq<Event>)
    requires WellKeyed(s) && Reserved(env, r) && Respected(s, r) && LegalTrace(env, op, s, es)
    requires op.AnnounceOp? ==> RespectfulAnnounce(op.req, r)
    ensures Respected(ApplyAll(s, es), r)
  {
    if es != [] {
      var init := es[..|es| - 1];
      RespectedTrace(env, op, s, r, init);
      WellKeyedKept(s, init);
      RespectedKept(env, op, ApplyAll(s, init), r, es[|es| - 1]);
    }
  }

  /** A run whose directory keeps listing r, and whose announcements respect it. */
  ghost predicate ReservedRun(run: Run, r: Reservation) {
    forall i | 0 <= i < |run| :: Reserved(run[i].0, r) && (run[i].1.AnnounceOp? ==> RespectfulAnnounce(run[i].1.req, r))
  }

  /** In every such run no other name gets the port and no other token the name. */
  lemma {:induction false} PortIsPermanent(s: State, run: Run, r: Reservation)
    requires WellKeyed(s) && Respected(s, r) && ReservedRun(run, r)
    ensures WellKeyed(Exec(s, run)) && Respected(Exec(s, run), r)
  {
    if run != [] {
      var (env, op) := run[|run| - 1];
      var st := Exec(s, run[..|run| - 1]);
      assert Reserved(env, r);
      PortIsPermanent(s, run[..|run| - 1], r);
      EventsLegal(env, st, op);
      RespectedTrace(env, op, st, r, Events(env, st, op));
    }
  }

  /** The reserved port is free for its name, whatever was staged before. */
  lemma ReservedPortIsChosen(env: Env, s: State, r: Reservation, req: Request, specs: seq<Tunnel>, spec: Tunnel)
    requires Sound(s) && Reserved(env, r) && Respected(s, r) && spec.name == r.name && spec.publicPort == 0
    requires Stage(env, s, req, specs).Ok? && r.name !in NamesOf(Stage(env, s, req, specs).value)
    ensures ChoosePort(env, s, req, Stage(env, s, req, specs).value, spec) == Ok(r.publicPort)
  {
    var recs := Stage(env, s, req, specs).value;
    StageEach(env, s, req, specs, 0);
    ReservationIsListed(env.reservations, r.name);
    forall t | t in recs ensures t.publicPort != r.publicPort {
      var i :| 0 <= i < |recs| && recs[i] == t;
      StageEach(env, s, req, specs, i);
      CheckGrants(env, s, req, recs[..i], specs[i]);
    }
    assert PortFree(env, s, recs, r.name, r.publicPort);
  }

  /** What an accepted claim may have obtained while r is reserved. */
  lemma AcceptedClaimsRespect(env: Env, s: State, r: Reservation, req: Request, i: nat)
    requires Reserved(env, r) && ClaimResult(env, s, req).Ok? && i < |req.tunnels|
    ensures |ClaimResult(env, s, req).value| == |req.tunnels|
    ensures var t := ClaimResult(env, s, req).value[i];
            && (t.name != r.name ==> t.publicPort != r.publicPort)
            && (t.name == r.name ==> req.tokenId == r.tokenId)
            && (t.name == r.name && HasPort(t.kind) && !t.accessToken && req.tunnels[i].publicPort == 0 ==> t.publicPort == r.publicPort)
  {
    var recs := ClaimResult(env, s, req).value;
    StageEach(env, s, req, req.tunnels, i);
    CheckGrants(env, s, req, recs[..i], req.tunnels[i]);
    ReservationIsListed(env.reservations, r.name);
    if recs[i].name == r.name && HasPort(recs[i].kind) && !recs[i].accessToken && req.tunnels[i].publicPort == 0 {
      PortChoice(env, s, req, recs[..i], req.tunnels[i]);
    }
  }

  /** A claim of the name that asks for no port is never refused for its port, and
      the record it gets has the reserved one. */
  lemma OwnerGetsTheReservedPort(env: Env, s: State, r: Reservation, req: Request, i: nat)
    requires Sound(s) && Reserved(env, r) && Respected(s, r)
    requires i < |req.tunnels| && req.tunnels[i].name == r.name && req.tunnels[i].publicPort == 0
    requires HasPort(req.tunnels[i].kind) && !req.tunnels[i].accessToken
    ensures Stage(env, s, req, req.tunnels[..i]).Ok? ==>
              Check(env, s, req, Stage(env, s, req, req.tunnels[..i]).value, req.tunnels[i]) !in {Err(PortUnavailable), Err(PortNotAllowed)}
    ensures ClaimResult(env, s, req).Ok? ==>
              |ClaimResult(env, s, req).value| == |req.tunnels| && ClaimResult(env, s, req).value[i].publicPort == r.publicPort
  {
    hide ChoosePort, Stage, Reserved, Respected, Sound, Check, NamesOf;
    if Stage(env, s, req, req.tunnels[..i]).Ok? {
      var recs := Stage(env, s, req, req.tunnels[..i]).value;
      if r.name !in NamesOf(recs) { ReservedPortIsChosen(env, s, r, req, req.tunnels[..i], req.tunnels[i]); }
      NotRefusedForPort(env, s, req, recs, req.tunnels[i]);
    }
    if ClaimResult(env, s, req).Ok? {
      AcceptedClaimsRespect(env, s, r, req, i);
      GrantedKeepsSpec(env, s, req, i);
    }
  }

  /** A granted record is the requested tunnel's. */
  lemma GrantedKeepsSpec(env: Env, s: State, req: Request, i: nat)
    requires ClaimResult(env, s, req).Ok? && i < |req.tunnels|
    ensures |ClaimResult(env, s, req).value| == |req.tunnels|
    ensures var t, x := ClaimResult(env, s, req).value[i], req.tunnels[i];
            t.name == x.name && t.kind == x.kind && t.accessToken == x.accessToken && t.tokenId == req.tokenId
  {
    StageEach(env, s, req, req.tunnels, i);
    CheckGrants(env, s, req, ClaimResult(env, s, req).value[..i], req.tunnels[i]);
  }
}
