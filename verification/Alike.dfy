/** A standalone relay and the cluster engine decide a claim alike: connected is
    ACTIVE, parked is GRACE, permanent is an operator's reservation. */
module Alike {
  import opened Wrappers
  import opened Records
  import opened ClaimRules
  import S = Standalone
  import ST = StandaloneTheorems
  import C = Claims

  /** The two hold the name the same way. */
  ghost predicate AlikeAt(s: S.State, ts: map<string, Tunnel>, rs: seq<Reservation>, n: string) {
    var resv := C.ReservationOf(rs, n);
    if n !in s.names || s.names[n] !in s.entries then n !in ts && resv.None? else
      var e := s.entries[s.names[n]];
      && (e.permanent <==> resv.Some?)
      && (resv.Some? ==> resv.value.tokenId == e.tokenId)
      && if n !in ts then e.permanent && e.session.None? else
           && ts[n].tokenId == e.tokenId
           && (e.session.Some? <==> ts[n].state == Active)
           && (e.session.Some? ==> ts[n].agentId == e.agentId && e.session.value == ts[n].sessionId)
  }

  ghost predicate AlikeAll(s: S.State, ts: map<string, Tunnel>, rs: seq<Reservation>) {
    forall n :: AlikeAt(s, ts, rs, n)
  }

  lemma SameCount(s: S.State, e: C.State, rs: seq<Reservation>, tokenId: string)
    requires AlikeAll(s, e.tunnels, rs)
    ensures S.ConnectedOf(s, tokenId) == C.ActiveOf(e, tokenId)
  {
    forall n ensures n in S.ConnectedOf(s, tokenId) <==> n in C.ActiveOf(e, tokenId) {
      assert AlikeAt(s, e.tunnels, rs, n);
    }
  }

  /** A claim of one tunnel is accepted, refused as taken or refused for the cap by
      the one exactly when it is by the other; site names, ports and domains aside. */
  lemma DecideAlike(env: C.Env, s: S.State, e: C.State, req: Request, spec: Tunnel)
    requires AlikeAll(s, e.tunnels, env.reservations)
    requires (spec.simulated ==> env.allowSimulated) && env.rules.NameAllowed(spec.name) && env.rules.Host(spec.name) !in env.sites
    ensures C.NameRefusal(env, e, req, [], spec) ==
            match S.ClaimAnswer(s, spec.name, req.tokenId, req.agentId, req.sessionId, req.maxTunnels)
            case Ok(_) => None
            case Err(Taken) => Some(C.NameTaken)
            case Err(CapReached) => Some(C.MaxTunnels)
  {
    SameCount(s, e, env.reservations, req.tokenId);
    assert AlikeAt(s, e.tunnels, env.reservations, spec.name);
    assert C.NamesOf([]) == {};
    assert C.ActiveOf(e, req.tokenId) - {spec.name} - C.NamesOf([]) == S.ConnectedOf(s, req.tokenId) - {spec.name};
    hide S.ConnectedOf, C.ActiveOf, C.ReservationOf, C.NamesOf, AlikeAll;
    HoldersAlike(env, s, e, req, spec.name, C.ActiveCount(e, req.tokenId, spec.name, []));
    hide AlikeAt, Decide;
  }

  /** With the same count, the name's holder and reservation decide alike. */
  lemma HoldersAlike(env: C.Env, s: S.State, e: C.State, req: Request, n: string, active: nat)
    requires AlikeAt(s, e.tunnels, env.reservations, n)
    ensures var resv := C.ReservationOf(env.reservations, n);
            var mine := Decide(S.HolderOf(s, n, req.sessionId), req.tokenId, req.agentId, active, req.maxTunnels);
            var theirs := Decide(C.HolderOf(e, req, n), req.tokenId, req.agentId, active, req.maxTunnels);
            if resv.Some? && resv.value.tokenId != req.tokenId then mine == Err(Taken)
            else mine.Ok? == theirs.Ok? && (mine.Err? ==> mine == theirs)
  {
    hide C.ReservationOf;
  }

  /** They still hold every name alike after a claim both grant. */
  lemma ClaimKeepsAlike(env: C.Env, s: S.State, e: C.State, req: Request, spec: Tunnel, port: int)
    requires ST.NamesOk(s) && AlikeAll(s, e.tunnels, env.reservations)
    requires S.ClaimAnswer(s, spec.name, req.tokenId, req.agentId, req.sessionId, req.maxTunnels).Ok?
    ensures AlikeAll(S.Claimed(s, spec.name, spec.kind, req.tokenId, req.agentId, req.sessionId, req.maxTunnels),
                     C.Stored(e, C.Granted(env, req, spec, port)).tunnels, env.reservations)
  {
    hide S.ConnectedOf, C.ReservationOf, AlikeAt;
    var t := S.Claimed(s, spec.name, spec.kind, req.tokenId, req.agentId, req.sessionId, req.maxTunnels);
    var ts := C.Stored(e, C.Granted(env, req, spec, port)).tunnels;
    assert ts == e.tunnels[spec.name := C.Granted(env, req, spec, port)];
    assert AlikeAt(s, e.tunnels, env.reservations, spec.name);
    ClaimedAlike(env, s, e.tunnels, req, spec, port);
    forall n ensures AlikeAt(t, ts, env.reservations, n) {
      assert AlikeAt(s, e.tunnels, env.reservations, n);
      if n != spec.name {
        OthersUntouched(s, t, e.tunnels, ts, env.reservations, n);
      }
    }
  }

  lemma ClaimedAlike(env: C.Env, s: S.State, ts: map<string, Tunnel>, req: Request, spec: Tunnel, port: int)
    requires ST.NamesOk(s) && AlikeAt(s, ts, env.reservations, spec.name)
    requires S.ClaimAnswer(s, spec.name, req.tokenId, req.agentId, req.sessionId, req.maxTunnels).Ok?
    ensures AlikeAt(S.Claimed(s, spec.name, spec.kind, req.tokenId, req.agentId, req.sessionId, req.maxTunnels),
                    ts[spec.name := C.Granted(env, req, spec, port)], env.reservations, spec.name)
  {
    hide S.ConnectedOf, C.ReservationOf;
  }

  lemma OthersUntouched(s: S.State, t: S.State, us: map<string, Tunnel>, ts: map<string, Tunnel>, rs: seq<Reservation>, n: string)
    requires AlikeAt(s, us, rs, n) && (n in us <==> n in ts) && (n in us ==> us[n] == ts[n])
    requires n in s.names <==> n in t.names
    requires n in s.names ==> t.names[n] == s.names[n] && (s.names[n] in s.entries <==> s.names[n] in t.entries)
    requires n in s.names && s.names[n] in s.entries ==> s.entries[s.names[n]] == t.entries[s.names[n]]
    ensures AlikeAt(t, ts, rs, n)
  {
  }
}
