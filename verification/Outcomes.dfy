/** What the relays' reports and the operators' commands leave in the engine's three
    tables, record by record and in the terms of the request; SweepTheorems and
    HoldTheorems do the same for sweeps, PARK and RELEASE. */
module Outcomes {
  import opened Wrappers
  import opened Records
  import opened ClaimRules
  import opened Claims
  import opened ClaimTraces
  import opened ReplayTheorems
  import opened SweepTheorems
  import A = AnnounceTheorems

  // ---------------------------------------------------------------------
  // Relays
  // ---------------------------------------------------------------------

  /** The relay as its report shows it, up, seen now, and started when it was before if
      the report does not say. */
  predicate SeenAs(env: Env, s: State, id: string, report: Option<Relay>, r: Relay) {
    && r.relayId == id && r.lastSeen == env.now
    && match report
       case Some(p) =>
         && r.podIp == p.podIp && r.sessions == p.sessions && r.tunnels == p.tunnels && r.simulated == p.simulated && r.info == p.info
         && r.state == (if p.state == UnspecifiedRelay || p.state == Down then Ready else p.state)
         && r.startedAt == (if p.startedAt == 0 && id in s.relays then s.relays[id].startedAt else p.startedAt)
       case None =>
         && r.podIp == "" && r.sessions == 0 && r.tunnels == 0 && !r.simulated && r.info == "" && r.state == Ready
         && r.startedAt == (if id in s.relays then s.relays[id].startedAt else 0)
  }

  lemma TouchedIsSeen(env: Env, s: State, id: string, report: Option<Relay>, r: Relay)
    ensures SeenAs(env, s, id, report, r) <==> r == TouchedRelay(env, s, id, report)
  {
  }

  /** Exactly the relay's own row changes, to what was seen. */
  ghost predicate RelaySeen(env: Env, s: State, id: string, report: Option<Relay>, relays: map<string, Relay>) {
    && relays.Keys == s.relays.Keys + {id} && SeenAs(env, s, id, report, relays[id])
    && forall o | o in s.relays && o != id :: relays[o] == s.relays[o]
  }

  lemma ReportOutcome(env: Env, s: State, req: Request)
    ensures var st := ApplyAll(s, RelayReport(env, s, req));
            && st.tunnels == s.tunnels && st.agents == s.agents && RelaySeen(env, s, req.relayId, req.relay, st.relays)
  {
    hide TouchedRelay;
    var r := TouchedRelay(env, s, req.relayId, req.relay);
    TouchedIsSeen(env, s, req.relayId, req.relay, r);
    RelayTables(s, r);
  }

  // ---------------------------------------------------------------------
  // ANNOUNCE
  // ---------------------------------------------------------------------

  /** A simulated tunnel or agent where none are allowed. */
  predicate Left(env: Env, simulated: bool) { simulated && !env.allowSimulated }

  /** Another relay serves the name for a different agent. */
  predicate ServedElsewhere(s: State, req: Request, t: Tunnel) {
    && t.name in s.tunnels && s.tunnels[t.name].state == Active
    && s.tunnels[t.name].relayId != req.relayId && s.tunnels[t.name].agentId != t.agentId
  }

  /** The k-th announced tunnel is taken: nobody else serves the name, or the same
      announcement took it already. */
  predicate Takes(env: Env, s: State, req: Request, k: int)
    requires 0 <= k < |req.tunnels|
  {
    && !Left(env, req.tunnels[k].simulated)
    && (!ServedElsewhere(s, req, req.tunnels[k]) ||
        exists j | 0 <= j < k :: req.tunnels[j].name == req.tunnels[k].name && Frees(env, s, req, req.tunnels[j]))
  }

  predicate Frees(env: Env, s: State, req: Request, t: Tunnel) { !Left(env, t.simulated) && !ServedElsewhere(s, req, t) }

  /** The last of the first n announced tunnels of the name that is taken. */
  predicate LastTaken(env: Env, s: State, req: Request, n: int, k: int, name: string)
    requires n <= |req.tunnels|
  {
    && 0 <= k < n && req.tunnels[k].name == name && Takes(env, s, req, k)
    && forall j | k < j < n :: req.tunnels[j].name == name ==> !Takes(env, s, req, j)
  }

  function Served(req: Request, t: Tunnel): Tunnel {
    t.(relayId := req.relayId, state := if t.state == UnspecifiedLive then Active else t.state)
  }

  /** The names of the first n that are refused, in order. */
  function Refused(env: Env, s: State, req: Request, n: nat): seq<string>
    requires n <= |req.tunnels|
  {
    if n == 0 then [] else
      Refused(env, s, req, n - 1) +
      if !Left(env, req.tunnels[n - 1].simulated) && !Takes(env, s, req, n - 1) then [req.tunnels[n - 1].name] else []
  }

  /** How the name is recorded after the first n. */
  ghost predicate RecordedAs(env: Env, s: State, req: Request, n: nat, tunnels: map<string, Tunnel>, name: string)
    requires n <= |req.tunnels|
  {
    && (forall k | LastTaken(env, s, req, n, k, name) :: name in tunnels && tunnels[name] == Served(req, req.tunnels[k]))
    && ((forall k :: !LastTaken(env, s, req, n, k, name)) ==>
          (name in tunnels <==> name in s.tunnels) && (name in s.tunnels ==> tunnels[name] == s.tunnels[name]))
  }

  lemma TakenOnce(env: Env, s: State, req: Request, n: nat, k: int, name: string)
    requires n < |req.tunnels|
    ensures LastTaken(env, s, req, n + 1, k, name) <==>
            if req.tunnels[n].name == name && Takes(env, s, req, n) then k == n else LastTaken(env, s, req, n, k, name)
  {
  }

  lemma {:induction false} SomeTaken(env: Env, s: State, req: Request, n: nat, j: int)
    requires n <= |req.tunnels| && 0 <= j < n && Takes(env, s, req, j)
    ensures exists k :: LastTaken(env, s, req, n, k, req.tunnels[j].name)
  {
    if req.tunnels[n - 1].name == req.tunnels[j].name && Takes(env, s, req, n - 1) {
      assert LastTaken(env, s, req, n, n - 1, req.tunnels[j].name);
    } else {
      SomeTaken(env, s, req, n - 1, j);
      var k :| LastTaken(env, s, req, n - 1, k, req.tunnels[j].name);
      assert LastTaken(env, s, req, n, k, req.tunnels[j].name);
    }
  }

  /** In the state after the first n, the n-th is refused exactly when it is not taken. */
  lemma ConflictMeans(env: Env, s: State, st: State, req: Request, n: nat)
    requires n < |req.tunnels| && RecordedAs(env, s, req, n, st.tunnels, req.tunnels[n].name)
    ensures !Left(env, req.tunnels[n].simulated) ==> (Conflicts(st, req, req.tunnels[n]) <==> !Takes(env, s, req, n))
  {
    var t := req.tunnels[n];
    if j :| 0 <= j < n && req.tunnels[j].name == t.name && Frees(env, s, req, req.tunnels[j]) {
      assert Takes(env, s, req, j);
      SomeTaken(env, s, req, n, j);
      var k :| LastTaken(env, s, req, n, k, t.name);
      assert st.tunnels[t.name].relayId == req.relayId;
    } else {
      forall k ensures !LastTaken(env, s, req, n, k, t.name) { NoneFreed(env, s, req, n, k, t.name); }
    }
  }

  lemma {:induction false} NoneFreed(env: Env, s: State, req: Request, n: nat, k: int, name: string)
    requires n <= |req.tunnels| && forall j | 0 <= j < n && req.tunnels[j].name == name :: !Frees(env, s, req, req.tunnels[j])
    ensures !LastTaken(env, s, req, n, k, name)
  {
  }

  lemma NoneRecorded(env: Env, s: State, req: Request, name: string)
    ensures RecordedAs(env, s, req, 0, s.tunnels, name)
  {
  }

  lemma {:induction false} AnnouncedRecords(env: Env, s: State, req: Request, n: nat, name: string)
    requires n <= |req.tunnels|
    ensures RecordedAs(env, s, req, n, A.AnnouncedTo(env, s, req, n).tunnels, name)
  {
    hide Conflicts, Takes, ServedElsewhere, Stored, Announced, Served, RecordedAs, LastTaken, A.AnnouncedTo;
    if n == 0 {
      A.AnnounceNone(env, s, req);
      NoneRecorded(env, s, req, name);
    } else {
      var st, t := A.AnnouncedTo(env, s, req, n - 1), req.tunnels[n - 1];
      AnnouncedRecords(env, s, req, n - 1, name);
      AnnouncedRecords(env, s, req, n - 1, t.name);
      ConflictMeans(env, s, st, req, n - 1);
      A.AnnounceNext(env, s, req, n - 1);
      StoredTunnels(st, Announced(req, t));
      ServedIs(req, t);
      forall k ensures LastTaken(env, s, req, n, k, name) <==>
                       if t.name == name && Takes(env, s, req, n - 1) then k == n - 1 else LastTaken(env, s, req, n - 1, k, name) {
        TakenOnce(env, s, req, n - 1, k, name);
      }
      TakesMeansAllowed(env, s, req, n - 1);
      RecordedNext(env, s, req, n, st.tunnels, A.AnnouncedTo(env, s, req, n).tunnels, name);
    }
  }

  lemma TakesMeansAllowed(env: Env, s: State, req: Request, k: int)
    requires 0 <= k < |req.tunnels|
    ensures Takes(env, s, req, k) ==> !Left(env, req.tunnels[k].simulated)
  {
  }

  lemma RecordedNext(env: Env, s: State, req: Request, n: nat, was: map<string, Tunnel>, now: map<string, Tunnel>, name: string)
    requires 0 < n <= |req.tunnels| && RecordedAs(env, s, req, n - 1, was, name)
    requires now == if Takes(env, s, req, n - 1) then was[req.tunnels[n - 1].name := Served(req, req.tunnels[n - 1])] else was
    requires forall k :: LastTaken(env, s, req, n, k, name) <==>
               if req.tunnels[n - 1].name == name && Takes(env, s, req, n - 1) then k == n - 1 else LastTaken(env, s, req, n - 1, k, name)
    ensures RecordedAs(env, s, req, n, now, name)
  {
    hide Takes, Served;
    var last := req.tunnels[n - 1].name == name && Takes(env, s, req, n - 1);
    forall k | LastTaken(env, s, req, n, k, name) ensures name in now && now[name] == Served(req, req.tunnels[k]) {
      if !last { assert LastTaken(env, s, req, n - 1, k, name); }
    }
    if last {
      assert LastTaken(env, s, req, n, n - 1, name);
    } else if forall k :: !LastTaken(env, s, req, n, k, name) {
      var m := n - 1;
      forall k ensures !LastTaken(env, s, req, m, k, name) { assert !LastTaken(env, s, req, n, k, name); }
    }
  }

  lemma ServedIs(req: Request, t: Tunnel)
    ensures Announced(req, t) == Served(req, t) && Served(req, t).name == t.name
  {
  }

  lemma {:induction false} ReportedNames(env: Env, s: State, req: Request, n: nat)
    requires n <= |req.tunnels|
    ensures var (stored, conflicts) := Reported(env, s, req, req.tunnels[..n]);
            && conflicts == Refused(env, s, req, n)
            && forall name :: name in stored <==> exists k :: 0 <= k < n && req.tunnels[k].name == name && Takes(env, s, req, k)
  {
    hide Conflicts, Takes, AnnounceStep, ApplyAll, ForEach;
    if n > 0 {
      var t := req.tunnels[n - 1];
      assert req.tunnels[..n][..n - 1] == req.tunnels[..n - 1];
      ReportedNames(env, s, req, n - 1);
      AnnouncedRecords(env, s, req, n - 1, t.name);
      ConflictMeans(env, s, A.AnnouncedTo(env, s, req, n - 1), req, n - 1);
      TakesMeansAllowed(env, s, req, n - 1);
    }
  }

  // What the relay no longer serves.

  /** The relay had the tunnel connected and did not announce it. */
  predicate Dropped(req: Request, reported: set<string>, t: Tunnel) {
    t.relayId == req.relayId && t.state == Active && t.name !in reported
  }

  function AfterUnreported(env: Env, tunnels: map<string, Tunnel>, req: Request, reported: set<string>, names: set<string>): map<string, Tunnel> {
    map n | n in tunnels ::
      if n in names && Dropped(req, reported, tunnels[n])
      then tunnels[n].(state := Grace, graceUntil := env.now + env.grace) else tunnels[n]
  }

  lemma {:induction false} UnreportedLoop(env: Env, s: State, req: Request, reported: set<string>, names: seq<string>)
    requires WellKeyed(s)
    ensures var st := ApplyAll(s, ForEach(s, names, UnreportedStep(env, req, reported)));
            WellKeyed(st) && TablesOf(st) == TablesOf(s).(tunnels := AfterUnreported(env, s.tunnels, req, reported, Elements(names)))
  {
    if names == [] {
      assert AfterUnreported(env, s.tunnels, req, reported, {}) == s.tunnels;
    } else {
      var init, x := names[..|names| - 1], names[|names| - 1];
      UnreportedLoop(env, s, req, reported, init);
      var es := ForEach(s, init, UnreportedStep(env, req, reported));
      var st := ApplyAll(s, es);
      UnreportedMore(env, s.tunnels, req, reported, Elements(init), x);
      ElementsAppend(names);
      UnreportedOne(env, st, req, reported, x);
      ApplyAllAppend(s, es, UnreportedStep(env, req, reported)(st, x));
      WellKeyedKept(s, ForEach(s, names, UnreportedStep(env, req, reported)));
    }
  }

  lemma UnreportedMore(env: Env, tunnels: map<string, Tunnel>, req: Request, reported: set<string>, names: set<string>, x: string)
    ensures var cur := AfterUnreported(env, tunnels, req, reported, names);
            AfterUnreported(env, tunnels, req, reported, names + {x}) ==
            if x in cur && Dropped(req, reported, cur[x]) then cur[x := cur[x].(state := Grace, graceUntil := env.now + env.grace)] else cur
  {
  }

  lemma UnreportedOne(env: Env, st: State, req: Request, reported: set<string>, x: string)
    requires WellKeyed(st)
    ensures TablesOf(ApplyAll(st, UnreportedStep(env, req, reported)(st, x))) ==
            TablesOf(st).(tunnels := if x in st.tunnels && Dropped(req, reported, st.tunnels[x])
                                     then st.tunnels[x := st.tunnels[x].(state := Grace, graceUntil := env.now + env.grace)] else st.tunnels)
  {
    hide StoreEvent, Stored, Apply, IndexPort, IndexDomains, UnindexDomains, UnindexPort;
    NothingApplied(st);
    if x in st.tunnels && Dropped(req, reported, st.tunnels[x]) {
      StoreTables(st, st.tunnels[x].(state := Grace, graceUntil := env.now + env.grace));
    }
  }

  // The agents.

  /** The last agent of the list with the id that is not left out. */
  predicate LastAgent(env: Env, xs: seq<Agent>, k: int, id: string) {
    && 0 <= k < |xs| && xs[k].agentId == id && !Left(env, xs[k].simulated)
    && forall j | k < j < |xs| :: xs[j].agentId == id ==> Left(env, xs[j].simulated)
  }

  ghost predicate AgentAs(env: Env, was: map<string, Agent>, req: Request, xs: seq<Agent>, agents: map<string, Agent>, id: string) {
    && (forall k | LastAgent(env, xs, k, id) :: id in agents && agents[id] == xs[k].(relayId := req.relayId))
    && ((forall k :: !LastAgent(env, xs, k, id)) ==> (id in agents <==> id in was) && (id in was ==> agents[id] == was[id]))
  }

  lemma NoAgentAs(env: Env, was: map<string, Agent>, req: Request, id: string)
    ensures AgentAs(env, was, req, [], was, id)
  {
  }

  lemma {:induction false} AgentsLoop(env: Env, s: State, req: Request, xs: seq<Agent>, id: string)
    ensures var st := ApplyAll(s, ForEach(s, xs, AnnounceAgentStep(env, req)));
            st.tunnels == s.tunnels && st.relays == s.relays && AgentAs(env, s.agents, req, xs, st.agents, id)
  {
    hide AgentEvent, Apply, AgentAs, ApplyAll;
    if xs == [] {
      NothingApplied(s);
      NoAgentAs(env, s.agents, req, id);
    } else {
      var init, a := xs[..|xs| - 1], xs[|xs| - 1];
      AgentsLoop(env, s, req, init, id);
      var es := ForEach(s, init, AnnounceAgentStep(env, req));
      var st := ApplyAll(s, es);
      ApplyAllAppend(s, es, AnnounceAgentStep(env, req)(st, a));
      NothingApplied(st);
      AgentTables(st, a.(relayId := req.relayId));
      AgentAsNext(env, s.agents, req, xs, st.agents, id);
    }
  }

  lemma AgentAsNext(env: Env, was: map<string, Agent>, req: Request, xs: seq<Agent>, agents: map<string, Agent>, id: string)
    requires xs != [] && AgentAs(env, was, req, xs[..|xs| - 1], agents, id)
    ensures var a := xs[|xs| - 1];
            AgentAs(env, was, req, xs, if Left(env, a.simulated) then agents else agents[a.agentId := a.(relayId := req.relayId)], id)
  {
    var init, a := xs[..|xs| - 1], xs[|xs| - 1];
    var last := a.agentId == id && !Left(env, a.simulated);
    forall k ensures LastAgent(env, xs, k, id) <==> if last then k == |xs| - 1 else LastAgent(env, init, k, id) {
      LastAgentNext(env, xs, k, id);
    }
    if last {
      assert LastAgent(env, xs, |xs| - 1, id);
    } else if forall k :: !LastAgent(env, xs, k, id) {
      forall k ensures !LastAgent(env, init, k, id) { assert !LastAgent(env, xs, k, id); }
    }
  }

  lemma LastAgentNext(env: Env, xs: seq<Agent>, k: int, id: string)
    requires xs != []
    ensures var a := xs[|xs| - 1];
            LastAgent(env, xs, k, id) <==>
            if a.agentId == id && !Left(env, a.simulated) then k == |xs| - 1 else LastAgent(env, xs[..|xs| - 1], k, id)
  {
  }

  /** How the name is recorded after the whole announcement. */
  ghost predicate AnnouncedAs(env: Env, s: State, req: Request, tunnels: map<string, Tunnel>, name: string) {
    var n := |req.tunnels|;
    && (forall k | LastTaken(env, s, req, n, k, name) :: name in tunnels && tunnels[name] == Served(req, req.tunnels[k]))
    && ((forall k :: !LastTaken(env, s, req, n, k, name)) ==>
          && (name in tunnels <==> name in s.tunnels)
          && (name in s.tunnels ==>
                var t := s.tunnels[name];
                tunnels[name] == if t.relayId == req.relayId && t.state == Active
                                 then t.(state := Grace, graceUntil := env.now + env.grace) else t))
  }

  /** A simulated relay is refused where none are allowed, and nothing changes.
      Otherwise, in any order of the map that covers it: every announced tunnel that is
      taken is recorded as the relay's own, the last one of a name counting; every other
      tunnel the relay had connected is held for the grace period; every other record is
      as before. The agents are the relay's, the last one of an id counting, and the
      relay is seen if it reports itself. */
  lemma AnnounceOutcome(env: Env, s: State, req: Request, order: seq<string>)
    requires WellKeyed(s) && req.relayId != "" && s.tunnels.Keys <= Elements(order)
    ensures var st := Step(env, s, AnnounceOp(req, order));
            if req.relay.Some? && Left(env, req.relay.value.simulated) then st == s else
              && (forall name :: AnnouncedAs(env, s, req, st.tunnels, name))
              && (forall id :: AgentAs(env, s.agents, req, req.agents, st.agents, id))
              && if req.relay.Some? then RelaySeen(env, s, req.relayId, req.relay, st.relays) else st.relays == s.relays
  {
    hide ForEach, ApplyAll, AnnouncedAs, AgentAs, UnreportedStep, AnnounceStep, AnnounceAgentStep, RelaySeen, RelayReport, WellKeyed;
    NothingApplied(s);
    if !(req.relay.Some? && Left(env, req.relay.value.simulated)) {
      var s0 := ApplyAll(s, AnnounceReport(env, s, req));
      ReportOutcome(env, s, req);
      WellKeyedKept(s, AnnounceReport(env, s, req));
      var s1 := ApplyAll(s0, ForEach(s0, req.tunnels, AnnounceStep(env, req)));
      var reported := Reported(env, s0, req, req.tunnels).0;
      var s2 := ApplyAll(s1, ForEach(s1, order, UnreportedStep(env, req, reported)));
      assert req.tunnels[..|req.tunnels|] == req.tunnels;
      assert s1 == A.AnnouncedTo(env, s0, req, |req.tunnels|);
      WellKeyedKept(s0, ForEach(s0, req.tunnels, AnnounceStep(env, req)));
      TunnelsOnly(env, s0, req, |req.tunnels|);
      UnreportedLoop(env, s1, req, reported, order);
      AnnouncePhases(env, s, req, order);
      forall name ensures AnnouncedAs(env, s, req, s2.tunnels, name) {
        AnnouncedAtLast(env, s, s0, s1, s2, req, order, name);
      }
      AgentsLoop(env, s2, req, req.agents, "");
      forall id ensures AgentAs(env, s.agents, req, req.agents, Step(env, s, AnnounceOp(req, order)).agents, id) {
        AgentsLoop(env, s2, req, req.agents, id);
      }
    }
  }

  /** Whatever the order, an announcement touches no relay but its own, and that one
      only if it reports itself. */
  lemma AnnouncedRelays(env: Env, s: State, req: Request, order: seq<string>)
    requires WellKeyed(s) && req.relayId != "" && !(req.relay.Some? && Left(env, req.relay.value.simulated))
    ensures var relays := Step(env, s, AnnounceOp(req, order)).relays;
            if req.relay.Some? then RelaySeen(env, s, req.relayId, req.relay, relays) else relays == s.relays
  {
    hide ForEach, ApplyAll, UnreportedStep, AnnounceStep, AnnounceAgentStep, RelaySeen, RelayReport, WellKeyed;
    NothingApplied(s);
    var s0 := ApplyAll(s, AnnounceReport(env, s, req));
    ReportOutcome(env, s, req);
    WellKeyedKept(s, AnnounceReport(env, s, req));
    var s1 := ApplyAll(s0, ForEach(s0, req.tunnels, AnnounceStep(env, req)));
    var reported := Reported(env, s0, req, req.tunnels).0;
    assert req.tunnels[..|req.tunnels|] == req.tunnels;
    assert s1 == A.AnnouncedTo(env, s0, req, |req.tunnels|);
    WellKeyedKept(s0, ForEach(s0, req.tunnels, AnnounceStep(env, req)));
    TunnelsOnly(env, s0, req, |req.tunnels|);
    UnreportedLoop(env, s1, req, reported, order);
    AnnouncePhases(env, s, req, order);
    AgentsLoop(env, ApplyAll(s1, ForEach(s1, order, UnreportedStep(env, req, reported))), req, req.agents, "");
  }

  lemma NothingApplied(s: State)
    ensures ApplyAll(s, []) == s
  {
  }

  lemma {:induction false} TunnelsOnly(env: Env, s: State, req: Request, n: nat)
    requires n <= |req.tunnels|
    ensures var st := A.AnnouncedTo(env, s, req, n); st.agents == s.agents && st.relays == s.relays
  {
    if n == 0 {
      A.AnnounceNone(env, s, req);
    } else {
      TunnelsOnly(env, s, req, n - 1);
      A.AnnounceNext(env, s, req, n - 1);
    }
  }

  lemma AnnouncePhases(env: Env, s: State, req: Request, order: seq<string>)
    requires !AnnounceRefused(env, req) && req.relayId != ""
    ensures var s0 := ApplyAll(s, AnnounceReport(env, s, req));
            var s1 := ApplyAll(s0, ForEach(s0, req.tunnels, AnnounceStep(env, req)));
            var s2 := ApplyAll(s1, ForEach(s1, order, UnreportedStep(env, req, Reported(env, s0, req, req.tunnels).0)));
            Step(env, s, AnnounceOp(req, order)) == ApplyAll(s2, ForEach(s2, req.agents, AnnounceAgentStep(env, req)))
  {
    hide ForEach, ApplyAll, Reported, AnnounceReport, AnnounceStep, UnreportedStep, AnnounceAgentStep;
    var es0 := AnnounceReport(env, s, req);
    var s0 := ApplyAll(s, es0);
    var es1 := ForEach(s0, req.tunnels, AnnounceStep(env, req));
    var s1 := ApplyAll(s0, es1);
    var es2 := ForEach(s1, order, UnreportedStep(env, req, Reported(env, s0, req, req.tunnels).0));
    var s2 := ApplyAll(s1, es2);
    var es3 := ForEach(s2, req.agents, AnnounceAgentStep(env, req));
    ApplyAllAppend(s, es0, es1);
    ApplyAllAppend(s, es0 + es1, es2);
    ApplyAllAppend(s, es0 + es1 + es2, es3);
  }

  lemma AnnouncedAtLast(env: Env, s: State, s0: State, s1: State, s2: State, req: Request, order: seq<string>, name: string)
    requires s0.tunnels == s.tunnels && s1 == A.AnnouncedTo(env, s0, req, |req.tunnels|) && WellKeyed(s1) && WellKeyed(s)
    requires s.tunnels.Keys <= Elements(order)
    requires s2.tunnels == AfterUnreported(env, s1.tunnels, req, Reported(env, s0, req, req.tunnels).0, Elements(order))
    ensures AnnouncedAs(env, s, req, s2.tunnels, name)
  {
    hide Takes, Reported, A.AnnouncedTo, Elements, Served;
    var n := |req.tunnels|;
    var reported := Reported(env, s0, req, req.tunnels).0;
    AnnouncedRecords(env, s0, req, n, name);
    ReportedTaken(env, s0, req, name);
    SameTakes(env, s, s0, req, n, name);
    forall k | LastTaken(env, s, req, n, k, name) ensures name in s2.tunnels && s2.tunnels[name] == Served(req, req.tunnels[k]) {
      assert LastTaken(env, s0, req, n, k, name);
      ServedIs(req, req.tunnels[k]);
    }
  }

  lemma ReportedTaken(env: Env, s: State, req: Request, name: string)
    ensures name in Reported(env, s, req, req.tunnels).0 <==> exists k :: LastTaken(env, s, req, |req.tunnels|, k, name)
  {
    hide Takes, Reported;
    var n := |req.tunnels|;
    assert req.tunnels[..n] == req.tunnels;
    ReportedNames(env, s, req, n);
    if name in Reported(env, s, req, req.tunnels).0 {
      var k :| 0 <= k < n && req.tunnels[k].name == name && Takes(env, s, req, k);
      SomeTaken(env, s, req, n, k);
    }
  }

  lemma SameTakes(env: Env, s: State, s0: State, req: Request, n: nat, name: string)
    requires s0.tunnels == s.tunnels && n <= |req.tunnels|
    ensures forall k :: LastTaken(env, s, req, n, k, name) <==> LastTaken(env, s0, req, n, k, name)
    ensures forall k | 0 <= k < |req.tunnels| :: Takes(env, s, req, k) <==> Takes(env, s0, req, k)
  {
  }

  /** The answer lists, in order, the announced names that another relay serves for a
      different agent at that point. */
  lemma AnnounceAnswers(env: Env, s: State, req: Request)
    ensures Reported(env, ApplyAll(s, AnnounceReport(env, s, req)), req, req.tunnels).1 == Refused(env, s, req, |req.tunnels|)
  {
    hide Reported, RelayReport, ApplyAll, Refused, Takes;
    var s0 := ApplyAll(s, AnnounceReport(env, s, req));
    ReportOutcome(env, s, req);
    NothingApplied(s);
    assert req.tunnels[..|req.tunnels|] == req.tunnels;
    ReportedNames(env, s0, req, |req.tunnels|);
    SameRefused(env, s, s0, req, |req.tunnels|);
  }

  lemma {:induction false} SameRefused(env: Env, s: State, s0: State, req: Request, n: nat)
    requires s0.tunnels == s.tunnels && n <= |req.tunnels|
    ensures Refused(env, s, req, n) == Refused(env, s0, req, n)
  {
    if n > 0 {
      SameRefused(env, s, s0, req, n - 1);
      SameTakes(env, s, s0, req, n, "");
    }
  }

  // ---------------------------------------------------------------------
  // HEARTBEAT
  // ---------------------------------------------------------------------

  /** The last reported tunnel of the name. */
  predicate LastOf(ts: seq<Tunnel>, k: int, name: string) {
    0 <= k < |ts| && ts[k].name == name && forall j | k < j < |ts| :: ts[j].name != name
  }

  /** Only the counters change, and only of a tunnel the relay has connected: to the
      last reported ones. */
  ghost predicate CountedAs(req: Request, ts: seq<Tunnel>, was: map<string, Tunnel>, tunnels: map<string, Tunnel>, name: string) {
    && (name in tunnels <==> name in was)
    && (name in was ==>
          && (forall k | LastOf(ts, k, name) && was[name].relayId == req.relayId && was[name].state == Active ::
                tunnels[name] == was[name].(activeConns := ts[k].activeConns, totalConns := ts[k].totalConns,
                                            bytesIn := ts[k].bytesIn, bytesOut := ts[k].bytesOut))
          && ((was[name].relayId != req.relayId || was[name].state != Active || forall k :: !LastOf(ts, k, name)) ==>
                tunnels[name] == was[name]))
  }

  lemma {:induction false} CountersLoop(s: State, req: Request, ts: seq<Tunnel>, name: string)
    requires WellKeyed(s)
    ensures var st := ApplyAll(s, ForEach(s, ts, CountersStep(req)));
            && WellKeyed(st) && st.agents == s.agents && st.relays == s.relays && CountedAs(req, ts, s.tunnels, st.tunnels, name)
  {
    hide WellKeyed, StoreEvent, Stored, Apply, CountersStep;
    if ts != [] {
      var init, t := ts[..|ts| - 1], ts[|ts| - 1];
      CountersLoop(s, req, init, name);
      CountersLoop(s, req, init, t.name);
      var es := ForEach(s, init, CountersStep(req));
      var st := ApplyAll(s, es);
      ApplyAllAppend(s, es, CountersStep(req)(st, t));
      CountOne(st, req, t);
      WellKeyedKept(s, ForEach(s, ts, CountersStep(req)));
      CountedNext(req, ts, s.tunnels, st.tunnels, ApplyAll(st, CountersStep(req)(st, t)).tunnels, name);
    }
  }

  lemma CountOne(st: State, req: Request, t: Tunnel)
    requires WellKeyed(st)
    ensures var u := ApplyAll(st, CountersStep(req)(st, t));
            && u.agents == st.agents && u.relays == st.relays
            && u.tunnels == if t.name in st.tunnels && st.tunnels[t.name].relayId == req.relayId && st.tunnels[t.name].state == Active
                            then st.tunnels[t.name := st.tunnels[t.name].(activeConns := t.activeConns, totalConns := t.totalConns,
                                                                           bytesIn := t.bytesIn, bytesOut := t.bytesOut)]
                            else st.tunnels
  {
    hide StoreEvent, Stored, Apply;
    NothingApplied(st);
    if t.name in st.tunnels { StoreTables(st, WithCounters(st.tunnels[t.name], t)); }
  }

  lemma CountedNext(req: Request, ts: seq<Tunnel>, was: map<string, Tunnel>, before: map<string, Tunnel>, now: map<string, Tunnel>, name: string)
    requires ts != [] && CountedAs(req, ts[..|ts| - 1], was, before, name) && CountedAs(req, ts[..|ts| - 1], was, before, ts[|ts| - 1].name)
    requires var t := ts[|ts| - 1];
             now == if t.name in before && before[t.name].relayId == req.relayId && before[t.name].state == Active
                    then before[t.name := before[t.name].(activeConns := t.activeConns, totalConns := t.totalConns,
                                                           bytesIn := t.bytesIn, bytesOut := t.bytesOut)]
                    else before
    ensures CountedAs(req, ts, was, now, name)
  {
    var init, t := ts[..|ts| - 1], ts[|ts| - 1];
    forall k ensures LastOf(ts, k, name) <==> if t.name == name then k == |ts| - 1 else LastOf(init, k, name) {}
    if name in was && t.name == name {
      assert LastOf(ts, |ts| - 1, name);
      Steady(req, init, was, before, name);
    }
  }

  lemma Steady(req: Request, ts: seq<Tunnel>, was: map<string, Tunnel>, now: map<string, Tunnel>, name: string)
    requires CountedAs(req, ts, was, now, name) && name in was
    ensures now[name] == was[name].(activeConns := now[name].activeConns, totalConns := now[name].totalConns,
                                    bytesIn := now[name].bytesIn, bytesOut := now[name].bytesOut)
  {
  }

  /** The last reported agent of the id. */
  predicate LastBeat(xs: seq<Agent>, k: int, id: string, session: string) {
    && 0 <= k < |xs| && xs[k].agentId == id && xs[k].sessionId == session
    && forall j | k < j < |xs| :: !(xs[j].agentId == id && xs[j].sessionId == session)
  }

  /** The agent's load is the last one the relay reported for its session. */
  ghost predicate BeatAs(env: Env, req: Request, xs: seq<Agent>, was: map<string, Agent>, agents: map<string, Agent>, id: string) {
    && (id in agents <==> id in was)
    && (id in was ==>
          && (forall k | LastBeat(xs, k, id, was[id].sessionId) && was[id].relayId == req.relayId ::
                agents[id] == was[id].(lastHeartbeat := xs[k].lastHeartbeat, rttUs := xs[k].rttUs, tunnelCount := xs[k].tunnelCount,
                                       activeStreams := xs[k].activeStreams, bytesIn := xs[k].bytesIn, bytesOut := xs[k].bytesOut,
                                       lastSeen := env.now))
          && ((was[id].relayId != req.relayId || forall k :: !LastBeat(xs, k, id, was[id].sessionId)) ==> agents[id] == was[id]))
  }

  function Beaten(env: Env, rec: Agent, a: Agent): Agent {
    rec.(lastHeartbeat := a.lastHeartbeat, rttUs := a.rttUs, tunnelCount := a.tunnelCount,
         activeStreams := a.activeStreams, bytesIn := a.bytesIn, bytesOut := a.bytesOut, lastSeen := env.now)
  }

  lemma {:induction false} BeatLoop(env: Env, s: State, req: Request, xs: seq<Agent>, id: string)
    requires WellKeyed(s)
    ensures var st := ApplyAll(s, ForEach(s, xs, AgentBeatStep(env, req)));
            && WellKeyed(st) && st.tunnels == s.tunnels && st.relays == s.relays && BeatAs(env, req, xs, s.agents, st.agents, id)
  {
    hide WellKeyed, AgentEvent, Apply, AgentBeatStep;
    if xs != [] {
      var init, a := xs[..|xs| - 1], xs[|xs| - 1];
      BeatLoop(env, s, req, init, id);
      BeatLoop(env, s, req, init, a.agentId);
      var es := ForEach(s, init, AgentBeatStep(env, req));
      var st := ApplyAll(s, es);
      ApplyAllAppend(s, es, AgentBeatStep(env, req)(st, a));
      BeatOne(env, st, req, a);
      WellKeyedKept(s, ForEach(s, xs, AgentBeatStep(env, req)));
      BeatNext(env, req, xs, s.agents, st.agents, ApplyAll(st, AgentBeatStep(env, req)(st, a)).agents, id);
    }
  }

  lemma BeatOne(env: Env, st: State, req: Request, a: Agent)
    requires WellKeyed(st)
    ensures var u := ApplyAll(st, AgentBeatStep(env, req)(st, a));
            && u.tunnels == st.tunnels && u.relays == st.relays
            && u.agents == if a.agentId in st.agents && st.agents[a.agentId].relayId == req.relayId && st.agents[a.agentId].sessionId == a.sessionId
                           then st.agents[a.agentId := Beaten(env, st.agents[a.agentId], a)] else st.agents
  {
    hide AgentEvent, Apply;
    NothingApplied(st);
    if a.agentId in st.agents { AgentTables(st, Beaten(env, st.agents[a.agentId], a)); }
  }

  lemma BeatNext(env: Env, req: Request, xs: seq<Agent>, was: map<string, Agent>, before: map<string, Agent>, now: map<string, Agent>, id: string)
    requires xs != [] && BeatAs(env, req, xs[..|xs| - 1], was, before, id) && BeatAs(env, req, xs[..|xs| - 1], was, before, xs[|xs| - 1].agentId)
    requires var a := xs[|xs| - 1];
             now == if a.agentId in before && before[a.agentId].relayId == req.relayId && before[a.agentId].sessionId == a.sessionId
                    then before[a.agentId := Beaten(env, before[a.agentId], a)] else before
    ensures BeatAs(env, req, xs, was, now, id)
  {
    var init, a := xs[..|xs| - 1], xs[|xs| - 1];
    if id in was {
      var session := was[id].sessionId;
      forall k ensures LastBeat(xs, k, id, session) <==>
                       if a.agentId == id && a.sessionId == session then k == |xs| - 1 else LastBeat(init, k, id, session) {}
      BeatSteady(env, req, init, was, before, id);
      if a.agentId == id && a.sessionId == session { assert LastBeat(xs, |xs| - 1, id, session); }
    }
  }

  lemma BeatSteady(env: Env, req: Request, xs: seq<Agent>, was: map<string, Agent>, now: map<string, Agent>, id: string)
    requires BeatAs(env, req, xs, was, now, id) && id in was
    ensures now[id].relayId == was[id].relayId && now[id].sessionId == was[id].sessionId
    ensures now[id] == was[id] || exists k :: LastBeat(xs, k, id, was[id].sessionId) && now[id] == Beaten(env, was[id], xs[k])
  {
  }

  /** A heartbeat: the relay is seen, the counters of the tunnels it has connected and
      the load of its agents' sessions are the reported ones, and nothing else changes. */
  lemma HeartbeatOutcome(env: Env, s: State, req: Request)
    requires WellKeyed(s) && req.relayId != ""
    ensures var st := Step(env, s, HeartbeatOp(req));
            && RelaySeen(env, s, req.relayId, req.relay, st.relays)
            && (forall name :: CountedAs(req, req.tunnels, s.tunnels, st.tunnels, name))
            && (forall id :: BeatAs(env, req, req.agents, s.agents, st.agents, id))
  {
    hide ForEach, ApplyAll, CountedAs, BeatAs, RelaySeen, RelayReport, WellKeyed, CountersStep, AgentBeatStep;
    var es0 := RelayReport(env, s, req);
    var s0 := ApplyAll(s, es0);
    ReportOutcome(env, s, req);
    WellKeyedKept(s, es0);
    var es1 := ForEach(s0, req.tunnels, CountersStep(req));
    var s1 := ApplyAll(s0, es1);
    CountersLoop(s0, req, req.tunnels, "");
    var es2 := ForEach(s1, req.agents, AgentBeatStep(env, req));
    BeatLoop(env, s1, req, req.agents, "");
    ApplyAllAppend(s, es0, es1);
    ApplyAllAppend(s, es0 + es1, es2);
    forall name ensures CountedAs(req, req.tunnels, s.tunnels, Step(env, s, HeartbeatOp(req)).tunnels, name) {
      CountersLoop(s0, req, req.tunnels, name);
    }
    forall id ensures BeatAs(env, req, req.agents, s.agents, Step(env, s, HeartbeatOp(req)).agents, id) {
      BeatLoop(env, s1, req, req.agents, id);
    }
  }

  // ---------------------------------------------------------------------
  // AGENT_UP, AGENT_DOWN and commands
  // ---------------------------------------------------------------------

  /** An agent that names itself and its session is online through the relay from now
      on; one that does not, or is simulated where none are allowed, changes nothing. */
  lemma AgentUpOutcome(env: Env, s: State, req: Request)
    requires req.relayId != ""
    ensures var st := Step(env, s, AgentUpOp(req));
            if req.agent.None? || req.agent.value.agentId == "" || req.agent.value.sessionId == "" then
              st == s && AgentUpRefusal(env, req) == Some(Invalid)
            else if Left(env, req.agent.value.simulated) then st == s && AgentUpRefusal(env, req) == Some(Forbidden)
            else
              var a := req.agent.value;
              && AgentUpRefusal(env, req) == None
              && TablesOf(st) == TablesOf(s).(agents := s.agents[a.agentId :=
                   a.(relayId := req.relayId, state := Online, graceUntil := 0, reason := UnspecifiedReason,
                      connectedAt := if a.connectedAt == 0 then env.now else a.connectedAt, lastSeen := env.now, lastHeartbeat := env.now)])
  {
    hide AgentEvent, Apply;
    NothingApplied(s);
    if AgentUpRefusal(env, req).None? {
      var a := req.agent.value;
      AgentTables(s, a.(relayId := req.relayId, state := Online, graceUntil := 0, reason := UnspecifiedReason,
                        connectedAt := if a.connectedAt == 0 then env.now else a.connectedAt, lastSeen := env.now, lastHeartbeat := env.now));
    }
  }

  /** Only the agent's own relay and session take it down: for the grace period, or
      for good when its token was revoked. */
  lemma AgentDownOutcome(env: Env, s: State, req: Request)
    requires WellKeyed(s) && req.relayId != ""
    ensures var st, id := Step(env, s, AgentDownOp(req)), req.agentId;
            if id in s.agents && s.agents[id].relayId == req.relayId && s.agents[id].sessionId == req.sessionId then
              TablesOf(st) == TablesOf(s).(agents := s.agents[id :=
                if req.reason == TokenRevoked
                then s.agents[id].(state := Offline, reason := TokenRevoked, graceUntil := 0, lastSeen := env.now, activeStreams := 0)
                else s.agents[id].(state := AgentGrace, reason := req.reason, graceUntil := env.now + env.grace, lastSeen := env.now,
                                   activeStreams := 0)])
            else st == s
  {
    hide AgentEvent, Apply;
    NothingApplied(s);
    if req.agentId in s.agents { AgentTables(s, DownAgent(env, s.agents[req.agentId], req.reason)); }
  }

  /** Draining and resuming need a relay that is up, and change only its state;
      disconnecting an agent needs it online, disconnecting a tunnel needs it connected,
      and the command is sent to the relay that has it; a reannouncement is sent to all;
      nothing else is a command. */
  lemma CommandOutcome(env: Env, s: State, cmd: Command, pick: string)
    requires WellKeyed(s)
    ensures var st, r := Step(env, s, CommandOp(cmd, pick)), CommandResult(s, cmd, pick);
            && st.tunnels == s.tunnels && st.agents == s.agents
            && match cmd.kind
               case Drain | Resume =>
                 if cmd.relayId in s.relays && s.relays[cmd.relayId].state != Down then
                   && r == Ok(cmd)
                   && st.relays == s.relays[cmd.relayId := s.relays[cmd.relayId].(state := if cmd.kind == Drain then Draining else Ready)]
                 else r == Err(NotFound) && st.relays == s.relays
               case DisconnectAgent =>
                 && st.relays == s.relays
                 && r == if cmd.agentId in s.agents && s.agents[cmd.agentId].state == Online
                         then Ok(Command(DisconnectAgent, s.agents[cmd.agentId].relayId, cmd.agentId, cmd.tunnelId)) else Err(NotFound)
               case DisconnectTunnel =>
                 && st.relays == s.relays
                 && r == if pick in s.tunnels && s.tunnels[pick].tunnelId == cmd.tunnelId && s.tunnels[pick].state == Active
                         then Ok(Command(DisconnectTunnel, s.tunnels[pick].relayId, s.tunnels[pick].agentId, cmd.tunnelId)) else Err(NotFound)
               case Reannounce => st.relays == s.relays && r == Ok(cmd)
               case _ => st.relays == s.relays && r == Err(Unsupported)
  {
    hide RelayEvent, Apply;
    NothingApplied(s);
    match CommandResult(s, cmd, pick)
    case Err(_) =>
    case Ok(filled) =>
      ApplyOne(s, CommandSent(filled));
      CommandApplies(s, filled);
      if cmd.kind == Drain || cmd.kind == Resume {
        var e := RelayEvent(s, s.relays[cmd.relayId].(state := if cmd.kind == Drain then Draining else Ready));
        RelayTables(s, s.relays[cmd.relayId].(state := if cmd.kind == Drain then Draining else Ready));
        ApplyAllAppend(s, [e], [CommandSent(filled)]);
        ApplyOne(ApplyAll(s, [e]), CommandSent(filled));
        CommandApplies(ApplyAll(s, [e]), filled);
      } else {
        assert [] + [CommandSent(filled)] == [CommandSent(filled)];
      }
  }

  lemma CommandApplies(s: State, cmd: Command)
    ensures Apply(s, CommandSent(cmd)) == s
  {
  }

  /** A command is sent exactly when it is answered with one. */
  lemma CommandIsSent(s: State, cmd: Command, pick: string)
    ensures var r := CommandResult(s, cmd, pick);
            && (r.Err? ==> CommandEvents(s, cmd, pick) == [])
            && (r.Ok? ==> CommandEvents(s, cmd, pick) != [] &&
                          CommandEvents(s, cmd, pick)[|CommandEvents(s, cmd, pick)| - 1] == CommandSent(r.value))
  {
  }
}
