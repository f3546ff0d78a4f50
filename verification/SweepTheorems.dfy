/** Sweep visits three maps in whatever order the runtime picks and changes
    them while it goes; its outcome does not depend on that order. */
module SweepTheorems {
  import opened Wrappers
  import opened Records
  import opened Claims
  import opened ClaimTraces
  import opened ReplayTheorems
  import opened IndexTheorems

  predicate NoDup<T(==)>(xs: seq<T>) { forall i, j | 0 <= i < j < |xs| :: xs[i] != xs[j] }

  function Elements<T>(xs: seq<T>): set<T> { set x | x in xs }

  function Ids(visits: seq<RelayVisit>): seq<string> { seq(|visits|, i requires 0 <= i < |visits| => visits[i].id) }

  /** The relay is up and was last seen longer ago than the timeout. */
  predicate LostIn(env: Env, s: State, id: string) {
    && id in s.relays && !s.relays[id].simulated && s.relays[id].state != Down
    && s.relays[id].lastSeen < env.now - env.relayTimeout
  }

  /** A lost relay's visit comes to every tunnel and every agent. */
  ghost predicate Covers(env: Env, s: State, v: RelayVisit) {
    LostIn(env, s, v.id) ==> Elements(v.tunnels) == s.tunnels.Keys && Elements(v.agents) == s.agents.Keys
  }

  /** The order visits every entry of every map exactly once. */
  ghost predicate ValidOrder(env: Env, s: State, order: SweepOrder) {
    && NoDup(Ids(order.relays)) && Elements(Ids(order.relays)) == s.relays.Keys
    && (forall v | v in order.relays :: Covers(env, s, v))
    && Elements(order.tunnels) == s.tunnels.Keys
    && NoDup(order.agents) && Elements(order.agents) == s.agents.Keys
  }

  // ---------------------------------------------------------------------
  // The outcome, entry by entry
  // ---------------------------------------------------------------------

  /** A connected tunnel of a lost relay is parked for the grace period. */
  function AfterLoss(env: Env, s: State, t: Tunnel): Tunnel {
    if t.state == Active && LostIn(env, s, t.relayId)
    then t.(state := Grace, graceUntil := env.now + env.grace, activeConns := 0) else t
  }

  /** Its grace period is over. */
  predicate Over(env: Env, t: Tunnel) { t.state == Grace && t.graceUntil <= env.now && !t.simulated }

  function SweptTunnels(env: Env, s: State): map<string, Tunnel> {
    map n | n in s.tunnels && !Over(env, AfterLoss(env, s, s.tunnels[n])) :: AfterLoss(env, s, s.tunnels[n])
  }

  function AgentAfterLoss(env: Env, s: State, a: Agent): Agent {
    if a.state == Online && LostIn(env, s, a.relayId)
    then a.(state := AgentGrace, reason := RelayLost, graceUntil := env.now + env.grace, lastSeen := env.now, activeStreams := 0)
    else a
  }

  predicate AgentDue(env: Env, a: Agent) { !a.simulated && a.state == AgentGrace && a.graceUntil <= env.now }

  predicate AgentForgotten(env: Env, a: Agent) {
    !a.simulated && a.state == Offline && a.lastSeen < env.now - env.offlineRetention
  }

  function AgedAgents(env: Env, agents: map<string, Agent>): map<string, Agent> {
    map id | id in agents && !AgentForgotten(env, agents[id]) ::
      if AgentDue(env, agents[id]) then agents[id].(state := Offline, graceUntil := 0) else agents[id]
  }

  function SweptAgents(env: Env, s: State): map<string, Agent> {
    AgedAgents(env, map id | id in s.agents :: AgentAfterLoss(env, s, s.agents[id]))
  }

  /** Down and last seen longer ago than the registry remembers it. */
  predicate LongDown(env: Env, r: Relay) { r.state == Down && r.lastSeen < env.now - env.downRetention && !r.simulated }

  function SweptRelays(env: Env, s: State): map<string, Relay> {
    map id | id in s.relays && !LongDown(env, s.relays[id]) ::
      if LostIn(env, s, id) then s.relays[id].(state := Down, sessions := 0, tunnels := 0) else s.relays[id]
  }

  // ---------------------------------------------------------------------
  // The loops
  // ---------------------------------------------------------------------

  /** One relay's connected tunnels parked, as far as names goes. */
  function ParkedOf(env: Env, tunnels: map<string, Tunnel>, id: string, names: set<string>): map<string, Tunnel> {
    map n | n in tunnels ::
      if n in names && tunnels[n].relayId == id && tunnels[n].state == Active
      then Parked(tunnels[n], env.now + env.grace) else tunnels[n]
  }

  lemma StoreTables(s: State, rec: Tunnel)
    ensures TablesOf(ApplyAll(s, [StoreEvent(s, rec)])) == TablesOf(s).(tunnels := s.tunnels[rec.name := rec])
  {
    ApplyOne(s, StoreEvent(s, rec));
  }

  lemma RemoveTables(s: State, rec: Tunnel)
    ensures TablesOf(ApplyAll(s, [TunnelChanged(rec, Deleted)])) == TablesOf(s).(tunnels := s.tunnels - {rec.name})
  {
    ApplyOne(s, TunnelChanged(rec, Deleted));
  }

  lemma AgentTables(s: State, a: Agent)
    ensures TablesOf(ApplyAll(s, [AgentEvent(s, a)])) == TablesOf(s).(agents := s.agents[a.agentId := a])
    ensures TablesOf(ApplyAll(s, [AgentChanged(a, Deleted)])) == TablesOf(s).(agents := s.agents - {a.agentId})
  {
    ApplyOne(s, AgentEvent(s, a));
    ApplyOne(s, AgentChanged(a, Deleted));
  }

  lemma RelayTables(s: State, r: Relay)
    ensures TablesOf(ApplyAll(s, [RelayEvent(s, r)])) == TablesOf(s).(relays := s.relays[r.relayId := r])
    ensures TablesOf(ApplyAll(s, [RelayChanged(r, Deleted)])) == TablesOf(s).(relays := s.relays - {r.relayId})
  {
    ApplyOne(s, RelayEvent(s, r));
    ApplyOne(s, RelayChanged(r, Deleted));
  }

  lemma ElementsAppend<T>(xs: seq<T>)
    requires xs != []
    ensures Elements(xs) == Elements(xs[..|xs| - 1]) + {xs[|xs| - 1]}
  {
    assert xs == xs[..|xs| - 1] + [xs[|xs| - 1]];
  }

  lemma ParkedOfMore(env: Env, tunnels: map<string, Tunnel>, id: string, names: set<string>, x: string)
    ensures var cur := ParkedOf(env, tunnels, id, names);
            ParkedOf(env, tunnels, id, names + {x}) ==
            if x in cur && cur[x].relayId == id && cur[x].state == Active then cur[x := Parked(cur[x], env.now + env.grace)] else cur
  {
  }

  lemma ParkOneMore(env: Env, st: State, tunnels: map<string, Tunnel>, id: string, names: set<string>, x: string)
    requires WellKeyed(st) && st.tunnels == ParkedOf(env, tunnels, id, names)
    ensures TablesOf(ApplyAll(st, LostTunnelStep(env, id)(st, x)))
            == TablesOf(st).(tunnels := ParkedOf(env, tunnels, id, names + {x}))
  {
    ParkedOfMore(env, tunnels, id, names, x);
    if LostTunnelStep(env, id)(st, x) != [] { StoreTables(st, Parked(st.tunnels[x], env.now + env.grace)); }
  }

  lemma {:induction false} LostTunnelsOutcome(env: Env, s: State, id: string, names: seq<string>)
    requires WellKeyed(s)
    ensures var st := ApplyAll(s, ForEach(s, names, LostTunnelStep(env, id)));
            WellKeyed(st) && TablesOf(st) == TablesOf(s).(tunnels := ParkedOf(env, s.tunnels, id, Elements(names)))
  {
    if names == [] {
      assert ParkedOf(env, s.tunnels, id, {}) == s.tunnels;
    } else {
      var init := names[..|names| - 1];
      LostTunnelsOutcome(env, s, id, init);
      var es := ForEach(s, init, LostTunnelStep(env, id));
      var st := ApplyAll(s, es);
      ParkOneMore(env, st, s.tunnels, id, Elements(init), names[|names| - 1]);
      ElementsAppend(names);
      ApplyAllAppend(s, es, LostTunnelStep(env, id)(st, names[|names| - 1]));
      WellKeyedKept(s, ForEach(s, names, LostTunnelStep(env, id)));
    }
  }

  function DownedOf(env: Env, agents: map<string, Agent>, id: string, ids: set<string>): map<string, Agent> {
    map a | a in agents ::
      if a in ids && agents[a].relayId == id && agents[a].state == Online
      then DownAgent(env, agents[a], RelayLost) else agents[a]
  }

  lemma DownedOfMore(env: Env, agents: map<string, Agent>, id: string, ids: set<string>, x: string)
    ensures var cur := DownedOf(env, agents, id, ids);
            DownedOf(env, agents, id, ids + {x}) ==
            if x in cur && cur[x].relayId == id && cur[x].state == Online then cur[x := DownAgent(env, cur[x], RelayLost)] else cur
  {
  }

  lemma DownOneMore(env: Env, st: State, agents: map<string, Agent>, id: string, ids: set<string>, x: string)
    requires WellKeyed(st) && st.agents == DownedOf(env, agents, id, ids)
    ensures TablesOf(ApplyAll(st, LostAgentStep(env, id)(st, x)))
            == TablesOf(st).(agents := DownedOf(env, agents, id, ids + {x}))
  {
    DownedOfMore(env, agents, id, ids, x);
    if LostAgentStep(env, id)(st, x) != [] { AgentTables(st, DownAgent(env, st.agents[x], RelayLost)); }
  }

  lemma {:induction false} LostAgentsOutcome(env: Env, s: State, id: string, ids: seq<string>)
    requires WellKeyed(s)
    ensures var st := ApplyAll(s, ForEach(s, ids, LostAgentStep(env, id)));
            WellKeyed(st) && TablesOf(st) == TablesOf(s).(agents := DownedOf(env, s.agents, id, Elements(ids)))
  {
    if ids == [] {
      assert DownedOf(env, s.agents, id, {}) == s.agents;
    } else {
      var init := ids[..|ids| - 1];
      LostAgentsOutcome(env, s, id, init);
      var es := ForEach(s, init, LostAgentStep(env, id));
      var st := ApplyAll(s, es);
      DownOneMore(env, st, s.agents, id, Elements(init), ids[|ids| - 1]);
      ElementsAppend(ids);
      ApplyAllAppend(s, es, LostAgentStep(env, id)(st, ids[|ids| - 1]));
      WellKeyedKept(s, ForEach(s, ids, LostAgentStep(env, id)));
    }
  }

  /** A lost relay is down, and everything it served is parked. */
  lemma LostOutcome(env: Env, s: State, v: RelayVisit)
    requires WellKeyed(s) && v.id in s.relays
    requires Elements(v.tunnels) == s.tunnels.Keys && Elements(v.agents) == s.agents.Keys
    ensures var st := ApplyAll(s, LostEvents(env, s, s.relays[v.id], v));
            && TablesOf(st) == Tables(ParkedOf(env, s.tunnels, v.id, s.tunnels.Keys),
                                      DownedOf(env, s.agents, v.id, s.agents.Keys),
                                      s.relays[v.id := s.relays[v.id].(state := Down, sessions := 0, tunnels := 0)])
  {
    var e := RelayEvent(s, s.relays[v.id].(state := Down, sessions := 0, tunnels := 0));
    ApplyOne(s, e);
    var s0 := ApplyAll(s, [e]);
    WellKeyedKept(s, [e]);
    LostTunnelsOutcome(env, s0, v.id, v.tunnels);
    var es1 := ForEach(s0, v.tunnels, LostTunnelStep(env, v.id));
    var s1 := ApplyAll(s0, es1);
    LostAgentsOutcome(env, s1, v.id, v.agents);
    ApplyAllAppend(s, [e], es1);
    ApplyAllAppend(s, [e] + es1, ForEach(s1, v.agents, LostAgentStep(env, v.id)));
  }

  // ---------------------------------------------------------------------
  // The relays
  // ---------------------------------------------------------------------

  /** The tables once the relays in ids have been visited. */
  function AfterRelays(env: Env, s: State, ids: set<string>): Tables {
    Tables(
      map n | n in s.tunnels ::
        if s.tunnels[n].relayId in ids then AfterLoss(env, s, s.tunnels[n]) else s.tunnels[n],
      map a | a in s.agents ::
        if s.agents[a].relayId in ids then AgentAfterLoss(env, s, s.agents[a]) else s.agents[a],
      map r | r in s.relays && !(r in ids && IsForgotten(env, s.relays[r])) ::
        if r in ids && IsLost(env, s.relays[r]) then s.relays[r].(state := Down, sessions := 0, tunnels := 0) else s.relays[r])
  }

  lemma LostStep(env: Env, s: State, ids: set<string>, id: string)
    requires id in s.relays && id !in ids && IsLost(env, s.relays[id])
    ensures var cur, next := AfterRelays(env, s, ids), AfterRelays(env, s, ids + {id});
            && next.tunnels == ParkedOf(env, cur.tunnels, id, cur.tunnels.Keys)
            && next.agents == DownedOf(env, cur.agents, id, cur.agents.Keys)
            && next.relays == cur.relays[id := s.relays[id].(state := Down, sessions := 0, tunnels := 0)]
  {
  }

  lemma KeptStep(env: Env, s: State, ids: set<string>, id: string)
    requires id in s.relays && id !in ids && !IsLost(env, s.relays[id])
    ensures var cur, next := AfterRelays(env, s, ids), AfterRelays(env, s, ids + {id});
            && next.tunnels == cur.tunnels && next.agents == cur.agents
            && next.relays == if IsForgotten(env, s.relays[id]) then cur.relays - {id} else cur.relays
  {
  }

  lemma OneMoreRelay(env: Env, s: State, st: State, ids: set<string>, v: RelayVisit)
    requires WellKeyed(st) && TablesOf(st) == AfterRelays(env, s, ids) && v.id in s.relays && v.id !in ids
    requires Covers(env, s, v)
    ensures TablesOf(ApplyAll(st, SweepRelayStep(env)(st, v))) == AfterRelays(env, s, ids + {v.id})
  {
    assert st.relays == AfterRelays(env, s, ids).relays;
    assert v.id in st.relays && st.relays[v.id] == s.relays[v.id];
    if IsLost(env, s.relays[v.id]) {
      LostStep(env, s, ids, v.id);
      LostOutcome(env, st, v);
    } else {
      KeptStep(env, s, ids, v.id);
      RelayTables(st, st.relays[v.id]);
    }
  }

  lemma NoRelays(env: Env, s: State)
    ensures AfterRelays(env, s, {}) == TablesOf(s)
  {
    var none := AfterRelays(env, s, {});
    assert none.tunnels == s.tunnels && none.agents == s.agents && none.relays == s.relays;
  }

  lemma {:induction false} RelaysOutcome(env: Env, s: State, visits: seq<RelayVisit>)
    requires WellKeyed(s) && NoDup(Ids(visits))
    requires forall v | v in visits :: v.id in s.relays && Covers(env, s, v)
    ensures var st := ApplyAll(s, ForEach(s, visits, SweepRelayStep(env)));
            WellKeyed(st) && TablesOf(st) == AfterRelays(env, s, Elements(Ids(visits)))
  {
    hide AfterRelays, SweepRelayStep, Covers, WellKeyed;
    if visits == [] {
      assert Elements(Ids(visits)) == {};
      NoRelays(env, s);
    } else {
      var init, v := visits[..|visits| - 1], visits[|visits| - 1];
      assert Ids(visits)[..|visits| - 1] == Ids(init);
      RelaysOutcome(env, s, init);
      var es := ForEach(s, init, SweepRelayStep(env));
      var st := ApplyAll(s, es);
      assert v.id == Ids(visits)[|visits| - 1];
      assert v.id !in Elements(Ids(init));
      OneMoreRelay(env, s, st, Elements(Ids(init)), v);
      ElementsAppend(Ids(visits));
      ApplyAllAppend(s, es, SweepRelayStep(env)(st, v));
      WellKeyedKept(s, ForEach(s, visits, SweepRelayStep(env)));
    }
  }

  // ---------------------------------------------------------------------
  // The tunnels and the agents
  // ---------------------------------------------------------------------

  function Unexpired(env: Env, tunnels: map<string, Tunnel>, names: set<string>): map<string, Tunnel> {
    map n | n in tunnels && !(n in names && IsExpired(env, tunnels[n])) :: tunnels[n]
  }

  lemma ExpireOneMore(env: Env, st: State, tunnels: map<string, Tunnel>, names: set<string>, x: string)
    requires WellKeyed(st) && st.tunnels == Unexpired(env, tunnels, names)
    ensures TablesOf(ApplyAll(st, SweepTunnelStep(env)(st, x)))
            == TablesOf(st).(tunnels := Unexpired(env, tunnels, names + {x}))
  {
    assert Unexpired(env, tunnels, names + {x}) ==
      if x in st.tunnels && IsExpired(env, st.tunnels[x]) then st.tunnels - {x} else st.tunnels;
    if SweepTunnelStep(env)(st, x) != [] { RemoveTables(st, st.tunnels[x]); }
  }

  lemma {:induction false} ExpiryOutcome(env: Env, s: State, names: seq<string>)
    requires WellKeyed(s)
    ensures var st := ApplyAll(s, ForEach(s, names, SweepTunnelStep(env)));
            WellKeyed(st) && TablesOf(st) == TablesOf(s).(tunnels := Unexpired(env, s.tunnels, Elements(names)))
  {
    if names == [] {
      assert Unexpired(env, s.tunnels, {}) == s.tunnels;
    } else {
      var init := names[..|names| - 1];
      ExpiryOutcome(env, s, init);
      var es := ForEach(s, init, SweepTunnelStep(env));
      var st := ApplyAll(s, es);
      ExpireOneMore(env, st, s.tunnels, Elements(init), names[|names| - 1]);
      ElementsAppend(names);
      ApplyAllAppend(s, es, SweepTunnelStep(env)(st, names[|names| - 1]));
      WellKeyedKept(s, ForEach(s, names, SweepTunnelStep(env)));
    }
  }

  function AgedOf(env: Env, agents: map<string, Agent>, ids: set<string>): map<string, Agent> {
    map a | a in agents && !(a in ids && AgentForgotten(env, agents[a])) ::
      if a in ids && AgentDue(env, agents[a]) then agents[a].(state := Offline, graceUntil := 0) else agents[a]
  }

  lemma AgedOfMore(env: Env, agents: map<string, Agent>, ids: set<string>, x: string)
    requires x !in ids
    ensures var cur := AgedOf(env, agents, ids);
            AgedOf(env, agents, ids + {x}) ==
            if x !in cur then cur
            else if AgentForgotten(env, cur[x]) then cur - {x}
            else if AgentDue(env, cur[x]) then cur[x := cur[x].(state := Offline, graceUntil := 0)]
            else cur
  {
    var cur := AgedOf(env, agents, ids);
    assert x in cur <==> x in agents;
    assert x in cur ==> cur[x] == agents[x];
  }

  lemma AgeOneMore(env: Env, st: State, agents: map<string, Agent>, ids: set<string>, x: string)
    requires WellKeyed(st) && st.agents == AgedOf(env, agents, ids) && x !in ids
    ensures TablesOf(ApplyAll(st, SweepAgentStep(env)(st, x)))
            == TablesOf(st).(agents := AgedOf(env, agents, ids + {x}))
  {
    AgedOfMore(env, agents, ids, x);
    AgeStep(env, st, x);
  }

  lemma AgeStep(env: Env, st: State, x: string)
    requires WellKeyed(st)
    ensures TablesOf(ApplyAll(st, SweepAgentStep(env)(st, x))) == TablesOf(st).(agents :=
              if x !in st.agents then st.agents
              else if AgentForgotten(env, st.agents[x]) then st.agents - {x}
              else if AgentDue(env, st.agents[x]) then st.agents[x := st.agents[x].(state := Offline, graceUntil := 0)]
              else st.agents)
  {
    if x in st.agents && AgentForgotten(env, st.agents[x]) {
      AgentTables(st, st.agents[x]);
    } else if x in st.agents && AgentDue(env, st.agents[x]) {
      AgentTables(st, st.agents[x].(state := Offline, graceUntil := 0));
    } else {
      assert SweepAgentStep(env)(st, x) == [];
    }
  }

  lemma {:induction false} AgingOutcome(env: Env, s: State, ids: seq<string>)
    requires WellKeyed(s) && NoDup(ids)
    ensures var st := ApplyAll(s, ForEach(s, ids, SweepAgentStep(env)));
            TablesOf(st) == TablesOf(s).(agents := AgedOf(env, s.agents, Elements(ids)))
  {
    if ids == [] {
      assert AgedOf(env, s.agents, {}) == s.agents;
    } else {
      var init := ids[..|ids| - 1];
      AgingOutcome(env, s, init);
      var es := ForEach(s, init, SweepAgentStep(env));
      var st := ApplyAll(s, es);
      WellKeyedKept(s, es);
      assert ids[|ids| - 1] !in Elements(init);
      AgeOneMore(env, st, s.agents, Elements(init), ids[|ids| - 1]);
      ElementsAppend(ids);
      ApplyAllAppend(s, es, SweepAgentStep(env)(st, ids[|ids| - 1]));
    }
  }

  // ---------------------------------------------------------------------
  // The theorem
  // ---------------------------------------------------------------------

  /** Whatever the order, Sweep parks what a lost relay served, frees exactly the
      expired names, and ages agents and relays one stage. */
  lemma SweepOutcome(env: Env, s: State, order: SweepOrder)
    requires WellKeyed(s) && ValidOrder(env, s, order)
    ensures TablesOf(Step(env, s, SweepOp(order))) == Tables(SweptTunnels(env, s), SweptAgents(env, s), SweptRelays(env, s))
  {
    hide SweepRelayStep, SweepTunnelStep, SweepAgentStep;
    var s0 := ApplyAll(s, ForEach(s, order.relays, SweepRelayStep(env)));
    assert WellKeyed(s0) && TablesOf(s0) == AfterRelays(env, s, s.relays.Keys) by {
      OrderVisitsRelays(env, s, order);
      RelaysOutcome(env, s, order.relays);
    }
    var s1 := ApplyAll(s0, ForEach(s0, order.tunnels, SweepTunnelStep(env)));
    assert WellKeyed(s1) && TablesOf(s1) == TablesOf(s0).(tunnels := Unexpired(env, s0.tunnels, s.tunnels.Keys)) by {
      ExpiryOutcome(env, s0, order.tunnels);
    }
    var s2 := ApplyAll(s1, ForEach(s1, order.agents, SweepAgentStep(env)));
    assert TablesOf(s2) == TablesOf(s1).(agents := AgedOf(env, s1.agents, s.agents.Keys)) by {
      AgingOutcome(env, s1, order.agents);
    }
    AllRelaysVisited(env, s);
    SweepPhases(env, s, order);
  }

  lemma SweepPhases(env: Env, s: State, order: SweepOrder)
    ensures var s0 := ApplyAll(s, ForEach(s, order.relays, SweepRelayStep(env)));
            var s1 := ApplyAll(s0, ForEach(s0, order.tunnels, SweepTunnelStep(env)));
            Step(env, s, SweepOp(order)) == ApplyAll(s1, ForEach(s1, order.agents, SweepAgentStep(env)))
  {
    hide ForEach, ApplyAll, Apply;
    var es0 := ForEach(s, order.relays, SweepRelayStep(env));
    var s0 := ApplyAll(s, es0);
    var es1 := ForEach(s0, order.tunnels, SweepTunnelStep(env));
    ApplyAllAppend(s, es0, es1);
    ApplyAllAppend(s, es0 + es1, ForEach(ApplyAll(s0, es1), order.agents, SweepAgentStep(env)));
  }

  lemma OrderVisitsRelays(env: Env, s: State, order: SweepOrder)
    requires ValidOrder(env, s, order)
    ensures forall v | v in order.relays :: v.id in s.relays
  {
    forall v | v in order.relays ensures v.id in s.relays {
      var i :| 0 <= i < |order.relays| && order.relays[i] == v;
      assert Ids(order.relays)[i] == v.id;
      assert v.id in Elements(Ids(order.relays));
    }
  }

  lemma OverIs(env: Env, t: Tunnel)
    ensures Over(env, t) <==> IsExpired(env, t)
  {
  }

  lemma LongDownIs(env: Env, r: Relay)
    ensures LongDown(env, r) <==> IsForgotten(env, r)
  {
  }

  lemma AllRelaysVisited(env: Env, s: State)
    ensures var mid := AfterRelays(env, s, s.relays.Keys);
            && Unexpired(env, mid.tunnels, s.tunnels.Keys) == SweptTunnels(env, s)
            && AgedOf(env, mid.agents, s.agents.Keys) == SweptAgents(env, s)
            && mid.relays == SweptRelays(env, s)
  {
    hide IsExpired, AgentDue, AgentForgotten, IsForgotten, Over, LongDown, AfterLoss, AgentAfterLoss;
    forall t: Tunnel ensures Over(env, t) <==> IsExpired(env, t) { OverIs(env, t); }
    forall r: Relay ensures LongDown(env, r) <==> IsForgotten(env, r) { LongDownIs(env, r); }
    AllTunnelsAndAgents(env, s);
    var mid := AfterRelays(env, s, s.relays.Keys);
    var agents := map a | a in s.agents :: AgentAfterLoss(env, s, s.agents[a]);
    assert mid.relays == SweptRelays(env, s);
    assert AgedOf(env, agents, s.agents.Keys) == AgedAgents(env, agents);
  }

  /** Once every relay was visited, every tunnel and agent of a lost one is down. */
  lemma AllTunnelsAndAgents(env: Env, s: State)
    ensures var mid := AfterRelays(env, s, s.relays.Keys);
            && mid.tunnels == (map n | n in s.tunnels :: AfterLoss(env, s, s.tunnels[n]))
            && mid.agents == (map a | a in s.agents :: AgentAfterLoss(env, s, s.agents[a]))
  {
  }

  /** Sound and complete indexes are determined by the tunnels. */
  lemma IndexesDetermined(s: State, t: State)
    requires s.tunnels == t.tunnels && Sound(s) && Sound(t) && Complete(s) && Complete(t)
    ensures s.byPort == t.byPort && s.byDomain == t.byDomain
  {
    assert forall p | p in s.byPort :: p in t.byPort && s.byPort[p] == t.byPort[p];
    assert forall p | p in t.byPort :: p in s.byPort;
    assert forall d | d in s.byDomain :: d in t.byDomain && s.byDomain[d] == t.byDomain[d];
    assert forall d | d in t.byDomain :: d in s.byDomain;
  }

  /** Two sweeps of the same state that visit the maps in different orders leave
      the engine in the same state, indexes included. */
  lemma SweepIsOrderIndependent(env: Env, s: State, order: SweepOrder, other: SweepOrder)
    requires Sound(s) && Complete(s) && ValidOrder(env, s, order) && ValidOrder(env, s, other)
    ensures Step(env, s, SweepOp(order)) == Step(env, s, SweepOp(other))
  {
    SweepOutcome(env, s, order);
    SweepOutcome(env, s, other);
    SweepKeepsIndexes(env, s, order);
    SweepKeepsIndexes(env, s, other);
    IndexesDetermined(Step(env, s, SweepOp(order)), Step(env, s, SweepOp(other)));
  }

  lemma SweepKeepsIndexes(env: Env, s: State, order: SweepOrder)
    requires Sound(s) && Complete(s)
    ensures Sound(Step(env, s, SweepOp(order))) && Complete(Step(env, s, SweepOp(order)))
  {
    var es := Events(env, s, SweepOp(order));
    EventsLegal(env, s, SweepOp(order));
    SoundKept(s, es);
    CompleteKept(env, SweepOp(order), s, es);
  }
}
