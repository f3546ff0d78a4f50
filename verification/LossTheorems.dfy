/** A relay that stops reporting is declared lost by the first sweep after its timeout,
    and by none before: over whole runs, in the times themselves. */
module LossTheorems {
  import opened Wrappers
  import opened Records
  import opened ClaimRules
  import opened Claims
  import opened ClaimTraces
  import opened ClaimTheorems
  import opened ReplayTheorems
  import opened SweepTheorems
  import opened HoldTheorems
  import opened Outcomes

  /** The relay reports itself: a heartbeat, or an announcement with a report. */
  predicate ReportsIn(env: Env, op: Op, id: string) {
    && (op.HeartbeatOp? || (op.AnnounceOp? && op.req.relay.Some? && !Left(env, op.req.relay.value.simulated)))
    && op.req.relayId == id
  }

  /** It is one the engine watches. */
  predicate Watched(op: Op)
    requires op.HeartbeatOp? || op.AnnounceOp?
  {
    op.req.relay.Some? ==> !op.req.relay.value.simulated
  }

  /** Up, and last seen at t. */
  predicate UpSince(s: State, id: string, t: int) {
    id in s.relays && !s.relays[id].simulated && s.relays[id].state != Down && s.relays[id].lastSeen == t
  }

  /** Down and last seen at t, or forgotten. */
  predicate DownSince(s: State, id: string, t: int) {
    id in s.relays ==> !s.relays[id].simulated && s.relays[id].state == Down && s.relays[id].lastSeen == t
  }

  lemma ReportIsSeen(env: Env, s: State, op: Op, id: string)
    requires WellKeyed(s) && ReportsIn(env, op, id) && Watched(op) && id != ""
    ensures UpSince(Step(env, s, op), id, env.now)
  {
    hide Step;
    if op.HeartbeatOp? {
      HeartbeatOutcome(env, s, op.req);
    } else {
      AnnouncedRelays(env, s, op.req, op.order);
    }
  }

  /** Nothing but its report, a sweep or an operator's drain or resume changes its row. */
  lemma OthersLeaveRelay(env: Env, s: State, op: Op, id: string)
    requires WellKeyed(s) && !ReportsIn(env, op, id) && !op.SweepOp?
    ensures var relays := Step(env, s, op).relays;
            && (id in relays <==> id in s.relays)
            && (id in s.relays ==>
                  relays[id] == s.relays[id] ||
                  (s.relays[id].state != Down && (relays[id] == s.relays[id].(state := Draining) || relays[id] == s.relays[id].(state := Ready))))
  {
    hide Step, RelaySeen, CountedAs, BeatAs;
    if Anonymous(op) {
      Unheard(env, s, op);
    } else {
      match op
      case ClaimOp(req) => ClaimAllOrNothing(env, s, req);
      case ParkOp(req) => ParkOutcome(env, s, req);
      case ReleaseOp(req) => ReleaseOutcome(env, s, req);
      case AnnounceOp(req, order) =>
        if req.relay.Some? && Left(env, req.relay.value.simulated) {
          RefusedChangesNothing(env, s, req, order);
        } else {
          AnnouncedRelays(env, s, req, order);
          if req.relay.Some? { SeenElsewhere(env, s, req, Step(env, s, op).relays, id); }
        }
      case HeartbeatOp(req) =>
        HeartbeatOutcome(env, s, req);
        SeenElsewhere(env, s, req, Step(env, s, op).relays, id);
      case AgentUpOp(req) => AgentUpOutcome(env, s, req);
      case AgentDownOp(req) => AgentDownOutcome(env, s, req);
      case CommandOp(cmd, pick) => CommandOutcome(env, s, cmd, pick);
    }
  }

  lemma Unheard(env: Env, s: State, op: Op)
    requires Anonymous(op)
    ensures Step(env, s, op) == s
  {
  }

  lemma RefusedChangesNothing(env: Env, s: State, req: Request, order: seq<string>)
    requires req.relay.Some? && Left(env, req.relay.value.simulated)
    ensures Step(env, s, AnnounceOp(req, order)) == s
  {
  }

  lemma SeenElsewhere(env: Env, s: State, req: Request, relays: map<string, Relay>, id: string)
    requires RelaySeen(env, s, req.relayId, req.relay, relays) && id != req.relayId
    ensures (id in relays <==> id in s.relays) && (id in s.relays ==> relays[id] == s.relays[id])
  {
  }

  /** A sweep that comes too late for the relay. */
  predicate Misses(env: Env, op: Op, t: int) { op.SweepOp? && env.now - env.relayTimeout > t }

  lemma StepFromUp(env: Env, s: State, op: Op, id: string, t: int)
    requires WellKeyed(s) && UpSince(s, id, t) && !ReportsIn(env, op, id) && (op.SweepOp? ==> ValidOrder(env, s, op.sweep))
    ensures Misses(env, op, t) ==> id in Step(env, s, op).relays && DownSince(Step(env, s, op), id, t)
    ensures !Misses(env, op, t) ==> UpSince(Step(env, s, op), id, t)
  {
    hide Step, ValidOrder, SweptTunnels, SweptAgents;
    if op.SweepOp? {
      SweepOutcome(env, s, op.sweep);
    } else {
      OthersLeaveRelay(env, s, op, id);
    }
  }

  lemma StepFromDown(env: Env, s: State, op: Op, id: string, t: int)
    requires WellKeyed(s) && DownSince(s, id, t) && !ReportsIn(env, op, id) && (op.SweepOp? ==> ValidOrder(env, s, op.sweep))
    ensures DownSince(Step(env, s, op), id, t)
  {
    hide Step, ValidOrder, SweptTunnels, SweptAgents;
    if op.SweepOp? {
      SweepOutcome(env, s, op.sweep);
    } else {
      OthersLeaveRelay(env, s, op, id);
    }
  }

  /** A run in which the relay is silent; its sweeps visit everything. */
  ghost predicate SilentRun(s: State, run: Run, id: string) {
    run == [] ||
    var init, (env, op) := run[..|run| - 1], run[|run| - 1];
    SilentRun(s, init, id) && !ReportsIn(env, op, id) && (op.SweepOp? ==> ValidOrder(env, Exec(s, init), op.sweep))
  }

  predicate Missed(run: Run, t: int) { exists i | 0 <= i < |run| :: Misses(run[i].0, run[i].1, t) }

  lemma MissedMore(run: Run, t: int)
    requires run != []
    ensures Missed(run, t) <==> Missed(run[..|run| - 1], t) || Misses(run[|run| - 1].0, run[|run| - 1].1, t)
  {
    var n := |run| - 1;
    if Missed(run[..n], t) {
      var i :| 0 <= i < n && Misses(run[..n][i].0, run[..n][i].1, t);
      assert run[i] == run[..n][i];
    }
    if Missed(run, t) {
      var i :| 0 <= i < |run| && Misses(run[i].0, run[i].1, t);
      if i < n { assert run[..n][i] == run[i]; }
    }
  }

  /** While it is silent, the relay is up until the first sweep at which its last report
      is older than the timeout, and down, then forgotten, from that sweep on. */
  lemma {:induction false} SilentRelay(s: State, run: Run, id: string, t: int)
    requires WellKeyed(s) && UpSince(s, id, t) && SilentRun(s, run, id)
    ensures WellKeyed(Exec(s, run))
    ensures if Missed(run, t) then DownSince(Exec(s, run), id, t) else UpSince(Exec(s, run), id, t)
  {
    hide Step, UpSince, DownSince, ReportsIn, ValidOrder, Misses, Missed, WellKeyed;
    if run == [] {
      NoneMissed(t);
    } else {
      var (env, op) := run[|run| - 1];
      var st := Exec(s, run[..|run| - 1]);
      SilentRelay(s, run[..|run| - 1], id, t);
      MissedMore(run, t);
      EventsLegal(env, st, op);
      if Missed(run[..|run| - 1], t) { StepFromDown(env, st, op, id, t); } else { StepFromUp(env, st, op, id, t); }
    }
  }

  lemma NoneMissed(t: int)
    ensures !Missed([], t)
  {
  }

  /** After the relay reported at one time, and whatever happened since but another
      report of it, a sweep at a later time takes it down exactly when the report is
      older than the timeout by then and no sweep took it down before. Then every tunnel
      it has connected is held for the grace period, or freed if that is over at once;
      otherwise each of them keeps its record. */
  lemma DownExactlyWhenSilent(at: Env, s: State, report: Op, run: Run, id: string, env: Env, order: SweepOrder, n: string)
    requires WellKeyed(s) && ReportsIn(at, report, id) && Watched(report) && id != ""
    requires SilentRun(Step(at, s, report), run, id)
    requires ValidOrder(env, Exec(Step(at, s, report), run), order)
    ensures var st := Exec(Step(at, s, report), run);
            var end := Step(env, st, SweepOp(order));
            var late := env.now - env.relayTimeout > at.now;
            && (Missed(run, at.now) ==> DownSince(end, id, at.now))
            && (!Missed(run, at.now) ==> id in end.relays && (end.relays[id].state == Down <==> late))
            && (!Missed(run, at.now) && n in st.tunnels && st.tunnels[n].relayId == id && st.tunnels[n].state == Active ==>
                  if late then
                    if n in end.tunnels then end.tunnels[n] == st.tunnels[n].(state := Grace, graceUntil := env.now + env.grace, activeConns := 0)
                    else env.grace <= 0
                  else n in end.tunnels && end.tunnels[n] == st.tunnels[n])
  {
    hide Step, ReportsIn, ValidOrder, Missed, Misses, SilentRun, Exec, WellKeyed;
    var s0 := Step(at, s, report);
    EventsLegal(at, s, report);
    ReportIsSeen(at, s, report, id);
    SilentRelay(s0, run, id, at.now);
    var st := Exec(s0, run);
    SweepOutcome(env, st, order);
  }
}
