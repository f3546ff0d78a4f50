/** What one claim does: all or nothing, the port it assigns, the commands it
    sends and the token's cap. */
module ClaimTheorems {
  import opened Wrappers
  import opened Records
  import opened ClaimRules
  import opened Claims
  import opened ClaimTraces

  // ---------------------------------------------------------------------
  // All or nothing
  // ---------------------------------------------------------------------

  lemma {:induction false} CommandsChangeNothing(st: State, s: State, req: Request, specs: seq<Tunnel>)
    ensures ApplyAll(st, TakeoverCommands(s, req, specs)) == st
  {
    if specs != [] {
      CommandsChangeNothing(st, s, req, specs[..|specs| - 1]);
      var es := TakeoverCommands(s, req, specs[..|specs| - 1]);
      if TakesOver(s, req, specs[|specs| - 1].name) {
        var cur := s.tunnels[specs[|specs| - 1].name];
        var e := CommandSent(Command(TakenOver, cur.relayId, cur.agentId, cur.tunnelId));
        ApplyAllAppend(st, es, [e]);
        ApplyOne(st, e);
      } else {
        assert es + [] == es;
      }
    }
  }

  /** The records with recs written over them, in order. */
  function Overlay(tunnels: map<string, Tunnel>, recs: seq<Tunnel>): map<string, Tunnel> {
    if recs == [] then tunnels else Overlay(tunnels, recs[..|recs| - 1])[recs[|recs| - 1].name := recs[|recs| - 1]]
  }

  lemma {:induction false} StoreAllOverlays(s: State, recs: seq<Tunnel>)
    ensures StoreAll(s, recs).tunnels == Overlay(s.tunnels, recs)
    ensures StoreAll(s, recs).agents == s.agents && StoreAll(s, recs).relays == s.relays
  {
    if recs != [] { StoreAllOverlays(s, recs[..|recs| - 1]); }
  }

  lemma NamesOfAppend(recs: seq<Tunnel>, last: Tunnel)
    ensures NamesOf(recs + [last]) == NamesOf(recs) + {last.name}
  {
    forall n | n in NamesOf(recs) + {last.name} ensures n in NamesOf(recs + [last]) {
      if n in NamesOf(recs) {
        var t :| t in recs && t.name == n;
        assert t in recs + [last];
      } else {
        assert last in recs + [last];
      }
    }
  }

  lemma {:induction false} OverlayKeys(tunnels: map<string, Tunnel>, recs: seq<Tunnel>)
    ensures Overlay(tunnels, recs).Keys == tunnels.Keys + NamesOf(recs)
  {
    if recs != [] {
      var init, last := recs[..|recs| - 1], recs[|recs| - 1];
      OverlayKeys(tunnels, init);
      NamesOfAppend(init, last);
      assert recs == init + [last];
    }
  }

  lemma {:induction false} OverlayElsewhere(tunnels: map<string, Tunnel>, recs: seq<Tunnel>, n: string)
    requires n in tunnels && forall i | 0 <= i < |recs| :: recs[i].name != n
    ensures n in Overlay(tunnels, recs) && Overlay(tunnels, recs)[n] == tunnels[n]
  {
    if recs != [] { OverlayElsewhere(tunnels, recs[..|recs| - 1], n); }
  }

  lemma {:induction false} OverlayAt(tunnels: map<string, Tunnel>, recs: seq<Tunnel>, i: nat)
    requires i < |recs| && forall j | i < j < |recs| :: recs[i].name != recs[j].name
    ensures recs[i].name in Overlay(tunnels, recs) && Overlay(tunnels, recs)[recs[i].name] == recs[i]
  {
    if i < |recs| - 1 { OverlayAt(tunnels, recs[..|recs| - 1], i); }
  }

  /** Distinct names: each record under its own, the rest as before. */
  lemma OverlayTunnels(tunnels: map<string, Tunnel>, recs: seq<Tunnel>)
    requires forall i, j | 0 <= i < j < |recs| :: recs[i].name != recs[j].name
    ensures var st := Overlay(tunnels, recs);
            && st.Keys == tunnels.Keys + NamesOf(recs)
            && (forall i | 0 <= i < |recs| :: recs[i].name in st && st[recs[i].name] == recs[i])
            && (forall n | n in tunnels && n !in NamesOf(recs) :: st[n] == tunnels[n])
  {
    OverlayKeys(tunnels, recs);
    forall i | 0 <= i < |recs| ensures Overlay(tunnels, recs)[recs[i].name] == recs[i] { OverlayAt(tunnels, recs, i); }
    forall n | n in tunnels && n !in NamesOf(recs) ensures Overlay(tunnels, recs)[n] == tunnels[n] {
      OverlayElsewhere(tunnels, recs, n);
    }
  }

  /** The names of one claim are distinct. */
  lemma ClaimableDistinct(env: Env, s: State, req: Request, recs: seq<Tunnel>)
    requires Claimable(env, s, req, recs)
    ensures forall i, j | 0 <= i < j < |recs| :: recs[i].name != recs[j].name
  {
    forall i, j | 0 <= i < j < |recs| ensures recs[i].name != recs[j].name {
      ClaimableApart(env, s, req, recs, i, j);
    }
  }

  /** A claim changes nothing and reports nothing, or it stores exactly one
      connected record of the claiming session per requested tunnel, in the
      order of the request, and touches no other record. */
  lemma ClaimAllOrNothing(env: Env, s: State, req: Request)
    requires req.relayId != ""
    ensures var r, st := ClaimResult(env, s, req), Step(env, s, ClaimOp(req));
            match r
            case Err(_) => st == s && Events(env, s, ClaimOp(req)) == []
            case Ok(recs) =>
              && |recs| == |req.tunnels|
              && (forall i | 0 <= i < |recs| ::
                    && recs[i] == Granted(env, req, req.tunnels[i], recs[i].publicPort)
                    && recs[i].name in st.tunnels && st.tunnels[recs[i].name] == recs[i])
              && st.tunnels.Keys == s.tunnels.Keys + NamesOf(recs)
              && (forall n | n in s.tunnels && n !in NamesOf(recs) :: st.tunnels[n] == s.tunnels[n])
              && st.agents == s.agents && st.relays == s.relays
  {
    if ClaimResult(env, s, req).Ok? {
      var recs := ClaimResult(env, s, req).value;
      ClaimableRecords(env, s, req);
      ClaimableDistinct(env, s, req, recs);
      StoreAllOverlays(s, recs);
      OverlayTunnels(s.tunnels, recs);
      ClaimStores(env, s, req);
      forall i | 0 <= i < |recs| ensures recs[i] == Granted(env, req, req.tunnels[i], recs[i].publicPort) {
        assert Grantable(env, s, req, recs[..i], req.tunnels[i], recs[i]);
      }
    }
  }

  lemma ClaimStores(env: Env, s: State, req: Request)
    requires req.relayId != "" && ClaimResult(env, s, req).Ok?
    ensures Step(env, s, ClaimOp(req)) == StoreAll(s, ClaimResult(env, s, req).value)
  {
    var recs := ClaimResult(env, s, req).value;
    var es := ForEach(s, recs, StoreStep());
    ApplyAllAppend(s, es, TakeoverCommands(s, req, req.tunnels));
    StoreAllEvents(s, recs);
    CommandsChangeNothing(ApplyAll(s, es), s, req, req.tunnels);
  }

  lemma ClaimResultOfOne(env: Env, s: State, req: Request, spec: Tunnel, rec: Tunnel)
    requires req.agentId != "" && req.tokenId != "" && req.sessionId != ""
    requires req.tunnels == [spec] && Check(env, s, req, [], spec) == Ok(rec)
    ensures ClaimResult(env, s, req) == Ok([rec])
  {
    hide Check;
    assert [spec][..0] == [] && [] + [rec] == [rec];
    assert Stage(env, s, req, [spec][..0]) == Ok([]);
  }

  lemma StoresOne(s: State, rec: Tunnel)
    ensures ForEach(s, [rec], StoreStep()) == [StoreEvent(s, rec)]
  {
    hide StoreEvent, Apply;
    assert [rec][..0] == [];
    assert ForEach(s, [rec][..0], StoreStep()) == [];
    assert ApplyAll(s, []) == s;
    assert [] + [StoreEvent(s, rec)] == [StoreEvent(s, rec)];
  }

  /** A granted claim of one tunnel that no other relay serves. */
  lemma ClaimOfOne(env: Env, s: State, req: Request, spec: Tunnel, rec: Tunnel)
    requires req.relayId != "" && req.agentId != "" && req.tokenId != "" && req.sessionId != ""
    requires req.tunnels == [spec] && Check(env, s, req, [], spec) == Ok(rec) && !TakesOver(s, req, spec.name)
    ensures ClaimResult(env, s, req) == Ok([rec])
    ensures Events(env, s, ClaimOp(req)) == [StoreEvent(s, rec)] && Step(env, s, ClaimOp(req)) == Stored(s, rec)
  {
    hide Check, TakesOver, Stored, StoreEvent, Apply, ApplyAll, ForEach, ClaimResult;
    ClaimResultOfOne(env, s, req, spec, rec);
    StoresOne(s, rec);
    assert [spec][..0] == [];
    assert TakeoverCommands(s, req, [spec][..0]) == [];
    assert [StoreEvent(s, rec)] + [] == [StoreEvent(s, rec)];
    ApplyOne(s, StoreEvent(s, rec));
    StoreEventStores(s, rec);
  }

  // ---------------------------------------------------------------------
  // The port
  // ---------------------------------------------------------------------

  lemma {:induction false} FirstFreeIsLowest(env: Env, s: State, recs: seq<Tunnel>, name: string, lo: int, hi: int)
    ensures match FirstFree(env, s, recs, name, lo, hi)
            case None => forall q | lo <= q <= hi :: !PortFree(env, s, recs, name, q)
            case Some(p) =>
              lo <= p <= hi && PortFree(env, s, recs, name, p) && forall q | lo <= q < p :: !PortFree(env, s, recs, name, q)
    decreases hi - lo
  {
    if lo <= hi && !PortFree(env, s, recs, name, lo) {
      FirstFreeIsLowest(env, s, recs, name, lo + 1, hi);
    }
  }

  /** The port is the first of: requested, reserved, held, previous if free,
      lowest free in the token's range. Nothing is free exactly when nothing
      was asked for outright and every port of the range is taken. */
  lemma PortChoice(env: Env, s: State, req: Request, recs: seq<Tunnel>, spec: Tunnel)
    ensures var r := ChoosePort(env, s, req, recs, spec);
            var lo, hi := LowPort(env, req), HighPort(env, req);
            var resv := ReservationOf(env.reservations, spec.name);
            var reserved := if resv.Some? then resv.value.publicPort else 0;
            var held := if spec.name in s.tunnels then s.tunnels[spec.name].publicPort else 0;
            var asked := spec.publicPort != 0 || reserved != 0 || held != 0;
            && (r.Ok? ==>
                  && PortFree(env, s, recs, spec.name, r.value)
                  && (spec.publicPort != 0 ==> r.value == spec.publicPort)
                  && (spec.publicPort == 0 && reserved != 0 ==> r.value == reserved)
                  && (spec.publicPort == 0 && reserved == 0 && held != 0 ==> r.value == held)
                  && (asked ==> env.rules.portMin <= r.value <= env.rules.portMax)
                  && (!asked ==> lo <= r.value <= hi)
                  && (!asked && lo <= spec.previousPort <= hi && PortFree(env, s, recs, spec.name, spec.previousPort) ==>
                        r.value == spec.previousPort)
                  && (!asked && r.value != spec.previousPort ==>
                        forall q | lo <= q < r.value :: !PortFree(env, s, recs, spec.name, q)))
            && (r == Err(NoneFree) <==> !asked && forall q | lo <= q <= hi :: !PortFree(env, s, recs, spec.name, q))
  {
    FirstFreeIsLowest(env, s, recs, spec.name, LowPort(env, req), HighPort(env, req));
  }

  // ---------------------------------------------------------------------
  // Takeovers
  // ---------------------------------------------------------------------

  /** The requested names that replace a tunnel connected through another relay. */
  function TakenNames(s: State, req: Request, specs: seq<Tunnel>): seq<string> {
    if specs == [] then [] else
      var name := specs[|specs| - 1].name;
      TakenNames(s, req, specs[..|specs| - 1]) + if TakesOver(s, req, name) then [name] else []
  }

  function TakenOverCommand(s: State, name: string): Event
    requires name in s.tunnels
  {
    CommandSent(Command(TakenOver, s.tunnels[name].relayId, s.tunnels[name].agentId, s.tunnels[name].tunnelId))
  }

  /** A tunnel with a port to have is never refused for its port. */
  lemma NotRefusedForPort(env: Env, s: State, req: Request, recs: seq<Tunnel>, spec: Tunnel)
    requires spec.name in NamesOf(recs) || ChoosePort(env, s, req, recs, spec).Ok?
    ensures Check(env, s, req, recs, spec) !in {Err(PortUnavailable), Err(PortNotAllowed)}
  {
    hide ChoosePort, DomainsFree, ReservationOf, HolderRefusal, NamesOf;
    NameIsNotPort(s, req, recs, spec);
  }

  lemma NameIsNotPort(s: State, req: Request, recs: seq<Tunnel>, spec: Tunnel)
    ensures HolderRefusal(s, req, recs, spec) !in {Some(PortUnavailable), Some(PortNotAllowed)}
  {
    hide ActiveCount, HolderOf;
  }

  lemma {:induction false} CommandsMatchNames(s: State, req: Request, specs: seq<Tunnel>)
    requires forall i, j | 0 <= i < j < |specs| :: specs[i].name != specs[j].name
    ensures var es, ns := TakeoverCommands(s, req, specs), TakenNames(s, req, specs);
            && |es| == |ns|
            && (forall i | 0 <= i < |ns| :: ns[i] in s.tunnels && es[i] == TakenOverCommand(s, ns[i]))
            && (forall i, j | 0 <= i < j < |ns| :: ns[i] != ns[j])
            && (forall n :: n in ns <==> TakesOver(s, req, n) && n in NamesOf(specs))
  {
    if specs != [] {
      var init, last := specs[..|specs| - 1], specs[|specs| - 1];
      CommandsMatchNames(s, req, init);
      assert specs == init + [last];
      NamesOfAppend(init, last);
      assert last.name !in NamesOf(init);
      var ns := TakenNames(s, req, specs);
      assert forall n :: n in ns <==> n in TakenNames(s, req, init) || (n == last.name && TakesOver(s, req, n));
    }
  }

  lemma {:induction false} StoreEventsAreNoCommands(s: State, recs: seq<Tunnel>)
    ensures forall e | e in ForEach(s, recs, StoreStep()) :: e.TunnelChanged?
  {
    if recs != [] { StoreEventsAreNoCommands(s, recs[..|recs| - 1]); }
  }

  lemma ClaimedNamesDistinct(env: Env, s: State, req: Request)
    requires ClaimResult(env, s, req).Ok?
    ensures forall i, j | 0 <= i < j < |req.tunnels| :: req.tunnels[i].name != req.tunnels[j].name
  {
    var recs := ClaimResult(env, s, req).value;
    ClaimableRecords(env, s, req);
    forall i, j | 0 <= i < j < |req.tunnels| ensures req.tunnels[i].name != req.tunnels[j].name {
      ClaimableApart(env, s, req, recs, i, j);
      assert Grantable(env, s, req, recs[..i], req.tunnels[i], recs[i]);
      assert Grantable(env, s, req, recs[..j], req.tunnels[j], recs[j]);
    }
  }

  /** A granted claim sends one TAKEN_OVER command for each tunnel it replaces
      that is still connected through another relay, addressed to that relay,
      and no other command. */
  lemma OneCommandPerTakeover(env: Env, s: State, req: Request)
    requires req.relayId != "" && ClaimResult(env, s, req).Ok?
    ensures var stores := ForEach(s, ClaimResult(env, s, req).value, StoreStep());
            var cmds, names := TakeoverCommands(s, req, req.tunnels), TakenNames(s, req, req.tunnels);
            && Events(env, s, ClaimOp(req)) == stores + cmds
            && (forall e | e in stores :: e.TunnelChanged?)
            && |cmds| == |names|
            && (forall i | 0 <= i < |names| :: names[i] in s.tunnels && cmds[i] == TakenOverCommand(s, names[i]))
            && (forall i, j | 0 <= i < j < |names| :: names[i] != names[j])
            && (forall n :: n in names <==>
                  n in s.tunnels && s.tunnels[n].state == Active && s.tunnels[n].relayId != req.relayId && exists t :: t in req.tunnels && t.name == n)
  {
    ClaimedNamesDistinct(env, s, req);
    CommandsMatchNames(s, req, req.tunnels);
    StoreEventsAreNoCommands(s, ClaimResult(env, s, req).value);
  }

  // ---------------------------------------------------------------------
  // The cap
  // ---------------------------------------------------------------------

  lemma {:induction false} NamesOfSize(recs: seq<Tunnel>)
    ensures |NamesOf(recs)| <= |recs|
  {
    if recs != [] {
      var init, last := recs[..|recs| - 1], recs[|recs| - 1];
      NamesOfSize(init);
      assert recs == init + [last];
      NamesOfAppend(init, last);
    }
  }

  lemma SubsetSize<T>(a: set<T>, b: set<T>)
    requires a <= b
    ensures |a| <= |b|
  {
    assert b == a + (b - a);
  }

  lemma CheckUnderCap(env: Env, s: State, req: Request, recs: seq<Tunnel>, spec: Tunnel)
    requires Check(env, s, req, recs, spec).Ok? && req.maxTunnels > 0
    ensures ActiveCount(s, req.tokenId, spec.name, recs) < req.maxTunnels
  {
    hide ChoosePort, DomainsFree, ReservationOf, ActiveCount, NamesOf, HolderOf;
  }

  lemma ActiveAfterClaim(env: Env, s: State, req: Request)
    requires req.relayId != "" && ClaimResult(env, s, req).Ok?
    ensures var names := NamesOf(ClaimResult(env, s, req).value);
            ActiveOf(Step(env, s, ClaimOp(req)), req.tokenId) <= (ActiveOf(s, req.tokenId) - names) + names
  {
    ClaimAllOrNothing(env, s, req);
  }

  /** Room for the staged tunnels and one more is room for all of them. */
  lemma CountFits(active: set<string>, before: seq<Tunnel>, last: Tunnel, cap: int)
    requires |active - {last.name} - NamesOf(before)| + |before| < cap
    ensures |(active - NamesOf(before + [last])) + NamesOf(before + [last])| <= cap
  {
    var names := NamesOf(before + [last]);
    NamesOfAppend(before, last);
    NamesOfSize(before + [last]);
    assert active - {last.name} - NamesOf(before) == active - names;
    assert |(active - names) + names| <= |active - names| + |names|;
  }

  /** After an accepted claim with a cap, however many tunnels it asked for, the
      token has at most that many connected tunnels. */
  lemma ClaimRespectsCap(env: Env, s: State, req: Request)
    requires req.relayId != "" && ClaimResult(env, s, req).Ok? && req.maxTunnels > 0
    ensures |ActiveOf(Step(env, s, ClaimOp(req)), req.tokenId)| <= req.maxTunnels
  {
    var recs := ClaimResult(env, s, req).value;
    var n := |req.tunnels| - 1;
    StageEach(env, s, req, req.tunnels, n);
    var before, last := recs[..n], recs[n];
    assert recs == before + [last];
    assert ActiveCount(s, req.tokenId, last.name, before) < req.maxTunnels by {
      CheckUnderCap(env, s, req, before, req.tunnels[n]);
      CheckGrants(env, s, req, before, req.tunnels[n]);
    }
    CountFits(ActiveOf(s, req.tokenId), before, last, req.maxTunnels);
    ActiveAfterClaim(env, s, req);
    SubsetSize(ActiveOf(Step(env, s, ClaimOp(req)), req.tokenId), (ActiveOf(s, req.tokenId) - NamesOf(recs)) + NamesOf(recs));
  }

  /** Nothing but a claim or an announcement connects a tunnel. */
  lemma ConnectedOnlyByClaims(env: Env, op: Op, s: State, e: Event, token: string)
    requires WellKeyed(s) && Legal(env, op, s, e) && !op.AnnounceOp?
    requires op.ClaimOp? ==> op.req.tokenId != token
    ensures ActiveOf(Apply(s, e), token) <= ActiveOf(s, token)
  {
  }

  lemma {:induction false} ActiveShrinks(env: Env, op: Op, s: State, es: seq<Event>, token: string)
    requires WellKeyed(s) && LegalTrace(env, op, s, es) && !op.AnnounceOp?
    requires op.ClaimOp? ==> op.req.tokenId != token
    ensures ActiveOf(ApplyAll(s, es), token) <= ActiveOf(s, token)
  {
    if es != [] {
      var init := es[..|es| - 1];
      ActiveShrinks(env, op, s, init, token);
      WellKeyedKept(s, init);
      ConnectedOnlyByClaims(env, op, ApplyAll(s, init), es[|es| - 1], token);
    }
  }

  ghost predicate UnderCaps(s: State, caps: string -> int) {
    forall token: string :: caps(token) > 0 ==> |ActiveOf(s, token)| <= caps(token)
  }

  /** A run without announcements in which every claim carries its token's cap. */
  predicate CappedRun(run: Run, caps: string -> int) {
    forall i | 0 <= i < |run| ::
      !run[i].1.AnnounceOp? && (run[i].1.ClaimOp? ==> run[i].1.req.maxTunnels == caps(run[i].1.req.tokenId))
  }

  lemma CapsKept(env: Env, s: State, op: Op, caps: string -> int, token: string)
    requires WellKeyed(s) && UnderCaps(s, caps) && !op.AnnounceOp? && caps(token) > 0
    requires op.ClaimOp? ==> op.req.maxTunnels == caps(op.req.tokenId)
    ensures |ActiveOf(Step(env, s, op), token)| <= caps(token)
  {
    if op.ClaimOp? && op.req.tokenId == token && !Anonymous(op) {
      ClaimAllOrNothing(env, s, op.req);
      if ClaimResult(env, s, op.req).Ok? { ClaimRespectsCap(env, s, op.req); }
    } else if Anonymous(op) {
      assert Events(env, s, op) == [];
    } else {
      EventsLegal(env, s, op);
      ActiveShrinks(env, op, s, Events(env, s, op), token);
      SubsetSize(ActiveOf(Step(env, s, op), token), ActiveOf(s, token));
    }
  }

  /** With fixed caps no token ever exceeds its own, in every run. */
  lemma {:induction false} CapsHoldInEveryRun(s: State, run: Run, caps: string -> int)
    requires WellKeyed(s) && UnderCaps(s, caps) && CappedRun(run, caps)
    ensures WellKeyed(Exec(s, run)) && UnderCaps(Exec(s, run), caps)
  {
    if run != [] {
      var (env, op) := run[|run| - 1];
      CapsHoldInEveryRun(s, run[..|run| - 1], caps);
      var st := Exec(s, run[..|run| - 1]);
      WellKeyedKept(st, Events(env, st, op));
      forall token: string | caps(token) > 0 ensures |ActiveOf(Exec(s, run), token)| <= caps(token) {
        CapsKept(env, st, op, caps, token);
      }
    }
  }
}
