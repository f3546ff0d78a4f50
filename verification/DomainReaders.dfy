/** A reader that hears only the pushed changes and keeps each tunnel's domains too:
    an edge's or a relay's copy between two reads (go/tun/live/sink.go). */
module DomainReaders {
  import opened Wrappers
  import opened Records
  import opened ClaimRules
  import opened Claims
  import opened ClaimTraces
  import opened ClaimTheorems
  import opened ReplayTheorems

  type Known = map<string, seq<string>>

  function DomainsIn(s: State): Known { map n | n in s.tunnels :: s.tunnels[n].domains }

  function LearnOne(known: Known, e: Event): Known {
    if !Pushed(e) then known
    else if e.change == Deleted then known - {e.tunnel.name}
    else known[e.tunnel.name := e.tunnel.domains]
  }

  function Learn(known: Known, es: seq<Event>): Known {
    if es == [] then known else LearnOne(Learn(known, es[..|es| - 1]), es[|es| - 1])
  }

  /** The record's domains change, and its relay, state and port do not. */
  predicate Silent(s: State, e: Event) {
    e.TunnelChanged? && e.change == Updated && e.tunnel.name in s.tunnels && s.tunnels[e.tunnel.name].domains != e.tunnel.domains
  }

  // ---------------------------------------------------------------------
  // One change
  // ---------------------------------------------------------------------

  lemma ChangedDomains(s: State, e: Event)
    ensures DomainsIn(Apply(s, e)) ==
            if !e.TunnelChanged? then DomainsIn(s)
            else if e.change == Deleted then DomainsIn(s) - {e.tunnel.name}
            else DomainsIn(s)[e.tunnel.name := e.tunnel.domains]
  {
    hide IndexDomains, UnindexDomains, IndexPort, UnindexPort;
    if e.TunnelChanged? {
      if e.change == Deleted {
        assert Removed(s, e.tunnel.name).tunnels == s.tunnels - {e.tunnel.name};
      } else {
        assert Stored(s, e.tunnel).tunnels == s.tunnels[e.tunnel.name := e.tunnel];
      }
    }
  }

  /** A reader that is right stays right exactly when the change is not silent. */
  lemma ChangeIsHeardIff(s: State, e: Event)
    requires Disciplined(s, e)
    ensures LearnOne(DomainsIn(s), e) == DomainsIn(Apply(s, e)) <==> !Silent(s, e)
  {
    hide Apply;
    ChangedDomains(s, e);
    if e.TunnelChanged? && e.change == Updated {
      assert DomainsIn(s)[e.tunnel.name := e.tunnel.domains][e.tunnel.name] == e.tunnel.domains;
      if !Silent(s, e) {
        assert DomainsIn(s)[e.tunnel.name := e.tunnel.domains] == DomainsIn(s);
      }
    }
  }

  /** Only a claim or an announcement can be silent: a park, a sweep or a heartbeat
      leaves the domains alone. */
  lemma OnlyNewRecordsAreSilent(env: Env, op: Op, s: State, e: Event)
    requires Legal(env, op, s, e) && Silent(s, e)
    ensures op.ClaimOp? || op.AnnounceOp?
  {
  }

  // ---------------------------------------------------------------------
  // Runs
  // ---------------------------------------------------------------------

  ghost predicate DisciplinedTrace(s: State, es: seq<Event>) {
    es == [] || (DisciplinedTrace(s, es[..|es| - 1]) && Disciplined(ApplyAll(s, es[..|es| - 1]), es[|es| - 1]))
  }

  ghost predicate NeverSilent(s: State, es: seq<Event>) {
    es == [] || (NeverSilent(s, es[..|es| - 1]) && !Silent(ApplyAll(s, es[..|es| - 1]), es[|es| - 1]))
  }

  ghost predicate Right(s: State, es: seq<Event>) { Learn(DomainsIn(s), es) == DomainsIn(ApplyAll(s, es)) }

  /** Right after every change so far. */
  ghost predicate AlwaysRight(s: State, es: seq<Event>) {
    Right(s, es) && (es == [] || AlwaysRight(s, es[..|es| - 1]))
  }

  lemma {:induction false} LegalIsDisciplined(env: Env, op: Op, s: State, es: seq<Event>)
    requires LegalTrace(env, op, s, es)
    ensures DisciplinedTrace(s, es)
  {
    hide Disciplined;
    if es != [] { LegalIsDisciplined(env, op, s, es[..|es| - 1]); }
  }

  lemma {:induction false} DisciplinedAppend(s: State, es: seq<Event>, fs: seq<Event>)
    requires DisciplinedTrace(s, es) && DisciplinedTrace(ApplyAll(s, es), fs)
    ensures DisciplinedTrace(s, es + fs)
  {
    hide Disciplined;
    if fs == [] {
      assert es + fs == es;
    } else {
      var init := fs[..|fs| - 1];
      DisciplinedAppend(s, es, init);
      ApplyAllAppend(s, es, init);
      assert (es + fs)[..|es + fs| - 1] == es + init;
    }
  }

  lemma {:induction false} LogDisciplined(s: State, run: Run)
    requires WellKeyed(s)
    ensures DisciplinedTrace(s, Log(s, run))
  {
    hide DisciplinedTrace, Events, Legal;
    if run == [] {
      NoneDisciplined(s);
    } else {
      var (env, op) := run[|run| - 1];
      var st := Exec(s, run[..|run| - 1]);
      LogDisciplined(s, run[..|run| - 1]);
      ReplayGivesTheTables(s, run[..|run| - 1]);
      EventsLegal(env, st, op);
      LegalIsDisciplined(env, op, st, Events(env, st, op));
      ExecFollowsLog(s, run[..|run| - 1]);
      DisciplinedAppend(s, Log(s, run[..|run| - 1]), Events(env, st, op));
    }
  }

  lemma NoneDisciplined(s: State)
    ensures DisciplinedTrace(s, [])
  {
  }

  lemma {:induction false} TraceIsHeardIff(s: State, es: seq<Event>)
    requires DisciplinedTrace(s, es)
    ensures AlwaysRight(s, es) <==> NeverSilent(s, es)
  {
    hide Silent, Apply, LearnOne, DomainsIn, Disciplined;
    if es != [] {
      var init := es[..|es| - 1];
      TraceIsHeardIff(s, init);
      ChangeIsHeardIff(ApplyAll(s, init), es[|es| - 1]);
    }
  }

  /** Through a whole run the reader is right about every tunnel's domains exactly when
      no silent change is made. */
  lemma DomainReaderIsRightIff(s: State, run: Run)
    requires WellKeyed(s)
    ensures AlwaysRight(s, Log(s, run)) <==> NeverSilent(s, Log(s, run))
  {
    LogDisciplined(s, run);
    TraceIsHeardIff(s, Log(s, run));
  }

  // ---------------------------------------------------------------------
  // When a claim is heard
  // ---------------------------------------------------------------------

  /** The record replaces one of the same relay, state and port with other domains. */
  predicate Unheard(s: State, rec: Tunnel) {
    rec.name in s.tunnels && RouteOf(s.tunnels[rec.name]) == RouteOf(rec) && s.tunnels[rec.name].domains != rec.domains
  }

  lemma {:induction false} StoresAreHeardIff(s: State, recs: seq<Tunnel>)
    requires forall i, j | 0 <= i < j < |recs| :: recs[i].name != recs[j].name
    ensures NeverSilent(s, ForEach(s, recs, StoreStep())) <==> forall i | 0 <= i < |recs| :: !Unheard(s, recs[i])
  {
    hide Apply, StoreAll, ApplyAll;
    if recs != [] {
      var init, rec := recs[..|recs| - 1], recs[|recs| - 1];
      StoresAreHeardIff(s, init);
      var es := ForEach(s, init, StoreStep());
      var st := ApplyAll(s, es);
      StoreAllEvents(s, init);
      SameBefore(s, init, rec.name);
      assert Silent(st, StoreEvent(st, rec)) <==> Unheard(s, rec);
      assert (es + [StoreEvent(st, rec)])[..|es|] == es;
      assert forall i | 0 <= i < |init| :: init[i] == recs[i];
      assert ForEach(s, recs, StoreStep()) == es + [StoreEvent(st, rec)];
    }
  }

  lemma SameBefore(s: State, recs: seq<Tunnel>, n: string)
    requires forall i | 0 <= i < |recs| :: recs[i].name != n
    ensures n in StoreAll(s, recs).tunnels <==> n in s.tunnels
    ensures n in s.tunnels ==> StoreAll(s, recs).tunnels[n] == s.tunnels[n]
  {
    StoreAllOverlays(s, recs);
    OverlayKeys(s.tunnels, recs);
    if n in s.tunnels { OverlayElsewhere(s.tunnels, recs, n); }
  }

  lemma {:induction false} CommandsAreHeard(s: State, es: seq<Event>, st: State, req: Request, specs: seq<Tunnel>)
    ensures NeverSilent(s, es + TakeoverCommands(st, req, specs)) <==> NeverSilent(s, es)
  {
    if specs == [] {
      assert es + TakeoverCommands(st, req, specs) == es;
    } else {
      var init := TakeoverCommands(st, req, specs[..|specs| - 1]);
      CommandsAreHeard(s, es, st, req, specs[..|specs| - 1]);
      var all := TakeoverCommands(st, req, specs);
      if all == init {
      } else {
        assert (es + all)[..|es + all| - 1] == es + init;
        assert (es + all)[|es + all| - 1].CommandSent?;
      }
    }
  }

  /** A reader that is right is right after a granted claim exactly when no record of
      it replaces one of the same relay, state and port with other domains. */
  lemma ClaimIsHeardIff(env: Env, s: State, req: Request)
    requires WellKeyed(s) && req.relayId != "" && ClaimResult(env, s, req).Ok?
    ensures AlwaysRight(s, Events(env, s, ClaimOp(req))) <==> forall rec | rec in ClaimResult(env, s, req).value :: !Unheard(s, rec)
  {
    hide Unheard, AlwaysRight, NeverSilent, ClaimResult, DisciplinedTrace, ForEach, TakeoverCommands;
    var recs := ClaimResult(env, s, req).value;
    EventsLegal(env, s, ClaimOp(req));
    LegalIsDisciplined(env, ClaimOp(req), s, Events(env, s, ClaimOp(req)));
    TraceIsHeardIff(s, Events(env, s, ClaimOp(req)));
    ClaimableRecords(env, s, req);
    ClaimableDistinct(env, s, req, recs);
    StoresAreHeardIff(s, recs);
    CommandsAreHeard(s, ForEach(s, recs, StoreStep()), s, req, req.tunnels);
  }

  // ---------------------------------------------------------------------
  // A run in which it is not
  // ---------------------------------------------------------------------

  /** An agent asks for its http tunnel, with these domains, over one relay. */
  function Asks(session: string, domains: seq<string>): Request {
    Request("r", session, "x", "t", 0, 0, 0,
            [Tunnel("", "a", Http, "", domains, 0, "", "", "", Active, 0, 0, 0, 0, 0, 0, false, "", false, 0)],
            [], 0, None, [], None, UnspecifiedReason)
  }

  /** The agent comes back over the same relay with a custom domain: the engine has it,
      and a reader that was told of every push does not. */
  lemma ReopenedDomainIsMissed(env: Env)
    requires env.rules.NameAllowed("a") && env.rules.Host("a") !in env.sites && env.reservations == []
    ensures var run := [(env, ClaimOp(Asks("s1", []))), (env, ClaimOp(Asks("s2", ["x.com"])))];
            && DomainsIn(Exec(EmptyState, run)) == map["a" := ["x.com"]]
            && Learn(map[], Log(EmptyState, run)) == map["a" := []]
  {
    hide Step, Events, Stored, StoreEvent;
    var c1, c2 := ClaimOp(Asks("s1", [])), ClaimOp(Asks("s2", ["x.com"]));
    var run := [(env, c1), (env, c2)];
    var r1, r2 := Granted(env, c1.req, c1.req.tunnels[0], 0), Granted(env, c2.req, c2.req.tunnels[0], 0);
    var s1 := Stored(EmptyState, r1);
    FirstClaim(env, c1.req, r1);
    ClaimOfOne(env, EmptyState, c1.req, c1.req.tunnels[0], r1);
    SecondClaim(env, c2.req, r1, r2);
    ClaimOfOne(env, s1, c2.req, c2.req.tunnels[0], r2);
    assert run[..1] == [run[0]] && [run[0]][..0] == [];
    assert Exec(EmptyState, []) == EmptyState && Log(EmptyState, []) == [];
    assert Exec(EmptyState, [run[0]]) == s1 && Log(EmptyState, [run[0]]) == [] + [StoreEvent(EmptyState, r1)];
    var e1, e2 := StoreEvent(EmptyState, r1), StoreEvent(s1, r2);
    assert Log(EmptyState, run) == [e1, e2];
    LearnsTwo(map[], e1, e2);
    TwoStores(r1, r2);
  }

  lemma FirstClaim(env: Env, req: Request, rec: Tunnel)
    requires env.rules.NameAllowed("a") && env.rules.Host("a") !in env.sites && env.reservations == []
    requires req == Asks("s1", []) && rec == Granted(env, req, req.tunnels[0], 0)
    ensures Check(env, EmptyState, req, [], req.tunnels[0]) == Ok(rec) && !TakesOver(EmptyState, req, "a")
  {
    assert NamesOf([]) == {};
  }

  lemma SecondClaim(env: Env, req: Request, was: Tunnel, rec: Tunnel)
    requires env.rules.NameAllowed("a") && env.rules.Host("a") !in env.sites && env.reservations == []
    requires was == Granted(env, Asks("s1", []), Asks("s1", []).tunnels[0], 0)
    requires req == Asks("s2", ["x.com"]) && rec == Granted(env, req, req.tunnels[0], 0)
    ensures Check(env, Stored(EmptyState, was), req, [], req.tunnels[0]) == Ok(rec)
    ensures !TakesOver(Stored(EmptyState, was), req, "a")
  {
    assert NamesOf([]) == {};
    assert DomainsOf([]) == {};
    assert "s1" != "s2" by { assert "s1"[1] != "s2"[1]; }
  }

  lemma LearnsTwo(known: Known, e: Event, f: Event)
    ensures Learn(known, [e, f]) == LearnOne(LearnOne(known, e), f)
  {
    assert [e, f][..1] == [e] && [e][..0] == [];
    assert Learn(known, [e][..0]) == known;
  }

  lemma TwoStores(was: Tunnel, rec: Tunnel)
    requires was.name == rec.name == "a" && was.domains == [] && RouteOf(was) == RouteOf(rec)
    ensures var s1 := Stored(EmptyState, was);
            && DomainsIn(Stored(s1, rec)) == map["a" := rec.domains]
            && LearnOne(LearnOne(map[], StoreEvent(EmptyState, was)), StoreEvent(s1, rec)) == map["a" := []]
  {
    var s1 := Stored(EmptyState, was);
    assert s1.tunnels == map["a" := was];
    assert Stored(s1, rec).tunnels == map["a" := rec];
  }
}
