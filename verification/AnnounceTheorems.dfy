/** What announcements do to the indexes, and the engine's promise over whole runs:
    two relays never hand out the same port or domain. */
module AnnounceTheorems {
  import opened Wrappers
  import opened Records
  import opened Claims
  import opened ClaimTraces
  import opened IndexTheorems

  // ---------------------------------------------------------------------
  // Announcements
  // ---------------------------------------------------------------------

  predicate Apart(x: Tunnel, y: Tunnel) {
    (x.publicPort != 0 ==> x.publicPort != y.publicPort) && forall d | d in x.domains :: d !in y.domains
  }

  /** The announced tunnel is stored: simulated ones only where they are allowed,
      and one another relay serves for another agent only after one of the same
      name that is not. */
  predicate IsStored(env: Env, s: State, req: Request, x: Tunnel) {
    && (x.simulated ==> env.allowSimulated)
    && exists y | y in req.tunnels :: y.name == x.name && (y.simulated ==> env.allowSimulated) && !Conflicts(s, req, y)
  }

  function StoredNames(env: Env, s: State, req: Request): set<string> {
    set x | x in req.tunnels && IsStored(env, s, req, x) :: x.name
  }

  /** What an announcement stores clashes neither with the rest of it nor with a
      tunnel it does not replace. */
  ghost predicate CleanAnnounce(env: Env, s: State, req: Request) {
    AnnounceRefused(env, req) || req.relayId == "" ||
    forall x | x in req.tunnels && IsStored(env, s, req, x) ::
      && x.name != ""
      && (forall y | y in req.tunnels && IsStored(env, s, req, y) && y.name != x.name :: Apart(x, y))
      && (forall m | m in s.tunnels && m !in StoredNames(env, s, req) :: Apart(x, s.tunnels[m]))
  }

  /** The names in stored are announced records by now, the others are as in s. */
  ghost predicate Overlaid(env: Env, s: State, req: Request, stored: set<string>, st: State) {
    && stored <= StoredNames(env, s, req)
    && (forall n | n in s.tunnels :: n in st.tunnels)
    && (forall n | n in st.tunnels && n !in stored :: n in s.tunnels && st.tunnels[n] == s.tunnels[n])
    && (forall n | n in stored :: IsAnnounced(env, s, req, st, n))
  }

  ghost predicate IsAnnounced(env: Env, s: State, req: Request, st: State, n: string) {
    n in st.tunnels && exists x | x in req.tunnels && IsStored(env, s, req, x) :: x.name == n && st.tunnels[n] == Announced(req, x)
  }

  ghost predicate IndexedAt(s: State, n: string)
    requires n in s.tunnels
  {
    && (s.tunnels[n].publicPort != 0 ==> Owner(s.byPort, s.tunnels[n].publicPort) == n)
    && forall d | d in s.tunnels[n].domains :: Owner(s.byDomain, d) == n
  }

  /** What is not going to be stored any more is indexed. */
  ghost predicate IndexedSoFar(env: Env, s: State, req: Request, stored: set<string>, st: State) {
    forall n | n in st.tunnels && (n in stored || n !in StoredNames(env, s, req)) :: IndexedAt(st, n)
  }

  lemma StoredNext(env: Env, s: State, req: Request, stored: set<string>, st: State, t: Tunnel)
    requires Overlaid(env, s, req, stored, st) && t in req.tunnels && (t.simulated ==> env.allowSimulated)
    ensures !Conflicts(st, req, t) ==> IsStored(env, s, req, t)
    ensures !Conflicts(s, req, t) && t.name !in stored ==> !Conflicts(st, req, t)
  {
    if t.name in stored {
      var x :| x in req.tunnels && IsStored(env, s, req, x) && x.name == t.name;
    }
  }

  lemma NameIsStored(env: Env, s: State, req: Request, t: Tunnel)
    requires t in req.tunnels && IsStored(env, s, req, t)
    ensures t.name in StoredNames(env, s, req)
  {
  }

  lemma OverlayOne(env: Env, s: State, req: Request, stored: set<string>, st: State, t: Tunnel)
    requires Overlaid(env, s, req, stored, st) && t in req.tunnels && IsStored(env, s, req, t)
    ensures Overlaid(env, s, req, stored + {t.name}, Stored(st, Announced(req, t)))
  {
    hide IsStored, Stored, StoredNames;
    var u := Stored(st, Announced(req, t));
    StoredTunnels(st, Announced(req, t));
    NameIsStored(env, s, req, t);
    forall n | n in stored + {t.name} ensures IsAnnounced(env, s, req, u, n) {
      if n != t.name { assert IsAnnounced(env, s, req, st, n); }
    }
  }

  lemma StoreIndexes(s: State, rec: Tunnel, n: string)
    requires n in s.tunnels && n != rec.name && IndexedAt(s, n) && Apart(rec, s.tunnels[n]) && n != "" && WellKeyed(s)
    ensures Stored(s, rec).tunnels[n] == s.tunnels[n] && IndexedAt(Stored(s, rec), n)
  {
  }

  lemma StoreIndexesOwn(s: State, rec: Tunnel)
    ensures IndexedAt(Stored(s, rec), rec.name)
  {
  }

  lemma IndexOne(env: Env, s: State, req: Request, stored: set<string>, st: State, t: Tunnel)
    requires Overlaid(env, s, req, stored, st) && IndexedSoFar(env, s, req, stored, st) && WellKeyed(st) && "" !in s.tunnels
    requires t in req.tunnels && IsStored(env, s, req, t) && CleanAnnounce(env, s, req) && !AnnounceRefused(env, req) && req.relayId != ""
    ensures IndexedSoFar(env, s, req, stored + {t.name}, Stored(st, Announced(req, t)))
  {
    hide IsStored, IndexedAt, Stored, StoredNames, Overlaid, CleanAnnounce;
    var rec := Announced(req, t);
    var u := Stored(st, rec);
    StoreIndexesOwn(st, rec);
    forall n | n in u.tunnels && n != t.name && (n in stored || n !in StoredNames(env, s, req)) ensures IndexedAt(u, n) {
      StoredKeepsOthers(st, rec, n);
      SettledApart(env, s, req, stored, st, t, n);
      StoreIndexes(st, rec, n);
    }
  }

  /** A clean announcement's tunnel clashes with no record that is final. */
  lemma SettledApart(env: Env, s: State, req: Request, stored: set<string>, st: State, t: Tunnel, n: string)
    requires Overlaid(env, s, req, stored, st) && "" !in s.tunnels && n in st.tunnels && n != t.name
    requires n in stored || n !in StoredNames(env, s, req)
    requires t in req.tunnels && IsStored(env, s, req, t) && CleanAnnounce(env, s, req) && !AnnounceRefused(env, req) && req.relayId != ""
    ensures n != "" && Apart(Announced(req, t), st.tunnels[n])
  {
    hide IsStored, StoredNames, Apart;
    if n in stored {
      assert IsAnnounced(env, s, req, st, n);
      var x :| x in req.tunnels && IsStored(env, s, req, x) && x.name == n && st.tunnels[n] == Announced(req, x);
      assert Apart(t, x);
      SameApart(req, t, x);
      SameApart(req, t, st.tunnels[n]);
    } else {
      SameApart(req, t, st.tunnels[n]);
    }
  }

  lemma SameApart(req: Request, t: Tunnel, x: Tunnel)
    ensures Apart(Announced(req, t), x) <==> Apart(t, x)
    ensures Apart(t, Announced(req, x)) <==> Apart(t, x)
  {
  }

  lemma StoredKeepsOthers(s: State, rec: Tunnel, n: string)
    requires n != rec.name
    ensures n in Stored(s, rec).tunnels <==> n in s.tunnels
    ensures n in s.tunnels ==> Stored(s, rec).tunnels[n] == s.tunnels[n]
  {
  }

  /** The state once the first k tunnels were announced, and the names stored. */
  function AnnouncedTo(env: Env, s: State, req: Request, k: nat): State
    requires k <= |req.tunnels|
  {
    ApplyAll(s, ForEach(s, req.tunnels[..k], AnnounceStep(env, req)))
  }

  function ReportedTo(env: Env, s: State, req: Request, k: nat): set<string>
    requires k <= |req.tunnels|
  {
    Reported(env, s, req, req.tunnels[..k]).0
  }

  lemma AnnounceNext(env: Env, s: State, req: Request, k: nat)
    requires k < |req.tunnels|
    ensures var st, t := AnnouncedTo(env, s, req, k), req.tunnels[k];
            var skipped := (t.simulated && !env.allowSimulated) || Conflicts(st, req, t);
            && AnnouncedTo(env, s, req, k + 1) == (if skipped then st else Stored(st, Announced(req, t)))
            && ReportedTo(env, s, req, k + 1) == if skipped then ReportedTo(env, s, req, k) else ReportedTo(env, s, req, k) + {t.name}
  {
    hide Stored;
    var ts, st, t := req.tunnels[..k + 1], AnnouncedTo(env, s, req, k), req.tunnels[k];
    assert ts[..k] == req.tunnels[..k];
    var es := ForEach(s, req.tunnels[..k], AnnounceStep(env, req));
    ApplyAllAppend(s, es, AnnounceStep(env, req)(st, t));
    ApplyOne(st, StoreEvent(st, Announced(req, t)));
    StoreEventStores(st, Announced(req, t));
  }

  lemma AnnounceNone(env: Env, s: State, req: Request)
    ensures AnnouncedTo(env, s, req, 0) == s && ReportedTo(env, s, req, 0) == {}
  {
    assert req.tunnels[..0] == [];
  }

  predicate Skipped(env: Env, s: State, req: Request, t: Tunnel) {
    (t.simulated && !env.allowSimulated) || Conflicts(s, req, t)
  }

  lemma OverlayStep(env: Env, s: State, req: Request, stored: set<string>, st: State, t: Tunnel)
    requires Overlaid(env, s, req, stored, st) && t in req.tunnels
    ensures !Skipped(env, st, req, t) ==>
              IsStored(env, s, req, t) && Overlaid(env, s, req, stored + {t.name}, Stored(st, Announced(req, t)))
    ensures !Skipped(env, s, req, t) && t.name !in stored ==> !Skipped(env, st, req, t)
  {
    hide Overlaid, IsStored, Stored;
    if t.simulated ==> env.allowSimulated {
      StoredNext(env, s, req, stored, st, t);
      if !Conflicts(st, req, t) { OverlayOne(env, s, req, stored, st, t); }
    }
  }

  lemma OverlayStart(env: Env, s: State, req: Request)
    ensures Overlaid(env, s, req, {}, s)
  {
  }

  lemma {:induction false} OverlayPhase(env: Env, s: State, req: Request, k: nat)
    requires k <= |req.tunnels|
    ensures Overlaid(env, s, req, ReportedTo(env, s, req, k), AnnouncedTo(env, s, req, k))
    ensures forall i | 0 <= i < k && !Skipped(env, s, req, req.tunnels[i]) :: req.tunnels[i].name in ReportedTo(env, s, req, k)
  {
    hide AnnouncedTo, ReportedTo, Overlaid, Conflicts, Stored;
    if k == 0 {
      AnnounceNone(env, s, req);
      OverlayStart(env, s, req);
    } else {
      OverlayPhase(env, s, req, k - 1);
      AnnounceNext(env, s, req, k - 1);
      OverlayStep(env, s, req, ReportedTo(env, s, req, k - 1), AnnouncedTo(env, s, req, k - 1), req.tunnels[k - 1]);
    }
  }

  lemma AllReported(env: Env, s: State, req: Request)
    ensures ReportedTo(env, s, req, |req.tunnels|) == StoredNames(env, s, req)
  {
    hide AnnouncedTo, ReportedTo, Conflicts, IsAnnounced;
    OverlayPhase(env, s, req, |req.tunnels|);
    forall n | n in StoredNames(env, s, req) ensures n in ReportedTo(env, s, req, |req.tunnels|) {
      var x :| x in req.tunnels && IsStored(env, s, req, x) && x.name == n;
      var y :| y in req.tunnels && y.name == x.name && (y.simulated ==> env.allowSimulated) && !Conflicts(s, req, y);
      var i :| 0 <= i < |req.tunnels| && req.tunnels[i] == y;
      assert !Skipped(env, s, req, req.tunnels[i]);
    }
  }

  lemma IndexStart(env: Env, s: State, req: Request)
    requires Complete(s)
    ensures IndexedSoFar(env, s, req, {}, s) && "" !in s.tunnels
  {
  }

  lemma {:induction false} IndexPhase(env: Env, s: State, req: Request, k: nat)
    requires k <= |req.tunnels| && WellKeyed(s) && Complete(s)
    requires CleanAnnounce(env, s, req) && !AnnounceRefused(env, req) && req.relayId != ""
    ensures WellKeyed(AnnouncedTo(env, s, req, k))
    ensures IndexedSoFar(env, s, req, ReportedTo(env, s, req, k), AnnouncedTo(env, s, req, k))
  {
    hide AnnouncedTo, ReportedTo, Overlaid, Conflicts, Stored, IndexedSoFar, WellKeyed, Complete, CleanAnnounce, AnnounceRefused;
    IndexStart(env, s, req);
    AnnouncedKeyed(env, s, req, k);
    if k == 0 {
      AnnounceNone(env, s, req);
    } else {
      var st, t := AnnouncedTo(env, s, req, k - 1), req.tunnels[k - 1];
      IndexPhase(env, s, req, k - 1);
      AnnounceNext(env, s, req, k - 1);
      OverlayPhase(env, s, req, k - 1);
      OverlayStep(env, s, req, ReportedTo(env, s, req, k - 1), st, t);
      if !Skipped(env, st, req, t) { IndexOne(env, s, req, ReportedTo(env, s, req, k - 1), st, t); }
    }
  }

  lemma AnnouncedKeyed(env: Env, s: State, req: Request, k: nat)
    requires k <= |req.tunnels| && WellKeyed(s)
    ensures WellKeyed(AnnouncedTo(env, s, req, k))
  {
    WellKeyedKept(s, ForEach(s, req.tunnels[..k], AnnounceStep(env, req)));
  }

  /** The same tunnels with the same ports and domains. */
  ghost predicate SameHoldings(s: State, t: State) {
    && (forall n :: n in s.tunnels <==> n in t.tunnels)
    && (forall n | n in s.tunnels && n in t.tunnels ::
          s.tunnels[n].publicPort == t.tunnels[n].publicPort && s.tunnels[n].domains == t.tunnels[n].domains)
  }

  lemma ParkUnreportedOne(s: State, rec: Tunnel)
    requires Sound(s) && rec.name in s.tunnels
    requires rec.publicPort == s.tunnels[rec.name].publicPort && rec.domains == s.tunnels[rec.name].domains
    ensures SameHoldings(s, Stored(s, rec)) && Sound(Stored(s, rec))
    ensures Complete(s) ==> Complete(Stored(s, rec))
  {
    StoreSound(s, rec);
    StoredTunnels(s, rec);
    if Complete(s) { StoreKeepsComplete(s, rec); }
  }

  lemma UnreportedOne(env: Env, s: State, req: Request, reported: set<string>, name: string)
    requires Sound(s)
    ensures var u := ApplyAll(s, UnreportedStep(env, req, reported)(s, name));
            Sound(u) && SameHoldings(s, u) && (Complete(s) ==> Complete(u))
  {
    hide Sound, Complete, Stored;
    if UnreportedStep(env, req, reported)(s, name) != [] {
      SoundKeyed(s, name);
      var rec := s.tunnels[name].(state := Grace, graceUntil := env.now + env.grace);
      ApplyOne(s, StoreEvent(s, rec));
      StoreEventStores(s, rec);
      ParkUnreportedOne(s, rec);
    }
  }

  /** Parking what the relay no longer reports changes no holding. */
  lemma {:induction false} UnreportedPhase(env: Env, s: State, req: Request, reported: set<string>, order: seq<string>)
    requires Sound(s)
    ensures var u := ApplyAll(s, ForEach(s, order, UnreportedStep(env, req, reported)));
            Sound(u) && SameHoldings(s, u) && (Complete(s) ==> Complete(u))
  {
    hide Sound, Complete, UnreportedStep;
    if order != [] {
      var init := order[..|order| - 1];
      UnreportedPhase(env, s, req, reported, init);
      var es := ForEach(s, init, UnreportedStep(env, req, reported));
      ApplyAllAppend(s, es, UnreportedStep(env, req, reported)(ApplyAll(s, es), order[|order| - 1]));
      UnreportedOne(env, ApplyAll(s, es), req, reported, order[|order| - 1]);
    }
  }

  lemma SoundKeyed(s: State, name: string)
    requires Sound(s) && name in s.tunnels
    ensures s.tunnels[name].name == name
  {
  }

  /** Agents and relays have no part in it. */
  lemma {:induction false} AgentsAside(s: State, es: seq<Event>)
    requires forall e | e in es :: e.AgentChanged? || e.RelayChanged?
    ensures var u := ApplyAll(s, es); u.tunnels == s.tunnels && u.byPort == s.byPort && u.byDomain == s.byDomain
  {
    if es != [] {
      AgentsAside(s, es[..|es| - 1]);
      assert es[|es| - 1] in es;
    }
  }

  lemma {:induction false} AnnouncedAgentEvents(env: Env, s: State, req: Request, xs: seq<Agent>)
    ensures forall e | e in ForEach(s, xs, AnnounceAgentStep(env, req)) :: e.AgentChanged?
  {
    if xs != [] { AnnouncedAgentEvents(env, s, req, xs[..|xs| - 1]); }
  }

  /** The same maps of tunnels, ports and domains. */
  ghost predicate SameMaps(s: State, t: State) {
    s.tunnels == t.tunnels && s.byPort == t.byPort && s.byDomain == t.byDomain
  }

  /** An announcement stores, then parks; relay and agents have no part in it. */
  lemma AnnouncePhases(env: Env, s: State, req: Request, order: seq<string>)
    requires !AnnounceRefused(env, req) && req.relayId != ""
    ensures var s0 := ApplyAll(s, AnnounceReport(env, s, req));
            var s1 := AnnouncedTo(env, s0, req, |req.tunnels|);
            var s2 := ApplyAll(s1, ForEach(s1, order, UnreportedStep(env, req, ReportedTo(env, s0, req, |req.tunnels|))));
            SameMaps(s, s0) && SameMaps(s2, Step(env, s, AnnounceOp(req, order)))
  {
    hide UnreportedStep, AnnounceStep, AnnounceAgentStep, ForEach, ApplyAll, Reported;
    var es0 := AnnounceReport(env, s, req);
    AgentsAside(s, es0);
    var s0 := ApplyAll(s, es0);
    assert req.tunnels[..|req.tunnels|] == req.tunnels;
    var es1 := ForEach(s0, req.tunnels, AnnounceStep(env, req));
    var s1 := ApplyAll(s0, es1);
    var es2 := ForEach(s1, order, UnreportedStep(env, req, Reported(env, s0, req, req.tunnels).0));
    var s2 := ApplyAll(s1, es2);
    var es3 := ForEach(s2, req.agents, AnnounceAgentStep(env, req));
    AnnouncedAgentEvents(env, s2, req, req.agents);
    AgentsAside(s2, es3);
    ApplyAllAppend(s, es0, es1);
    ApplyAllAppend(s, es0 + es1, es2);
    ApplyAllAppend(s, es0 + es1 + es2, es3);
  }

  predicate DistinctNames(ts: seq<Tunnel>) { forall i, j | 0 <= i < j < |ts| :: ts[i].name != ts[j].name }

  lemma SameMapsMean(env: Env, s: State, t: State, req: Request)
    requires SameMaps(s, t)
    ensures Complete(s) <==> Complete(t)
    ensures Exclusive(s) <==> Exclusive(t)
    ensures CleanAnnounce(env, s, req) <==> CleanAnnounce(env, t, req)
    ensures forall x | x in req.tunnels :: Skipped(env, s, req, x) <==> Skipped(env, t, req, x)
  {
    assert forall x :: Conflicts(s, req, x) <==> Conflicts(t, req, x);
    assert forall x :: IsStored(env, s, req, x) <==> IsStored(env, t, req, x);
    assert StoredNames(env, s, req) == StoredNames(env, t, req);
  }

  lemma AllIndexed(env: Env, s: State, req: Request, st: State)
    requires IndexedSoFar(env, s, req, StoredNames(env, s, req), st) && Overlaid(env, s, req, StoredNames(env, s, req), st)
    requires Complete(s) && CleanAnnounce(env, s, req) && !AnnounceRefused(env, req) && req.relayId != ""
    ensures Complete(st)
  {
    hide IsStored;
    forall n | n in st.tunnels ensures IndexedAt(st, n) {}
    assert "" !in StoredNames(env, s, req);
  }

  /** A clean announcement keeps the indexes complete, whatever the order. */
  lemma AnnounceKeepsComplete(env: Env, s: State, req: Request, order: seq<string>)
    requires Sound(s) && Complete(s) && CleanAnnounce(env, s, req)
    ensures Complete(Step(env, s, AnnounceOp(req, order)))
  {
    hide Sound, Complete, CleanAnnounce, AnnouncedTo, ReportedTo, Exclusive, UnreportedStep, Step, IndexedSoFar, Overlaid;
    if AnnounceRefused(env, req) || req.relayId == "" {
      NothingAnnounced(env, s, req, order);
    } else {
      AnnouncePhases(env, s, req, order);
      var s0 := ApplyAll(s, AnnounceReport(env, s, req));
      var s1 := AnnouncedTo(env, s0, req, |req.tunnels|);
      SameMapsMean(env, s, s0, req);
      SoundKept(s, AnnounceReport(env, s, req));
      SoundIsKeyed(s0);
      IndexPhase(env, s0, req, |req.tunnels|);
      OverlayPhase(env, s0, req, |req.tunnels|);
      AllReported(env, s0, req);
      AllIndexed(env, s0, req, s1);
      AnnouncedSound(env, s0, req);
      UnreportedPhase(env, s1, req, ReportedTo(env, s0, req, |req.tunnels|), order);
      SameMapsMean(env, ApplyAll(s1, ForEach(s1, order, UnreportedStep(env, req, ReportedTo(env, s0, req, |req.tunnels|)))),
                   Step(env, s, AnnounceOp(req, order)), req);
    }
  }

  lemma AnnouncedSound(env: Env, s: State, req: Request)
    requires Sound(s)
    ensures Sound(AnnouncedTo(env, s, req, |req.tunnels|))
  {
    SoundKept(s, ForEach(s, req.tunnels[..|req.tunnels|], AnnounceStep(env, req)));
  }

  lemma NothingAnnounced(env: Env, s: State, req: Request, order: seq<string>)
    requires AnnounceRefused(env, req) || req.relayId == ""
    ensures Step(env, s, AnnounceOp(req, order)) == s
  {
  }

  // ---------------------------------------------------------------------
  // Announcements that are not clean
  // ---------------------------------------------------------------------

  ghost predicate HoldsAs(s: State, n: string, t: Tunnel) {
    n in s.tunnels && s.tunnels[n].publicPort == t.publicPort && s.tunnels[n].domains == t.domains
  }

  /** With distinct names, a stored tunnel is there afterwards, and so is what was
      not replaced. */
  lemma OverlaidHolds(env: Env, s: State, req: Request, st: State)
    requires DistinctNames(req.tunnels) && Overlaid(env, s, req, StoredNames(env, s, req), st)
    ensures forall x | x in req.tunnels && IsStored(env, s, req, x) :: HoldsAs(st, x.name, x)
    ensures forall m | m in s.tunnels && m !in StoredNames(env, s, req) :: HoldsAs(st, m, s.tunnels[m])
    ensures forall n | n in st.tunnels :: n in s.tunnels || n in StoredNames(env, s, req)
  {
    hide IsStored, IsAnnounced;
    forall x | x in req.tunnels && IsStored(env, s, req, x) ensures HoldsAs(st, x.name, x) {
      NameIsStored(env, s, req, x);
      AnnouncedOnce(env, s, req, st, x);
    }
  }

  lemma AnnouncedOnce(env: Env, s: State, req: Request, st: State, x: Tunnel)
    requires DistinctNames(req.tunnels) && x in req.tunnels && IsAnnounced(env, s, req, st, x.name)
    ensures HoldsAs(st, x.name, x)
  {
    hide IsStored;
    var y :| y in req.tunnels && y.name == x.name && st.tunnels[x.name] == Announced(req, y);
    assert y == x;
  }

  lemma AnnouncedHoldings(env: Env, s: State, req: Request, order: seq<string>)
    requires Sound(s) && DistinctNames(req.tunnels) && !AnnounceRefused(env, req) && req.relayId != ""
    ensures var u := Step(env, s, AnnounceOp(req, order));
            && (forall x | x in req.tunnels && IsStored(env, s, req, x) :: HoldsAs(u, x.name, x))
            && (forall m | m in s.tunnels && m !in StoredNames(env, s, req) :: HoldsAs(u, m, s.tunnels[m]))
            && (forall n | n in u.tunnels :: n in s.tunnels || n in StoredNames(env, s, req))
  {
    hide Sound, AnnouncedTo, ReportedTo, UnreportedStep, Step, Overlaid, Conflicts, CleanAnnounce, Complete, Exclusive;
    AnnouncePhases(env, s, req, order);
    var s0 := ApplyAll(s, AnnounceReport(env, s, req));
    var s1 := AnnouncedTo(env, s0, req, |req.tunnels|);
    SameMapsStore(env, s, s0, req);
    SoundKept(s, AnnounceReport(env, s, req));
    AnnouncedSound(env, s0, req);
    UnreportedPhase(env, s1, req, ReportedTo(env, s0, req, |req.tunnels|), order);
    OverlayPhase(env, s0, req, |req.tunnels|);
    AllReported(env, s0, req);
    OverlaidHolds(env, s0, req, s1);
    hide IsStored, StoredNames;
  }

  lemma SameMapsStore(env: Env, s: State, t: State, req: Request)
    requires SameMaps(s, t)
    ensures StoredNames(env, s, req) == StoredNames(env, t, req)
    ensures forall x :: IsStored(env, s, req, x) <==> IsStored(env, t, req, x)
  {
    assert forall x :: Conflicts(s, req, x) <==> Conflicts(t, req, x);
  }

  lemma SharedIsNotExclusive(s: State, m: string, n: string, x: Tunnel, y: Tunnel)
    requires HoldsAs(s, m, x) && HoldsAs(s, n, y) && m != n && !Apart(x, y)
    ensures !Exclusive(s)
  {
  }

  /** An announcement of distinct non-empty names that is not clean makes two tunnels
      share a port or a domain. */
  lemma UncleanAnnounceShares(env: Env, s: State, req: Request, order: seq<string>)
    requires Sound(s) && DistinctNames(req.tunnels) && !CleanAnnounce(env, s, req)
    requires forall x | x in req.tunnels && IsStored(env, s, req, x) :: x.name != ""
    ensures !Exclusive(Step(env, s, AnnounceOp(req, order)))
  {
    hide Sound, IsStored, Apart, Step, Exclusive, HoldsAs, AnnounceRefused;
    AnnouncedHoldings(env, s, req, order);
    var u := Step(env, s, AnnounceOp(req, order));
    var x :| x in req.tunnels && IsStored(env, s, req, x) &&
             ((exists y :: y in req.tunnels && IsStored(env, s, req, y) && y.name != x.name && !Apart(x, y)) ||
              (exists m :: m in s.tunnels && m !in StoredNames(env, s, req) && !Apart(x, s.tunnels[m])));
    if y :| y in req.tunnels && IsStored(env, s, req, y) && y.name != x.name && !Apart(x, y) {
      SharedIsNotExclusive(u, x.name, y.name, x, y);
    } else {
      var m :| m in s.tunnels && m !in StoredNames(env, s, req) && !Apart(x, s.tunnels[m]);
      NameIsStored(env, s, req, x);
      SharedIsNotExclusive(u, x.name, m, x, s.tunnels[m]);
    }
  }

  /** An announcement of distinct names keeps the indexes complete exactly when it is
      clean. */
  lemma AnnounceKeepsCompleteIff(env: Env, s: State, req: Request, order: seq<string>)
    requires Sound(s) && Complete(s) && DistinctNames(req.tunnels)
    ensures Complete(Step(env, s, AnnounceOp(req, order))) <==> CleanAnnounce(env, s, req)
  {
    hide Sound, IsStored, Step, Exclusive, Apart;
    if CleanAnnounce(env, s, req) {
      AnnounceKeepsComplete(env, s, req, order);
    } else if x :| x in req.tunnels && IsStored(env, s, req, x) && x.name == "" {
      AnnouncedHoldings(env, s, req, order);
    } else {
      UncleanAnnounceShares(env, s, req, order);
      if Complete(Step(env, s, AnnounceOp(req, order))) { CompleteIsExclusive(Step(env, s, AnnounceOp(req, order))); }
    }
  }

  // ---------------------------------------------------------------------
  // Whole runs
  // ---------------------------------------------------------------------

  ghost predicate CleanRun(s: State, run: Run) {
    run == [] ||
    var (env, op) := run[|run| - 1];
    CleanRun(s, run[..|run| - 1]) && (op.AnnounceOp? ==> CleanAnnounce(env, Exec(s, run[..|run| - 1]), op.req))
  }

  /** Every step keeps the indexes complete, provided what announcements store is
      held by no name they do not replace. */
  lemma {:induction false} IndexesComplete(s: State, run: Run)
    requires Sound(s) && Complete(s) && CleanRun(s, run)
    ensures Sound(Exec(s, run)) && Complete(Exec(s, run))
  {
    hide Sound, Complete, CleanAnnounce;
    if run != [] {
      var (env, op) := run[|run| - 1];
      var st := Exec(s, run[..|run| - 1]);
      IndexesComplete(s, run[..|run| - 1]);
      IndexesAlwaysSound(s, run);
      SoundIsKeyed(st);
      if op.AnnounceOp? {
        AnnounceKeepsComplete(env, st, op.req, op.order);
      } else {
        EventsLegal(env, st, op);
        CompleteKept(env, op, st, Events(env, st, op));
      }
    }
  }

  /** The engine's promise, over whole runs. */
  lemma NoTwoTunnelsShare(run: Run)
    requires CleanRun(EmptyState, run)
    ensures Exclusive(Exec(EmptyState, run))
  {
    IndexesComplete(EmptyState, run);
    CompleteIsExclusive(Exec(EmptyState, run));
  }

  /** Without the proviso it fails: a relay that announces a port another tunnel
      holds takes it over in the index, and both keep it. */
  lemma AnnounceCanShareAPort(env: Env, s: State, m: string, t: Tunnel, req: Request, order: seq<string>)
    requires Sound(s) && m in s.tunnels && t.name !in s.tunnels && t.name != ""
    requires t.publicPort == s.tunnels[m].publicPort != 0 && !t.simulated
    requires req.relayId != "" && !AnnounceRefused(env, req) && req.tunnels == [t]
    ensures !Exclusive(Step(env, s, AnnounceOp(req, order)))
  {
    assert IsStored(env, s, req, t);
    assert StoredNames(env, s, req) == {t.name};
    assert !Apart(t, s.tunnels[m]);
    UncleanAnnounceShares(env, s, req, order);
  }

  function OnPort(name: string, port: int): Tunnel {
    Tunnel("", name, Tcp, "", [], port, "", "", "", Active, 0, 0, 0, 0, 0, 0, false, "", false, 0)
  }

  function Announcing(relayId: string, t: Tunnel): Request {
    Request(relayId, "", "", "", 0, 0, 0, [t], [], 0, None, [], None, UnspecifiedReason)
  }

  /** Two relays that report to a new engine, in whatever order the maps are visited. */
  lemma TwoRelaysShareAPort(env: Env, order: seq<string>, other: seq<string>)
    ensures !Exclusive(Exec(EmptyState, [(env, AnnounceOp(Announcing("r1", OnPort("a", 7)), order)),
                                         (env, AnnounceOp(Announcing("r2", OnPort("b", 7)), other))]))
  {
    hide Step, Exclusive, Sound;
    var first, second := Announcing("r1", OnPort("a", 7)), Announcing("r2", OnPort("b", 7));
    var run: Run := [(env, AnnounceOp(first, order)), (env, AnnounceOp(second, other))];
    assert run[..1] == [run[0]] && [run[0]][..0] == [];
    var s := Step(env, EmptyState, AnnounceOp(first, order));
    assert Exec(EmptyState, run[..1]) == s by { assert Exec(EmptyState, [run[0]][..0]) == EmptyState; }
    EmptyIsSound();
    IndexesAlwaysSound(EmptyState, run[..1]);
    AnnouncedHoldings(env, EmptyState, first, order);
    assert IsStored(env, EmptyState, first, OnPort("a", 7));
    AnnounceCanShareAPort(env, s, "a", OnPort("b", 7), second, other);
  }

  lemma EmptyIsSound()
    ensures Sound(EmptyState) && Complete(EmptyState)
  {
  }
}
