/** A port forward's backends: picking, dialing and health
    (go/tunnel/edge/pool.go). Members are named by their place in the list. */
module BackendPool {
  import opened Wrappers
  import RR = RoundRobin
  import SH = SourceHash
  import Health

  datatype Algorithm = LeastConn | BySource | Random | RoundRobin

  datatype Member = Member(addr: string, weight: int, disabled: bool)

  /** The entries of xs at the candidates' places. */
  function At(xs: seq<int>, cands: seq<nat>): (c: seq<int>)
    requires forall i | 0 <= i < |cands| :: cands[i] < |xs|
    ensures |c| == |cands| && forall i | 0 <= i < |cands| :: c[i] == xs[cands[i]]
  {
    seq(|cands|, i requires 0 <= i < |cands| => xs[cands[i]])
  }

  function WeightsOf(ms: seq<Member>, cands: seq<nat>): (w: seq<int>)
    requires forall i | 0 <= i < |cands| :: cands[i] < |ms|
    ensures |w| == |cands| && forall i | 0 <= i < |cands| :: w[i] == ms[cands[i]].weight
  {
    seq(|cands|, i requires 0 <= i < |cands| => ms[cands[i]].weight)
  }

  /** The candidates as the source hash sees them. */
  function BackendsOf(ms: seq<Member>, cands: seq<nat>): (bs: seq<SH.Backend>)
    requires forall i | 0 <= i < |ms| :: ms[i].weight >= 1
    requires forall i | 0 <= i < |cands| :: cands[i] < |ms|
    ensures |bs| == |cands| && forall i | 0 <= i < |cands| :: bs[i].addr == ms[cands[i]].addr
  {
    seq(|cands|, i requires 0 <= i < |cands| => SH.Backend(ms[cands[i]].addr, ms[cands[i]].weight))
  }

  ghost function Places(n: nat): (r: set<nat>)
    ensures forall i :: i in r <==> 0 <= i < n
  {
    if n == 0 then {} else Places(n - 1) + {n - 1}
  }

  predicate Distinct(xs: seq<nat>) { forall i, j | 0 <= i < j < |xs| :: xs[i] != xs[j] }

  predicate Ascending(xs: seq<nat>) { forall i, j | 0 <= i < j < |xs| :: xs[i] < xs[j] }

  function PlacesOf(cands: seq<nat>): set<nat> { set i | i in cands }

  /** No more connections per unit of weight, compared crosswise. */
  predicate NotBusier(active: int, weight: int, otherActive: int, otherWeight: int) {
    active * otherWeight <= otherActive * weight
  }

  lemma NotBusierTransitive(a: int, aw: int, b: int, bw: int, c: int, cw: int)
    requires aw >= 1 && bw >= 1 && cw >= 1 && NotBusier(a, aw, b, bw) && NotBusier(b, bw, c, cw)
    ensures NotBusier(a, aw, c, cw)
  {
    Scale(a * bw, b * aw, cw);
    Scale(b * cw, c * bw, aw);
    Unscale(a * cw, c * aw, bw, (a * bw) * cw, (c * bw) * aw);
  }

  /** So compared crosswise means compared by connections per unit of weight. */
  lemma NotBusierMeans(active: int, weight: int, otherActive: int, otherWeight: int)
    requires weight >= 1 && otherWeight >= 1
    ensures NotBusier(active, weight, otherActive, otherWeight) <==>
            active as real / weight as real <= otherActive as real / otherWeight as real
  {
    var x, y, w, v := active as real / weight as real, otherActive as real / otherWeight as real, weight as real, otherWeight as real;
    assert active as real == x * w && otherActive as real == y * v;
    assert (active * otherWeight) as real == x * w * v && (otherActive * weight) as real == y * v * w;
    ScaleReal(x, y, w * v);
  }

  lemma ScaleReal(x: real, y: real, k: real)
    requires k > 0.0
    ensures x <= y <==> x * k <= y * k
  {
  }

  lemma Scale(x: int, y: int, k: int)
    requires x <= y && k >= 0
    ensures x * k <= y * k
  {
  }

  lemma Unscale(x: int, y: int, k: int, xk: int, yk: int)
    requires k >= 1 && xk == x * k && yk == y * k && xk <= yk
    ensures x <= y
  {
    if x > y { Scale(y + 1, x, k); }
  }

  /** The candidates are the enabled, healthy members not tried yet, in the order of
      the list. */
  ghost predicate Offered(ms: seq<Member>, status: seq<Health.Status>, tried: set<nat>, cands: seq<nat>) {
    && |status| == |ms| && Ascending(cands)
    && forall i :: i in cands <==> 0 <= i < |ms| && !ms[i].disabled && status[i].healthy && i !in tried
  }

  predicate Usable(ms: seq<Member>, status: seq<Health.Status>, i: nat) {
    i < |ms| && i < |status| && !ms[i].disabled && status[i].healthy
  }

  /** All but the given ones at the start are enabled and healthy. */
  ghost predicate AllUsable(ms: seq<Member>, status: seq<Health.Status>, dialed: seq<nat>, given: nat) {
    forall j | given <= j < |dialed| :: Usable(ms, status, dialed[j])
  }

  /** The k-th candidate is the first of those with the fewest connections per unit of
      weight. */
  ghost predicate LeastBusy(ms: seq<Member>, active: seq<int>, cands: seq<nat>, k: nat)
    requires |active| == |ms| && forall i | 0 <= i < |cands| :: cands[i] < |ms|
  {
    && k < |cands|
    && (forall i | 0 <= i < |cands| :: NotBusier(active[cands[k]], ms[cands[k]].weight, active[cands[i]], ms[cands[i]].weight))
    && (forall i | 0 <= i < k :: !NotBusier(active[cands[i]], ms[cands[i]].weight, active[cands[k]], ms[cands[k]].weight))
  }

  /** One pick: the candidates, and the round robin counters before and after it. */
  datatype Choice = Choice(cands: seq<nat>, before: seq<int>, after: seq<int>)

  /** m is what the algorithm chooses. */
  ghost predicate Chosen(lb: Algorithm, ms: seq<Member>, active: seq<int>, hash: SH.Hash, client: string, draws: (nat, nat), c: Choice, m: nat) {
    && |active| == |ms| == |c.before| == |c.after| && (forall i | 0 <= i < |ms| :: ms[i].weight >= 1)
    && c.cands != [] && (forall i | 0 <= i < |c.cands| :: c.cands[i] < |ms|) && m in c.cands
    && (lb != RoundRobin ==> c.after == c.before)
    && match lb
       case LeastConn => exists k: nat :: k < |c.cands| && m == c.cands[k] && LeastBusy(ms, active, c.cands, k)
       case BySource => exists k: nat :: k < |c.cands| && m == c.cands[k] && SH.Wins(hash, client, BackendsOf(ms, c.cands), k)
       case Random =>
         var a, b := c.cands[draws.0 % |c.cands|], c.cands[draws.1 % |c.cands|];
         m in {a, b} && active[m] <= active[a] && active[m] <= active[b] && (active[a] == active[b] ==> m == a)
       case RoundRobin =>
         var w, r := WeightsOf(ms, c.cands), At(c.before, c.cands);
         && RR.Weights(w) && m == c.cands[RR.Pick(w, r)] && At(c.after, c.cands) == RR.Next(w, r)
         && forall i | 0 <= i < |ms| && i !in c.cands :: c.after[i] == c.before[i]
  }

  /** Each of the dialed members but the given ones at the start was, when it was
      dialed, what the algorithm chooses from the healthy ones not dialed before it. */
  ghost predicate Picked(lb: Algorithm, ms: seq<Member>, status: seq<Health.Status>, active: seq<int>, start: seq<int>, hash: SH.Hash,
                         client: string, draws: nat -> (nat, nat), given: nat, dialed: seq<nat>, current: seq<int>)
  {
    if |dialed| <= given then current == start
    else
      var n := |dialed| - 1;
      exists c: Choice :: c.after == current && Offered(ms, status, PlacesOf(dialed[..n]), c.cands)
               && Chosen(lb, ms, active, hash, client, draws(n), c, dialed[n])
               && Picked(lb, ms, status, active, start, hash, client, draws, given, dialed[..n], c.before)
  }

  lemma PickedNext(lb: Algorithm, ms: seq<Member>, status: seq<Health.Status>, active: seq<int>, start: seq<int>, hash: SH.Hash,
                   client: string, draws: nat -> (nat, nat), given: nat, dialed: seq<nat>, c: Choice, m: nat)
    requires given <= |dialed| && Picked(lb, ms, status, active, start, hash, client, draws, given, dialed, c.before)
    requires Offered(ms, status, PlacesOf(dialed), c.cands) && Chosen(lb, ms, active, hash, client, draws(|dialed|), c, m)
    ensures Picked(lb, ms, status, active, start, hash, client, draws, given, dialed + [m], c.after)
  {
    hide Offered, Chosen, PlacesOf;
    assert (dialed + [m])[..|dialed|] == dialed;
  }

  /** What happened to members tried already does not matter. */
  lemma OfferedAlike(ms: seq<Member>, was: seq<Health.Status>, now: seq<Health.Status>, tried: set<nat>, cands: seq<nat>)
    requires |was| == |ms| && Offered(ms, now, tried, cands) && forall i: nat | i < |ms| && i !in tried :: now[i] == was[i]
    ensures Offered(ms, was, tried, cands)
  {
  }

  class Pool {
    const algorithm: Algorithm
    /** The backends, and what changes about each of them: its health, its open
        connections and its round robin counter. */
    var members: seq<Member>
    var status: seq<Health.Status>
    var active: seq<int>
    var current: seq<int>

    ghost predicate Valid()
      reads this
    {
      && |status| == |active| == |current| == |members|
      && forall i | 0 <= i < |members| :: members[i].weight >= 1
    }

    constructor (ms: seq<Member>, lb: Algorithm)
      requires forall i | 0 <= i < |ms| :: ms[i].weight >= 1
      ensures Valid() && members == ms && algorithm == lb
      ensures forall i | 0 <= i < |ms| :: status[i] == Health.Fresh && active[i] == 0 && current[i] == 0
    {
      members, algorithm := ms, lb;
      status := seq(|ms|, i => Health.Fresh);
      active, current := seq(|ms|, i => 0), seq(|ms|, i => 0);
    }

    /** Adds every candidate's weight to its counter; best has the first of the
        largest counters. */
    method RaiseAll(cands: seq<nat>) returns (best: nat, total: int, ghost k: nat)
      requires Valid() && cands != [] && Distinct(cands) && forall i | 0 <= i < |cands| :: cands[i] < |members|
      modifies this`current
      ensures |current| == |members|
      ensures var r := RR.Raised(WeightsOf(members, cands), At(old(current), cands));
              At(current, cands) == r && k == RR.FirstMax(r) && best == cands[k]
      ensures forall i | 0 <= i < |current| && i !in cands :: current[i] == old(current)[i]
      ensures total == RR.Sum(WeightsOf(members, cands))
    {
      hide RR.FirstMax, RR.Sum;
      ghost var w, c := WeightsOf(members, cands), At(current, cands);
      ghost var r := RR.Raised(w, c);
      total, best, k := 0, cands[0], 0;
      RR.SumZeros([]);
      for i := 0 to |cands|
        invariant |current| == |members| && total == RR.Sum(w[..i])
        invariant forall j | 0 <= j < |current| && j !in cands :: current[j] == old(current)[j]
        invariant forall j | 0 <= j < |cands| :: current[cands[j]] == if j < i then r[j] else c[j]
        invariant k < |cands| && best == cands[k] && (i > 0 ==> k < i && k == RR.FirstMax(r[..i]))
      {
        var m := cands[i];
        current := current[m := current[m] + members[m].weight];
        total := total + members[m].weight;
        RR.SumNext(w, i);
        RR.FirstMaxNext(r, i);
        if i == 0 || current[m] > current[best] {
          best, k := m, i;
        }
      }
      assert w[..|cands|] == w && r[..|cands|] == r;
    }

    /** Adds every candidate's weight, takes the first of the largest counters and
        charges it the total. */
    method SmoothRoundRobin(cands: seq<nat>) returns (best: nat)
      requires Valid() && cands != [] && Distinct(cands) && forall i | 0 <= i < |cands| :: cands[i] < |members|
      modifies this`current
      ensures Valid()
      ensures var w, c := WeightsOf(members, cands), At(old(current), cands);
              RR.Weights(w) && best == cands[RR.Pick(w, c)] && At(current, cands) == RR.Next(w, c)
      ensures forall i | 0 <= i < |current| && i !in cands :: current[i] == old(current)[i]
    {
      hide RR.FirstMax, RR.Sum;
      ghost var w, c := WeightsOf(members, cands), At(current, cands);
      var total; ghost var k;
      best, total, k := RaiseAll(cands);
      current := current[best := current[best] - total];
      assert At(current, cands) == RR.Next(w, c);
    }

    /** The enabled, healthy members not tried yet. */
    method Candidates(tried: set<nat>) returns (cands: seq<nat>)
      requires Valid()
      ensures Offered(members, status, tried, cands)
    {
      cands := [];
      for i := 0 to |members|
        invariant Ascending(cands)
        invariant forall j :: j in cands <==> 0 <= j < i && !members[j].disabled && status[j].healthy && j !in tried
      {
        assert forall j | 0 <= j < |cands| :: cands[j] in cands;
        if !members[i].disabled && status[i].healthy && i !in tried {
          cands := cands + [i];
        }
      }
    }

    /** The candidate with the fewest connections per unit of weight. */
    method LeastConnections(cands: seq<nat>) returns (best: nat)
      requires Valid() && cands != [] && forall i | 0 <= i < |cands| :: cands[i] < |members|
      ensures exists k: nat :: k < |cands| && best == cands[k] && LeastBusy(members, active, cands, k)
    {
      hide NotBusier;
      best := cands[0];
      ghost var k := 0;
      NotBusierDefined(active[best], members[best].weight, active[best], members[best].weight);
      for i := 1 to |cands|
        invariant k < i && best == cands[k]
        invariant forall j | 0 <= j < i :: NotBusier(active[best], members[best].weight, active[cands[j]], members[cands[j]].weight)
        invariant forall j | 0 <= j < k :: !NotBusier(active[cands[j]], members[cands[j]].weight, active[best], members[best].weight)
      {
        var m := cands[i];
        NotBusierDefined(active[m], members[m].weight, active[m], members[m].weight);
        NotBusierDefined(active[best], members[best].weight, active[m], members[m].weight);
        if active[m] * members[best].weight < active[best] * members[m].weight {
          NotBusierDefined(active[m], members[m].weight, active[best], members[best].weight);
          forall j | 0 <= j < i
            ensures NotBusier(active[m], members[m].weight, active[cands[j]], members[cands[j]].weight)
            ensures !NotBusier(active[cands[j]], members[cands[j]].weight, active[m], members[m].weight)
          {
            var o := cands[j];
            NotBusierTransitive(active[m], members[m].weight, active[best], members[best].weight, active[o], members[o].weight);
            if NotBusier(active[o], members[o].weight, active[m], members[m].weight) {
              NotBusierTransitive(active[best], members[best].weight, active[o], members[o].weight, active[m], members[m].weight);
            }
          }
          best, k := m, i;
        }
      }
      assert LeastBusy(members, active, cands, k);
    }

    method BySourceHash(hash: SH.Hash, client: string, cands: seq<nat>) returns (best: nat)
      requires Valid() && cands != [] && forall i | 0 <= i < |cands| :: cands[i] < |members|
      ensures exists k: nat :: k < |cands| && best == cands[k] && SH.Wins(hash, client, BackendsOf(members, cands), k)
    {
      var bs := BackendsOf(members, cands);
      var i := SH.PickByHash(hash, client, bs);
      best := cands[i];
    }

    /** Chooses one of the candidates by the pool's algorithm. */
    method Choose(hash: SH.Hash, client: string, draws: (nat, nat), list: seq<nat>) returns (best: nat)
      requires Valid() && list != [] && Ascending(list) && forall i | 0 <= i < |list| :: list[i] < |members|
      modifies this`current
      ensures Valid() && Chosen(algorithm, members, active, hash, client, draws, Choice(list, old(current), current), best)
    {
      hide LeastBusy, RR.Sum, RR.FirstMax, SH.Wins;
      assert forall i | 0 <= i < |list| :: list[i] in list;
      match algorithm {
        case LeastConn =>
          best := LeastConnections(list);
        case BySource =>
          best := BySourceHash(hash, client, list);
        case Random =>
          // Power of two choices.
          var a, b := list[draws.0 % |list|], list[draws.1 % |list|];
          best := if active[b] < active[a] then b else a;
        case RoundRobin =>
          best := SmoothRoundRobin(list);
      }
    }

    /** Chooses a healthy, enabled member not in tried, by the pool's algorithm;
        draws are the random numbers it gets. */
    method Pick(hash: SH.Hash, client: string, draws: (nat, nat), tried: set<nat>) returns (r: Option<nat>, ghost c: Choice)
      requires Valid()
      modifies this`current
      ensures Valid() && Offered(members, status, tried, c.cands) && c.before == old(current) && c.after == current
      ensures r.None? <==> forall i | 0 <= i < |members| && !members[i].disabled && status[i].healthy :: i in tried
      ensures r.Some? ==> r.value < |members| && !members[r.value].disabled && status[r.value].healthy && r.value !in tried
      ensures r.None? ==> c.cands == [] && current == old(current)
      ensures r.Some? ==> Chosen(algorithm, members, active, hash, client, draws, c, r.value)
    {
      hide Offered, Chosen, Ascending;
      var list := Candidates(tried);
      OfferedMeans(members, status, tried, list);
      ghost var before := current;
      if list == [] {
        return None, Choice(list, before, current);
      }
      var best := Choose(hash, client, draws, list);
      r, c := Some(best), Choice(list, before, current);
      ChosenIsOne(algorithm, members, active, hash, client, draws, c, best);
    }

    method Fail(i: nat)
      requires Valid() && i < |members|
      modifies this`status
      ensures Valid() && status == old(status)[i := Health.Failed(old(status)[i])]
    {
      var m := status[i];
      m := m.(fails := m.fails + 1, passes := 0);
      if m.fails >= Health.UnhealthyAfter {
        m := m.(healthy := false);
      }
      status := status[i := m];
    }

    method Pass(i: nat)
      requires Valid() && i < |members|
      modifies this`status
      ensures Valid() && status == old(status)[i := Health.Passed(old(status)[i])]
    {
      var m := status[i];
      m := m.(passes := m.passes + 1);
      if m.passes >= Health.HealthyAfter || m.healthy {
        m := m.(fails := 0, healthy := true);
      }
      status := status[i := m];
    }

    /** The member to dial next, if one is left. */
    method PickNext(hash: SH.Hash, client: string, draws: nat -> (nat, nat), tried: set<nat>, dialed: seq<nat>,
                    ghost given: nat, ghost was: seq<Health.Status>, ghost start: seq<int>) returns (m: Option<nat>)
      requires Valid() && |was| == |members| && given <= |dialed| && tried == PlacesOf(dialed)
      requires Recorded(was, status, tried)
      requires Picked(algorithm, members, was, active, start, hash, client, draws, given, dialed, current)
      modifies this`current
      ensures Valid()
      ensures m.None? ==> current == old(current) && forall i: nat | i < |members| && !members[i].disabled && was[i].healthy :: i in tried
      ensures m.Some? ==>
                && m.value < |members| && m.value !in tried && Usable(members, was, m.value)
                && Picked(algorithm, members, was, active, start, hash, client, draws, given, dialed + [m.value], current)
    {
      hide Chosen, Picked, Offered, PlacesOf;
      ghost var c;
      m, c := Pick(hash, client, draws(|dialed|), tried);
      OfferedAlike(members, was, status, tried, c.cands);
      if m.Some? {
        PickedNext(algorithm, members, was, active, start, hash, client, draws, given, dialed, c, m.value);
      }
    }

    /** Connects to a member, first if given, trying the next one when a dial
        fails; answers(i) tells whether member i accepts. */
    method DialFrom(hash: SH.Hash, client: string, draws: nat -> (nat, nat), first: Option<nat>, answers: nat -> bool)
      returns (r: Option<nat>, dialed: seq<nat>)
      requires Valid() && (first.Some? ==> first.value < |members|)
      modifies this
      ensures Valid() && members == old(members) && |old(active)| == |members| && Distinct(dialed) && forall i | i in dialed :: i < |members|
      ensures first.Some? ==> dialed != [] && dialed[0] == first.value
      ensures r.Some? ==>
                && dialed != [] && r.value == dialed[|dialed| - 1] && r.value < |members| && answers(r.value)
                && (forall i | 0 <= i < |dialed| - 1 :: !answers(dialed[i]))
                && active == old(active)[r.value := old(active)[r.value] + 1]
      ensures r.None? ==>
                && (forall i | i in dialed :: !answers(i))
                && (forall i: nat | i < |members| && !members[i].disabled && old(status)[i].healthy :: i in dialed)
                && active == old(active)
      ensures AllUsable(members, old(status), dialed, if first.Some? then 1 else 0)
      ensures Recorded(old(status), status, set i | i in dialed && !answers(i))
      ensures Picked(algorithm, members, old(status), old(active), old(current), hash, client, draws,
                     if first.Some? then 1 else 0, dialed, current)
    {
      hide Picked, PlacesOf, Places, Distinct, AllUsable, Recorded, Usable, Refused;
      var tried: set<nat> := {};
      dialed := [];
      var next := first;
      ghost var all, given := Places(|members|), if first.Some? then 1 else 0;
      NonePicked(algorithm, members, status, active, current, hash, client, draws, given);
      NoneRefused(members, status, first, answers);
      while true
        invariant Valid() && members == old(members) && active == old(active)
        invariant next == if dialed == [] then first else None
        invariant Refused(members, old(status), first, answers, dialed, tried) && tried <= all
        invariant Recorded(old(status), status, tried)
        invariant Picked(algorithm, members, old(status), old(active), old(current), hash, client, draws, given, dialed, current)
        decreases all - tried
      {
        var m := next;
        AllRefused(members, old(status), first, answers, dialed, tried);
        if m.None? {
          m := PickNext(hash, client, draws, tried, dialed, given, old(status), old(current));
          if m.None? {
            return None, dialed;
          }
        } else {
          assert dialed + [m.value] == [m.value];
          GivenPicked(algorithm, members, old(status), old(active), old(current), hash, client, draws, m.value, current);
        }
        next := None;
        OneMoreDialed(members, old(status), first, answers, dialed, tried, m.value);
        dialed := dialed + [m.value];
        if answers(m.value) {
          active := active[m.value := active[m.value] + 1];
          return m, dialed;
        }
        FailedToo(old(status), status, tried, m.value);
        tried := tried + {m.value};
        Fail(m.value);
      }
    }
  }

  /** The dialed members have all refused. */
  ghost predicate Refused(ms: seq<Member>, status: seq<Health.Status>, first: Option<nat>, answers: nat -> bool, dialed: seq<nat>, tried: set<nat>) {
    && Distinct(dialed) && tried == PlacesOf(dialed) && (forall i | i in dialed :: i < |ms| && !answers(i))
    && (first.Some? && dialed != [] ==> dialed[0] == first.value)
    && AllUsable(ms, status, dialed, if first.Some? then 1 else 0)
  }

  lemma NoneRefused(ms: seq<Member>, status: seq<Health.Status>, first: Option<nat>, answers: nat -> bool)
    ensures Refused(ms, status, first, answers, [], {}) && Recorded(status, status, {})
  {
  }

  lemma AllRefused(ms: seq<Member>, status: seq<Health.Status>, first: Option<nat>, answers: nat -> bool, dialed: seq<nat>, tried: set<nat>)
    requires Refused(ms, status, first, answers, dialed, tried)
    ensures Distinct(dialed) && tried == PlacesOf(dialed) && tried == (set i | i in dialed && !answers(i)) && forall i | i in dialed :: i < |ms|
    ensures forall i | i in dialed :: !answers(i)
    ensures forall i | i in tried :: i in dialed
    ensures first.Some? && dialed != [] ==> dialed[0] == first.value
    ensures AllUsable(ms, status, dialed, if first.Some? then 1 else 0)
  {
  }

  lemma OneMoreDialed(ms: seq<Member>, status: seq<Health.Status>, first: Option<nat>, answers: nat -> bool, dialed: seq<nat>, tried: set<nat>, m: nat)
    requires Refused(ms, status, first, answers, dialed, tried) && m !in tried && m < |ms|
    requires if dialed == [] && first.Some? then first.value == m else Usable(ms, status, m)
    ensures var more := dialed + [m];
            && Distinct(more) && (forall i | i in more :: i < |ms|) && AllUsable(ms, status, more, if first.Some? then 1 else 0)
            && (first.Some? ==> more[0] == first.value)
            && (forall i | 0 <= i < |dialed| :: !answers(more[i]))
            && (answers(m) ==> (set i | i in more && !answers(i)) == tried)
            && (!answers(m) ==> Refused(ms, status, first, answers, more, tried + {m}))
  {
    var more := dialed + [m];
    assert forall i | 0 <= i < |dialed| :: more[i] == dialed[i] && dialed[i] in dialed;
    assert forall i :: i in more <==> i in dialed || i == m;
  }

  /** Exactly the failed members' failures are counted. */
  ghost predicate Recorded(was: seq<Health.Status>, now: seq<Health.Status>, failed: set<nat>) {
    |was| == |now| && forall i: nat | i < |now| :: now[i] == if i in failed then Health.Failed(was[i]) else was[i]
  }

  lemma FailedToo(was: seq<Health.Status>, now: seq<Health.Status>, failed: set<nat>, i: nat)
    requires Recorded(was, now, failed) && i < |now| && i !in failed
    ensures Recorded(was, now[i := Health.Failed(now[i])], failed + {i})
  {
  }

  lemma NonePicked(lb: Algorithm, ms: seq<Member>, status: seq<Health.Status>, active: seq<int>, start: seq<int>, hash: SH.Hash,
                   client: string, draws: nat -> (nat, nat), given: nat)
    ensures Picked(lb, ms, status, active, start, hash, client, draws, given, [], start)
  {
  }

  lemma GivenPicked(lb: Algorithm, ms: seq<Member>, status: seq<Health.Status>, active: seq<int>, start: seq<int>, hash: SH.Hash,
                    client: string, draws: nat -> (nat, nat), m: nat, current: seq<int>)
    requires Picked(lb, ms, status, active, start, hash, client, draws, 1, [], current)
    ensures Picked(lb, ms, status, active, start, hash, client, draws, 1, [m], current)
  {
  }

  lemma OfferedMeans(ms: seq<Member>, status: seq<Health.Status>, tried: set<nat>, cands: seq<nat>)
    requires Offered(ms, status, tried, cands)
    ensures |status| == |ms| && Ascending(cands)
    ensures forall i | i in cands :: i < |ms| && !ms[i].disabled && status[i].healthy && i !in tried
    ensures forall i | 0 <= i < |cands| :: cands[i] < |ms|
    ensures cands == [] <==> forall i | 0 <= i < |ms| && !ms[i].disabled && status[i].healthy :: i in tried
  {
    assert forall i | 0 <= i < |cands| :: cands[i] in cands;
    if cands == [] {
      forall i | 0 <= i < |ms| && !ms[i].disabled && status[i].healthy ensures i in tried { assert i !in cands; }
    } else {
      assert !ms[cands[0]].disabled && status[cands[0]].healthy && cands[0] !in tried;
    }
  }

  lemma ChosenIsOne(lb: Algorithm, ms: seq<Member>, active: seq<int>, hash: SH.Hash, client: string, draws: (nat, nat), c: Choice, m: nat)
    requires Chosen(lb, ms, active, hash, client, draws, c, m)
    ensures m in c.cands
  {
  }

  lemma NotBusierDefined(a: int, aw: int, b: int, bw: int)
    ensures NotBusier(a, aw, b, bw) <==> a * bw <= b * aw
  {
  }
}
