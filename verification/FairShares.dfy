/** Smooth weighted round robin when the candidates change from pick to pick, as members
    go down, come back or refuse (go/tunnel/edge/pool.go): what each member was owed and
    what it was given never drift apart by more than a bound that does not depend on how
    many picks there were. */
module FairShares {
  import RR = RoundRobin
  import opened BackendPool

  /** The sum of the entries at the places. */
  function Over(xs: seq<int>, places: set<nat>): int {
    if xs == [] then 0 else
      Over(xs[..|xs| - 1], places) + if |xs| - 1 in places then xs[|xs| - 1] else 0
  }

  /** One pick among the candidates. */
  datatype Turn = Turn(cands: set<nat>, pick: nat)

  predicate Below(places: set<nat>, n: nat) { forall i | i in places :: i < n }

  predicate Weighted(w: seq<int>, most: int) { forall i | 0 <= i < |w| :: 1 <= w[i] <= most }

  /** A candidate with the largest raised counter is picked. */
  predicate Legal(w: seq<int>, c: seq<int>, t: Turn)
    requires |c| == |w|
  {
    && Below(t.cands, |w|) && t.pick in t.cands
    && forall i | i in t.cands :: c[i] + w[i] <= c[t.pick] + w[t.pick]
  }

  /** Every candidate gains its weight, the pick pays for all of them. */
  function Paid(w: seq<int>, c: seq<int>, t: Turn): (r: seq<int>)
    requires |c| == |w|
    ensures |r| == |w|
    ensures forall i | 0 <= i < |w| ::
              r[i] == c[i] + (if i in t.cands then w[i] else 0) - if i == t.pick then Over(w, t.cands) else 0
  {
    seq(|w|, i requires 0 <= i < |w| =>
      c[i] + (if i in t.cands then w[i] else 0) - if i == t.pick then Over(w, t.cands) else 0)
  }

  function Counters(w: seq<int>, turns: seq<Turn>): (c: seq<int>)
    ensures |c| == |w|
  {
    if turns == [] then RR.Zeros(|w|) else Paid(w, Counters(w, turns[..|turns| - 1]), turns[|turns| - 1])
  }

  ghost predicate LegalRun(w: seq<int>, turns: seq<Turn>) {
    turns == [] ||
    (LegalRun(w, turns[..|turns| - 1]) && Legal(w, Counters(w, turns[..|turns| - 1]), turns[|turns| - 1]))
  }

  // ---------------------------------------------------------------------
  // Sums over places
  // ---------------------------------------------------------------------

  lemma {:induction false} OverSame(xs: seq<int>, a: set<nat>, b: set<nat>)
    requires forall i | 0 <= i < |xs| :: i in a <==> i in b
    ensures Over(xs, a) == Over(xs, b)
  {
    if xs != [] { OverSame(xs[..|xs| - 1], a, b); }
  }

  lemma {:induction false} OverAdd(xs: seq<int>, places: set<nat>, k: nat)
    requires k < |xs| && k !in places
    ensures Over(xs, places + {k}) == Over(xs, places) + xs[k]
  {
    var n := |xs| - 1;
    if k == n {
      OverSame(xs[..n], places + {k}, places);
    } else {
      OverAdd(xs[..n], places, k);
    }
  }

  lemma OverRemove(xs: seq<int>, places: set<nat>, k: nat)
    requires k < |xs| && k in places
    ensures Over(xs, places - {k}) == Over(xs, places) - xs[k]
  {
    OverAdd(xs, places - {k}, k);
    assert places - {k} + {k} == places;
  }

  lemma {:induction false} OverZeros(n: nat, places: set<nat>)
    ensures Over(RR.Zeros(n), places) == 0
  {
    if n > 0 {
      assert RR.Zeros(n)[..n - 1] == RR.Zeros(n - 1);
      OverZeros(n - 1, places);
    }
  }

  /** The weights of some places are at most those of more, and at most the most each. */
  lemma {:induction false} OverWeights(w: seq<int>, most: int, a: set<nat>, b: set<nat>)
    requires Weighted(w, most) && a <= b
    ensures 0 <= Over(w, a) <= Over(w, b)
  {
    if w != [] { OverWeights(w[..|w| - 1], most, a, b); }
  }

  lemma {:induction false} OverAtMost(w: seq<int>, most: int, a: set<nat>)
    requires Weighted(w, most) && Below(a, |w|) && most >= 1
    ensures Over(w, a) <= most * |a|
    decreases |a|
  {
    if a == {} {
      OverNone(w);
    } else {
      var k :| k in a;
      OverAtMost(w, most, a - {k});
      OverRemove(w, a, k);
      assert most * |a| == most * |a - {k}| + most;
    }
  }

  lemma {:induction false} OverNone(xs: seq<int>)
    ensures Over(xs, {}) == 0
  {
    if xs != [] { OverNone(xs[..|xs| - 1]); }
  }

  /** What a pick does to the sum over the places. */
  lemma {:induction false} OverPaid(w: seq<int>, c: seq<int>, r: seq<int>, cands: set<nat>, pick: nat, total: int, places: set<nat>)
    requires |w| == |c| == |r|
    requires forall i | 0 <= i < |w| :: r[i] == c[i] + (if i in cands then w[i] else 0) - if i == pick then total else 0
    ensures Over(r, places) == Over(c, places) + Over(w, places * cands) - if pick < |w| && pick in places then total else 0
  {
    if w != [] {
      var n := |w| - 1;
      OverPaid(w[..n], c[..n], r[..n], cands, pick, total, places);
    }
  }

  // ---------------------------------------------------------------------
  // The bound
  // ---------------------------------------------------------------------

  /** Six times what k of n counters can add up to, in units of the largest weight. */
  function Room(n: nat, k: nat): int { k * (n - k) * (2 * n + 2 * k + 3) }

  lemma RoomIs(n: nat, k: nat)
    ensures Room(n, k) == 2 * n * n * k + 3 * n * k - 2 * k * k * k - 3 * k * k
  {
    var m := n - k;
    assert m * (2 * n + 2 * k + 3) == 2 * n * n + 3 * n - 2 * k * k - 3 * k by {
      assert m * (2 * n + 2 * k + 3) == n * (2 * n + 2 * k + 3) - k * (2 * n + 2 * k + 3);
      assert n * (2 * n + 2 * k + 3) == 2 * n * n + 2 * n * k + 3 * n;
      assert k * (2 * n + 2 * k + 3) == 2 * n * k + 2 * k * k + 3 * k;
    }
    assert k * (m * (2 * n + 2 * k + 3)) == k * (2 * n * n + 3 * n - 2 * k * k - 3 * k);
  }

  lemma RoomBends(n: nat, k: nat)
    requires k >= 1
    ensures Room(n, k + 1) + Room(n, k - 1) == 2 * Room(n, k) - 12 * k - 6
  {
    hide Room;
    RoomIs(n, k);
    RoomIs(n, k + 1);
    RoomIs(n, k - 1);
    Powers(k, k + 1);
    Powers(k - 1, k);
    Spread(2 * n * n, k, k + 1, k - 1);
    Spread(3 * n, k, k + 1, k - 1);
  }

  lemma Powers(k: int, x: int)
    requires x == k + 1
    ensures x * x == k * k + 2 * k + 1
    ensures x * x * x == k * k * k + 3 * (k * k) + 3 * k + 1
  {
    var q := x * x;
    Grow(k, k, x);
    Grow(x, k, x);
    Grow(q, k, x);
    var square := k * k;
    assert q == square + 2 * k + 1;
    Sum(square, 2 * k + 1, k);
    Sum(2 * k, 1, k);
  }

  lemma Grow(y: int, k: int, x: int)
    requires x == k + 1
    ensures y * x == y * k + y && x * y == k * y + y
  {
  }

  lemma Sum(y: int, z: int, k: int)
    ensures (y + z) * k == y * k + z * k
  {
  }

  lemma Spread(y: int, k: int, up: int, down: int)
    requires up == k + 1 && down == k - 1
    ensures y * up + y * down == 2 * (y * k)
  {
  }

  lemma RoomIsPositive(n: nat, k: nat)
    requires k <= n
    ensures Room(n, k) >= 0
  {
    assert k * (n - k) >= 0;
  }

  ghost predicate Fits(c: seq<int>, most: int, places: set<nat>) {
    6 * Over(c, places) <= most * Room(|c|, |places|)
  }

  ghost predicate Bounded(c: seq<int>, most: int) {
    forall places: set<nat> | Below(places, |c|) :: Fits(c, most, places)
  }

  lemma {:induction false} Size(places: set<nat>, n: nat)
    requires Below(places, n)
    ensures |places| <= n
    decreases n
  {
    if n > 0 {
      Size(places - {n - 1}, n - 1);
      if n - 1 !in places { assert places - {n - 1} == places; }
    } else {
      assert places == {};
    }
  }

  /** A pick outside the places: their candidates lag behind the pick, so they had
      room left. */
  lemma RoomIsLeft(w: seq<int>, c: seq<int>, most: int, t: Turn, places: set<nat>, a: nat)
    requires |c| == |w| && most >= 1 && Weighted(w, most) && Bounded(c, most) && Legal(w, c, t)
    requires Below(places, |w|) && t.pick !in places && a in places && a in t.cands
    ensures 6 * (Over(c, places) + most * |places|) <= most * Room(|w|, |places|)
  {
    hide Over, Room;
    var k, n := |places|, |w|;
    var more, less := places + {t.pick}, places - {a};
    assert Fits(c, most, more) && Fits(c, most, less);
    OverAdd(c, places, t.pick);
    OverRemove(c, places, a);
    assert |more| == k + 1 && |less| == k - 1;
    RoomBends(n, k);
    Squeeze(Over(c, places), c[t.pick], c[a], w[t.pick], w[a], most, k, Room(n, k), Room(n, k + 1), Room(n, k - 1));
  }

  lemma Squeeze(sum: int, cp: int, ca: int, wp: int, wa: int, most: int, k: int, room: int, above: int, below: int)
    requires 6 * (sum + cp) <= most * above && 6 * (sum - ca) <= most * below
    requires ca + wa <= cp + wp && 1 <= wa && wp <= most && above + below == 2 * room - 12 * k - 6
    ensures 6 * (sum + most * k) <= most * room
  {
    assert most * above + most * below == most * (above + below);
    assert most * (above + below) == 2 * (most * room) - 12 * (most * k) - 6 * most;
  }

  lemma TurnFits(w: seq<int>, c: seq<int>, most: int, t: Turn, places: set<nat>)
    requires |c| == |w| && most >= 1 && Weighted(w, most) && Bounded(c, most) && Legal(w, c, t) && Below(places, |w|)
    ensures Fits(Paid(w, c, t), most, places)
  {
    hide Over, Room, Paid;
    var r := Paid(w, c, t);
    OverPaid(w, c, r, t.cands, t.pick, Over(w, t.cands), places);
    assert Fits(c, most, places);
    if t.pick in places {
      OverWeights(w, most, places * t.cands, t.cands);
    } else if places * t.cands == {} {
      OverNone(w);
    } else {
      var a :| a in places * t.cands;
      RoomIsLeft(w, c, most, t, places, a);
      Lagging(w, most, places, t.cands);
    }
  }

  lemma Lagging(w: seq<int>, most: int, places: set<nat>, cands: set<nat>)
    requires Weighted(w, most) && Below(places, |w|) && most >= 1
    ensures Over(w, places * cands) <= most * |places|
  {
    OverWeights(w, most, places * cands, places);
    OverAtMost(w, most, places);
  }

  lemma {:induction false} AlwaysBounded(w: seq<int>, most: int, turns: seq<Turn>)
    requires most >= 1 && Weighted(w, most) && LegalRun(w, turns)
    ensures Bounded(Counters(w, turns), most)
  {
    hide Fits, Legal, Paid;
    forall places: set<nat> | Below(places, |w|) ensures Fits(Counters(w, turns), most, places) {
      if turns == [] {
        ZerosFit(|w|, most, places);
      } else {
        AlwaysBounded(w, most, turns[..|turns| - 1]);
        TurnFits(w, Counters(w, turns[..|turns| - 1]), most, turns[|turns| - 1], places);
      }
    }
  }

  lemma ZerosFit(n: nat, most: int, places: set<nat>)
    requires most >= 1 && Below(places, n)
    ensures Fits(RR.Zeros(n), most, places)
  {
    OverZeros(n, places);
    Size(places, n);
    RoomIsPositive(n, |places|);
  }

  // ---------------------------------------------------------------------
  // What it means for a member
  // ---------------------------------------------------------------------

  function All(n: nat): (r: set<nat>)
    ensures Below(r, n) && |r| == n && forall i: nat :: i in r <==> i < n
  {
    if n == 0 then {} else All(n - 1) + {n - 1}
  }

  /** The weight the member had in the turns it was a candidate for. */
  function Owed(w: seq<int>, turns: seq<Turn>, i: nat): int
    requires i < |w|
  {
    if turns == [] then 0 else
      Owed(w, turns[..|turns| - 1], i) + if i in turns[|turns| - 1].cands then w[i] else 0
  }

  /** The weight of all the candidates in the turns it was picked. */
  function Given(w: seq<int>, turns: seq<Turn>, i: nat): int
    requires i < |w|
  {
    if turns == [] then 0 else
      Given(w, turns[..|turns| - 1], i) + if i == turns[|turns| - 1].pick then Over(w, turns[|turns| - 1].cands) else 0
  }

  lemma {:induction false} CounterIsTheDifference(w: seq<int>, turns: seq<Turn>, i: nat)
    requires i < |w|
    ensures Counters(w, turns)[i] == Owed(w, turns, i) - Given(w, turns, i)
  {
    if turns != [] { CounterIsTheDifference(w, turns[..|turns| - 1], i); }
  }

  lemma {:induction false} SumsToZero(w: seq<int>, turns: seq<Turn>)
    requires LegalRun(w, turns)
    ensures Over(Counters(w, turns), All(|w|)) == 0
  {
    var all := All(|w|);
    if turns == [] {
      OverZeros(|w|, all);
    } else {
      var init, t := turns[..|turns| - 1], turns[|turns| - 1];
      SumsToZero(w, init);
      OverPaid(w, Counters(w, init), Counters(w, turns), t.cands, t.pick, Over(w, t.cands), all);
      assert all * t.cands == t.cands;
    }
  }

  lemma OneFits(c: seq<int>, most: int, i: nat)
    requires i < |c| && Bounded(c, most)
    ensures 6 * c[i] <= most * ((|c| - 1) * (2 * |c| + 5))
  {
    hide Over, Room;
    OverNone(c);
    OverAdd(c, {}, i);
    assert {} + {i} == {i};
    assert Fits(c, most, {i});
    RoomEnds(|c|);
  }

  lemma RestFit(c: seq<int>, most: int, i: nat)
    requires i < |c| && Bounded(c, most)
    ensures 6 * (Over(c, All(|c|)) - c[i]) <= most * ((|c| - 1) * (4 * |c| + 1))
  {
    hide Over, Room;
    var all := All(|c|);
    OverRemove(c, all, i);
    assert Fits(c, most, all - {i}) && |all - {i}| == |c| - 1;
    RoomEnds(|c|);
  }

  lemma RoomEnds(n: nat)
    requires n > 0
    ensures Room(n, 1) == (n - 1) * (2 * n + 5) && Room(n, n - 1) == (n - 1) * (4 * n + 1)
  {
  }

  /** However the candidates change, a member of n with weights up to most is never
      owed more than most * (n - 1) * (2n + 5) / 6, and never ahead by more than
      most * (n - 1) * (4n + 1) / 6. */
  lemma SharesStayFair(w: seq<int>, most: int, turns: seq<Turn>, i: nat)
    requires most >= 1 && Weighted(w, most) && LegalRun(w, turns) && i < |w|
    ensures var n, ahead := |w|, Given(w, turns, i) - Owed(w, turns, i);
            -(most * ((n - 1) * (2 * n + 5))) <= 6 * ahead <= most * ((n - 1) * (4 * n + 1))
  {
    hide Over, LegalRun, Counters, Owed, Given, Bounded, Room;
    var c := Counters(w, turns);
    AlwaysBounded(w, most, turns);
    CounterIsTheDifference(w, turns, i);
    SumsToZero(w, turns);
    OneFits(c, most, i);
    RestFit(c, most, i);
  }

  // ---------------------------------------------------------------------
  // The pool takes such turns
  // ---------------------------------------------------------------------

  lemma {:induction false} SumIsOver(xs: seq<int>, cands: seq<nat>)
    requires Distinct(cands) && forall i | 0 <= i < |cands| :: cands[i] < |xs|
    ensures RR.Sum(At(xs, cands)) == Over(xs, PlacesOf(cands))
  {
    if cands == [] {
      assert PlacesOf(cands) == {};
      OverNone(xs);
    } else {
      var init, k := cands[..|cands| - 1], cands[|cands| - 1];
      SumIsOver(xs, init);
      assert At(xs, cands)[..|cands| - 1] == At(xs, init);
      assert k !in init;
      OverAdd(xs, PlacesOf(init), k);
      assert PlacesOf(cands) == PlacesOf(init) + {k} by { assert cands == init + [k]; }
    }
  }

  /** Each pick of SmoothRoundRobin is a turn of all its members. */
  lemma PoolTakesTurns(ms: seq<Member>, c: seq<int>, r: seq<int>, cands: seq<nat>, w: seq<int>)
    requires |c| == |r| == |ms| == |w| && forall i | 0 <= i < |ms| :: w[i] == ms[i].weight >= 1
    requires cands != [] && Distinct(cands) && forall i | 0 <= i < |cands| :: cands[i] < |ms|
    requires At(r, cands) == RR.Next(WeightsOf(ms, cands), At(c, cands))
    requires forall i | 0 <= i < |ms| && i !in cands :: r[i] == c[i]
    ensures var t := Turn(PlacesOf(cands), cands[RR.Pick(WeightsOf(ms, cands), At(c, cands))]);
            Legal(w, c, t) && r == Paid(w, c, t)
  {
    hide RR.Sum, RR.FirstMax, Over, Paid;
    var cw, cc := WeightsOf(ms, cands), At(c, cands);
    var k := RR.Pick(cw, cc);
    assert At(w, cands) == cw;
    SumIsOver(w, cands);
    var t := Turn(PlacesOf(cands), cands[k]);
    forall i | i in t.cands ensures c[i] + w[i] <= c[t.pick] + w[t.pick] {
      var j :| 0 <= j < |cands| && cands[j] == i;
      assert RR.Raised(cw, cc)[j] <= RR.Raised(cw, cc)[k];
    }
    forall i | 0 <= i < |w| ensures r[i] == Paid(w, c, t)[i] {
      if i in cands {
        var j :| 0 <= j < |cands| && cands[j] == i;
        assert At(r, cands)[j] == r[i];
        assert i == t.pick <==> j == k;
      } else {
        assert i != t.pick;
      }
    }
  }
}
