/** Smooth weighted round robin is exactly fair (go/tunnel/edge/pool.go). */
module RoundRobin {

  function Sum(xs: seq<int>): int {
    if xs == [] then 0 else Sum(xs[..|xs| - 1]) + xs[|xs| - 1]
  }

  /** Every member has a weight of at least 1, and there is a member. */
  predicate Weights(w: seq<int>) {
    w != [] && forall i | 0 <= i < |w| :: w[i] >= 1
  }

  /** The counters with every weight added. */
  function Raised(w: seq<int>, c: seq<int>): (r: seq<int>)
    requires |c| == |w|
    ensures |r| == |w| && forall i | 0 <= i < |w| :: r[i] == c[i] + w[i]
  {
    seq(|w|, i requires 0 <= i < |w| => c[i] + w[i])
  }

  /** The first of the largest counters. */
  function FirstMax(c: seq<int>): (k: nat)
    requires c != []
    ensures k < |c|
    ensures forall i | 0 <= i < |c| :: c[i] <= c[k]
    ensures forall i | 0 <= i < k :: c[i] < c[k]
  {
    if |c| == 1 then 0 else
      var k := FirstMax(c[..|c| - 1]);
      if c[|c| - 1] > c[k] then |c| - 1 else k
  }

  function Pick(w: seq<int>, c: seq<int>): (k: nat)
    requires Weights(w) && |c| == |w|
    ensures k < |w|
  {
    FirstMax(Raised(w, c))
  }

  /** The counters after one pick: everyone gains its weight, the pick pays the total. */
  function Next(w: seq<int>, c: seq<int>): (n: seq<int>)
    requires Weights(w) && |c| == |w|
    ensures |n| == |w|
  {
    var r, k := Raised(w, c), Pick(w, c);
    r[k := r[k] - Sum(w)]
  }

  function Zeros(n: nat): (z: seq<int>)
    ensures |z| == n && forall i | 0 <= i < n :: z[i] == 0
  {
    seq(n, i => 0)
  }

  /** The counters after n picks, starting from zero. */
  function After(w: seq<int>, n: nat): (c: seq<int>)
    requires Weights(w)
    ensures |c| == |w|
  {
    if n == 0 then Zeros(|w|) else Next(w, After(w, n - 1))
  }

  /** How often each member was picked in the first n picks. */
  function Picks(w: seq<int>, n: nat): (p: seq<int>)
    requires Weights(w)
    ensures |p| == |w|
  {
    if n == 0 then Zeros(|w|) else
      var k := Pick(w, After(w, n - 1));
      Picks(w, n - 1)[k := Picks(w, n - 1)[k] + 1]
  }

  // ---------------------------------------------------------------------
  // Sums
  // ---------------------------------------------------------------------

  lemma SumNext(w: seq<int>, i: nat)
    requires i < |w|
    ensures Sum(w[..i + 1]) == Sum(w[..i]) + w[i]
  {
    assert w[..i + 1][..i] == w[..i];
  }

  lemma FirstMaxNext(c: seq<int>, i: nat)
    requires i < |c|
    ensures FirstMax(c[..i + 1]) == if i == 0 || c[i] > c[FirstMax(c[..i])] then i else FirstMax(c[..i])
  {
    assert c[..i + 1][..i] == c[..i];
  }

  lemma {:induction false} SumAdd(a: seq<int>, b: seq<int>, c: seq<int>)
    requires |a| == |b| == |c| && forall i | 0 <= i < |a| :: c[i] == a[i] + b[i]
    ensures Sum(c) == Sum(a) + Sum(b)
  {
    if a != [] { SumAdd(a[..|a| - 1], b[..|a| - 1], c[..|a| - 1]); }
  }

  lemma {:induction false} SumUpdate(a: seq<int>, k: nat, x: int)
    requires k < |a|
    ensures Sum(a[k := x]) == Sum(a) - a[k] + x
  {
    if k == |a| - 1 {
      assert a[k := x][..|a| - 1] == a[..|a| - 1];
    } else {
      SumUpdate(a[..|a| - 1], k, x);
      assert a[k := x][..|a| - 1] == a[..|a| - 1][k := x];
    }
  }

  lemma {:induction false} SumZeros(a: seq<int>)
    requires forall i | 0 <= i < |a| :: a[i] == 0
    ensures Sum(a) == 0
  {
    if a != [] { SumZeros(a[..|a| - 1]); }
  }

  lemma {:induction false} SumScale(a: seq<int>, b: seq<int>, k: int)
    requires |a| == |b| && forall i | 0 <= i < |a| :: b[i] == k * a[i]
    ensures Sum(b) == k * Sum(a)
  {
    if a != [] {
      SumScale(a[..|a| - 1], b[..|a| - 1], k);
      assert Sum(b) == k * Sum(a[..|a| - 1]) + k * a[|a| - 1];
    }
  }

  /** Component-wise bounded with equal sums means equal. */
  lemma {:induction false} SumSqueeze(a: seq<int>, b: seq<int>)
    requires |a| == |b| && forall i | 0 <= i < |a| :: a[i] <= b[i]
    ensures Sum(a) <= Sum(b)
    ensures Sum(a) == Sum(b) ==> a == b
  {
    if a != [] {
      SumSqueeze(a[..|a| - 1], b[..|a| - 1]);
      if Sum(a) == Sum(b) {
        assert a == a[..|a| - 1] + [a[|a| - 1]];
        assert b == b[..|a| - 1] + [b[|a| - 1]];
      }
    }
  }

  lemma {:induction false} SumPositive(w: seq<int>)
    requires Weights(w)
    ensures Sum(w) >= |w| >= 1
  {
    if |w| == 1 {
      assert w[..0] == [];
    } else {
      SumPositive(w[..|w| - 1]);
    }
  }

  /** A sequence bounded below whose sum is zero is bounded above. */
  lemma {:induction false} SumBound(c: seq<int>, k: nat, low: int)
    requires k < |c| && forall i | 0 <= i < |c| :: c[i] >= -low
    ensures c[k] <= Sum(c) + (|c| - 1) * low
  {
    if |c| == 1 {
      assert c[..0] == [];
    } else if k == |c| - 1 {
      SumLower(c[..|c| - 1], low);
    } else {
      SumBound(c[..|c| - 1], k, low);
      assert (|c| - 2) * low + low == (|c| - 1) * low;
    }
  }

  lemma {:induction false} SumLower(c: seq<int>, low: int)
    requires forall i | 0 <= i < |c| :: c[i] >= -low
    ensures Sum(c) >= -(|c| * low)
  {
    if c != [] {
      SumLower(c[..|c| - 1], low);
      assert (|c| - 1) * low + low == |c| * low;
    }
  }

  // ---------------------------------------------------------------------
  // The invariants
  // ---------------------------------------------------------------------

  lemma NextBalanced(w: seq<int>, c: seq<int>)
    requires Weights(w) && |c| == |w| && Sum(c) == 0 && Sum(w) >= 1
    requires forall i | 0 <= i < |w| :: c[i] > -Sum(w)
    ensures Sum(Next(w, c)) == 0
    ensures forall i | 0 <= i < |w| :: Next(w, c)[i] > -Sum(w)
  {
    hide Sum;
    var r, k := Raised(w, c), Pick(w, c);
    SumAdd(c, w, r);
    SumUpdate(r, k, r[k] - Sum(w));
    if r[k] <= 0 {
      SumSqueeze(r, Zeros(|w|));
      SumZeros(Zeros(|w|));
    }
  }

  /** Every pick leaves the counters in balance, and no member more than one
      full round in debt. */
  lemma {:induction false} Balanced(w: seq<int>, n: nat)
    requires Weights(w)
    ensures Sum(After(w, n)) == 0
    ensures forall i | 0 <= i < |w| :: After(w, n)[i] > -Sum(w)
  {
    hide Next, Sum;
    SumPositive(w);
    if n == 0 {
      SumZeros(After(w, 0));
    } else {
      Balanced(w, n - 1);
      NextBalanced(w, After(w, n - 1));
    }
  }

  /** A member's counter is what it is owed minus what it was given. */
  lemma {:induction false} Accounts(w: seq<int>, n: nat, i: nat)
    requires Weights(w) && i < |w|
    ensures After(w, n)[i] == n * w[i] - Picks(w, n)[i] * Sum(w)
  {
    hide *;
    if n == 0 {
      AccountStart(w, i);
    } else {
      Accounts(w, n - 1, i);
      AccountStep(w, n, i);
      Ledger(n, w[i], Picks(w, n - 1)[i], Sum(w), if i == Pick(w, After(w, n - 1)) then 1 else 0);
    }
  }

  lemma AccountStart(w: seq<int>, i: nat)
    requires Weights(w) && i < |w|
    ensures After(w, 0)[i] == 0 && Picks(w, 0)[i] == 0
  {
  }

  lemma AccountStep(w: seq<int>, n: nat, i: nat)
    requires Weights(w) && i < |w| && n > 0
    ensures var picked := if i == Pick(w, After(w, n - 1)) then 1 else 0;
            After(w, n)[i] == After(w, n - 1)[i] + w[i] - picked * Sum(w) && Picks(w, n)[i] == Picks(w, n - 1)[i] + picked
  {
    hide Sum, Pick;
  }

  lemma Ledger(n: int, w: int, p: int, total: int, picked: int)
    ensures (n - 1) * w - p * total + w - picked * total == n * w - (p + picked) * total
  {
  }

  lemma Cancel(rounds: int, w: int, total: int)
    ensures (rounds * total) * w - (rounds * w) * total == 0
  {
  }

  lemma {:induction false} PicksTotal(w: seq<int>, n: nat)
    requires Weights(w)
    ensures Sum(Picks(w, n)) == n
  {
    hide Sum, Pick, After;
    if n == 0 {
      SumZeros(Picks(w, 0));
    } else {
      PicksTotal(w, n - 1);
      var k := Pick(w, After(w, n - 1));
      SumUpdate(Picks(w, n - 1), k, Picks(w, n - 1)[k] + 1);
    }
  }

  // ---------------------------------------------------------------------
  // The theorems
  // ---------------------------------------------------------------------

  /** After any number of picks, no member is a full pick ahead of its share, and
      none is further behind than the others can be ahead. */
  lemma NeverAhead(w: seq<int>, n: nat, i: nat)
    requires Weights(w) && i < |w|
    ensures Picks(w, n)[i] * Sum(w) < n * w[i] + Sum(w)
    ensures Picks(w, n)[i] * Sum(w) >= n * w[i] - (|w| - 1) * (Sum(w) - 1)
  {
    Balanced(w, n);
    Accounts(w, n, i);
    SumBound(After(w, n), i, Sum(w) - 1);
  }

  lemma DivideOut(p: int, w: int, total: int, rounds: nat)
    requires total >= 1 && p * total < (rounds * total) * w + total
    ensures p <= rounds * w
  {
    assert (rounds * w + 1) * total == (rounds * total) * w + total;
    assert (p - (rounds * w + 1)) * total < 0;
  }

  lemma SharesTaken(w: seq<int>, rounds: nat, share: seq<int>)
    requires Weights(w) && |share| == |w| && forall i | 0 <= i < |w| :: share[i] == rounds * w[i]
    requires Sum(w) >= 1
    ensures Picks(w, rounds * Sum(w)) == share
  {
    hide Picks, Sum;
    var n := rounds * Sum(w);
    forall i | 0 <= i < |w| ensures Picks(w, n)[i] <= share[i] {
      NeverAhead(w, n, i);
      DivideOut(Picks(w, n)[i], w[i], Sum(w), rounds);
    }
    PicksTotal(w, n);
    SumScale(w, share, rounds);
    SumSqueeze(Picks(w, n), share);
  }

  /** Every round of as many picks as the total weight chooses each member
      exactly its weight times and returns all counters to zero. */
  lemma ExactlyFair(w: seq<int>, rounds: nat)
    requires Weights(w)
    ensures Sum(w) >= 1
    ensures forall i | 0 <= i < |w| :: Picks(w, rounds * Sum(w))[i] == rounds * w[i]
    ensures After(w, rounds * Sum(w)) == Zeros(|w|)
  {
    hide *;
    SumPositive(w);
    var share := seq(|w|, i requires 0 <= i < |w| => rounds * w[i]);
    SharesTaken(w, rounds, share);
    forall i | 0 <= i < |w| ensures After(w, rounds * Sum(w))[i] == 0 {
      CountersReturn(w, rounds, i);
    }
  }

  lemma CountersReturn(w: seq<int>, rounds: nat, i: nat)
    requires Weights(w) && i < |w| && rounds * Sum(w) >= 0 && Picks(w, rounds * Sum(w))[i] == rounds * w[i]
    ensures After(w, rounds * Sum(w))[i] == 0
  {
    hide *;
    Accounts(w, rounds * Sum(w), i);
    Cancel(rounds, w[i], Sum(w));
  }
}
