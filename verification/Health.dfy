/** When a backend counts as down (go/tunnel/edge/pool.go). */
module Health {

  const UnhealthyAfter := 3
  const HealthyAfter := 2

  /** The part of a member that checks and dials change. */
  datatype Status = Status(healthy: bool, fails: nat, passes: nat)

  const Fresh := Status(true, 0, 0)

  function Failed(m: Status): Status {
    Status(m.healthy && m.fails + 1 < UnhealthyAfter, m.fails + 1, 0)
  }

  function Passed(m: Status): Status {
    if m.passes + 1 >= HealthyAfter || m.healthy then Status(true, 0, m.passes + 1) else m.(passes := m.passes + 1)
  }

  /** The status after a history of checks and dials, true for a pass. */
  function After(history: seq<bool>): Status {
    if history == [] then Fresh
    else if history[|history| - 1] then Passed(After(history[..|history| - 1]))
    else Failed(After(history[..|history| - 1]))
  }

  predicate FailsAt(h: seq<bool>, i: int) {
    0 <= i && i + 3 <= |h| && !h[i] && !h[i + 1] && !h[i + 2]
  }

  predicate PassesAt(h: seq<bool>, i: int) {
    0 <= i && i + 2 <= |h| && h[i] && h[i + 1]
  }

  /** Three failures in a row from i on, with no two passes in a row after them. */
  ghost predicate DownSince(h: seq<bool>, i: int) {
    FailsAt(h, i) && forall j | i + 3 <= j :: !PassesAt(h, j)
  }

  ghost predicate IsDown(h: seq<bool>) { exists i :: DownSince(h, i) }

  /** How many results at the end of the history are of one kind. */
  function Trailing(h: seq<bool>, kind: bool): nat {
    if h == [] || h[|h| - 1] != kind then 0 else 1 + Trailing(h[..|h| - 1], kind)
  }

  lemma {:induction false} TrailingIs(h: seq<bool>, kind: bool, n: nat)
    ensures Trailing(h, kind) <= |h|
    ensures Trailing(h, kind) >= n ==> n <= |h| && forall j | |h| - n <= j < |h| :: h[j] == kind
    ensures n <= |h| && (forall j | |h| - n <= j < |h| :: h[j] == kind) ==> Trailing(h, kind) >= n
  {
    if n > 0 && h != [] {
      TrailingIs(h[..|h| - 1], kind, n - 1);
    } else if h != [] {
      TrailingIs(h[..|h| - 1], kind, 0);
    }
  }

  lemma DownGrows(h: seq<bool>, b: bool)
    ensures IsDown(h + [b]) <==>
              (IsDown(h) && !(b && Trailing(h, true) >= 1)) || (!b && Trailing(h, false) >= 2)
  {
    var g := h + [b];
    TrailingIs(h, true, 1);
    TrailingIs(h, false, 2);
    if IsDown(g) {
      var i :| DownSince(g, i);
      if i + 3 <= |h| {
        assert FailsAt(h, i);
        forall j | i + 3 <= j ensures !PassesAt(h, j) { assert !PassesAt(g, j); }
        assert DownSince(h, i);
        if b && Trailing(h, true) >= 1 {
          assert h[|h| - 1];
          if |h| - 1 >= i + 3 { assert PassesAt(g, |h| - 1); }
        }
      }
    }
    if IsDown(h) && !(b && Trailing(h, true) >= 1) {
      var i :| DownSince(h, i);
      assert FailsAt(g, i);
      forall j | i + 3 <= j ensures !PassesAt(g, j) {
        if PassesAt(g, j) {
          if j + 2 <= |h| { assert PassesAt(h, j); }
        }
      }
      assert DownSince(g, i);
    }
    if !b && Trailing(h, false) >= 2 {
      assert FailsAt(g, |h| - 2);
      assert DownSince(g, |h| - 2);
    }
  }

  /** The counters in terms of the history: failures count while the member is up
      as the failures at the end, and passes are the passes at the end once a
      failure was seen. */
  lemma {:induction false} Counters(h: seq<bool>)
    ensures var m := After(h);
            && (m.healthy <==> m.fails < UnhealthyAfter)
            && (m.healthy ==> m.fails == Trailing(h, false))
            && m.passes == Trailing(h, true)
            && (m.healthy <==> !IsDown(h))
  {
    if h == [] {
      assert !IsDown(h) by {
        forall i ensures !DownSince(h, i) {}
      }
    } else {
      var init, b := h[..|h| - 1], h[|h| - 1];
      Counters(init);
      assert h == init + [b];
      DownGrows(init, b);
    }
  }

  /** Over every history of checks and dials: a member is down exactly when three
      failures in a row were not followed by two passes in a row. */
  lemma DownExactlyWhen(h: seq<bool>)
    ensures !After(h).healthy <==> IsDown(h)
    ensures After(h).healthy <==> After(h).fails < UnhealthyAfter
  {
    Counters(h);
  }
}
