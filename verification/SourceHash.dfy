/** Rendezvous hashing: a client keeps its member, and a new member moves only
    the clients it now wins (go/tunnel/edge/pool.go). */
module SourceHash {

  datatype Backend = Backend(addr: string, weight: nat)

  /** The 64-bit FNV-1a hash of a client's address followed by a member's. */
  type Hash = (string, string) -> nat

  ghost predicate Fits64(hash: Hash) {
    forall client: string, addr: string :: hash(client, addr) < 0x1_0000_0000_0000_0000
  }

  function Score(hash: Hash, client: string, m: Backend): nat {
    hash(client, m.addr) / 0x10_0000 * m.weight
  }

  /** The score never overflows 64 bits for the weights the edge accepts. */
  lemma ScoreFits(hash: Hash, client: string, m: Backend)
    requires Fits64(hash) && m.weight <= 100
    ensures Score(hash, client, m) < 0x1_0000_0000_0000_0000
  {
    var h := hash(client, m.addr);
    assert h < 0x1_0000_0000_0000_0000;
    var q := h / 0x10_0000;
    assert q < 0x1000_0000_0000;
    assert q * m.weight <= q * 100;
  }

  /** The upper 44 bits of the hash, times the weight. */
  ghost function Weighed(hash: Hash, client: string, m: Backend): nat {
    (hash(client, m.addr) - hash(client, m.addr) % 1048576) / 1048576 * m.weight
  }

  lemma ScoreMeans(hash: Hash, client: string, m: Backend)
    ensures Score(hash, client, m) == Weighed(hash, client, m)
  {
    var h := hash(client, m.addr);
    assert h / 0x10_0000 == (h - h % 1048576) / 1048576;
  }

  /** i is the first of the members with the highest score. */
  ghost predicate Wins(hash: Hash, client: string, ms: seq<Backend>, i: nat) {
    && i < |ms|
    && (forall j | 0 <= j < |ms| :: Weighed(hash, client, ms[j]) <= Weighed(hash, client, ms[i]))
    && (forall j | 0 <= j < i :: Weighed(hash, client, ms[j]) < Weighed(hash, client, ms[i]))
  }

  /** The scan over the candidates. */
  method PickByHash(hash: Hash, client: string, ms: seq<Backend>) returns (best: nat)
    requires ms != []
    ensures Wins(hash, client, ms, best)
  {
    best := 0;
    var bestScore := Score(hash, client, ms[0]);
    ScoreMeans(hash, client, ms[0]);
    for i := 1 to |ms|
      invariant best < i && bestScore == Weighed(hash, client, ms[best])
      invariant forall j | 0 <= j < i :: Weighed(hash, client, ms[j]) <= bestScore
      invariant forall j | 0 <= j < best :: Weighed(hash, client, ms[j]) < bestScore
    {
      var score := Score(hash, client, ms[i]);
      ScoreMeans(hash, client, ms[i]);
      if score > bestScore {
        best, bestScore := i, score;
      }
    }
  }

  lemma OneWinner(hash: Hash, client: string, ms: seq<Backend>, i: nat, j: nat)
    requires Wins(hash, client, ms, i) && Wins(hash, client, ms, j)
    ensures i == j
  {
    assert Weighed(hash, client, ms[i]) <= Weighed(hash, client, ms[j]) <= Weighed(hash, client, ms[i]);
  }

  function Inserted(ms: seq<Backend>, k: nat, x: Backend): seq<Backend>
    requires k <= |ms|
  {
    ms[..k] + [x] + ms[k..]
  }

  /** Inserting a member anywhere leaves a client on its member, at its shifted
      place, or moves it to the new one; so removing a member moves only the
      clients it served. */
  lemma InsertMovesFew(hash: Hash, client: string, ms: seq<Backend>, k: nat, x: Backend, was: nat, now: nat)
    requires k <= |ms| && Wins(hash, client, ms, was) && Wins(hash, client, Inserted(ms, k, x), now)
    ensures now == k || now == if was < k then was else was + 1
    ensures now != k ==> Inserted(ms, k, x)[now] == ms[was]
  {
    var all := Inserted(ms, k, x);
    if now != k {
      var i := if now < k then now else now - 1;
      assert all[now] == ms[i];
      forall j | 0 <= j < |ms| ensures Weighed(hash, client, ms[j]) <= Weighed(hash, client, ms[i]) {
        assert all[if j < k then j else j + 1] == ms[j];
      }
      forall j | 0 <= j < i ensures Weighed(hash, client, ms[j]) < Weighed(hash, client, ms[i]) {
        assert all[if j < k then j else j + 1] == ms[j];
      }
      OneWinner(hash, client, ms, was, i);
    }
  }

  /** It moves to the new member exactly when that one outscores its old member,
      or ties with it from an earlier place. */
  lemma MovesExactlyWhenOutscored(hash: Hash, client: string, ms: seq<Backend>, k: nat, x: Backend, was: nat, now: nat)
    requires k <= |ms| && Wins(hash, client, ms, was) && Wins(hash, client, Inserted(ms, k, x), now)
    ensures now == k <==> Weighed(hash, client, x) > Weighed(hash, client, ms[was]) ||
                          (Weighed(hash, client, x) == Weighed(hash, client, ms[was]) && k <= was)
  {
    var all := Inserted(ms, k, x);
    assert all[k] == x;
    assert all[if was < k then was else was + 1] == ms[was];
    InsertMovesFew(hash, client, ms, k, x, was, now);
  }
}
