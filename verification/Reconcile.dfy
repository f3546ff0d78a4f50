/** The live tables and the loop that makes them match the engine again
    (go/tun/live/views.go, go/tun/live/registry.go). */
module LiveTables {
  import opened Wrappers
  import Records
  import opened Claims
  import opened ClaimTraces
  import opened ReplayTheorems

  function ChangeFor(present: bool): Change { if present then Updated else Created }

  /** One live table; a refused write is only logged. */
  class View<T> {
    var rows: map<string, T>

    constructor ()
      ensures rows == map[]
    {
      rows := map[];
    }

    /** Mirrors one change; only a deletion needs no row. */
    method Apply(key: string, row: Option<T>, change: Change) returns (ok: bool)
      requires row.None? ==> change == Deleted
      modifies this
      ensures ok <==> (change == Created <==> key !in old(rows))
      ensures !ok ==> rows == old(rows)
      ensures ok && change == Deleted ==> rows == old(rows) - {key}
      ensures ok && change != Deleted ==> rows == old(rows)[key := row.value]
      ensures row.Some? ==> Mirror(old(rows), key, row.value, change) == if ok then Some(rows) else None
    {
      match change {
        case Created => ok := key !in rows;
        case Updated | Moved | Deleted => ok := key in rows;
      }
      if ok {
        rows := if change == Deleted then rows - {key} else rows[key := row.value];
      }
    }

    /** Whatever the rows were, they are the snapshot's afterwards, and every write
        was accepted: a missing row is created, a present one replaced, one the
        engine does not have deleted. */
    method Reconcile(snapshot: map<string, T>) returns (clean: bool)
      modifies this
      ensures clean && rows == snapshot
    {
      clean := true;
      var had := rows.Keys;
      var todo := snapshot.Keys;
      while todo != {}
        invariant todo <= snapshot.Keys && clean
        invariant forall k :: k in rows <==> k in had || (k in snapshot && k !in todo)
        invariant forall k | k in snapshot && k !in todo :: rows[k] == snapshot[k]
        decreases todo
      {
        var k :| k in todo;
        var ok := Apply(k, Some(snapshot[k]), ChangeFor(k in had));
        clean := clean && ok;
        todo := todo - {k};
      }
      var left := had;
      while left != {}
        invariant left <= had && clean
        invariant forall k :: k in rows <==> k in left || k in snapshot
        invariant forall k | k in snapshot :: rows[k] == snapshot[k]
        decreases left
      {
        var k :| k in left;
        if k !in snapshot {
          var ok := Apply(k, None, Deleted);
          clean := clean && ok;
        }
        left := left - {k};
      }
    }
  }

  /** Reconciles the three tables with the engine. */
  method ReconcileAll(tunnels: View<Records.Tunnel>, agents: View<Records.Agent>, relays: View<Records.Relay>, engine: Tables)
    modifies tunnels, agents, relays
    ensures Tables(tunnels.rows, agents.rows, relays.rows) == engine
  {
    var a := tunnels.Reconcile(engine.tunnels);
    var b := agents.Reconcile(engine.agents);
    var c := relays.Reconcile(engine.relays);
  }

  // ---------------------------------------------------------------------
  // While the engine goes on
  // ---------------------------------------------------------------------

  /** The engine's records of one kind, and the live table that mirrors them. */
  datatype Mirrored<T> = Mirrored(engine: map<string, T>, rows: map<string, T>)

  /** A write to the table while it is reconciled: the loop's patch or deletion, or
      the sink's of a change the engine makes meanwhile. */
  datatype TableWrite<T> = Patch(key: string) | Drop(key: string) | Sink(key: string, row: T, change: Change)

  function Put<T>(rows: map<string, T>, key: string, row: T, change: Change): map<string, T> {
    var r := Mirror(rows, key, row, change);
    if r.Some? then r.value else rows
  }

  /** The engine reports a creation of a missing record, anything else of one it has. */
  predicate Reports<T>(p: Mirrored<T>, w: TableWrite<T>) {
    w.Sink? ==> (w.change == Created <==> w.key !in p.engine)
  }

  /** had are the keys the loop read, snap the engine's records it read before that. */
  function Wrote<T>(p: Mirrored<T>, had: set<string>, snap: map<string, T>, w: TableWrite<T>): Mirrored<T> {
    match w
    case Patch(k) => if k in snap then p.(rows := Put(p.rows, k, snap[k], ChangeFor(k in had))) else p
    case Drop(k) => p.(rows := p.rows - {k})
    case Sink(k, row, change) =>
      Mirrored(if change == Deleted then p.engine - {k} else p.engine[k := row], Put(p.rows, k, row, change))
  }

  function WroteAll<T>(p: Mirrored<T>, had: set<string>, snap: map<string, T>, ws: seq<TableWrite<T>>): Mirrored<T> {
    if ws == [] then p else Wrote(WroteAll(p, had, snap, ws[..|ws| - 1]), had, snap, ws[|ws| - 1])
  }

  ghost predicate ReportsAll<T>(p: Mirrored<T>, had: set<string>, snap: map<string, T>, ws: seq<TableWrite<T>>) {
    ws == [] ||
    (ReportsAll(p, had, snap, ws[..|ws| - 1]) && Reports(WroteAll(p, had, snap, ws[..|ws| - 1]), ws[|ws| - 1]))
  }

  predicate Agree<T(==)>(a: map<string, T>, b: map<string, T>, k: string) {
    (k in a <==> k in b) && (k in a ==> a[k] == b[k])
  }

  predicate Right<T(==)>(p: Mirrored<T>, k: string) { Agree(p.engine, p.rows, k) }

  /** The loop's own write of the key: a patch of what the snapshot has, a deletion of
      what it does not. */
  predicate LoopOn<T>(had: set<string>, snap: map<string, T>, w: TableWrite<T>, k: string) {
    w.key == k && ((w.Patch? && k in snap) || (w.Drop? && k in had && k !in snap))
  }

  /** Every event of the engine is such a change of its table. */
  lemma EventIsReported(s: State, e: Event, rows: Tables)
    requires Disciplined(s, e)
    ensures e.TunnelChanged? ==>
              var p, w := Mirrored(s.tunnels, rows.tunnels), Sink(e.tunnel.name, e.tunnel, e.change);
              Reports(p, w) && Wrote(p, {}, map[], w).engine == Claims.Apply(s, e).tunnels
    ensures e.AgentChanged? ==>
              var p, w := Mirrored(s.agents, rows.agents), Sink(e.agent.agentId, e.agent, e.change);
              Reports(p, w) && Wrote(p, {}, map[], w).engine == Claims.Apply(s, e).agents
    ensures e.RelayChanged? ==>
              var p, w := Mirrored(s.relays, rows.relays), Sink(e.relay.relayId, e.relay, e.change);
              Reports(p, w) && Wrote(p, {}, map[], w).engine == Claims.Apply(s, e).relays
  {
  }

  /** What a change of the engine does to a key, whatever the table had: a creation is
      mirrored unless there is a row already, an update if there is one, and after a
      deletion the key is right. */
  lemma SinkRightIff<T>(p: Mirrored<T>, had: set<string>, snap: map<string, T>, w: TableWrite<T>)
    requires w.Sink? && Reports(p, w)
    ensures Right(Wrote(p, had, snap, w), w.key) <==>
            match w.change
            case Created => w.key in p.rows ==> p.rows[w.key] == w.row
            case Updated | Moved => w.key in p.rows
            case Deleted => true
  {
  }

  lemma ChangeKeepsRight<T>(p: Mirrored<T>, had: set<string>, snap: map<string, T>, w: TableWrite<T>, k: string)
    requires Right(p, k) && Reports(p, w) && (w.key == k ==> w.Sink?)
    ensures Right(Wrote(p, had, snap, w), k)
  {
  }

  /** So the engine's changes keep a key right. */
  lemma {:induction false} ChangesKeepRight<T>(p: Mirrored<T>, had: set<string>, snap: map<string, T>, ws: seq<TableWrite<T>>, k: string)
    requires Right(p, k) && ReportsAll(p, had, snap, ws)
    requires forall w | w in ws && w.key == k :: w.Sink?
    ensures Right(WroteAll(p, had, snap, ws), k)
  {
    hide Right, Wrote, Reports;
    if ws != [] {
      var n := |ws| - 1;
      ChangesKeepRight(p, had, snap, ws[..n], k);
      ChangeKeepsRight(WroteAll(p, had, snap, ws[..n]), had, snap, ws[n], k);
    }
  }

  /** The loop's write leaves a key right exactly when the engine still has what the
      snapshot has, or the patch is refused: the key came or went since the loop read
      the table's keys. Any number of the engine's changes may come first. */
  lemma LoopRightIff<T>(p: Mirrored<T>, had: set<string>, snap: map<string, T>, ws: seq<TableWrite<T>>, w: TableWrite<T>, k: string)
    requires Right(p, k) && ReportsAll(p, had, snap, ws) && LoopOn(had, snap, w, k)
    requires forall v | v in ws && v.key == k :: v.Sink?
    ensures var now := WroteAll(p, had, snap, ws);
            Right(Wrote(now, had, snap, w), k) <==>
            Agree(snap, now.engine, k) || (k in snap && ((k in had) != (k in now.engine)))
  {
    ChangesKeepRight(p, had, snap, ws, k);
  }

  /** A key the engine leaves alone is right once the loop came to it, whatever the
      table had and whatever happens to the others. */
  lemma {:induction false} UntouchedKeyIsRight<T>(p: Mirrored<T>, had: set<string>, snap: map<string, T>, ws: seq<TableWrite<T>>, k: string)
    requires Agree(snap, p.engine, k) && (k in had <==> k in p.rows)
    requires forall i | 0 <= i < |ws| && ws[i].key == k :: LoopOn(had, snap, ws[i], k)
    ensures var now := WroteAll(p, had, snap, ws);
            && Agree(snap, now.engine, k)
            && if exists i | 0 <= i < |ws| :: ws[i].key == k then Right(now, k) else Agree(p.rows, now.rows, k)
  {
    if ws != [] {
      var n := |ws| - 1;
      assert forall i | 0 <= i < n :: ws[..n][i] == ws[i];
      UntouchedKeyIsRight(p, had, snap, ws[..n], k);
      if ws[n].key == k {
        assert LoopOn(had, snap, ws[n], k);
      }
    }
  }

  predicate Missing<T>(p: Mirrored<T>, k: string) { k in p.engine && k !in p.rows }

  lemma ChangeLeavesMissing<T>(p: Mirrored<T>, had: set<string>, snap: map<string, T>, w: TableWrite<T>, k: string)
    requires Missing(p, k) && Reports(p, w) && (w.key == k ==> w.Sink?)
    ensures Missing(Wrote(p, had, snap, w), k) <==> !(w.key == k && w.change == Deleted)
  {
  }

  /** A row dropped although the engine has the record stays missing until the engine
      deletes the record or the table is reconciled again: its updates are refused. */
  lemma {:induction false} MissingStays<T>(p: Mirrored<T>, had: set<string>, snap: map<string, T>, ws: seq<TableWrite<T>>, k: string)
    requires Missing(p, k) && ReportsAll(p, had, snap, ws)
    requires forall w | w in ws && w.key == k :: w.Sink? && w.change != Deleted
    ensures Missing(WroteAll(p, had, snap, ws), k)
  {
    hide Missing, Wrote, Reports;
    if ws != [] {
      var n := |ws| - 1;
      MissingStays(p, had, snap, ws[..n], k);
      assert ws[n] in ws;
      ChangeLeavesMissing(WroteAll(p, had, snap, ws[..n]), had, snap, ws[n], k);
    }
  }

  // The three ways it goes wrong, from tables that are right.

  lemma TwoWrites<T>(p: Mirrored<T>, had: set<string>, snap: map<string, T>, v: TableWrite<T>, w: TableWrite<T>)
    ensures WroteAll(p, had, snap, [v, w]) == Wrote(Wrote(p, had, snap, v), had, snap, w)
  {
    var ws := [v, w];
    assert ws[..1] == [v] && [v][..0] == [];
    assert WroteAll(p, had, snap, [v][..0]) == p;
  }

  /** A record created after the snapshot and before the keys are read loses its row. */
  lemma NewRowCanBeDropped<T>(k: string, row: T)
    ensures WroteAll(Mirrored(map[], map[]), {k}, map[], [Sink(k, row, Created), Drop(k)]) == Mirrored(map[k := row], map[])
  {
    TwoWrites(Mirrored(map[], map[]), {k}, map[], Sink(k, row, Created), Drop(k));
    assert (map[k := row]) - {k} == map[];
  }

  /** A record changed after the snapshot gets its older row back. */
  lemma NewerRowCanBeOverwritten<T>(k: string, older: T, newer: T)
    ensures var snap := map[k := older];
            WroteAll(Mirrored(snap, snap), {k}, snap, [Sink(k, newer, Updated), Patch(k)]) == Mirrored(map[k := newer], map[k := older])
  {
    var snap := map[k := older];
    TwoWrites(Mirrored(snap, snap), {k}, snap, Sink(k, newer, Updated), Patch(k));
    assert snap[k := newer] == map[k := newer] && snap[k := newer][k := older] == snap;
  }

  /** The row of a record deleted after the snapshot and before the keys are read comes
      back. */
  lemma DeletedRowCanComeBack<T>(k: string, row: T)
    ensures var snap := map[k := row];
            WroteAll(Mirrored(snap, snap), {}, snap, [Sink(k, row, Deleted), Patch(k)]) == Mirrored(map[], snap)
  {
    var snap := map[k := row];
    TwoWrites(Mirrored(snap, snap), {}, snap, Sink(k, row, Deleted), Patch(k));
    assert snap - {k} == map[];
    var none: map<string, T> := map[];
    assert none[k := row] == snap;
  }
}
