/** The rules edge domains are stored under (go/tunnel/edgeconf/validate.go). Names
    are taken as normalized; the checks of a forward's mode, target and health,
    and of a domain's IP lists, are the flags sound and ipLists. */
module EdgeConf {
  import opened Wrappers

  datatype Protocol = UnspecifiedProtocol | Tls | Http | Tcp

  datatype Kind = UnspecifiedKind | Site | TunnelBase

  /** A listenPortEnd of 0 means the one port. */
  datatype Forward = Forward(
    id: string, listenPort: int, listenPortEnd: int, protocol: Protocol, enabled: bool, sound: bool, target: string)

  datatype Domain = Domain(
    id: string, domain: string, aliases: seq<string>, kind: Kind, enabled: bool, forwards: seq<Forward>, ipLists: bool)

  function Names(d: Domain): seq<string> { [d.domain] + d.aliases }

  function LastPort(f: Forward): int { if f.listenPortEnd == 0 then f.listenPort else f.listenPortEnd }

  predicate ListensOn(f: Forward, port: int) { f.listenPort <= port <= LastPort(f) }

  predicate Overlap(a: Forward, b: Forward) { a.listenPort <= LastPort(b) && b.listenPort <= LastPort(a) }

  /** Two forwards overlap exactly when some port is on both. */
  lemma OverlapMeans(a: Forward, b: Forward)
    requires a.listenPort <= LastPort(a) && b.listenPort <= LastPort(b)
    ensures Overlap(a, b) <==> exists port :: ListensOn(a, port) && ListensOn(b, port)
  {
    if Overlap(a, b) {
      var port := if a.listenPort <= b.listenPort then b.listenPort else a.listenPort;
      assert ListensOn(a, port) && ListensOn(b, port);
    }
  }

  predicate ForwardOk(f: Forward) {
    && 1 <= f.listenPort <= 65535
    && (f.listenPortEnd != 0 ==> f.listenPort < f.listenPortEnd <= 65535)
    && f.protocol != UnspecifiedProtocol
    && (f.listenPortEnd != 0 ==> f.protocol == Tcp)
    && f.sound
  }

  predicate Distinct<T(==)>(xs: seq<T>) { forall i, j | 0 <= i < j < |xs| :: xs[i] != xs[j] }

  datatype DomainError = BadKind | BadIpList | NameTwice | HeldElsewhere | BadForward | PortConflict

  /** Another domain is a second tunnel base, or has one of the names. */
  predicate Rivals(d: Domain, o: Domain) {
    || (d.kind == TunnelBase && o.kind == TunnelBase)
    || exists n | n in Names(o) :: n in Names(d)
  }

  /** The forwards share a port they cannot share. */
  predicate Clash(a: Forward, b: Forward) {
    Overlap(a, b) && (a.protocol != b.protocol || a.protocol == Tcp)
  }

  predicate PortsConflict(d: Domain, others: seq<Domain>) {
    || (exists i, j | 0 <= i < j < |d.forwards| :: Overlap(d.forwards[i], d.forwards[j]))
    || (exists o | o in others :: o.id != d.id && exists a, b | a in d.forwards && b in o.forwards :: Clash(a, b))
  }

  /** ValidateDomain; a row of the same id is the domain's previous version. */
  function ValidateDomain(d: Domain, others: seq<Domain>, baseDomain: string): Option<DomainError> {
    if d.kind == UnspecifiedKind || (d.kind == TunnelBase && d.domain != baseDomain) then Some(BadKind)
    else if !d.ipLists then Some(BadIpList)
    else if !Distinct(Names(d)) then Some(NameTwice)
    else if exists o | o in others :: o.id != d.id && Rivals(d, o) then Some(HeldElsewhere)
    else if exists f | f in d.forwards :: !ForwardOk(f) then Some(BadForward)
    else if PortsConflict(d, others) then Some(PortConflict)
    else None
  }

  // ---------------------------------------------------------------------
  // The stored domains
  // ---------------------------------------------------------------------

  type Table = map<string, Domain>

  /** The table's rows, in some order. */
  ghost predicate Lists(ds: seq<Domain>, table: Table) {
    && Distinct(ds)
    && (forall d | d in ds :: d.id in table && table[d.id] == d)
    && (forall id | id in table :: table[id] in ds)
  }

  /** Storing a domain after it was validated against the rows, or deleting one. */
  datatype Edit = Put(domain: Domain, rows: seq<Domain>) | Delete(id: string)

  ghost predicate Accepted(t: Table, e: Edit, baseDomain: string) {
    e.Put? ==> Lists(e.rows, t) && ValidateDomain(e.domain, e.rows, baseDomain).None?
  }

  function Edited(t: Table, e: Edit): Table {
    match e
    case Put(d, _) => t[d.id := d]
    case Delete(id) => t - {id}
  }

  ghost predicate AllAccepted(t: Table, edits: seq<Edit>, baseDomain: string)
    decreases |edits|
  {
    edits == [] || (Accepted(t, edits[0], baseDomain) && AllAccepted(Edited(t, edits[0]), edits[1..], baseDomain))
  }

  function AfterEdits(t: Table, edits: seq<Edit>): Table
    decreases |edits|
  {
    if edits == [] then t else AfterEdits(Edited(t, edits[0]), edits[1..])
  }

  /** A domain that passes on its own. */
  predicate DomainOk(d: Domain) {
    && d.ipLists && Distinct(Names(d))
    && (forall f | f in d.forwards :: ForwardOk(f))
    && (forall i, j | 0 <= i < j < |d.forwards| :: !Overlap(d.forwards[i], d.forwards[j]))
  }

  predicate Compatible(d: Domain, o: Domain) {
    !Rivals(d, o) && forall a, b | a in d.forwards && b in o.forwards :: !Clash(a, b)
  }

  ghost predicate TableOk(t: Table) {
    && (forall id | id in t :: t[id].id == id && DomainOk(t[id]))
    && (forall id, other | id in t && other in t && id != other :: Compatible(t[id], t[other]))
  }

  lemma CompatibleBothWays(d: Domain, o: Domain)
    requires Compatible(d, o)
    ensures Compatible(o, d)
  {
    forall a, b | a in o.forwards && b in d.forwards ensures !Clash(a, b) { assert !Clash(b, a); }
  }

  lemma EditKeeps(t: Table, e: Edit, baseDomain: string)
    requires TableOk(t) && Accepted(t, e, baseDomain)
    ensures TableOk(Edited(t, e))
  {
    if e.Put? {
      var d := e.domain;
      forall id | id in t && id != d.id ensures Compatible(d, t[id]) && Compatible(t[id], d) {
        assert t[id] in e.rows;
        CompatibleBothWays(d, t[id]);
      }
    }
  }

  /** A domain is accepted exactly when its kind fits and the table stays consistent
      with it. */
  lemma AcceptsExactly(t: Table, d: Domain, rows: seq<Domain>, baseDomain: string)
    requires TableOk(t) && Lists(rows, t)
    ensures ValidateDomain(d, rows, baseDomain).None? <==>
            d.kind != UnspecifiedKind && (d.kind == TunnelBase ==> d.domain == baseDomain) && TableOk(t[d.id := d])
  {
    if ValidateDomain(d, rows, baseDomain).None? {
      EditKeeps(t, Put(d, rows), baseDomain);
    }
    var u := t[d.id := d];
    if TableOk(u) {
      assert DomainOk(u[d.id]);
      forall o | o in rows && o.id != d.id ensures Compatible(d, o) {
        assert u[o.id] == o && u[d.id] == d;
      }
    }
  }

  /** Every table built by accepted edits is consistent, whatever order the rows
      were read in. */
  lemma {:induction false} TableAlwaysOk(t: Table, edits: seq<Edit>, baseDomain: string)
    requires TableOk(t) && AllAccepted(t, edits, baseDomain)
    ensures TableOk(AfterEdits(t, edits))
    decreases |edits|
  {
    if edits != [] {
      EditKeeps(t, edits[0], baseDomain);
      TableAlwaysOk(Edited(t, edits[0]), edits[1..], baseDomain);
    }
  }
}
