/** The operator's quarantine of one incomplete issuance (`quarantine` in authority.rs). */
module QuarantineCommand {
  import opened Publication
  import opened Records
  import opened AuthorityState
  import opened Issuance
  import Scan

  /** The name drawn for the destination directory and the clock. */
  datatype Ticket = Ticket(destination: Id, utc: nat)

  // ---------- evidence ----------

  function IntentEvidence(d: Dir<File>): Search<Intent> {
    if Final(IntentFile) in d then
      match ParseIntent(d[Final(IntentFile)])
      case None => Unreadable
      case Some(i) => Found(i)
    else if Pending(IntentFile) in d then
      match d[Pending(IntentFile)]
      case Whole(IntentDoc(i)) => Found(i)
      case _ => Absent
    else Absent
  }

  ghost predicate MappingReadable(c: Ca, key: Digest) {
    Final(key) in c.mappings ==> ParseMapping(c.mappings[Final(key)]).Some?
  }

  ghost predicate NoMappingTo(c: Ca, id: Id) {
    forall key: Digest :: MappingReadable(c, key)
      && (Final(key) in c.mappings ==> ParseMapping(c.mappings[Final(key)]).value.issuanceId != id)
  }

  function ReservationOf(c: Ca, s: Id): Option<Reservation> {
    if Final(s) in c.reservations then ParseReservation(c.reservations[Final(s)]) else None
  }

  ghost predicate ReservationsReadable(c: Ca) {
    forall s: Id :: Final(s) in c.reservations ==> ReservationOf(c, s).Some?
  }

  /** Serial numbers under which the issuance holds a finalized reservation. */
  function Reserved(c: Ca, id: Id): set<Id> {
    set s <- Finals(c.reservations) | ReservationOf(c, s).Some? && ReservationOf(c, s).value.issuanceId == id
  }

  predicate PendingBelongs(c: Ca, s: Id, id: Id, intent: Option<Intent>) {
    && Pending(s) in c.reservations
    && var parsed := ParseReservation(c.reservations[Pending(s)]);
       || (parsed.Some? && parsed.value.issuanceId == id)
       || (intent.Some? && intent.value.serial == s)
  }

  function PendingReserved(c: Ca, id: Id, intent: Option<Intent>): set<Id> {
    set s <- Pendings(c.reservations) | PendingBelongs(c, s, id, intent)
  }

  /** The single element of a set with at most one. */
  function Only(s: set<Id>, order: seq<Id>): Option<Id> {
    if order != [] && order[0] in s then Some(order[0])
    else if order == [] then None
    else Only(s, order[1..])
  }

  /** What quarantine found about the issuance. */
  datatype Evidence = Evidence(intent: Option<Intent>, reservation: Option<Id>, pending: Option<Id>)

  /** An issuance without a valid intent may hold staging files only. */
  predicate StagingOnly(d: Dir<File>) {
    forall name <- d.Keys :: name.Pending?
  }

  ghost function Inspect(lib: Lib, authority: Id, c: Ca, id: Id): Option<Evidence> {
    var found := if id in c.issuances then IntentEvidence(c.issuances[id]) else Absent;
    if Has(c, id, CompleteFile) || found == Unreadable then None
    else
      var intent := if found.Found? then Some(found.value) else None;
      var reserved := Reserved(c, id);
      var reservation := Only(reserved, lib.list(Finals(c.reservations)));
      var pendings := PendingReserved(c, id, intent);
      var listed := lib.list(Pendings(c.reservations));
      var pending := Only(pendings, listed);
      var adopted :=
        if pending.None? && intent.None? && reservation.None? && id in c.issuances && |listed| == 1
        then Some(listed[0]) else pending;
      if intent.Some? && intent.value.authorityId != authority then None
      else if !NoMappingTo(c, id) then None
      else if !ReservationsReadable(c) || |reserved| > 1 then None
      else if intent.Some? && reservation.Some?
              && (ReservationOf(c, reservation.value).None?
                  || ReservationOf(c, reservation.value).value.serial != intent.value.serial
                  || ReservationOf(c, reservation.value).value.authorityId != authority) then None
      else if |pendings| > 1 then None
      else if intent.None? && reservation.None? && adopted.None? && id !in c.issuances then None
      else if intent.None? && id in c.issuances && !StagingOnly(c.issuances[id]) then None
      else Some(Evidence(intent, reservation, adopted))
  }

  function EvidenceSerial(c: Ca, e: Evidence): Option<Id> {
    if e.intent.Some? then Some(e.intent.value.serial)
    else if e.reservation.Some? then
      (match ReservationOf(c, e.reservation.value) case Some(r) => Some(r.serial) case None => None)
    else e.pending
  }

  // ---------- moving the evidence ----------

  function PublishNote(c: Ca, q: Id, n: Note, doc: Doc): Out<()>
    requires q in c.quarantines
  {
    var x := c.quarantines[q];
    var p := PublishIn(c, x.notes, n, Whole(doc));
    WithQuarantine(c, q, x.(notes := p.dir), p.fuel, p.status)
  }

  function CopyInto(c: Ca, q: Id, f: File, blob: Blob): Out<()>
    requires q in c.quarantines && c.quarantines[q].original.Some?
  {
    var x := c.quarantines[q];
    var p := PublishIn(c, x.original.value, f, blob);
    WithQuarantine(c, q, x.(original := Some(p.dir)), p.fuel, p.status)
  }

  function OpenQuarantine(c: Ca, q: Id): (out: Out<()>)
    ensures out.Ok? ==> q in out.ca.quarantines
  {
    var (c1, _) :- Spend(c);
    if q in c1.quarantines then Ok(c1, ())
    else Ok(c1.(quarantines := c1.quarantines[q := Quarantined(map[], None)]), ())
  }

  /** Renames the issuance directory into the quarantine, or creates an empty one there. */
  function MoveOriginal(c: Ca, q: Id, id: Id): (out: Out<()>)
    requires q in c.quarantines
    ensures out.Ok? ==> q in out.ca.quarantines && out.ca.quarantines[q].original.Some?
  {
    var x := c.quarantines[q];
    if id in c.issuances && x.original.Some? then Err(c, StateError)
    else
      var (c1, _) :- Spend(c);
      var moved := if id in c.issuances then c.issuances[id] else if x.original.Some? then x.original.value else map[];
      var serials :=
        if Final(IntentFile) in moved && id in c.issuances && ParseIntent(moved[Final(IntentFile)]).Some?
        then {ParseIntent(moved[Final(IntentFile)]).value.serial} else {};
      Ok(c1.(issuances := c1.issuances - {id},
             quarantines := c1.quarantines[q := x.(original := Some(moved))],
             retired := c1.retired + serials), ())
  }

  function CopyReservation(c: Ca, q: Id, reservation: Option<Id>): (out: Out<()>)
    requires q in c.quarantines && c.quarantines[q].original.Some?
    ensures q in out.ca.quarantines && out.ca.quarantines[q].original.Some?
  {
    match reservation
    case None => Ok(c, ())
    case Some(s) =>
      if Final(s) in c.reservations then CopyInto(c, q, ReservationCopy, c.reservations[Final(s)]) else Err(c,
            StateError)
  }

  function RemovePending(c: Ca, s: Id): Out<()> {
    var (c1, _) :- Spend(c);
    Ok(c1.(reservations := c1.reservations - {Pending(s)}), ())
  }

  function CopyPending(c: Ca, q: Id, pending: Option<Id>): (out: Out<()>)
    requires q in c.quarantines && c.quarantines[q].original.Some?
    ensures q in out.ca.quarantines
  {
    match pending
    case None => Ok(c, ())
    case Some(s) =>
      if Pending(s) !in c.reservations then Err(c, StateError)
      else
        var (c1, _) :- CopyInto(c, q, PendingCopy, c.reservations[Pending(s)]);
        RemovePending(c1, s)
  }

  function QuarantineRecord(authority: Id, id: Id, utc: nat): Audit {
    Audit(SCHEMA_VERSION, 0, None, IssuanceQuarantined, Some(authority), Some(id), None, None, true, PreservedIssuance,
          utc)
  }

  /** Opens the destination, notes the intention and renames the issuance directory. */
  ghost function OpenAndMove(authority: Id, c: Ca, id: Id, e: Evidence, t: Ticket): (out: Out<()>)
    ensures out.Ok? ==> t.destination in out.ca.quarantines && out.ca.quarantines[t.destination].original.Some?
  {
    var q := t.destination;
    var (c1, _) :- OpenQuarantine(c, q);
    var (c2, _) :- PublishNote(c1, q, PreparedNote, PreparedDoc(Prepared(id, authority, EvidenceSerial(c, e), t.utc)));
    MoveOriginal(c2, q, id)
  }

  /** Copies the reservation, closes the quarantine and records it. */
  ghost function FileEvidence(lib: Lib, authority: Id, c: Ca, id: Id, e: Evidence, t: Ticket): Out<()>
    requires t.destination in c.quarantines && c.quarantines[t.destination].original.Some?
  {
    var q := t.destination;
    var (c1, _) :- CopyReservation(c, q, e.reservation);
    var (c2, _) :- CopyPending(c1, q, e.pending);
    var (c3, _) :- PublishNote(c2, q, QuarantinedNote, QuarantinedDoc(id, t.utc));
    AppendAudit(lib, c3, QuarantineRecord(authority, id, t.utc))
  }

  ghost function MoveEvidence(lib: Lib, authority: Id, c: Ca, id: Id, e: Evidence, t: Ticket): Out<()> {
    var (c1, _) :- OpenAndMove(authority, c, id, e, t);
    FileEvidence(lib, authority, c1, id, e, t)
  }

  /** The command. It first loads the state, which runs the scan; a scan that fails is
      tolerated, but what it has already repaired stays. */
  ghost function QuarantineIssuance(lib: Lib, authority: Id, c: Ca, id: Id, t: Ticket): Out<()> {
    var scanned := Scan.FullScan(lib, authority, c);
    if scanned.Err? && scanned.error == Stopped then Err(scanned.ca, Stopped)
    else
      match Inspect(lib, authority, scanned.ca, id)
      case None => Err(scanned.ca, Precondition)
      case Some(e) => MoveEvidence(lib, authority, scanned.ca, id, e, t)
  }
}
