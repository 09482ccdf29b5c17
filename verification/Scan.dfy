/** The validating scan that readiness and every offline command rest on
    (`full_scan` and its validators in authority.rs). */
module Scan {
  import opened Publication
  import opened Records
  import opened AuthorityState
  import opened Issuance

  // ---------- adopting staged intents and reservations ----------

  function AdoptIntent(authority: Id, c: Ca, id: Id): Out<()> {
    if id !in c.issuances || Final(IntentFile) in c.issuances[id]
          || Pending(IntentFile) !in c.issuances[id] then Ok(c, ())
    else
      match c.issuances[id][Pending(IntentFile)]
      case Empty => Ok(c, ())
      case Whole(IntentDoc(i)) =>
        if i.version == SCHEMA_VERSION && i.issuanceId == id && i.authorityId == authority
        then WithIssuance(c, id, Adopt(c.issuances[id], IntentFile, c.fuel))
        else Ok(c, ())
      case _ => Err(c, StateError)
  }

  function AdoptIntents(authority: Id, c: Ca, order: seq<Id>): Out<()>
    decreases |order|
  {
    if order == [] then Ok(c, ())
    else
      var (c1, _) :- AdoptIntent(authority, c, order[0]);
      AdoptIntents(authority, c1, order[1..])
  }

  predicate ReservationFits(authority: Id, c: Ca, serial: Id, r: Reservation) {
    && r.version == SCHEMA_VERSION && r.authorityId == authority && r.serial == serial
    && Has(c, r.issuanceId, IntentFile)
    && var parsed := ParseIntent(FileOf(c, r.issuanceId, IntentFile));
       parsed.Some? && parsed.value.issuanceId == r.issuanceId && parsed.value.serial == r.serial
  }

  function AdoptReservation(authority: Id, c: Ca, serial: Id): Out<()> {
    if Pending(serial) !in c.reservations then Err(c, StateError)
    else
      match c.reservations[Pending(serial)]
      case Whole(ReservationDoc(r)) =>
        if ReservationFits(authority, c, serial, r)
        then WithReservations(c, Adopt(c.reservations, serial, c.fuel))
        else Err(c, Inconsistent)
      case _ => Err(c, StateError)
  }

  function AdoptReservations(authority: Id, c: Ca, order: seq<Id>): Out<()>
    decreases |order|
  {
    if order == [] then Ok(c, ())
    else
      var (c1, _) :- AdoptReservation(authority, c, order[0]);
      AdoptReservations(authority, c1, order[1..])
  }

  ghost predicate NoStaging(c: Ca) {
    && (forall id <- c.issuances.Keys, f: File :: Pending(f) !in c.issuances[id])
    && (forall s: Id :: Pending(s) !in c.reservations)
  }

  /** `recover_pending_precommit_publications`. */
  ghost function RecoverStaging(lib: Lib, authority: Id, c: Ca): Out<()> {
    var (c1, _) :- AdoptIntents(authority, c, lib.list(c.issuances.Keys));
    var (c2, _) :- AdoptReservations(authority, c1, lib.list(Pendings(c1.reservations)));
    if NoStaging(c2) then Ok(c2, ()) else Err(c2, StateError)
  }

  // ---------- validators ----------

  ghost predicate AuditEntryValid(lib: Lib, audits: Dir<nat>, n: nat)
  {
    Final(n) in audits
    && var parsed := ParseAudit(audits[Final(n)]);
       && parsed.Some?
       && parsed.value.sequence == n
       && (n == 0 ==> parsed.value.prior == None)
       && (n > 0 ==> Final(n - 1) in audits && parsed.value.prior == Some(lib.sha(audits[Final(n - 1)])))
       && (parsed.value.kind == CertificateIssued ==> parsed.value.issuanceId.Some?)
  }

  ghost predicate IssuedAt(audits: Dir<nat>, n: nat, id: Id) {
    Final(n) in audits && ParseAudit(audits[Final(n)]).Some? && IsIssuedRecord(ParseAudit(audits[Final(n)]).value, id)
  }

  /** `validate_audit_chain`. */
  ghost predicate AuditChainValid(lib: Lib, audits: Dir<nat>) {
    && (forall n: nat :: Final(n) in audits <==> n < |Finals(audits)|)
    && (forall n: nat :: n < |Finals(audits)| ==> AuditEntryValid(lib, audits, n))
    && (forall n: nat, m: nat, id: Id :: IssuedAt(audits, n, id) && IssuedAt(audits, m, id) ==> n == m)
  }

  /** `validate_completed_issuance`. */
  predicate Completed(lib: Lib, authority: Id, d: Dir<File>) {
    && Final(IntentFile) in d && Final(RecordFile) in d && Final(CompleteFile) in d && Final(CertificateFile) in d
    && match (ParseIntent(d[Final(IntentFile)]), ParseRecord(d[Final(RecordFile)]),
          ParseComplete(d[Final(CompleteFile)]))
       case (Some(i), Some(r), Some(k)) =>
         && i.authorityId == authority && r.authorityId == authority && k.authorityId == authority
         && i.issuanceId == r.issuanceId && i.issuanceId == k.issuanceId && i.serial == r.serial
         && r.certificateSize == lib.size(d[Final(CertificateFile)])
         && k.intentSha == lib.sha(d[Final(IntentFile)])
         && lib.sha(d[Final(CertificateFile)]) == r.certificateSha
         && k.certificateSha == r.certificateSha
         && k.recordSha == lib.sha(d[Final(RecordFile)])
       case _ => false
  }

  function RecoverOne(lib: Lib, authority: Id, c: Ca, id: Id): (out: Out<()>)
    ensures out.ca.issuances.Keys == c.issuances.Keys
  {
    if !Has(c, id, CommitFile) then Err(c, StateError)
    else
      var (c1, _) :- RecoverCommit(lib, authority, c, id);
      if Completed(lib, authority, c1.issuances[id]) then Ok(c1, ()) else Err(c1, Inconsistent)
  }

  function RecoverAll(lib: Lib, authority: Id, c: Ca, order: seq<Id>): (out: Out<()>)
    decreases |order|
    ensures out.ca.issuances.Keys == c.issuances.Keys
  {
    if order == [] then Ok(c, ())
    else
      var (c1, _) :- RecoverOne(lib, authority, c, order[0]);
      RecoverAll(lib, authority, c1, order[1..])
  }

  /** `reservation_matches_quarantine`: the first quarantine naming the reservation's
      issuance and serial must hold an equal copy; an unreadable note is an error. */
  function MatchesQuarantine(c: Ca, order: seq<Id>, r: Reservation): bool {
    if order == [] || order[0] !in c.quarantines then false
    else
      var x := c.quarantines[order[0]];
      if Final(PreparedNote) !in x.notes || Final(QuarantinedNote) !in x.notes then MatchesQuarantine(c, order[1..], r)
      else
        match ParsePrepared(x.notes[Final(PreparedNote)])
        case None => false
        case Some(p) =>
          if p.issuanceId != r.issuanceId || p.serial != Some(r.serial) then MatchesQuarantine(c, order[1..], r)
          else
            && x.original.Some? && Final(ReservationCopy) in x.original.value
            && ParseReservation(x.original.value[Final(ReservationCopy)]) == Some(r)
  }

  predicate ReservationValid(lib: Lib, authority: Id, c: Ca, r: Reservation) {
    && r.authorityId == authority
    && if Has(c, r.issuanceId, IntentFile) then
         var parsed := ParseIntent(FileOf(c, r.issuanceId, IntentFile));
         parsed.Some? && r.serial == parsed.value.serial && r.issuanceId == parsed.value.issuanceId
       else MatchesQuarantine(c, lib.list(c.quarantines.Keys), r)
  }

  ghost predicate ReservedAt(c: Ca, s: Id, r: Reservation) {
    Final(s) in c.reservations && ParseReservation(c.reservations[Final(s)]) == Some(r)
  }

  ghost predicate IsReserved(c: Ca, id: Id) {
    exists s: Id, r: Reservation :: ReservedAt(c, s, r) && r.issuanceId == id
  }

  /** `validate_reservations`. */
  ghost predicate ReservationsValid(lib: Lib, authority: Id, c: Ca) {
    && (forall s: Id :: Final(s) in c.reservations ==> ParseReservation(c.reservations[Final(s)]).Some?)
    && (forall s: Id, r: Reservation :: ReservedAt(c, s, r) ==> ReservationValid(lib, authority, c, r))
    && (forall s: Id, t: Id, r: Reservation, q: Reservation ::
          ReservedAt(c, s, r) && ReservedAt(c, t, q) && r.issuanceId == q.issuanceId ==> s == t)
    && (forall id <- c.issuances.Keys :: IsReserved(c, id))
  }

  predicate MappingValid(authority: Id, c: Ca, key: Digest, m: Mapping) {
    && m.keyHash == key
    && Has(c, m.issuanceId, CommitFile)
    && var parsed := ParseCommit(FileOf(c, m.issuanceId, CommitFile));
       parsed.Some? && parsed.value.authorityId == authority && parsed.value.mapping == m
  }

  /** `validate_idempotency_index`. */
  ghost predicate MappingsValid(authority: Id, c: Ca) {
    forall key: Digest :: Final(key) in c.mappings ==>
      var parsed := ParseMapping(c.mappings[Final(key)]);
      parsed.Some? && MappingValid(authority, c, key, parsed.value)
  }

  predicate QuarantineDone(x: Quarantined) {
    x.original.Some? && Final(PreparedNote) in x.notes && Final(QuarantinedNote) in x.notes
  }

  predicate QuarantinesDone(c: Ca) {
    forall q <- c.quarantines.Keys :: QuarantineDone(c.quarantines[q])
  }

  // ---------- the scan ----------

  ghost function FullScan(lib: Lib, authority: Id, c: Ca): Out<()> {
    if c.initPending then Err(c, StateError)
    else
      var (c1, _) :- RecoverStaging(lib, authority, c);
      if !AuditChainValid(lib, c1.audits) then Err(c1, Inconsistent)
      else
        var (c2, _) :- RecoverAll(lib, authority, c1, lib.list(c1.issuances.Keys));
        if ReservationsValid(lib, authority, c2) && MappingsValid(authority, c2)
           && AuditChainValid(lib, c2.audits) && QuarantinesDone(c2)
        then Ok(c2, ()) else Err(c2, Inconsistent)
  }
}
