/** States from which enrollment starts: accepted by the scan and with nothing staged. */
module CleanState {
  import opened Publication
  import opened Records
  import opened AuthorityState
  import opened Issuance
  import opened Scan
  import ScanMeaning

  ghost predicate Readable(x: Quarantined) {
    QuarantineDone(x) && ParsePrepared(x.notes[Final(PreparedNote)]).Some?
  }

  /** The quarantine `q` is one for the reservation's issuance and serial. */
  ghost predicate Names(c: Ca, q: Id, r: Reservation) {
    && q in c.quarantines && Readable(c.quarantines[q])
    && var p := ParsePrepared(c.quarantines[q].notes[Final(PreparedNote)]).value;
       p.issuanceId == r.issuanceId && p.serial == Some(r.serial)
  }

  ghost predicate HoldsCopy(x: Quarantined, r: Reservation) {
    && x.original.Some? && Final(ReservationCopy) in x.original.value
    && ParseReservation(x.original.value[Final(ReservationCopy)]) == Some(r)
  }

  ghost predicate Copied(c: Ca, r: Reservation) {
    && (exists q: Id :: Names(c, q, r))
    && (forall q: Id :: Names(c, q, r) ==> HoldsCopy(c.quarantines[q], r))
  }

  ghost predicate NothingStaged(c: Ca) {
    && NoStaging(c)
    && (forall key: Digest :: Pending(key) !in c.mappings)
    && (forall n: nat :: Pending(n) !in c.audits)
  }

  /** Reservations are those of active issuances or have been copied to quarantine. */
  ghost predicate ReservationsAccounted(authority: Id, c: Ca) {
    && (forall s: Id :: Final(s) in c.reservations ==> ParseReservation(c.reservations[Final(s)]).Some?)
    && (forall s: Id, r: Reservation :: ReservedAt(c, s, r) ==>
          && r.authorityId == authority
          && if Has(c, r.issuanceId, IntentFile) then
               var parsed := ParseIntent(FileOf(c, r.issuanceId, IntentFile));
               parsed.Some? && r.serial == parsed.value.serial && r.issuanceId == parsed.value.issuanceId
             else Copied(c, r))
    && (forall s: Id, t: Id, r: Reservation, q: Reservation ::
          ReservedAt(c, s, r) && ReservedAt(c, t, q) && r.issuanceId == q.issuanceId ==> s == t)
    && (forall id <- c.issuances.Keys :: IsReserved(c, id))
  }

  /** Every certificate record names an active issuance. */
  ghost predicate AuditsLead(c: Ca) {
    forall n: nat, id: Id :: IssuedAt(c.audits, n, id) ==> id in c.issuances
  }

  ghost predicate Clean(lib: Lib, authority: Id, c: Ca) {
    && !c.initPending
    && NothingStaged(c)
    && AuditChainValid(lib, c.audits)
    && (forall id <- c.issuances.Keys :: ScanMeaning.IssuanceSettled(lib, authority, c, id))
    && ReservationsAccounted(authority, c)
    && MappingsValid(authority, c)
    && (forall q <- c.quarantines.Keys :: Readable(c.quarantines[q]))
    && AuditsLead(c)
  }

  lemma {:induction false} CopiedMatches(c: Ca, order: seq<Id>, r: Reservation, q: Id)
    requires forall x <- order :: x in c.quarantines && Readable(c.quarantines[x])
    requires Copied(c, r) && q in order && Names(c, q, r)
    ensures MatchesQuarantine(c, order, r)
  {
    if Names(c, order[0], r) {
      assert HoldsCopy(c.quarantines[order[0]], r);
    } else {
      assert order == [order[0]] + order[1..];
      CopiedMatches(c, order[1..], r, q);
    }
  }

  lemma CleanReservationsValid(lib: Lib, authority: Id, c: Ca)
    requires LibOk(lib) && Clean(lib, authority, c)
    ensures ReservationsValid(lib, authority, c)
  {
    var order := lib.list(c.quarantines.Keys);
    assert Enumerates(order, c.quarantines.Keys);
    forall s: Id, r: Reservation | ReservedAt(c, s, r) ensures ReservationValid(lib, authority, c, r) {
      if !Has(c, r.issuanceId, IntentFile) {
        assert Copied(c, r);
        var q: Id :| Names(c, q, r);
        CopiedMatches(c, order, r, q);
      }
    }
  }

  /** A clean state is accepted by every scan, which leaves it alone. */
  lemma CleanScans(lib: Lib, authority: Id, c: Ca)
    requires LibOk(lib) && Clean(lib, authority, c)
    ensures ScanMeaning.Settled(lib, authority, c) && FullScan(lib, authority, c) == Ok(c, ())
  {
    CleanReservationsValid(lib, authority, c);
    ScanMeaning.SettledScans(lib, authority, c);
  }

  /** Identifiers that occur nowhere in the state yet. */
  ghost predicate Unused(c: Ca, id: Id, serial: Id) {
    && id !in c.issuances
    && Final(serial) !in c.reservations
    && (forall s: Id, r: Reservation :: ReservedAt(c, s, r) ==> r.issuanceId != id)
    && (forall n: nat :: !IssuedAt(c.audits, n, id))
    && (forall q: Id, r: Reservation :: Names(c, q, r) ==> r.serial != serial)
  }

  /** Fuel that covers every command of the model from any state met below. */
  const ENOUGH := 64
}
