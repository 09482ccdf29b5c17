/** Quarantining a wreck succeeds and leaves a clean state. */
module WreckQuarantine {
  import opened Publication
  import opened Records
  import opened AuthorityState
  import opened Issuance
  import opened Scan
  import opened CleanState
  import opened QuarantineCommand
  import Advance
  import AuditChain
  import ScanMeaning
  import Wreckage

  // ---------- the evidence ----------

  lemma {:induction false} OnlyFinds(s: set<Id>, order: seq<Id>, x: Id)
    ensures s == {} ==> Only(s, order).None?
    ensures s == {x} && x in order ==> Only(s, order) == Some(x)
  {
    if order != [] {
      assert order == [order[0]] + order[1..];
      OnlyFinds(s, order[1..], x);
    }
  }

  function KnownIntent(d: Dir<File>, intent: Intent): Option<Intent> {
    if ScanMeaning.HoldsIn(d, IntentFile, IntentDoc(intent))
          || (Pending(IntentFile) in d && d[Pending(IntentFile)] == Whole(IntentDoc(intent)))
    then Some(intent) else None
  }

  /** What the command finds in a wreck. */
  function ExpectedEvidence(c: Ca, intent: Intent): Evidence
    requires intent.issuanceId in c.issuances
  {
    Evidence(KnownIntent(c.issuances[intent.issuanceId], intent),
             if Final(intent.serial) in c.reservations then Some(intent.serial) else None,
             if Pending(intent.serial) in c.reservations then Some(intent.serial) else None)
  }

  lemma FinalReservation(lib: Lib, authority: Id, c0: Ca, c: Ca, intent: Intent)
    requires LibOk(lib) && Clean(lib, authority, c0) && Wreckage.Wreck(c0, c, intent)
    requires Unused(c0, intent.issuanceId, intent.serial)
    ensures ReservationsReadable(c)
    ensures Reserved(c, intent.issuanceId) == if Final(intent.serial) in c.reservations then {intent.serial} else {}
    ensures Final(intent.serial) in c.reservations ==>
              c.reservations == c0.reservations[Final(intent.serial) := Whole(ReservationDoc(ReservationFor(intent)))]
  {
    AuditChain.FinalsAre(c.reservations);
    forall t: Id | t != intent.serial && Final(t) in c.reservations
      ensures ReservationOf(c, t).Some? && ReservationOf(c, t).value.issuanceId != intent.issuanceId
    {
      assert c.reservations[Final(t)] == c0.reservations[Final(t)];
      assert ReservedAt(c0, t, ReservationOf(c, t).value);
    }
  }

  lemma PendingReservation(lib: Lib, authority: Id, c0: Ca, c: Ca, intent: Intent)
    requires Clean(lib, authority, c0) && Wreckage.Wreck(c0, c, intent)
    ensures Pendings(c.reservations) == if Pending(intent.serial) in c.reservations then {intent.serial} else {}
    ensures Pending(intent.serial) in c.reservations ==> Final(IntentFile) in c.issuances[intent.issuanceId]
    ensures var known := KnownIntent(c.issuances[intent.issuanceId], intent);
            PendingReserved(c, intent.issuanceId, known) == Pendings(c.reservations)
  {
    AuditChain.FinalsAre(c.reservations);
  }

  lemma NoMappingYet(lib: Lib, authority: Id, c0: Ca, c: Ca, id: Id)
    requires Clean(lib, authority, c0) && c.mappings == c0.mappings && id !in c0.issuances
    ensures NoMappingTo(c, id)
  {
    forall key: Digest
      ensures MappingReadable(c, key)
      ensures (Final(key) in c.mappings ==> ParseMapping(c.mappings[Final(key)]).value.issuanceId != id)
    {
      if Final(key) in c.mappings {
        assert MappingValid(authority, c0, key, ParseMapping(c0.mappings[Final(key)]).value);
      }
    }
  }

  lemma WreckEvidence(lib: Lib, authority: Id, c0: Ca, c: Ca, intent: Intent)
    requires LibOk(lib) && Clean(lib, authority, c0) && Wreckage.Wreck(c0, c, intent)
    requires Unused(c0, intent.issuanceId, intent.serial)
    ensures var id, known, e := intent.issuanceId, KnownIntent(c.issuances[intent.issuanceId], intent),
          ExpectedEvidence(c, intent);
            && ReservationsReadable(c) && |Reserved(c, id)| <= 1 && |PendingReserved(c, id, known)| <= 1
            && Only(Reserved(c, id), lib.list(Finals(c.reservations))) == e.reservation
            && Only(PendingReserved(c, id, known), lib.list(Pendings(c.reservations))) == e.pending
            && (e.pending.None? ==> lib.list(Pendings(c.reservations)) == [])
            && (e.reservation.Some? ==> ReservationOf(c, intent.serial) == Some(ReservationFor(intent)))
  {
    var id, s := intent.issuanceId, intent.serial;
    var known := KnownIntent(c.issuances[id], intent);
    FinalReservation(lib, authority, c0, c, intent);
    PendingReservation(lib, authority, c0, c, intent);
    var finals, listed := lib.list(Finals(c.reservations)), lib.list(Pendings(c.reservations));
    AuditChain.FinalsAre(c.reservations);
    assert Enumerates(finals, Finals(c.reservations)) && Enumerates(listed, Pendings(c.reservations));
    OnlyFinds(Reserved(c, id), finals, s);
    OnlyFinds(PendingReserved(c, id, known), listed, s);
    if Pendings(c.reservations) == {} {
      ScanMeaning.NothingListed(lib);
    }
  }

  lemma WreckIntent(c0: Ca, c: Ca, intent: Intent)
    requires Wreckage.Wreck(c0, c, intent)
    ensures var d := c.issuances[intent.issuanceId];
            var known := KnownIntent(d, intent);
            && IntentEvidence(d) == (if known.Some? then Found(intent) else Absent)
            && (known.None? ==> StagingOnly(d))
            && !Has(c, intent.issuanceId, CompleteFile)
  {
  }

  lemma WreckIsInspected(lib: Lib, authority: Id, c0: Ca, c: Ca, intent: Intent)
    requires LibOk(lib) && Clean(lib, authority, c0) && Wreckage.Wreck(c0, c, intent)
    requires Unused(c0, intent.issuanceId, intent.serial) && intent.authorityId == authority
    ensures Inspect(lib, authority, c, intent.issuanceId) == Some(ExpectedEvidence(c, intent))
  {
    WreckEvidence(lib, authority, c0, c, intent);
    WreckIntent(c0, c, intent);
    NoMappingYet(lib, authority, c0, c, intent.issuanceId);
    InspectionReports(lib, authority, c, intent);
  }

  lemma InspectionReports(lib: Lib, authority: Id, c: Ca, intent: Intent)
    requires intent.issuanceId in c.issuances && !Has(c, intent.issuanceId, CompleteFile)
    requires intent.authorityId == authority
    requires var d, id, e := c.issuances[intent.issuanceId], intent.issuanceId, ExpectedEvidence(c, intent);
             && IntentEvidence(d) == (if e.intent.Some? then Found(intent) else Absent)
             && (e.intent.None? ==> StagingOnly(d))
             && NoMappingTo(c, id) && ReservationsReadable(c)
             && |Reserved(c, id)| <= 1 && |PendingReserved(c, id, e.intent)| <= 1
             && Only(Reserved(c, id), lib.list(Finals(c.reservations))) == e.reservation
             && Only(PendingReserved(c, id, e.intent), lib.list(Pendings(c.reservations))) == e.pending
             && (e.pending.None? ==> lib.list(Pendings(c.reservations)) == [])
             && (e.reservation.Some? ==> ReservationOf(c, intent.serial) == Some(ReservationFor(intent)))
    ensures Inspect(lib, authority, c, intent.issuanceId) == Some(ExpectedEvidence(c, intent))
  {
  }

  // ---------- the move ----------

  /** Everything quarantine ends with. */
  ghost predicate Isolated(lib: Lib, authority: Id, c0: Ca, c: Ca, intent: Intent, t: Ticket) {
    var id, s, q := intent.issuanceId, intent.serial, t.destination;
    var reservation := ReservationFor(intent);
    && c.initPending == c0.initPending && c.mappings == c0.mappings && c.issuances == c0.issuances
    && c.audits == AuditChain.Appended(lib, c0.audits, QuarantineRecord(authority, id, t.utc))
    && (c.reservations == c0.reservations || c.reservations
          == c0.reservations[Final(s) := Whole(ReservationDoc(reservation))])
    && q in c.quarantines && c.quarantines == c0.quarantines[q := c.quarantines[q]]
    && Readable(c.quarantines[q])
    && var p := ParsePrepared(c.quarantines[q].notes[Final(PreparedNote)]).value;
       && p.issuanceId == id
       && (Final(s) in c.reservations ==> p.serial == Some(s) && HoldsCopy(c.quarantines[q], reservation))
  }

  /** The first half of the move: the note is written and the directory renamed. */
  lemma FrontHalf(authority: Id, c: Ca, id: Id, e: Evidence, t: Ticket) returns (c3: Ca)
    requires t.destination !in c.quarantines && id in c.issuances && c.fuel >= 5
    ensures OpenAndMove(authority, c, id, e, t) == Ok(c3, ())
    ensures var note := PreparedDoc(Prepared(id, authority, EvidenceSerial(c, e), t.utc));
            c3 == c.(fuel := c.fuel - 5, issuances := c.issuances - {id}, retired := c3.retired,
                     quarantines := c.quarantines[t.destination :=
                       Quarantined(map[Final(PreparedNote) := Whole(note)], Some(c.issuances[id]))])
  {
    var q, note := t.destination, PreparedDoc(Prepared(id, authority, EvidenceSerial(c, e), t.utc));
    var c1 := OpenQuarantine(c, q).ca;
    var empty: Dir<Note> := map[];
    PublishAbsent(empty, PreparedNote, Whole(note), Empty, TornBlob(c.tear, Whole(note)), c1.fuel);
    var c2 := PublishNote(c1, q, PreparedNote, note).ca;
    assert c2.quarantines == c.quarantines[q := Quarantined(map[Final(PreparedNote) := Whole(note)], None)];
    c3 := MoveOriginal(c2, q, id).ca;
    assert c3.quarantines
          == c.quarantines[q := Quarantined(map[Final(PreparedNote) := Whole(note)], Some(c.issuances[id]))];
  }

  lemma CopySucceeds(c: Ca, q: Id, f: File, blob: Blob)
    requires q in c.quarantines && c.quarantines[q].original.Some? && c.fuel >= 3
    requires Final(f) !in c.quarantines[q].original.value && Pending(f) !in c.quarantines[q].original.value
    ensures CopyInto(c, q, f, blob) ==
            Ok(c.(fuel := c.fuel - 3, quarantines := c.quarantines[q :=
              c.quarantines[q].(original := Some(c.quarantines[q].original.value[Final(f) := blob]))]), ())
  {
    PublishAbsent(c.quarantines[q].original.value, f, blob, Empty, TornBlob(c.tear, blob), c.fuel);
  }

  /** The moved directory with the copies of the reservation. */
  function WithCopies(c: Ca, d: Dir<File>, e: Evidence): Dir<File> {
    var d1 := if e.reservation.Some? && Final(e.reservation.value) in c.reservations
              then d[Final(ReservationCopy) := c.reservations[Final(e.reservation.value)]] else d;
    if e.pending.Some? && Pending(e.pending.value) in c.reservations
    then d1[Final(PendingCopy) := c.reservations[Pending(e.pending.value)]] else d1
  }

  function WithoutPending(c: Ca, e: Evidence): Dir<Id> {
    if e.pending.Some? then c.reservations - {Pending(e.pending.value)} else c.reservations
  }

  lemma CopiesSucceed(c: Ca, q: Id, e: Evidence) returns (c4: Ca, c5: Ca)
    requires q in c.quarantines && c.quarantines[q].original.Some? && c.fuel >= 7
    requires forall f: File :: f == ReservationCopy || f == PendingCopy ==>
               Final(f) !in c.quarantines[q].original.value && Pending(f) !in c.quarantines[q].original.value
    requires e.reservation.Some? ==> Final(e.reservation.value) in c.reservations
    requires e.pending.Some? ==> Pending(e.pending.value) in c.reservations
    ensures CopyReservation(c, q, e.reservation) == Ok(c4, ())
    ensures q in c4.quarantines && c4.quarantines[q].original.Some? && CopyPending(c4, q, e.pending) == Ok(c5, ())
    ensures c5.fuel >= c.fuel - 7
    ensures c5 == c.(fuel := c5.fuel, reservations := WithoutPending(c, e),
                     quarantines := c.quarantines[q :=
                       c.quarantines[q].(original := Some(WithCopies(c, c.quarantines[q].original.value, e)))])
  {
    if e.reservation.Some? {
      CopySucceeds(c, q, ReservationCopy, c.reservations[Final(e.reservation.value)]);
    }
    c4 := CopyReservation(c, q, e.reservation).ca;
    assert c4.quarantines == c.quarantines[q := c4.quarantines[q]];
    if e.pending.Some? {
      CopySucceeds(c4, q, PendingCopy, c.reservations[Pending(e.pending.value)]);
    }
    c5 := CopyPending(c4, q, e.pending).ca;
    assert c5.quarantines == c.quarantines[q := c5.quarantines[q]];
  }

  /** The last note and the audit record. */
  lemma BackHalf(lib: Lib, c: Ca, q: Id, note: Doc, record: Audit) returns (c6: Ca, c7: Ca)
    requires AuditChainValid(lib, c.audits) && (forall n: nat :: Pending(n) !in c.audits)
    requires q in c.quarantines && c.fuel >= 7
    requires Final(QuarantinedNote) !in c.quarantines[q].notes && Pending(QuarantinedNote) !in c.quarantines[q].notes
    ensures PublishNote(c, q, QuarantinedNote, note) == Ok(c6, ())
    ensures AppendAudit(lib, c6, record) == Ok(c7, ())
    ensures c7 == c.(fuel := c7.fuel, audits := AuditChain.Appended(lib, c.audits, record),
                     quarantines := c.quarantines[q :=
                       c.quarantines[q].(notes := c.quarantines[q].notes[Final(QuarantinedNote) := Whole(note)])])
  {
    PublishAbsent(c.quarantines[q].notes, QuarantinedNote, Whole(note), Empty, TornBlob(c.tear, Whole(note)), c.fuel);
    c6 := PublishNote(c, q, QuarantinedNote, note).ca;
    AuditChain.AppendSucceeds(lib, c6, record);
    c7 := AppendAudit(lib, c6, record).ca;
  }

  /** A closed quarantine. */
  function Closed(id: Id, t: Ticket, original: Dir<File>, note: Doc): Quarantined {
    Quarantined(map[Final(PreparedNote) := Whole(note), Final(QuarantinedNote) := Whole(QuarantinedDoc(id, t.utc))],
          Some(original))
  }

  /** The state the move ends in, as a function of the state it starts from. */
  ghost function Moved(lib: Lib, authority: Id, c: Ca, id: Id, e: Evidence, t: Ticket, fuel: nat, retired: set<Id>): Ca
    requires id in c.issuances
  {
    var note := PreparedDoc(Prepared(id, authority, EvidenceSerial(c, e), t.utc));
    c.(issuances := c.issuances - {id}, reservations := WithoutPending(c, e),
       audits := AuditChain.Appended(lib, c.audits, QuarantineRecord(authority, id, t.utc)),
       quarantines := c.quarantines[t.destination := Closed(id, t, WithCopies(c, c.issuances[id], e), note)],
       fuel := fuel, retired := retired)
  }

  lemma BackIsFiled(lib: Lib, authority: Id, c: Ca, id: Id, e: Evidence, t: Ticket, d: Dir<File>,
          note: Doc) returns (c7: Ca)
    requires t.destination in c.quarantines && c.fuel >= 14
    requires c.quarantines[t.destination] == Quarantined(map[Final(PreparedNote) := Whole(note)], Some(d))
    requires AuditChainValid(lib, c.audits) && (forall n: nat :: Pending(n) !in c.audits)
    requires forall f: File :: f == ReservationCopy || f == PendingCopy ==> Final(f) !in d && Pending(f) !in d
    requires e.reservation.Some? ==> Final(e.reservation.value) in c.reservations
    requires e.pending.Some? ==> Pending(e.pending.value) in c.reservations
    ensures FileEvidence(lib, authority, c, id, e, t) == Ok(c7, ())
    ensures c7 == c.(fuel := c7.fuel, reservations := WithoutPending(c, e),
                     audits := AuditChain.Appended(lib, c.audits, QuarantineRecord(authority, id, t.utc)),
                     quarantines := c.quarantines[t.destination := Closed(id, t, WithCopies(c, d, e), note)])
  {
    var c4, c5 := CopiesSucceed(c, t.destination, e);
    var c6;
    c6, c7 := BackHalf(lib, c5, t.destination, QuarantinedDoc(id, t.utc), QuarantineRecord(authority, id, t.utc));
    assert c5.quarantines[t.destination].notes[Final(QuarantinedNote) := Whole(QuarantinedDoc(id, t.utc))]
        == Closed(id, t, WithCopies(c, d, e), note).notes;
    StagesAreFiling(lib, authority, c, id, e, t, c4, c5, c6, c7);
  }

  lemma StagesAreFiling(lib: Lib, authority: Id, c: Ca, id: Id, e: Evidence, t: Ticket, c4: Ca, c5: Ca, c6: Ca, c7: Ca)
    requires t.destination in c.quarantines && c.quarantines[t.destination].original.Some?
    requires CopyReservation(c, t.destination, e.reservation) == Ok(c4, ())
    requires CopyPending(c4, t.destination, e.pending) == Ok(c5, ())
    requires PublishNote(c5, t.destination, QuarantinedNote, QuarantinedDoc(id, t.utc)) == Ok(c6, ())
    requires AppendAudit(lib, c6, QuarantineRecord(authority, id, t.utc)) == Ok(c7, ())
    ensures FileEvidence(lib, authority, c, id, e, t) == Ok(c7, ())
  {
  }

  lemma MoveSucceeds(lib: Lib, authority: Id, c: Ca, id: Id, e: Evidence, t: Ticket) returns (fuel: nat,
          retired: set<Id>)
    requires id in c.issuances && t.destination !in c.quarantines && c.fuel >= 20
    requires AuditChainValid(lib, c.audits) && (forall n: nat :: Pending(n) !in c.audits)
    requires forall f: File :: f == ReservationCopy || f == PendingCopy ==>
               Final(f) !in c.issuances[id] && Pending(f) !in c.issuances[id]
    requires e.reservation.Some? ==> Final(e.reservation.value) in c.reservations
    requires e.pending.Some? ==> Pending(e.pending.value) in c.reservations
    ensures MoveEvidence(lib, authority, c, id, e, t) == Ok(Moved(lib, authority, c, id, e, t, fuel, retired), ())
  {
    var note := PreparedDoc(Prepared(id, authority, EvidenceSerial(c, e), t.utc));
    var c3 := FrontHalf(authority, c, id, e, t);
    var c7 := BackIsFiled(lib, authority, c3, id, e, t, c.issuances[id], note);
    fuel, retired := c7.fuel, c7.retired;
    SameCopies(c, c3, c.issuances[id], e);
    UpdateTwice(c.quarantines, t.destination,
          Quarantined(map[Final(PreparedNote) := Whole(note)], Some(c.issuances[id])),
                Closed(id, t, WithCopies(c, c.issuances[id], e), note));
    HalvesJoin(lib, authority, c, id, e, t, c3, c7);
  }

  lemma UpdateTwice<K, V>(m: map<K, V>, k: K, first: V, second: V)
    ensures m[k := first][k := second] == m[k := second]
  {
  }

  lemma HalvesJoin(lib: Lib, authority: Id, c: Ca, id: Id, e: Evidence, t: Ticket, c3: Ca, c7: Ca)
    requires OpenAndMove(authority, c, id, e, t) == Ok(c3, ())
    requires FileEvidence(lib, authority, c3, id, e, t) == Ok(c7, ())
    ensures MoveEvidence(lib, authority, c, id, e, t) == Ok(c7, ())
  {
  }

  lemma SameCopies(c: Ca, c': Ca, d: Dir<File>, e: Evidence)
    requires c'.reservations == c.reservations
    ensures WithCopies(c', d, e) == WithCopies(c, d, e) && WithoutPending(c', e) == WithoutPending(c, e)
  {
  }

  lemma MovedReservations(c0: Ca, c: Ca, intent: Intent)
    requires Wreckage.Wreck(c0, c, intent) && NoStaging(c0) && Final(intent.serial) !in c0.reservations
    requires Final(intent.serial) in c.reservations ==>
               c.reservations == c0.reservations[Final(intent.serial) := Whole(ReservationDoc(ReservationFor(intent)))]
    ensures WithoutPending(c, ExpectedEvidence(c, intent))
          == if Final(intent.serial) in c.reservations then c.reservations else c0.reservations
    ensures Final(intent.serial) in c.reservations ==> ExpectedEvidence(c, intent).intent == Some(intent)
  {
    assert Pending(intent.serial) !in c0.reservations;
  }

  lemma MovedIsIsolated(lib: Lib, authority: Id, c0: Ca, c: Ca, intent: Intent, t: Ticket, fuel: nat, retired: set<Id>)
    requires Wreckage.Wreck(c0, c, intent) && intent.issuanceId !in c0.issuances && NoStaging(c0)
    requires Final(intent.serial) in c.reservations ==>
               c.reservations == c0.reservations[Final(intent.serial) := Whole(ReservationDoc(ReservationFor(intent)))]
    requires Final(intent.serial) !in c0.reservations
    ensures Isolated(lib, authority, c0,
          Moved(lib, authority, c, intent.issuanceId, ExpectedEvidence(c, intent), t, fuel, retired), intent, t)
  {
    var id, e := intent.issuanceId, ExpectedEvidence(c, intent);
    MovedReservations(c0, c, intent);
    assert c.issuances - {id} == c0.issuances;
    var note := Prepared(id, authority, EvidenceSerial(c, e), t.utc);
    var x := Closed(id, t, WithCopies(c, c.issuances[id], e), PreparedDoc(note));
    ClosedIsReadable(id, t, WithCopies(c, c.issuances[id], e), note);
    if Final(intent.serial) in c.reservations {
      CopyIsHeld(c, intent, x);
      assert note.serial == Some(intent.serial);
    }
    var c7 := Moved(lib, authority, c, id, e, t, fuel, retired);
    assert c7.quarantines[t.destination] == x;
    assert c7.issuances == c0.issuances;
  }

  lemma ClosedIsReadable(id: Id, t: Ticket, original: Dir<File>, note: Prepared)
    ensures var x := Closed(id, t, original, PreparedDoc(note));
            Readable(x) && ParsePrepared(x.notes[Final(PreparedNote)]).value == note
  {
  }

  lemma CopyIsHeld(c: Ca, intent: Intent, x: Quarantined)
    requires intent.issuanceId in c.issuances && Final(intent.serial) in c.reservations
    requires c.reservations[Final(intent.serial)] == Whole(ReservationDoc(ReservationFor(intent)))
    requires x.original == Some(WithCopies(c, c.issuances[intent.issuanceId], ExpectedEvidence(c, intent)))
    ensures HoldsCopy(x, ReservationFor(intent))
  {
  }

  lemma WreckIsMoved(lib: Lib, authority: Id, c0: Ca, c: Ca, intent: Intent, t: Ticket)
    requires LibOk(lib) && Clean(lib, authority, c0) && Wreckage.Wreck(c0, c, intent)
    requires Unused(c0, intent.issuanceId, intent.serial) && intent.authorityId == authority
    requires t.destination !in c0.quarantines && c.fuel >= 20
    ensures var out := MoveEvidence(lib, authority, c, intent.issuanceId, ExpectedEvidence(c, intent), t);
            out.Ok? && Isolated(lib, authority, c0, out.ca, intent, t)
  {
    FinalReservation(lib, authority, c0, c, intent);
    var fuel, retired := MoveSucceeds(lib, authority, c, intent.issuanceId, ExpectedEvidence(c, intent), t);
    MovedIsIsolated(lib, authority, c0, c, intent, t, fuel, retired);
  }

  // ---------- the result is clean ----------

  /** What the quarantine relies on: the serial is new, and if a reservation names the
      issuance already, then no other has been added and the quarantine holds its copy. */
  ghost predicate Apart(c0: Ca, c: Ca, intent: Intent, t: Ticket) {
    && intent.issuanceId !in c0.issuances && Final(intent.serial) !in c0.reservations
    && t.destination !in c0.quarantines
    && (forall q: Id, r: Reservation :: Names(c0, q, r) ==> r.serial != intent.serial)
    && (forall u: Id, r: Reservation :: ReservedAt(c0, u, r) && r.issuanceId == intent.issuanceId ==>
          && c.reservations == c0.reservations
          && t.destination in c.quarantines && HoldsCopy(c.quarantines[t.destination], r))
  }

  lemma ReservedBefore(lib: Lib, authority: Id, c0: Ca, c: Ca, intent: Intent, t: Ticket, u: Id, r: Reservation)
    requires Isolated(lib, authority, c0, c, intent, t) && ReservedAt(c, u, r)
    ensures ReservedAt(c0, u, r)
          || (u == intent.serial && r == ReservationFor(intent) && Final(intent.serial) in c.reservations)
  {
  }

  lemma NamedBefore(lib: Lib, authority: Id, c0: Ca, c: Ca, intent: Intent, t: Ticket, x: Id, r: Reservation)
    requires Isolated(lib, authority, c0, c, intent, t) && t.destination !in c0.quarantines && x != t.destination
    ensures Names(c, x, r) <==> Names(c0, x, r)
    ensures Names(c, x, r) ==> c.quarantines[x] == c0.quarantines[x]
  {
  }

  lemma OldStaysCopied(lib: Lib, authority: Id, c0: Ca, c: Ca, intent: Intent, t: Ticket, u: Id, r: Reservation)
    requires Isolated(lib, authority, c0, c, intent, t) && Apart(c0, c, intent, t)
    requires Copied(c0, r) && ReservedAt(c0, u, r)
    ensures Copied(c, r)
  {
    var x: Id :| Names(c0, x, r);
    NamedBefore(lib, authority, c0, c, intent, t, x, r);
    forall y: Id | Names(c, y, r) ensures HoldsCopy(c.quarantines[y], r) {
      if y != t.destination {
        NamedBefore(lib, authority, c0, c, intent, t, y, r);
      }
    }
  }

  lemma MineIsCopied(lib: Lib, authority: Id, c0: Ca, c: Ca, intent: Intent, t: Ticket)
    requires Isolated(lib, authority, c0, c, intent, t) && Apart(c0, c, intent, t)
    requires Final(intent.serial) in c.reservations
    ensures Copied(c, ReservationFor(intent))
  {
    var mine := ReservationFor(intent);
    assert Names(c, t.destination, mine);
    forall y: Id | Names(c, y, mine) ensures HoldsCopy(c.quarantines[y], mine) {
      if y != t.destination {
        NamedBefore(lib, authority, c0, c, intent, t, y, mine);
      }
    }
  }

  lemma ReservedStays(lib: Lib, authority: Id, c0: Ca, c: Ca, intent: Intent, t: Ticket, x: Id)
    requires Isolated(lib, authority, c0, c, intent, t) && Apart(c0, c, intent, t)
    requires IsReserved(c0, x)
    ensures IsReserved(c, x)
  {
    var u: Id, r: Reservation :| ReservedAt(c0, u, r) && r.issuanceId == x;
    assert ReservedAt(c, u, r);
  }

  lemma OneReservedEach(lib: Lib, authority: Id, c0: Ca, c: Ca, intent: Intent, t: Ticket, u: Id, v: Id,
          r: Reservation, q: Reservation)
    requires ReservationsAccounted(authority, c0) && Isolated(lib, authority, c0, c, intent, t)
    requires Apart(c0, c, intent, t)
    requires ReservedAt(c, u, r) && ReservedAt(c, v, q) && r.issuanceId == q.issuanceId
    ensures u == v
  {
    ReservedBefore(lib, authority, c0, c, intent, t, u, r);
    ReservedBefore(lib, authority, c0, c, intent, t, v, q);
  }

  lemma EachAccounted(lib: Lib, authority: Id, c0: Ca, c: Ca, intent: Intent, t: Ticket, u: Id, r: Reservation)
    requires ReservationsAccounted(authority, c0) && Isolated(lib, authority, c0, c, intent, t)
    requires Apart(c0, c, intent, t) && intent.authorityId == authority && ReservedAt(c, u, r)
    ensures r.authorityId == authority
    ensures if Has(c, r.issuanceId, IntentFile) then
              var parsed := ParseIntent(FileOf(c, r.issuanceId, IntentFile));
              parsed.Some? && r.serial == parsed.value.serial && r.issuanceId == parsed.value.issuanceId
            else Copied(c, r)
  {
    ReservedBefore(lib, authority, c0, c, intent, t, u, r);
    assert Has(c, r.issuanceId, IntentFile) == Has(c0, r.issuanceId, IntentFile);
    if ReservedAt(c0, u, r) {
      if !Has(c, r.issuanceId, IntentFile) {
        OldStaysCopied(lib, authority, c0, c, intent, t, u, r);
      }
    } else {
      MineIsCopied(lib, authority, c0, c, intent, t);
    }
  }

  lemma IsolatedReservations(lib: Lib, authority: Id, c0: Ca, c: Ca, intent: Intent, t: Ticket)
    requires LibOk(lib) && Clean(lib, authority, c0) && Isolated(lib, authority, c0, c, intent, t)
    requires Apart(c0, c, intent, t) && intent.authorityId == authority
    ensures ReservationsAccounted(authority, c)
  {
    forall u: Id, r: Reservation | ReservedAt(c, u, r)
      ensures r.authorityId == authority
              && if Has(c, r.issuanceId, IntentFile) then
                   var parsed := ParseIntent(FileOf(c, r.issuanceId, IntentFile));
                   parsed.Some? && r.serial == parsed.value.serial && r.issuanceId == parsed.value.issuanceId
                 else Copied(c, r)
    {
      EachAccounted(lib, authority, c0, c, intent, t, u, r);
    }
    forall u: Id, v: Id, r: Reservation,
          q: Reservation | ReservedAt(c, u, r) && ReservedAt(c, v, q) && r.issuanceId == q.issuanceId
      ensures u == v
    {
      OneReservedEach(lib, authority, c0, c, intent, t, u, v, r, q);
    }
    forall x <- c.issuances.Keys ensures IsReserved(c, x) {
      ReservedStays(lib, authority, c0, c, intent, t, x);
    }
  }

  /** A settled issuance stays settled while only other audit records are added. */
  lemma SettledWithMoreAudit(lib: Lib, authority: Id, c0: Ca, c: Ca, x: Id)
    requires ScanMeaning.IssuanceSettled(lib, authority, c0, x)
    requires x in c.issuances && c.issuances[x] == c0.issuances[x]
    requires Advance.Kept(c0.mappings, c.mappings) && Advance.Kept(c0.audits, c.audits)
    ensures ScanMeaning.IssuanceSettled(lib, authority, c, x)
  {
    var commit := Load(lib, authority, c0.issuances[x]).value.commit;
    var n: nat :| ScanMeaning.AuditedAs(c0.audits, commit, n);
    assert ScanMeaning.AuditedAs(c.audits, commit, n);
  }

  lemma AppendedKeeps(lib: Lib, audits: Dir<nat>, record: Audit)
    requires AuditChainValid(lib, audits)
    ensures Advance.Kept(audits, AuditChain.Appended(lib, audits, record))
    ensures (forall n: nat :: Pending(n) !in audits) ==>
          forall n: nat :: Pending(n) !in AuditChain.Appended(lib, audits, record)
  {
    assert Final(|Finals(audits)|) !in audits;
  }

  lemma SameMappingsValid(authority: Id, c0: Ca, c: Ca)
    requires MappingsValid(authority, c0) && c.mappings == c0.mappings && c.issuances == c0.issuances
    ensures MappingsValid(authority, c)
  {
    forall key: Digest | Final(key) in c.mappings
      ensures ParseMapping(c.mappings[Final(key)]).Some?
      ensures MappingValid(authority, c, key, ParseMapping(c.mappings[Final(key)]).value)
    {
      assert MappingValid(authority, c0, key, ParseMapping(c0.mappings[Final(key)]).value);
    }
  }

  lemma QuarantineIssuesNothing(lib: Lib, audits: Dir<nat>, authority: Id, id: Id, t: Ticket)
    requires AuditChainValid(lib, audits)
    ensures forall n: nat,
          x: Id :: IssuedAt(AuditChain.Appended(lib, audits, QuarantineRecord(authority, id, t.utc)), n, x) ==>
          IssuedAt(audits, n, x)
  {
  }

  lemma IsolatedIsClean(lib: Lib, authority: Id, c0: Ca, c: Ca, intent: Intent, t: Ticket)
    requires LibOk(lib) && Clean(lib, authority, c0) && Isolated(lib, authority, c0, c, intent, t)
    requires Apart(c0, c, intent, t) && intent.authorityId == authority
    ensures Clean(lib, authority, c)
  {
    IsolatedReservations(lib, authority, c0, c, intent, t);
    AuditChain.AppendKeepsChain(lib, c0.audits, QuarantineRecord(authority, intent.issuanceId, t.utc));
    AppendedKeeps(lib, c0.audits, QuarantineRecord(authority, intent.issuanceId, t.utc));
    SameMappingsValid(authority, c0, c);
    QuarantineIssuesNothing(lib, c0.audits, authority, intent.issuanceId, t);
    forall x <- c.issuances.Keys ensures ScanMeaning.IssuanceSettled(lib, authority, c, x) {
      SettledWithMoreAudit(lib, authority, c0, c, x);
    }
  }

  /** Quarantining a blocked wreck succeeds and restores a clean state, which the next scan
      accepts unchanged. */
  lemma BlockedWreckQuarantine(lib: Lib, authority: Id, c0: Ca, c: Ca, intent: Intent, t: Ticket)
    requires LibOk(lib) && Clean(lib, authority, c0) && Wreckage.BlockedWreck(c0, c, intent)
    requires Unused(c0, intent.issuanceId, intent.serial)
    requires intent.authorityId == authority && intent.version == SCHEMA_VERSION
    requires t.destination !in c0.quarantines && c.fuel >= ENOUGH
    ensures var out := QuarantineIssuance(lib, authority, c, intent.issuanceId, t);
            out.Ok? && Clean(lib, authority, out.ca)
  {
    Wreckage.BlockedWreckScan(lib, authority, c0, c, intent);
    var scanned := FullScan(lib, authority, c).ca;
    WreckIsInspected(lib, authority, c0, scanned, intent);
    WreckIsMoved(lib, authority, c0, scanned, intent, t);
    var out := QuarantineIssuance(lib, authority, c, intent.issuanceId, t);
    IsolatedIsClean(lib, authority, c0, out.ca, intent, t);
  }
}
