/** What every command leaves alone: the quarantines of others, and a log whose next record is
    staged with something that no command of the run writes again. */
module Standing {
  import opened Publication
  import opened Records
  import opened AuthorityState
  import opened Issuance
  import opened Scan
  import opened QuarantineCommand
  import opened IssuanceRuns
  import CrashRecovery

  // ---------- a blocked log ----------

  predicate CertificateStaged(blob: Blob) {
    blob.Whole? && blob.doc.AuditDoc? && blob.doc.audit.kind == CertificateIssued
  }

  /** The log's next record is staged, torn or whole, and not with a certificate record. */
  predicate LogBlocked(audits: Dir<nat>) {
    var next := |Finals(audits)|;
    && Final(next) !in audits && Pending(next) in audits
    && audits[Pending(next)] != Empty && !CertificateStaged(audits[Pending(next)])
  }

  /** The staged record is one that a quarantine of `x` at the instant `utc` writes. */
  predicate Repeats(audits: Dir<nat>, x: Id, utc: nat) {
    var next := |Finals(audits)|;
    && Pending(next) in audits && audits[Pending(next)].Whole? && audits[Pending(next)].doc.AuditDoc?
    && audits[Pending(next)].doc.audit.issuanceId == Some(x) && audits[Pending(next)].doc.audit.utc == utc
  }

  predicate StepRepeats(audits: Dir<nat>, s: Step) {
    s.event.Isolate? && Repeats(audits, s.event.id, s.event.ticket.utc)
  }

  /** No quarantine of the run writes the staged record again. */
  predicate Avoids(steps: seq<Step>, audits: Dir<nat>) {
    forall s <- steps :: !StepRepeats(audits, s)
  }

  ghost predicate LogStands(c: Ca, c': Ca) {
    LogBlocked(c.audits) ==> c'.audits == c.audits
  }

  lemma AppendIsRefused(lib: Lib, c: Ca, record: Audit)
    requires LogBlocked(c.audits)
    requires || record.kind == CertificateIssued
             || (record.issuanceId.Some? && !Repeats(c.audits, record.issuanceId.value, record.utc))
    ensures AppendAudit(lib, c, record) == Err(c, StateError)
  {
    var next := NextAudit(lib, c.audits, record);
    assert c.audits[Pending(next.sequence)] != Whole(AuditDoc(next));
  }

  lemma EnsureStands(lib: Lib, c: Ca, commit: Commit)
    ensures LogStands(c, EnsureIssuanceAudit(lib, c, commit).ca)
  {
    if LogBlocked(c.audits) {
      AppendIsRefused(lib, c, IssuedRecord(commit));
    }
  }

  // ---------- enrollments and scans ----------

  /** No quarantine has changed, nor a blocked log. */
  ghost predicate Stands(c: Ca, c': Ca) {
    c'.quarantines == c.quarantines && LogStands(c, c')
  }

  lemma RecoveryStands(lib: Lib, authority: Id, c: Ca, x: Id)
    ensures Stands(c, RecoverCommit(lib, authority, c, x).ca)
  {
    if x in c.issuances && Load(lib, authority, c.issuances[x]).Some? {
      var t := Load(lib, authority, c.issuances[x]).value;
      var o1 := PublishFileExact(c, x, CompleteFile, CompleteDoc(t.complete));
      assert Stands(c, o1.ca);
      if o1.Ok? {
        TailStands(lib, o1.ca, x, t.commit);
      }
    }
  }

  lemma MarkStands(c: Ca, x: Id, issuanceId: Id)
    requires x in c.issuances
    ensures var out := PublishMark(c, x, issuanceId);
            out.ca.quarantines == c.quarantines && out.ca.audits == c.audits
  {
  }

  lemma RecordStands(lib: Lib, c: Ca, x: Id, commit: Commit)
    requires x in c.issuances
    ensures var first := EnsureIssuanceAudit(lib, c, commit);
            Stands(c, if first.Err? then first.ca else PublishMark(first.ca, x, commit.issuanceId).ca)
  {
    EnsureStands(lib, c, commit);
    var first := EnsureIssuanceAudit(lib, c, commit);
    assert first.ca.quarantines == c.quarantines;
    if first.Ok? {
      MarkStands(first.ca, x, commit.issuanceId);
    }
  }

  lemma TailStands(lib: Lib, c: Ca, x: Id, commit: Commit)
    requires x in c.issuances
    ensures Stands(c, Tail(lib, c, x, commit).ca)
  {
    var o2 := PublishMapping(c, commit.mapping);
    assert o2.ca.quarantines == c.quarantines && o2.ca.audits == c.audits;
    if o2.Ok? {
      RecordStands(lib, o2.ca, x, commit);
    }
  }

  lemma {:induction false} AllStand(lib: Lib, authority: Id, c: Ca, order: seq<Id>)
    ensures Stands(c, RecoverAll(lib, authority, c, order).ca)
    decreases |order|
  {
    if order != [] {
      RecoveryStands(lib, authority, c, order[0]);
      var one := RecoverOne(lib, authority, c, order[0]);
      if one.Ok? {
        AllStand(lib, authority, one.ca, order[1..]);
      }
    }
  }

  lemma AdoptionStands(authority: Id, c: Ca, x: Id)
    ensures Stands(c, AdoptIntent(authority, c, x).ca)
  {
  }

  lemma {:induction false} IntentsStand(authority: Id, c: Ca, order: seq<Id>)
    ensures Stands(c, AdoptIntents(authority, c, order).ca)
    decreases |order|
  {
    if order != [] {
      AdoptionStands(authority, c, order[0]);
      var one := AdoptIntent(authority, c, order[0]);
      if one.Ok? {
        IntentsStand(authority, one.ca, order[1..]);
      }
    }
  }

  lemma ReservationStands(authority: Id, c: Ca, s: Id)
    ensures Stands(c, AdoptReservation(authority, c, s).ca)
  {
  }

  lemma {:induction false} ReservationsStand(authority: Id, c: Ca, order: seq<Id>)
    ensures Stands(c, AdoptReservations(authority, c, order).ca)
    decreases |order|
  {
    if order != [] {
      ReservationStands(authority, c, order[0]);
      var one := AdoptReservation(authority, c, order[0]);
      if one.Ok? {
        ReservationsStand(authority, one.ca, order[1..]);
      }
    }
  }

  lemma StagingStands(lib: Lib, authority: Id, c: Ca)
    ensures Stands(c, RecoverStaging(lib, authority, c).ca)
  {
    IntentsStand(authority, c, lib.list(c.issuances.Keys));
    var o1 := AdoptIntents(authority, c, lib.list(c.issuances.Keys));
    if o1.Ok? {
      ReservationsStand(authority, o1.ca, lib.list(Pendings(o1.ca.reservations)));
    }
  }

  lemma ScanStands(lib: Lib, authority: Id, c: Ca)
    ensures Stands(c, FullScan(lib, authority, c).ca)
  {
    StagingStands(lib, authority, c);
    var o1 := RecoverStaging(lib, authority, c);
    AllStand(lib, authority, o1.ca, lib.list(o1.ca.issuances.Keys));
  }

  lemma FileStands(c: Ca, x: Id, f: File, doc: Doc)
    requires x in c.issuances
    ensures var out := PublishFile(c, x, f, doc);
            out.ca.quarantines == c.quarantines && out.ca.audits == c.audits
  {
  }

  lemma ReserveStands(c: Ca, r: Reservation)
    ensures Reserve(c, r).ca.quarantines == c.quarantines && Reserve(c, r).ca.audits == c.audits
  {
  }

  lemma PreparationStands(c: Ca, a: Attempt, intent: Intent)
    ensures Stands(c, Prepare(c, a, intent).ca)
  {
    var id := intent.issuanceId;
    if c.fuel > 0 {
      var c1 := c.(fuel := c.fuel - 1);
      var c2 := if id in c1.issuances then c1 else c1.(issuances := c1.issuances[id := map[]]);
      if a.profileOk {
        FileStands(c2, id, IntentFile, IntentDoc(intent));
        ReserveStands(PublishFile(c2, id, IntentFile, IntentDoc(intent)).ca, ReservationFor(intent));
      }
    }
  }

  lemma CertificateStands(lib: Lib, c: Ca, intent: Intent, certificate: Blob)
    requires intent.issuanceId in c.issuances && certificate.Whole?
    ensures var o1 := CertificateThenRecord(lib, c, intent, certificate);
            o1.ca.quarantines == c.quarantines && o1.ca.audits == c.audits
  {
  }

  lemma ConclusionStands(lib: Lib, c: Ca, intent: Intent, certificate: Blob, sourceIp: nat)
    requires intent.issuanceId in c.issuances && certificate.Whole?
    ensures Stands(c, Conclude(lib, c, intent, certificate, sourceIp).ca)
  {
    CertificateStands(lib, c, intent, certificate);
    var o1 := CertificateThenRecord(lib, c, intent, certificate);
    if o1.Ok? {
      CommitStands(lib, o1.ca, intent, certificate, sourceIp);
    }
  }

  lemma CommitStands(lib: Lib, c: Ca, intent: Intent, certificate: Blob, sourceIp: nat)
    requires intent.issuanceId in c.issuances
    ensures var out := CommitThenComplete(lib, c, intent, certificate, sourceIp);
            out.ca.quarantines == c.quarantines && out.ca.audits == c.audits
  {
  }

  lemma AnsweringStands(c: Ca, done: Ca, c': Ca)
    requires Stands(c, done) && c' == done.(replies := c'.replies)
    ensures Stands(c, c')
  {
  }

  lemma RestStands(lib: Lib, authority: Id, c: Ca, request: Request, a: Attempt, intent: Intent)
    requires intent.issuanceId in c.issuances
    ensures Stands(c, AfterPrepare(lib, authority, c, request, a, intent).ca)
  {
    CrashRecovery.SignLeavesFiles(c, a, intent);
    var o2 := Sign(c, a, intent);
    if o2.Ok? {
      CompletionStands(lib, authority, o2.ca, intent, o2.value, request.sourceIp);
      var first := Conclude(lib, o2.ca, intent, o2.value, request.sourceIp);
      var done := if first.Err? then first.ca else RecoverCommit(lib, authority, first.ca, intent.issuanceId).ca;
      AnsweringStands(c, done, AfterPrepare(lib, authority, c, request, a, intent).ca);
    }
  }

  lemma CompletionStands(lib: Lib, authority: Id, c: Ca, intent: Intent, certificate: Blob, sourceIp: nat)
    requires intent.issuanceId in c.issuances && certificate.Whole?
    ensures var first := Conclude(lib, c, intent, certificate, sourceIp);
            && Stands(c, first.ca)
            && Stands(c, RecoverCommit(lib, authority, first.ca, intent.issuanceId).ca)
  {
    ConclusionStands(lib, c, intent, certificate, sourceIp);
    RecoveryStands(lib, authority, Conclude(lib, c, intent, certificate, sourceIp).ca, intent.issuanceId);
  }

  lemma FreshStands(lib: Lib, authority: Id, c: Ca, request: Request, a: Attempt, intent: Intent)
    ensures Stands(c, IssueFresh(lib, authority, c, request, a, intent).ca)
  {
    PreparationStands(c, a, intent);
    var o1 := Prepare(c, a, intent);
    if o1.Ok? {
      RestStands(lib, authority, o1.ca, request, a, intent);
    }
  }

  lemma ReplayStands(lib: Lib, c: Ca, request: Request)
    requires Final(request.keyHash) in c.mappings
    ensures Replay(lib, c, request).ca.quarantines == c.quarantines && Replay(lib, c, request).ca.audits == c.audits
  {
  }

  lemma EnrollmentStands(lib: Lib, authority: Id, c: Ca, request: Request, a: Attempt)
    ensures Stands(c, Issue(lib, authority, c, request, a).ca)
  {
    if Final(request.keyHash) in c.mappings {
      ReplayStands(lib, c, request);
    } else {
      var order := lib.list(c.issuances.Keys);
      FindByKeyMeaning(c, order, request.keyHash, request.requestHash);
      var found := FindByKey(c, order, request.keyHash, request.requestHash);
      if found.Ok? && found.value.Some? {
        RecoveryStands(lib, authority, c, found.value.value);
        var c1 := RecoverCommit(lib, authority, c, found.value.value).ca;
        if Final(request.keyHash) in c1.mappings {
          ReplayStands(lib, c1, request);
        }
      } else if found.Ok? && UniqueId(c, a.ids).Some? && UniqueSerial(lib, c, a.serials).Found? {
        FreshStands(lib, authority, c, request, a,
                    IntentFor(authority, request, a, UniqueId(c, a.ids).value, UniqueSerial(lib, c, a.serials).value));
      }
    }
  }

  // ---------- quarantines ----------

  /** The directory of `q` is as it was. */
  predicate SameQuarantine(c: Ca, c': Ca, q: Id) {
    q in c.quarantines ==> q in c'.quarantines && c'.quarantines[q] == c.quarantines[q]
  }

  lemma NoteStands(c: Ca, x: Id, note: Doc, q: Id)
    requires x in c.quarantines && x != q
    ensures var o2 := PublishNote(c, x, PreparedNote, note);
            && SameQuarantine(c, o2.ca, q) && o2.ca.audits == c.audits && x in o2.ca.quarantines
  {
  }

  lemma MoveStands(c: Ca, x: Id, id: Id, q: Id)
    requires x in c.quarantines && x != q
    ensures SameQuarantine(c, MoveOriginal(c, x, id).ca, q) && MoveOriginal(c, x, id).ca.audits == c.audits
  {
  }

  lemma OpeningStands(authority: Id, c: Ca, id: Id, e: Evidence, t: Ticket, q: Id)
    requires t.destination != q
    ensures SameQuarantine(c, OpenAndMove(authority, c, id, e, t).ca, q)
    ensures OpenAndMove(authority, c, id, e, t).ca.audits == c.audits
  {
    var o1 := OpenQuarantine(c, t.destination);
    assert SameQuarantine(c, o1.ca, q) && o1.ca.audits == c.audits;
    if o1.Ok? {
      var note := PreparedDoc(Prepared(id, authority, EvidenceSerial(c, e), t.utc));
      NoteStands(o1.ca, t.destination, note, q);
      MoveStands(PublishNote(o1.ca, t.destination, PreparedNote, note).ca, t.destination, id, q);
    }
  }

  lemma FilingStands(lib: Lib, authority: Id, c: Ca, id: Id, e: Evidence, t: Ticket, q: Id)
    requires t.destination in c.quarantines && c.quarantines[t.destination].original.Some? && t.destination != q
    ensures SameQuarantine(c, FileEvidence(lib, authority, c, id, e, t).ca, q)
    ensures !Repeats(c.audits, id, t.utc) ==> LogStands(c, FileEvidence(lib, authority, c, id, e, t).ca)
  {
    CopiesStand(c, t.destination, e, q);
    var o1 := CopyReservation(c, t.destination, e.reservation);
    if o1.Ok? {
      var o2 := CopyPending(o1.ca, t.destination, e.pending);
      if o2.Ok? {
        ClosingStands(lib, o2.ca, t.destination, QuarantinedDoc(id, t.utc), QuarantineRecord(authority, id, t.utc), q);
      }
    }
  }

  lemma CopiesStand(c: Ca, x: Id, e: Evidence, q: Id)
    requires x in c.quarantines && c.quarantines[x].original.Some? && x != q
    ensures var o1 := CopyReservation(c, x, e.reservation);
            && SameQuarantine(c, o1.ca, q) && SameQuarantine(c, CopyPending(o1.ca, x, e.pending).ca, q)
            && o1.ca.audits == c.audits && CopyPending(o1.ca, x, e.pending).ca.audits == c.audits
  {
    var o1 := CopyReservation(c, x, e.reservation);
    assert SameQuarantine(c, o1.ca, q);
    PendingCopyStands(o1.ca, x, e.pending, q);
  }

  lemma PendingCopyStands(c: Ca, x: Id, pending: Option<Id>, q: Id)
    requires x in c.quarantines && c.quarantines[x].original.Some? && x != q
    ensures SameQuarantine(c, CopyPending(c, x, pending).ca, q) && CopyPending(c, x, pending).ca.audits == c.audits
  {
  }

  lemma ClosingStands(lib: Lib, c: Ca, x: Id, note: Doc, record: Audit, q: Id)
    requires x in c.quarantines && x != q
    ensures var first := PublishNote(c, x, QuarantinedNote, note);
            var c' := if first.Err? then first.ca else AppendAudit(lib, first.ca, record).ca;
            && SameQuarantine(c, c', q)
            && (record.issuanceId.Some? && !Repeats(c.audits, record.issuanceId.value, record.utc) ==> LogStands(c, c'))
  {
    var first := PublishNote(c, x, QuarantinedNote, note);
    assert first.ca.audits == c.audits;
    if LogBlocked(c.audits) && record.issuanceId.Some? && !Repeats(c.audits, record.issuanceId.value, record.utc) {
      AppendIsRefused(lib, first.ca, record);
    }
  }

  lemma QuarantineStands(lib: Lib, authority: Id, c: Ca, id: Id, t: Ticket, q: Id)
    requires t.destination != q
    ensures SameQuarantine(c, QuarantineIssuance(lib, authority, c, id, t).ca, q)
    ensures !Repeats(c.audits, id, t.utc) ==> LogStands(c, QuarantineIssuance(lib, authority, c, id, t).ca)
  {
    ScanStands(lib, authority, c);
    var scanned := FullScan(lib, authority, c).ca;
    var found := Inspect(lib, authority, scanned, id);
    if found.Some? {
      OpeningStands(authority, scanned, id, found.value, t, q);
      var moved := OpenAndMove(authority, scanned, id, found.value, t);
      if moved.Ok? {
        FilingStands(lib, authority, moved.ca, id, found.value, t, q);
      }
    }
  }

  // ---------- runs ----------

  lemma LogStep(lib: Lib, authority: Id, c: Ca, step: Step)
    requires !StepRepeats(c.audits, step)
    ensures LogStands(c, Apply(lib, authority, c, step))
  {
    var ready := c.(fuel := step.fuel, tear := step.tear);
    match step.event {
      case Enroll(request, attempt) => EnrollmentStands(lib, authority, ready, request, attempt);
      case Rescan => ScanStands(lib, authority, ready);
      case Isolate(x, ticket) => QuarantineStands(lib, authority, ready, x, ticket, ticket.destination + 1);
    }
  }

  /** A blocked log stands still, as long as no quarantine writes the staged record again. */
  lemma {:induction false} BlockedLogStays(lib: Lib, authority: Id, c: Ca, steps: seq<Step>)
    requires LogBlocked(c.audits) && Avoids(steps, c.audits)
    ensures Run(lib, authority, c, steps).audits == c.audits
    decreases |steps|
  {
    if steps != [] {
      LogStep(lib, authority, c, steps[0]);
      BlockedLogStays(lib, authority, Apply(lib, authority, c, steps[0]), steps[1..]);
    }
  }
}
