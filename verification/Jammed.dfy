/** The stuck enrollment, for good: no enrollment, scan or quarantine, of whatever issuance and
    cut short wherever, ever clears what blocks it. */
module Jammed {
  import opened Publication
  import opened Records
  import opened AuthorityState
  import opened Issuance
  import opened Scan
  import opened QuarantineCommand
  import opened IssuanceRuns
  import Advance
  import AuditChain
  import CleanState
  import CrashRecovery
  import Finish
  import Repair
  import ScanMeaning
  import Standing

  // ---------- what blocks ----------

  /** The index entry of `key` is staged torn. */
  predicate EntryTorn(mappings: Dir<Digest>, key: Digest) {
    Final(key) !in mappings && Finish.TornAt(mappings, key)
  }

  /** The key of an issuance's finalized intent. */
  function KeyIn(d: Dir<File>): Option<Digest> {
    if Final(IntentFile) !in d then None
    else match ParseIntent(d[Final(IntentFile)]) case Some(i) => Some(i.keyHash) case None => None
  }

  /** The audit marker is staged and the issuance is indexed already. */
  predicate Marked(c: Ca, id: Id) {
    && id in c.issuances && Pending(AuditMarkFile) in c.issuances[id]
    && KeyIn(c.issuances[id]).Some? && Final(KeyIn(c.issuances[id]).value) in c.mappings
  }

  ghost predicate Unrecorded(audits: Dir<nat>, id: Id) {
    forall n: nat :: !IssuedAt(audits, n, id)
  }

  /** A complete issuance whose marker is staged or whose index entry is torn. */
  ghost predicate Barred(lib: Lib, authority: Id, c: Ca, id: Id) {
    && Has(c, id, CompleteFile)
    && Load(lib, authority, c.issuances[id]).Some?
    && (|| Marked(c, id)
        || EntryTorn(c.mappings, Load(lib, authority, c.issuances[id]).value.commit.mapping.keyHash))
  }

  /** A complete issuance that is missing from a blocked log. */
  ghost predicate Shut(lib: Lib, authority: Id, c: Ca, id: Id) {
    && Has(c, id, CompleteFile)
    && Load(lib, authority, c.issuances[id]).Some?
    && Standing.LogBlocked(c.audits)
    && Unrecorded(c.audits, Load(lib, authority, c.issuances[id]).value.commit.issuanceId)
  }

  /** A complete issuance whose post-commit publications are blocked. */
  ghost predicate Jam(lib: Lib, authority: Id, c: Ca, id: Id) {
    Barred(lib, authority, c, id) || Shut(lib, authority, c, id)
  }

  // ---------- what no operation undoes ----------

  /** Finalized files of `id` and of the index stay, and torn entries stay. */
  ghost predicate Persists(c: Ca, c': Ca, id: Id) {
    && (id in c.issuances ==> id in c'.issuances && Advance.Kept(c.issuances[id], c'.issuances[id]))
    && Advance.Kept(c.mappings, c'.mappings)
    && (forall key: Digest :: EntryTorn(c.mappings, key) ==> EntryTorn(c'.mappings, key))
  }

  /** The directory of `id` is untouched. */
  ghost predicate Untouched(c: Ca, c': Ca, id: Id) {
    id in c.issuances ==> id in c'.issuances && c'.issuances[id] == c.issuances[id]
  }

  lemma Then(a: Ca, b: Ca, c: Ca, id: Id)
    requires Persists(a, b, id) && Persists(b, c, id)
    ensures Persists(a, c, id)
  {
  }

  lemma ElsewherePersists(c: Ca, c': Ca, id: Id)
    requires Untouched(c, c', id) && c'.mappings == c.mappings
    ensures Persists(c, c', id)
  {
  }

  lemma FilePersists(c: Ca, x: Id, f: File, doc: Doc, id: Id)
    requires x in c.issuances
    ensures Persists(c, PublishFile(c, x, f, doc).ca, id) && Persists(c, PublishFileExact(c, x, f, doc).ca, id)
    ensures x != id ==>
          Untouched(c, PublishFile(c, x, f, doc).ca, id) && Untouched(c, PublishFileExact(c, x, f, doc).ca, id)
  {
    Advance.PublicationKeeps(c, c.issuances[x], f, Whole(doc));
  }

  lemma EntryPersists(c: Ca, m: Mapping, id: Id)
    ensures Persists(c, PublishMapping(c, m).ca, id)
  {
    Advance.PublicationKeeps(c, c.mappings, m.keyHash, Whole(MappingDoc(m)));
    var c' := PublishMapping(c, m).ca;
    forall key: Digest | EntryTorn(c.mappings, key) ensures EntryTorn(c'.mappings, key) {
      DestinationIsAbsentOrExact(c.mappings, m.keyHash, Whole(MappingDoc(m)), Empty,
            TornBlob(c.tear, Whole(MappingDoc(m))), c.fuel);
    }
  }

  lemma TailPersists(lib: Lib, c: Ca, x: Id, commit: Commit, id: Id)
    requires x in c.issuances
    ensures Persists(c, Tail(lib, c, x, commit).ca, id)
    ensures x != id ==> Untouched(c, Tail(lib, c, x, commit).ca, id)
  {
    EntryPersists(c, commit.mapping, id);
    var o2 := PublishMapping(c, commit.mapping);
    if o2.Ok? {
      var o3 := EnsureIssuanceAudit(lib, o2.ca, commit);
      ElsewherePersists(o2.ca, o3.ca, id);
      Then(c, o2.ca, o3.ca, id);
      if o3.Ok? {
        FilePersists(o3.ca, x, AuditMarkFile, AuditMarkDoc(commit.issuanceId), id);
        Then(c, o3.ca, PublishMark(o3.ca, x, commit.issuanceId).ca, id);
      }
    }
  }

  lemma RecoveryPersists(lib: Lib, authority: Id, c: Ca, x: Id, id: Id)
    ensures Persists(c, RecoverCommit(lib, authority, c, x).ca, id)
    ensures x != id ==> Untouched(c, RecoverCommit(lib, authority, c, x).ca, id)
  {
    if x in c.issuances && Load(lib, authority, c.issuances[x]).Some? {
      var t := Load(lib, authority, c.issuances[x]).value;
      FilePersists(c, x, CompleteFile, CompleteDoc(t.complete), id);
      var o1 := PublishFileExact(c, x, CompleteFile, CompleteDoc(t.complete));
      if o1.Ok? {
        TailPersists(lib, o1.ca, x, t.commit, id);
        Then(c, o1.ca, Tail(lib, o1.ca, x, t.commit).ca, id);
      }
    }
  }

  // ---------- the scan ----------

  lemma {:induction false} AllPersist(lib: Lib, authority: Id, c: Ca, order: seq<Id>, id: Id)
    ensures Persists(c, RecoverAll(lib, authority, c, order).ca, id)
    decreases |order|
  {
    if order != [] {
      RecoveryPersists(lib, authority, c, order[0], id);
      var one := RecoverOne(lib, authority, c, order[0]);
      if one.Ok? {
        AllPersist(lib, authority, one.ca, order[1..], id);
        Then(c, one.ca, RecoverAll(lib, authority, one.ca, order[1..]).ca, id);
      }
    }
  }

  lemma AdoptionPersists(authority: Id, c: Ca, x: Id, id: Id)
    ensures var c' := AdoptIntent(authority, c, x).ca;
            Persists(c, c', id) && (Has(c, id, IntentFile) ==> Untouched(c, c', id))
  {
    if x in c.issuances {
      Advance.AdoptionKeeps(c.issuances[x], IntentFile, c.fuel);
    }
  }

  lemma {:induction false} AdoptionsPersist(authority: Id, c: Ca, order: seq<Id>, id: Id)
    requires Has(c, id, IntentFile)
    ensures var c' := AdoptIntents(authority, c, order).ca;
            Persists(c, c', id) && Untouched(c, c', id)
    decreases |order|
  {
    if order != [] {
      AdoptionPersists(authority, c, order[0], id);
      var one := AdoptIntent(authority, c, order[0]);
      if one.Ok? {
        AdoptionsPersist(authority, one.ca, order[1..], id);
        Then(c, one.ca, AdoptIntents(authority, one.ca, order[1..]).ca, id);
      }
    }
  }

  lemma {:induction false} ReservationsPersist(authority: Id, c: Ca, order: seq<Id>, id: Id)
    ensures var c' := AdoptReservations(authority, c, order).ca;
            Persists(c, c', id) && Untouched(c, c', id)
    decreases |order|
  {
    if order != [] {
      var one := AdoptReservation(authority, c, order[0]);
      ElsewherePersists(c, one.ca, id);
      if one.Ok? {
        ReservationsPersist(authority, one.ca, order[1..], id);
        Then(c, one.ca, AdoptReservations(authority, one.ca, order[1..]).ca, id);
      }
    }
  }

  lemma StagingPersists(lib: Lib, authority: Id, c: Ca, id: Id)
    requires Has(c, id, IntentFile)
    ensures var out := RecoverStaging(lib, authority, c);
            Persists(c, out.ca, id) && Untouched(c, out.ca, id) && (out.Ok? ==> NoStaging(out.ca))
  {
    var listed := lib.list(c.issuances.Keys);
    AdoptionsPersist(authority, c, listed, id);
    var o1 := AdoptIntents(authority, c, listed);
    if o1.Ok? {
      var order := lib.list(Pendings(o1.ca.reservations));
      ReservationsPersist(authority, o1.ca, order, id);
      Then(c, o1.ca, AdoptReservations(authority, o1.ca, order).ca, id);
    }
  }

  /** A scan stops at a staged marker before it recovers anything. */
  lemma ScanPersists(lib: Lib, authority: Id, c: Ca, id: Id)
    requires Has(c, id, IntentFile)
    ensures var out := FullScan(lib, authority, c);
            Persists(c, out.ca, id) && (Marked(c, id) ==> out.Err? && Untouched(c, out.ca, id))
  {
    if !c.initPending {
      StagingPersists(lib, authority, c, id);
      var o1 := RecoverStaging(lib, authority, c);
      if o1.Ok? {
        var order := lib.list(o1.ca.issuances.Keys);
        AllPersist(lib, authority, o1.ca, order, id);
        Then(c, o1.ca, RecoverAll(lib, authority, o1.ca, order).ca, id);
      }
    }
  }

  // ---------- enrollments ----------

  lemma PreparationPersists(c: Ca, a: Attempt, intent: Intent, id: Id)
    requires intent.issuanceId !in c.issuances && id in c.issuances
    ensures Persists(c, Prepare(c, a, intent).ca, id) && Untouched(c, Prepare(c, a, intent).ca, id)
  {
    var x := intent.issuanceId;
    if c.fuel > 0 {
      var c2 := c.(fuel := c.fuel - 1).(issuances := c.issuances[x := map[]]);
      ElsewherePersists(c, c2, id);
      if a.profileOk {
        ReservingPersists(c2, intent, id);
        Then(c, c2, Prepare(c, a, intent).ca, id);
      }
    }
  }

  lemma ReservingPersists(c: Ca, intent: Intent, id: Id)
    requires intent.issuanceId in c.issuances && intent.issuanceId != id
    ensures var first := PublishFile(c, intent.issuanceId, IntentFile, IntentDoc(intent));
            var c' := if first.Err? then first.ca else Reserve(first.ca, ReservationFor(intent)).ca;
            Persists(c, c', id) && Untouched(c, c', id)
  {
    FilePersists(c, intent.issuanceId, IntentFile, IntentDoc(intent), id);
    var first := PublishFile(c, intent.issuanceId, IntentFile, IntentDoc(intent));
    if first.Ok? {
      var c' := Reserve(first.ca, ReservationFor(intent)).ca;
      ElsewherePersists(first.ca, c', id);
      Then(c, first.ca, c', id);
    }
  }

  lemma ConclusionPersists(lib: Lib, c: Ca, intent: Intent, certificate: Blob, sourceIp: nat, id: Id)
    requires intent.issuanceId in c.issuances && intent.issuanceId != id && certificate.Whole?
    ensures var c' := Conclude(lib, c, intent, certificate, sourceIp).ca;
            Persists(c, c', id) && Untouched(c, c', id)
  {
    var x := intent.issuanceId;
    CertificatePersists(lib, c, intent, certificate, id);
    var o2 := CertificateThenRecord(lib, c, intent, certificate);
    if o2.Ok? {
      var commit := CommitDoc(CommitFor(lib, intent, certificate, sourceIp));
      FilePersists(o2.ca, x, CommitFile, commit, id);
      var o3 := PublishFile(o2.ca, x, CommitFile, commit);
      Then(c, o2.ca, o3.ca, id);
      if o3.Ok? {
        var complete := CompleteDoc(CompleteFor(lib, intent, certificate));
        FilePersists(o3.ca, x, CompleteFile, complete, id);
        Then(c, o3.ca, PublishFile(o3.ca, x, CompleteFile, complete).ca, id);
      }
    }
  }

  lemma CertificatePersists(lib: Lib, c: Ca, intent: Intent, certificate: Blob, id: Id)
    requires intent.issuanceId in c.issuances && intent.issuanceId != id && certificate.Whole?
    ensures var c' := CertificateThenRecord(lib, c, intent, certificate).ca;
            Persists(c, c', id) && Untouched(c, c', id)
  {
    var x := intent.issuanceId;
    FilePersists(c, x, CertificateFile, certificate.doc, id);
    var o1 := PublishFile(c, x, CertificateFile, certificate.doc);
    if o1.Ok? {
      var record := RecordDoc(RecordFor(lib, intent, certificate));
      FilePersists(o1.ca, x, RecordFile, record, id);
      Then(c, o1.ca, PublishFile(o1.ca, x, RecordFile, record).ca, id);
    }
  }

  lemma SignPersists(c: Ca, a: Attempt, intent: Intent, id: Id)
    ensures Persists(c, Sign(c, a, intent).ca, id) && Untouched(c, Sign(c, a, intent).ca, id)
    ensures Sign(c, a, intent).ca.issuances == c.issuances
  {
    CrashRecovery.SignLeavesFiles(c, a, intent);
    ElsewherePersists(c, Sign(c, a, intent).ca, id);
  }

  lemma CompletionPersists(lib: Lib, authority: Id, c: Ca, intent: Intent, certificate: Blob, sourceIp: nat, id: Id)
    requires intent.issuanceId in c.issuances && intent.issuanceId != id && certificate.Whole?
    ensures var first := Conclude(lib, c, intent, certificate, sourceIp);
            var c' := if first.Err? then first.ca else RecoverCommit(lib, authority, first.ca, intent.issuanceId).ca;
            Persists(c, c', id) && Untouched(c, c', id)
  {
    ConclusionPersists(lib, c, intent, certificate, sourceIp, id);
    var first := Conclude(lib, c, intent, certificate, sourceIp);
    if first.Ok? {
      RecoveryPersists(lib, authority, first.ca, intent.issuanceId, id);
      Then(c, first.ca, RecoverCommit(lib, authority, first.ca, intent.issuanceId).ca, id);
    }
  }

  lemma RestPersists(lib: Lib, authority: Id, c: Ca, request: Request, a: Attempt, intent: Intent, id: Id)
    requires intent.issuanceId in c.issuances && intent.issuanceId != id
    ensures var c' := AfterPrepare(lib, authority, c, request, a, intent).ca;
            Persists(c, c', id) && Untouched(c, c', id)
  {
    SignPersists(c, a, intent, id);
    var o2 := Sign(c, a, intent);
    if o2.Ok? {
      CompletionPersists(lib, authority, o2.ca, intent, o2.value, request.sourceIp, id);
      var first := Conclude(lib, o2.ca, intent, o2.value, request.sourceIp);
      var done := if first.Err? then first.ca else RecoverCommit(lib, authority, first.ca, intent.issuanceId).ca;
      AnsweredPersists(o2.ca, done, AfterPrepare(lib, authority, c, request, a, intent).ca, id);
      Then(c, o2.ca, AfterPrepare(lib, authority, c, request, a, intent).ca, id);
    }
  }

  lemma AnsweredPersists(c: Ca, done: Ca, c': Ca, id: Id)
    requires Persists(c, done, id) && Untouched(c, done, id) && c' == done.(replies := c'.replies)
    ensures Persists(c, c', id) && Untouched(c, c', id)
  {
  }

  lemma FreshPersists(lib: Lib, authority: Id, c: Ca, request: Request, a: Attempt, intent: Intent, id: Id)
    requires intent.issuanceId !in c.issuances && id in c.issuances
    ensures var c' := IssueFresh(lib, authority, c, request, a, intent).ca;
            Persists(c, c', id) && Untouched(c, c', id)
  {
    PreparationPersists(c, a, intent, id);
    var o1 := Prepare(c, a, intent);
    if o1.Ok? {
      RestPersists(lib, authority, o1.ca, request, a, intent, id);
      Then(c, o1.ca, AfterPrepare(lib, authority, o1.ca, request, a, intent).ca, id);
    }
  }

  lemma AnswerPersists(lib: Lib, c: Ca, request: Request, id: Id)
    requires Final(request.keyHash) in c.mappings
    ensures Persists(c, Replay(lib, c, request).ca, id) && Untouched(c, Replay(lib, c, request).ca, id)
  {
  }

  /** An enrollment resumes an issuance only while its key is not indexed. */
  lemma EnrollmentPersists(lib: Lib, authority: Id, c: Ca, request: Request, a: Attempt, id: Id)
    requires id in c.issuances
    ensures var c' := Issue(lib, authority, c, request, a).ca;
            && Persists(c, c', id)
            && (Marked(c, id) || !Has(c, id, IntentFile) ==> Untouched(c, c', id))
  {
    if Final(request.keyHash) in c.mappings {
      AnswerPersists(lib, c, request, id);
    } else {
      var order := lib.list(c.issuances.Keys);
      FindByKeyMeaning(c, order, request.keyHash, request.requestHash);
      var found := FindByKey(c, order, request.keyHash, request.requestHash);
      if found.Ok? && found.value.Some? {
        ResumePersists(lib, authority, c, request, found.value.value, id);
      } else if found.Ok? && UniqueId(c, a.ids).Some? && UniqueSerial(lib, c, a.serials).Found? {
        UniqueIdIsFree(c, a.ids);
        FreshPersists(lib, authority, c, request, a,
                      IntentFor(authority, request, a, UniqueId(c, a.ids).value,
                          UniqueSerial(lib, c, a.serials).value), id);
      }
    }
  }

  lemma ResumePersists(lib: Lib, authority: Id, c: Ca, request: Request, x: Id, id: Id)
    requires Has(c, x, IntentFile) && KeyIn(c.issuances[x]) == Some(request.keyHash)
    requires Final(request.keyHash) !in c.mappings
    ensures var out := RecoverCommit(lib, authority, c, x);
            var c' := if out.Ok? && Final(request.keyHash) in out.ca.mappings then Replay(lib, out.ca,
                request).ca else out.ca;
            && Persists(c, c', id)
            && (Marked(c, id) || !Has(c, id, IntentFile) ==> Untouched(c, c', id))
  {
    RecoveryPersists(lib, authority, c, x, id);
    var out := RecoverCommit(lib, authority, c, x);
    if out.Ok? && Final(request.keyHash) in out.ca.mappings {
      AnswerPersists(lib, out.ca, request, id);
      Then(c, out.ca, Replay(lib, out.ca, request).ca, id);
    }
  }

  // ---------- quarantines of other issuances ----------

  lemma MovePersists(authority: Id, c: Ca, x: Id, e: Evidence, t: Ticket, id: Id)
    requires x != id
    ensures var c' := OpenAndMove(authority, c, x, e, t).ca;
            Persists(c, c', id) && Untouched(c, c', id)
  {
    var o1 := OpenQuarantine(c, t.destination);
    assert Besides(c, o1.ca, id);
    if o1.Ok? {
      NoteThenMoveBesides(o1.ca, t.destination, PreparedDoc(Prepared(x, authority, EvidenceSerial(c, e), t.utc)), x,
            id);
    }
    ElsewherePersists(c, OpenAndMove(authority, c, x, e, t).ca, id);
  }

  /** The index is the same, and so is the directory of `id`. */
  ghost predicate Besides(c: Ca, c': Ca, id: Id) {
    Untouched(c, c', id) && c'.mappings == c.mappings
  }

  lemma NoteThenMoveBesides(c: Ca, q: Id, note: Doc, x: Id, id: Id)
    requires q in c.quarantines && x != id
    ensures var o2 := PublishNote(c, q, PreparedNote, note);
            Besides(c, o2.ca, id) && (q in o2.ca.quarantines ==> Besides(c, MoveOriginal(o2.ca, q, x).ca, id))
  {
    var o2 := PublishNote(c, q, PreparedNote, note);
    assert o2.ca == c.(quarantines := o2.ca.quarantines, fuel := o2.ca.fuel);
  }

  lemma ClosingPersists(lib: Lib, c: Ca, q: Id, note: Doc, record: Audit, id: Id)
    requires q in c.quarantines
    ensures var first := PublishNote(c, q, QuarantinedNote, note);
            var c' := if first.Err? then first.ca else AppendAudit(lib, first.ca, record).ca;
            Persists(c, c', id) && Untouched(c, c', id)
  {
    var first := PublishNote(c, q, QuarantinedNote, note);
    ElsewherePersists(c, first.ca, id);
    if first.Ok? {
      ElsewherePersists(first.ca, AppendAudit(lib, first.ca, record).ca, id);
      Then(c, first.ca, AppendAudit(lib, first.ca, record).ca, id);
    }
  }

  lemma FilingPersists(lib: Lib, authority: Id, c: Ca, x: Id, e: Evidence, t: Ticket, id: Id)
    requires t.destination in c.quarantines && c.quarantines[t.destination].original.Some?
    ensures var c' := FileEvidence(lib, authority, c, x, e, t).ca;
            Persists(c, c', id) && Untouched(c, c', id)
  {
    var q := t.destination;
    var o1 := CopyReservation(c, q, e.reservation);
    ElsewherePersists(c, o1.ca, id);
    if o1.Ok? {
      var o2 := CopyPending(o1.ca, q, e.pending);
      CopyingPersists(o1.ca, q, e.pending, id);
      Then(c, o1.ca, o2.ca, id);
      if o2.Ok? {
        var note, record := QuarantinedDoc(x, t.utc), QuarantineRecord(authority, x, t.utc);
        ClosingPersists(lib, o2.ca, q, note, record, id);
        var o3 := PublishNote(o2.ca, q, QuarantinedNote, note);
        var c' := if o3.Err? then o3.ca else AppendAudit(lib, o3.ca, record).ca;
        Then(c, o2.ca, c', id);
      }
    }
  }

  lemma CopyingPersists(c: Ca, q: Id, pending: Option<Id>, id: Id)
    requires q in c.quarantines && c.quarantines[q].original.Some?
    ensures Persists(c, CopyPending(c, q, pending).ca, id) && Untouched(c, CopyPending(c, q, pending).ca, id)
  {
    if pending.Some? && Pending(pending.value) in c.reservations {
      var o := CopyInto(c, q, PendingCopy, c.reservations[Pending(pending.value)]);
      ElsewherePersists(c, o.ca, id);
      if o.Ok? {
        ElsewherePersists(c, RemovePending(o.ca, pending.value).ca, id);
      }
    }
  }

  lemma EvidencePersists(lib: Lib, authority: Id, c: Ca, x: Id, e: Evidence, t: Ticket, id: Id)
    requires x != id
    ensures var c' := MoveEvidence(lib, authority, c, x, e, t).ca;
            Persists(c, c', id) && Untouched(c, c', id)
  {
    MovePersists(authority, c, x, e, t, id);
    var o1 := OpenAndMove(authority, c, x, e, t);
    if o1.Ok? {
      FilingPersists(lib, authority, o1.ca, x, e, t, id);
      Then(c, o1.ca, FileEvidence(lib, authority, o1.ca, x, e, t).ca, id);
    }
  }

  /** Quarantine refuses a complete issuance and leaves it alone when it moves another. */
  lemma QuarantinePersists(lib: Lib, authority: Id, c: Ca, x: Id, t: Ticket, id: Id)
    requires Has(c, id, IntentFile) && Has(c, id, CompleteFile)
    ensures var out := QuarantineIssuance(lib, authority, c, x, t);
            && Persists(c, out.ca, id) && (Marked(c, id) ==> Untouched(c, out.ca, id))
            && (x == id ==> out.Err?)
  {
    ScanPersists(lib, authority, c, id);
    var scanned := FullScan(lib, authority, c);
    assert Has(scanned.ca, id, CompleteFile);
    var found := Inspect(lib, authority, scanned.ca, x);
    if found.Some? {
      assert x != id;
      EvidencePersists(lib, authority, scanned.ca, x, found.value, t, id);
      Then(c, scanned.ca, MoveEvidence(lib, authority, scanned.ca, x, found.value, t).ca, id);
    }
  }

  // ---------- a jam stays ----------

  lemma JamHolds(lib: Lib, authority: Id, c: Ca, c': Ca, id: Id)
    requires Persists(c, c', id) && (Marked(c, id) ==> Untouched(c, c', id))
    ensures Barred(lib, authority, c, id) ==> Barred(lib, authority, c', id)
    ensures Shut(lib, authority, c, id) && Standing.LogStands(c, c') ==> Shut(lib, authority, c', id)
  {
    if Barred(lib, authority, c, id) || Shut(lib, authority, c, id) {
      ScanMeaning.LoadStays(lib, authority, c.issuances[id], c'.issuances[id]);
    }
  }

  lemma StepPersists(lib: Lib, authority: Id, c: Ca, id: Id, step: Step)
    requires Has(c, id, IntentFile) && Has(c, id, CompleteFile)
    ensures var c' := Apply(lib, authority, c, step); Persists(c, c', id) && (Marked(c, id) ==> Untouched(c, c', id))
  {
    var ready := c.(fuel := step.fuel, tear := step.tear);
    match step.event {
      case Enroll(request, attempt) => EnrollmentPersists(lib, authority, ready, request, attempt, id);
      case Rescan => ScanPersists(lib, authority, ready, id);
      case Isolate(x, ticket) => QuarantinePersists(lib, authority, ready, x, ticket, id);
    }
    Then(c, ready, Apply(lib, authority, c, step), id);
  }

  lemma JamStep(lib: Lib, authority: Id, c: Ca, id: Id, step: Step)
    requires Jam(lib, authority, c, id)
    ensures Barred(lib, authority, c, id) ==> Barred(lib, authority, Apply(lib, authority, c, step), id)
    ensures Shut(lib, authority, c, id) && !Standing.StepRepeats(c.audits, step) ==>
          Shut(lib, authority, Apply(lib, authority, c, step), id)
  {
    StepPersists(lib, authority, c, id, step);
    if !Standing.StepRepeats(c.audits, step) {
      Standing.LogStep(lib, authority, c, step);
    }
    JamHolds(lib, authority, c, Apply(lib, authority, c, step), id);
  }

  lemma {:induction false} BarredStays(lib: Lib, authority: Id, c: Ca, id: Id, steps: seq<Step>)
    requires Barred(lib, authority, c, id)
    ensures Barred(lib, authority, Run(lib, authority, c, steps), id)
    decreases |steps|
  {
    if steps != [] {
      JamStep(lib, authority, c, id, steps[0]);
      BarredStays(lib, authority, Apply(lib, authority, c, steps[0]), id, steps[1..]);
    }
  }

  lemma {:induction false} ShutStays(lib: Lib, authority: Id, c: Ca, id: Id, steps: seq<Step>)
    requires Shut(lib, authority, c, id) && Standing.Avoids(steps, c.audits)
    ensures Shut(lib, authority, Run(lib, authority, c, steps), id)
    decreases |steps|
  {
    if steps != [] {
      JamStep(lib, authority, c, id, steps[0]);
      Standing.LogStep(lib, authority, c, steps[0]);
      ShutStays(lib, authority, Apply(lib, authority, c, steps[0]), id, steps[1..]);
    }
  }

  /** A staged marker or a torn index entry outlasts every run; a blocked log every run in which
      no quarantine writes the staged record again. */
  lemma JamStays(lib: Lib, authority: Id, c: Ca, id: Id, steps: seq<Step>)
    requires Jam(lib, authority, c, id)
    ensures Barred(lib, authority, c, id) || Standing.Avoids(steps, c.audits) ==>
          Jam(lib, authority, Run(lib, authority, c, steps), id)
  {
    if Barred(lib, authority, c, id) {
      BarredStays(lib, authority, c, id, steps);
    } else if Standing.Avoids(steps, c.audits) {
      ShutStays(lib, authority, c, id, steps);
    }
  }

  // ---------- a jam blocks the scan ----------

  lemma {:induction false} NothingFound(audits: Dir<nat>, order: seq<nat>, id: Id)
    requires Unrecorded(audits, id)
    ensures !SearchAudit(audits, order, id).Found?
  {
    if order != [] {
      assert !IssuedAt(audits, order[0], id);
      NothingFound(audits, order[1..], id);
    }
  }

  lemma LogRefuses(lib: Lib, c: Ca, commit: Commit)
    requires Standing.LogBlocked(c.audits) && Unrecorded(c.audits, commit.issuanceId)
    ensures EnsureIssuanceAudit(lib, c, commit).Err?
  {
    NothingFound(c.audits, lib.list(Finals(c.audits)), commit.issuanceId);
    Standing.AppendIsRefused(lib, c, IssuedRecord(commit));
  }

  lemma RecoveryRefuses(lib: Lib, authority: Id, c: Ca, id: Id)
    requires Jam(lib, authority, c, id) && !Marked(c, id)
    ensures RecoverCommit(lib, authority, c, id).Err?
  {
    var t := Load(lib, authority, c.issuances[id]).value;
    var o1 := PublishFileExact(c, id, CompleteFile, CompleteDoc(t.complete));
    if o1.Ok? && Shut(lib, authority, c, id) {
      var o2 := PublishMapping(o1.ca, t.commit.mapping);
      if o2.Ok? {
        LogRefuses(lib, o2.ca, t.commit);
      }
    }
  }

  lemma {:induction false} AllRefuse(lib: Lib, authority: Id, c: Ca, order: seq<Id>, id: Id)
    requires Jam(lib, authority, c, id) && !Pended(c, id) && id in order
    ensures RecoverAll(lib, authority, c, order).Err?
    decreases |order|
  {
    assert order == [order[0]] + order[1..];
    if order[0] == id {
      RecoveryRefuses(lib, authority, c, id);
    } else {
      RecoveryPersists(lib, authority, c, order[0], id);
      Standing.RecoveryStands(lib, authority, c, order[0]);
      var one := RecoverOne(lib, authority, c, order[0]);
      if one.Ok? {
        JamHolds(lib, authority, c, one.ca, id);
        AllRefuse(lib, authority, one.ca, order[1..], id);
      }
    }
  }

  predicate Pended(c: Ca, id: Id) {
    id in c.issuances && Pending(AuditMarkFile) in c.issuances[id]
  }

  /** No scan accepts a jammed state, whatever its fuel. */
  lemma JamBlocksScan(lib: Lib, authority: Id, c: Ca, id: Id)
    requires LibOk(lib) && Jam(lib, authority, c, id)
    ensures FullScan(lib, authority, c).Err?
  {
    ScanPersists(lib, authority, c, id);
    if !c.initPending && !Marked(c, id) {
      StagingPersists(lib, authority, c, id);
      Standing.StagingStands(lib, authority, c);
      var o1 := RecoverStaging(lib, authority, c);
      if o1.Ok? {
        JamHolds(lib, authority, c, o1.ca, id);
        var order := lib.list(o1.ca.issuances.Keys);
        assert Enumerates(order, o1.ca.issuances.Keys);
        AllRefuse(lib, authority, o1.ca, order, id);
      }
    }
  }

  // ---------- stuck enrollments are jammed ----------

  lemma MarkedIsIndexed(lib: Lib, authority: Id, c0: Ca, c: Ca, p: Finish.Plan)
    requires Finish.Committed(lib, c0, c, p) && p.intent.authorityId == authority
    requires Pending(AuditMarkFile) in c.issuances[p.intent.issuanceId]
    ensures Marked(c, p.intent.issuanceId)
  {
    Finish.LoadsAsPlanned(lib, authority, c.issuances[p.intent.issuanceId], p);
  }

  lemma TornLogIsBlocked(lib: Lib, authority: Id, c0: Ca, c: Ca, p: Finish.Plan)
    requires CleanState.Clean(lib, authority, c0) && Finish.Fits(authority, c0, p)
    requires Finish.AuditProgress(lib, c0.audits, c.audits, p)
    requires Finish.TornAt(c.audits, Finish.NextOf(lib, c0.audits, p).sequence)
    ensures Standing.LogBlocked(c.audits) && Unrecorded(c.audits, p.intent.issuanceId)
    ensures forall x: Id, utc: nat :: !Standing.Repeats(c.audits, x, utc)
  {
    var next := Finish.NextOf(lib, c0.audits, p);
    Repair.StagedMeansUnfinished(c0.audits, c.audits, next.sequence, AuditDoc(next));
    AuditChain.FinalsAre(c0.audits);
    AuditChain.FinalsAre(c.audits);
    assert Finals(c.audits) == Finals(c0.audits);
    forall n: nat ensures !IssuedAt(c.audits, n, p.intent.issuanceId) {
      assert !IssuedAt(c0.audits, n, p.intent.issuanceId);
    }
  }

  lemma StuckIsJammed(lib: Lib, authority: Id, c0: Ca, c: Ca, p: Finish.Plan, steps: seq<Step>)
    requires CleanState.Clean(lib, authority, c0) && Finish.Fits(authority, c0, p) && Repair.Stuck(lib, c0, c, p)
    ensures var id := p.intent.issuanceId;
            || Barred(lib, authority, c, id)
            || (Shut(lib, authority, c, id) && Standing.Avoids(steps, c.audits))
  {
    Finish.LoadsAsPlanned(lib, authority, c.issuances[p.intent.issuanceId], p);
    if Pending(AuditMarkFile) in c.issuances[p.intent.issuanceId] {
      MarkedIsIndexed(lib, authority, c0, c, p);
    } else if Finish.TornAt(c.mappings, p.intent.keyHash) {
      Repair.StagedMeansUnfinished(c0.mappings, c.mappings, p.intent.keyHash, MappingDoc(Finish.MappingOf(lib, p)));
    } else {
      TornLogIsBlocked(lib, authority, c0, c, p);
    }
  }

  /** The scan is refused, and so is a quarantine of the issuance. */
  ghost predicate Refused(lib: Lib, authority: Id, c: Ca, id: Id, t: Ticket) {
    FullScan(lib, authority, c).Err? && QuarantineIssuance(lib, authority, c, id, t).Err?
  }

  lemma JamIsRefused(lib: Lib, authority: Id, c: Ca, id: Id, fuel: nat, tear: Tear, t: Ticket)
    requires LibOk(lib) && Jam(lib, authority, c, id)
    ensures Refused(lib, authority, c.(fuel := fuel, tear := tear), id, t)
  {
    var now := c.(fuel := fuel, tear := tear);
    JamHolds(lib, authority, c, now, id);
    JamBlocksScan(lib, authority, now, id);
    QuarantinePersists(lib, authority, now, id, t, id);
  }

  /** After any further enrollments, scans and quarantines, of whatever issuances and each cut
      short anywhere, no scan accepts the state and no quarantine of the issuance succeeds. */
  lemma StuckForGood(lib: Lib, authority: Id, c0: Ca, c: Ca, p: Finish.Plan, steps: seq<Step>, fuel: nat, tear: Tear,
          t: Ticket)
    requires LibOk(lib) && CleanState.Clean(lib, authority, c0) && Finish.Fits(authority, c0, p)
    requires Repair.Stuck(lib, c0, c, p)
    ensures var now := Run(lib, authority, c, steps).(fuel := fuel, tear := tear);
            Refused(lib, authority, now, p.intent.issuanceId, t)
  {
    StuckIsJammed(lib, authority, c0, c, p, steps);
    JamStays(lib, authority, c, p.intent.issuanceId, steps);
    JamIsRefused(lib, authority, Run(lib, authority, c, steps), p.intent.issuanceId, fuel, tear, t);
  }
}
