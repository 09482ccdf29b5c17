/** An enrollment that is not cut short answers 201, and asking again answers 200 with the
    same bytes; so the theorems about clean states speak of states that occur. */
module Uninterrupted {
  import opened Publication
  import opened Records
  import opened AuthorityState
  import opened Issuance
  import opened Finish
  import opened IssuanceRuns
  import opened CrashRecovery
  import opened EnrollmentRecovery
  import AuditChain
  import CleanState
  import Enrolled
  import InitProgress
  import InitResult
  import IssuanceMeaning
  import Initialization
  import Recovery
  import Repair
  import Scan
  import ScanMeaning

  lemma FreshIsClean(lib: Lib, authority: Id, audits: Dir<nat>)
    requires Scan.AuditChainValid(lib, audits) && (forall n: nat :: Pending(n) !in audits)
    requires forall n: nat, id: Id :: !Scan.IssuedAt(audits, n, id)
    ensures CleanState.Clean(lib, authority, Fresh(audits))
  {
  }

  /** The log of a finished initialization is one that enrollment can start from. */
  lemma InitializedIsClean(lib: Lib, c: Initialization.Crypto, op: Initialization.Operation, key: nat,
          s: Initialization.Init, authority: Id)
    requires LibOk(lib) && InitResult.Initialized(lib, c, op, key, s)
    ensures CleanState.Clean(lib, authority, Fresh(s.audits))
  {
    var a := InitProgress.BundleAt(s.files).value.authority;
    var none, record := InitResult.NoAudits(), Initialization.InitializedRecord(a);
    InitResult.PublishedFiles(c, op, key, s.files);
    assert Finals(none) == {};
    AuditChain.AppendKeepsChain(lib, none, record);
    assert none - {Pending(NextAudit(lib, none, record).sequence)} == none;
    assert NextAudit(lib, none, record).sequence == 0;
    assert s.audits == AuditChain.Appended(lib, none, record);
    FreshIsClean(lib, authority, s.audits);
  }

  lemma FileRuns(c0: Ca, c: Ca, id: Id, d: Dir<File>, rs: Dir<Id>, f: File, doc: Doc)
    requires At(c0, c, id, d, rs) && Final(f) !in d && Pending(f) !in d && c.fuel >= 3
    ensures var out := PublishFile(c, id, f, doc);
            out.Ok? && out.ca.fuel == c.fuel - 3 && At(c0, out.ca, id, d[Final(f) := Whole(doc)], rs)
  {
    FileStep(c0, c, id, d, rs, f, doc);
    PublishAbsent(d, f, Whole(doc), Empty, TornBlob(c.tear, Whole(doc)), c.fuel);
  }

  lemma ReserveRuns(c0: Ca, c: Ca, p: Plan)
    requires Final(p.intent.serial) !in c0.reservations && Pending(p.intent.serial) !in c0.reservations
    requires At(c0, c, p.intent.issuanceId, OneFile(p), c0.reservations) && c.fuel >= 3
    ensures var out := Reserve(c, ReservationFor(p.intent));
            out.Ok? && out.ca.fuel == c.fuel - 3 && At(c0, out.ca, p.intent.issuanceId, OneFile(p), ReservedDir(c0, p))
  {
    ReserveStep(c0, c, p);
    var blob := Whole(ReservationDoc(ReservationFor(p.intent)));
    PublishAbsent(c0.reservations, p.intent.serial, blob, Empty, TornBlob(c.tear, blob), c.fuel);
  }

  lemma PrepareRuns(c0: Ca, a: Attempt, p: Plan)
    requires p.intent.issuanceId !in c0.issuances && a.profileOk && c0.fuel >= 7
    requires Final(p.intent.serial) !in c0.reservations && Pending(p.intent.serial) !in c0.reservations
    ensures var out := Prepare(c0, a, p.intent);
            out.Ok? && out.ca.fuel == c0.fuel - 7 && At(c0, out.ca, p.intent.issuanceId, OneFile(p), ReservedDir(c0, p))
  {
    var id := p.intent.issuanceId;
    var nothing: Dir<File> := map[];
    var c2 := c0.(fuel := c0.fuel - 1).(issuances := c0.issuances[id := nothing]);
    FileRuns(c0, c2, id, nothing, c0.reservations, IntentFile, IntentDoc(p.intent));
    assert nothing[Final(IntentFile) := Whole(IntentDoc(p.intent))] == OneFile(p);
    ReserveRuns(c0, PublishFile(c2, id, IntentFile, IntentDoc(p.intent)).ca, p);
  }

  lemma CertificateThenRecordRuns(lib: Lib, c0: Ca, c: Ca, p: Plan)
    requires At(c0, c, p.intent.issuanceId, OneFile(p), ReservedDir(c0, p)) && c.fuel >= 6
    ensures var out := CertificateThenRecord(lib, c, p.intent, Certificate(p));
            out.Ok? && out.ca.fuel == c.fuel - 6
                && At(c0, out.ca, p.intent.issuanceId, ThreeFiles(lib, p), ReservedDir(c0, p))
  {
    var id := p.intent.issuanceId;
    FileRuns(c0, c, id, OneFile(p), ReservedDir(c0, p), CertificateFile, CertificateDoc(p.der));
    var c1 := PublishFile(c, id, CertificateFile, CertificateDoc(p.der)).ca;
    FileRuns(c0, c1, id, TwoFiles(p), ReservedDir(c0, p), RecordFile, RecordDoc(RecordOf(lib, p)));
  }

  lemma CommitThenCompleteRuns(lib: Lib, c0: Ca, c: Ca, p: Plan)
    requires At(c0, c, p.intent.issuanceId, ThreeFiles(lib, p), ReservedDir(c0, p)) && c.fuel >= 6
    ensures var out := CommitThenComplete(lib, c, p.intent, Certificate(p), p.sourceIp);
            out.Ok? && out.ca.fuel == c.fuel - 6
                && At(c0, out.ca, p.intent.issuanceId, FiveFiles(lib, p), ReservedDir(c0, p))
  {
    var id := p.intent.issuanceId;
    FileRuns(c0, c, id, ThreeFiles(lib, p), ReservedDir(c0, p), CommitFile, CommitDoc(CommitOf(lib, p)));
    var c1 := PublishFile(c, id, CommitFile, CommitDoc(CommitOf(lib, p))).ca;
    FileRuns(c0, c1, id, FourFiles(lib, p), ReservedDir(c0, p), CompleteFile, CompleteDoc(CompleteOf(lib, p)));
  }

  lemma ConcludeRuns(lib: Lib, c0: Ca, c: Ca, p: Plan)
    requires At(c0, c, p.intent.issuanceId, OneFile(p), ReservedDir(c0, p)) && c.fuel >= 12
    ensures var out := Conclude(lib, c, p.intent, Certificate(p), p.sourceIp);
            out.Ok? && out.ca.fuel == c.fuel - 12
                && At(c0, out.ca, p.intent.issuanceId, FiveFiles(lib, p), ReservedDir(c0, p))
  {
    CertificateThenRecordRuns(lib, c0, c, p);
    CommitThenCompleteRuns(lib, c0, CertificateThenRecord(lib, c, p.intent, Certificate(p)).ca, p);
  }

  lemma RecoverRuns(lib: Lib, authority: Id, c0: Ca, c: Ca, p: Plan)
    requires LibOk(lib) && CleanState.Clean(lib, authority, c0) && Fits(authority, c0, p) && c.fuel >= CleanState.ENOUGH
    requires At(c0, c, p.intent.issuanceId, FiveFiles(lib, p), ReservedDir(c0, p))
    ensures var out := RecoverCommit(lib, authority, c, p.intent.issuanceId);
            out.Ok? && Repair.IsFinished(lib, c0, out.ca, p)
  {
    CommittedAt(lib, c0, c, p, FiveFiles(lib, p));
    Recovery.CommittedRecovers(lib, authority, c0, c, p);
    RecoveryStops(lib, authority, c0, c, p);
  }

  lemma AfterPrepareRuns(lib: Lib, authority: Id, c0: Ca, c: Ca, request: Request, a: Attempt, p: Plan)
    requires LibOk(lib) && CleanState.Clean(lib, authority, c0) && Fits(authority, c0, p)
    requires c.fuel >= CleanState.ENOUGH + 13
    requires At(c0, c, p.intent.issuanceId, OneFile(p), ReservedDir(c0, p))
    requires a.signer == Signs(p.der, true) && request.sourceIp == p.sourceIp
    ensures var out := AfterPrepare(lib, authority, c, request, a, p.intent);
            && out.Ok? && Repair.IsFinished(lib, c0, out.ca, p)
            && out.value == Reply(201, request.keyHash, request.requestHash, p.intent.issuanceId, Certificate(p))
  {
    SignStops(lib, c0, c, a, p);
    var c2 := Sign(c, a, p.intent).ca;
    assert c2.fuel == c.fuel - 1;
    ConcludeRuns(lib, c0, c2, p);
    RecoverRuns(lib, authority, c0, Conclude(lib, c2, p.intent, Certificate(p), p.sourceIp).ca, p);
  }

  /** What an attempt meets when nothing goes wrong. */
  ghost predicate Smooth(lib: Lib, c: Ca, request: Request, a: Attempt) {
    && UniqueId(c, a.ids).Some? && UniqueSerial(lib, c, a.serials).Found? && NewId(c, UniqueId(c, a.ids).value)
    && a.profileOk && a.signer.Signs? && a.signer.verifies
    && Final(request.keyHash) !in c.mappings
  }

  lemma SmoothFits(lib: Lib, authority: Id, c0: Ca, request: Request, a: Attempt)
    requires LibOk(lib) && CleanState.Clean(lib, authority, c0) && Smooth(lib, c0, request, a)
    ensures Fits(authority, c0, PlanOf(lib, authority, c0, request, a))
    ensures Issue(lib, authority, c0, request, a)
          == IssueFresh(lib, authority, c0, request, a, PlanOf(lib, authority, c0, request, a).intent)
  {
    DrawsAreFree(lib, authority, c0, a);
    UnindexedIssue(lib, authority, c0, request, a);
  }

  lemma FreshRuns(lib: Lib, authority: Id, c0: Ca, request: Request, a: Attempt, p: Plan)
    requires LibOk(lib) && CleanState.Clean(lib, authority, c0) && Fits(authority, c0, p)
    requires c0.fuel >= 2 * CleanState.ENOUGH && a.profileOk
    requires a.signer == Signs(p.der, true) && request.sourceIp == p.sourceIp
    ensures var out := IssueFresh(lib, authority, c0, request, a, p.intent);
            && out.Ok? && Repair.IsFinished(lib, c0, out.ca, p)
            && out.value
                == Reply(201, request.keyHash, request.requestHash, p.intent.issuanceId, Whole(CertificateDoc(p.der)))
  {
    PrepareRuns(c0, a, p);
    AfterPrepareRuns(lib, authority, c0, Prepare(c0, a, p.intent).ca, request, a, p);
  }

  /** An uninterrupted enrollment answers 201 with the signed bytes and finishes every file. */
  lemma UninterruptedEnrollment(lib: Lib, authority: Id, c0: Ca, request: Request, a: Attempt)
    requires LibOk(lib) && CleanState.Clean(lib, authority, c0) && Smooth(lib, c0, request, a)
    requires c0.fuel >= 2 * CleanState.ENOUGH
    ensures var out := Issue(lib, authority, c0, request, a);
            var p := PlanOf(lib, authority, c0, request, a);
            && out.Ok? && Repair.IsFinished(lib, c0, out.ca, p) && CleanState.Clean(lib, authority, out.ca)
            && out.value
                == Reply(201, request.keyHash, request.requestHash, p.intent.issuanceId,
                    Whole(CertificateDoc(a.signer.der)))
  {
    var p := PlanOf(lib, authority, c0, request, a);
    SmoothFits(lib, authority, c0, request, a);
    FreshRuns(lib, authority, c0, request, a, p);
    Repair.FinishedIsClean(lib, authority, c0, Issue(lib, authority, c0, request, a).ca, p);
  }

  /** With time enough and an identifier that no reservation remembers, an enrollment from a clean
      state is answered 201 exactly when nothing goes wrong: the draws are free, the profile is
      accepted, the key's answer verifies and the idempotency key is new. */
  lemma EnrollmentAnswersExactlyWhen(lib: Lib, authority: Id, c0: Ca, request: Request, a: Attempt)
    requires LibOk(lib) && CleanState.Clean(lib, authority, c0) && c0.fuel >= 2 * CleanState.ENOUGH
    requires UniqueId(c0, a.ids).Some? ==> NewId(c0, UniqueId(c0, a.ids).value)
    ensures var out := Issue(lib, authority, c0, request, a);
            (out.Ok? && out.value.status == 201) <==> Smooth(lib, c0, request, a)
  {
    Enrolled.AnswerMeans(lib, authority, c0, request, a);
    if Smooth(lib, c0, request, a) {
      UninterruptedEnrollment(lib, authority, c0, request, a);
    } else if Final(request.keyHash) !in c0.mappings {
      UnindexedIssue(lib, authority, c0, request, a);
    }
  }

  /** What an enrollment that is refused on the way leaves: without an accepted profile, a bare
      directory; when the key refuses or its answer does not verify, the intent and the
      reservation besides, and the signature in the history. */
  lemma RefusedEnrollmentLeaves(lib: Lib, authority: Id, c0: Ca, request: Request, a: Attempt)
    requires LibOk(lib) && CleanState.Clean(lib, authority, c0) && c0.fuel >= 2 * CleanState.ENOUGH
    requires UniqueId(c0, a.ids).Some? && UniqueSerial(lib, c0, a.serials).Found?
    requires NewId(c0, UniqueId(c0, a.ids).value) && Final(request.keyHash) !in c0.mappings
    requires !IssuanceMeaning.Verified(a)
    ensures var out, p := Issue(lib, authority, c0, request, a), PlanOf(lib, authority, c0, request, a);
            && out.Err? && out.ca.replies == c0.replies
            && (!a.profileOk ==>
                  && out.error == Precondition && out.ca.signed == c0.signed
                  && At(c0, out.ca, p.intent.issuanceId, map[], c0.reservations))
            && (a.profileOk ==>
                  && out.error == (if a.signer.Refuses? then Provider else Inconsistent)
                  && out.ca.signed == c0.signed + [Signing(request.keyHash, p.intent.serial, p.intent.issuanceId)]
                  && At(c0, out.ca, p.intent.issuanceId, OneFile(p), ReservedDir(c0, p)))
  {
    var p := PlanOf(lib, authority, c0, request, a);
    DrawsAreFree(lib, authority, c0, a);
    UnindexedIssue(lib, authority, c0, request, a);
    assert Fits(authority, c0, p);
    if a.profileOk {
      PrepareRuns(c0, a, p);
      PrepareAdvances(c0, a, p.intent);
      SignRefuses(c0, Prepare(c0, a, p.intent).ca, a, p);
    }
  }

  lemma SignRefuses(c0: Ca, c: Ca, a: Attempt, p: Plan)
    requires At(c0, c, p.intent.issuanceId, OneFile(p), ReservedDir(c0, p)) && c.fuel > 0
    requires a.profileOk && !IssuanceMeaning.Verified(a)
    ensures var out := Sign(c, a, p.intent);
            && out.Err? && At(c0, out.ca, p.intent.issuanceId, OneFile(p), ReservedDir(c0, p))
            && out.error == (if a.signer.Refuses? then Provider else Inconsistent) && out.ca.replies == c.replies
            && out.ca.signed == c.signed + [Signing(p.intent.keyHash, p.intent.serial, p.intent.issuanceId)]
  {
  }

  lemma FinishedReplays(lib: Lib, c0: Ca, c: Ca, p: Plan, request: Request)
    requires Repair.IsFinished(lib, c0, c, p) && request.keyHash == p.intent.keyHash
    requires request.requestHash == p.intent.requestHash
    ensures Final(request.keyHash) in c.mappings
    ensures ParseMapping(c.mappings[Final(request.keyHash)]) == Some(MappingOf(lib, p))
    ensures var out := Replay(lib, c, request);
            out.Ok? && out.value
                == Reply(200, request.keyHash, request.requestHash, p.intent.issuanceId, Certificate(p))
  {
  }

  /** Asking again, with any other attempt and any fuel, answers 200 with the same bytes;
      asking for something else under the same key is refused. */
  lemma SecondAnswer(lib: Lib, authority: Id, c0: Ca, request: Request, a: Attempt, later: Request, b: Attempt)
    requires LibOk(lib) && CleanState.Clean(lib, authority, c0) && Smooth(lib, c0, request, a)
    requires c0.fuel >= 2 * CleanState.ENOUGH && later.keyHash == request.keyHash
    ensures var first := Issue(lib, authority, c0, request, a);
            var second := Issue(lib, authority, first.ca, later, b);
            && first.Ok?
            && (if later.requestHash == request.requestHash
                then second.Ok? && second.value == first.value.(status := 200)
                else second == Err(first.ca, Conflict))
  {
    UninterruptedEnrollment(lib, authority, c0, request, a);
    var first := Issue(lib, authority, c0, request, a);
    FinishedReplays(lib, c0, first.ca, PlanOf(lib, authority, c0, request, a), request);
  }

  // ---------- the stop that nothing repairs ----------

  /** File operations up to the complete staging of the audit marker. */
  const MARKER_STAGED := 28

  lemma AuditRuns(lib: Lib, authority: Id, c0: Ca, c: Ca, p: Plan)
    requires LibOk(lib) && CleanState.Clean(lib, authority, c0) && Fits(authority, c0, p)
    requires c.audits == c0.audits && c.fuel >= 3
    ensures var out := EnsureIssuanceAudit(lib, c, CommitOf(lib, p));
            out.Ok? && out.ca == c.(audits := out.ca.audits, fuel := c.fuel - 3)
  {
    UnrecordedIsAbsent(lib, c0, c.audits, p.intent.issuanceId);
    var next := NextAudit(lib, c.audits, IssuedRecord(CommitOf(lib, p)));
    assert Final(next.sequence) !in c0.audits;
    PublishAbsent(c.audits, next.sequence, Whole(AuditDoc(next)), Empty, TornBlob(c.tear, Whole(AuditDoc(next))),
          c.fuel);
  }

  lemma MarkIsStaged(c: Ca, id: Id)
    requires id in c.issuances && c.fuel == 2
    requires Final(AuditMarkFile) !in c.issuances[id] && Pending(AuditMarkFile) !in c.issuances[id]
    ensures var out := PublishMark(c, id, id);
            out.Err? && id in out.ca.issuances && Pending(AuditMarkFile) in out.ca.issuances[id]
  {
    var blob := Whole(AuditMarkDoc(id));
    PublishAbsent(c.issuances[id], AuditMarkFile, blob, Empty, TornBlob(c.tear, blob), c.fuel);
  }

  lemma TailIsCut(lib: Lib, authority: Id, c0: Ca, c: Ca, p: Plan)
    requires LibOk(lib) && CleanState.Clean(lib, authority, c0) && Fits(authority, c0, p) && c.fuel == 8
    requires At(c0, c, p.intent.issuanceId, FiveFiles(lib, p), ReservedDir(c0, p))
    ensures var out := Tail(lib, c, p.intent.issuanceId, CommitOf(lib, p)); out.Err? && Wedged(out.ca)
  {
    var id, blob := p.intent.issuanceId, Whole(MappingDoc(MappingOf(lib, p)));
    PublishAbsent(c0.mappings, p.intent.keyHash, blob, Empty, TornBlob(c.tear, blob), c.fuel);
    var c2 := PublishMapping(c, MappingOf(lib, p)).ca;
    assert c2 == c.(mappings := c2.mappings, fuel := 5);
    AuditRuns(lib, authority, c0, c2, p);
    MarkIsStaged(EnsureIssuanceAudit(lib, c2, CommitOf(lib, p)).ca, id);
  }

  lemma RecoveryIsCut(lib: Lib, authority: Id, c0: Ca, c: Ca, p: Plan)
    requires LibOk(lib) && CleanState.Clean(lib, authority, c0) && Fits(authority, c0, p) && c.fuel == 8
    requires At(c0, c, p.intent.issuanceId, FiveFiles(lib, p), ReservedDir(c0, p))
    ensures var out := RecoverCommit(lib, authority, c, p.intent.issuanceId); out.Err? && Wedged(out.ca)
  {
    Recovery.RecoveryIsCompleteThenTail(lib, authority, c, p);
    ScanMeaning.HeldNeedsNothing(c, p.intent.issuanceId, CompleteFile, CompleteDoc(CompleteOf(lib, p)));
    TailIsCut(lib, authority, c0, c, p);
  }

  /** Every enrollment passes through a state that, stopped there, neither a scan nor a
      quarantine ever repairs: the audit marker staged in full but not yet renamed. */
  lemma MarkerStopIsBeyondRepair(lib: Lib, authority: Id, c0: Ca, request: Request, a: Attempt)
    requires LibOk(lib) && CleanState.Clean(lib, authority, c0) && Smooth(lib, c0, request, a)
    requires c0.fuel == MARKER_STAGED
    ensures var out := Issue(lib, authority, c0, request, a);
            out.Err? && Wedged(out.ca) && !Repairable(lib, authority, out.ca)
  {
    var p := PlanOf(lib, authority, c0, request, a);
    SmoothFits(lib, authority, c0, request, a);
    PrepareRuns(c0, a, p);
    AfterPrepareIsCut(lib, authority, c0, Prepare(c0, a, p.intent).ca, request, a, p);
    StoppedEnrollmentIsRepairableExactlyWhen(lib, authority, c0, request, a);
  }

  lemma AfterPrepareIsCut(lib: Lib, authority: Id, c0: Ca, c: Ca, request: Request, a: Attempt, p: Plan)
    requires LibOk(lib) && CleanState.Clean(lib, authority, c0) && Fits(authority, c0, p) && c.fuel == 21
    requires At(c0, c, p.intent.issuanceId, OneFile(p), ReservedDir(c0, p))
    requires a.signer == Signs(p.der, true) && request.sourceIp == p.sourceIp
    ensures var out := AfterPrepare(lib, authority, c, request, a, p.intent); out.Err? && Wedged(out.ca)
  {
    SignStops(lib, c0, c, a, p);
    var c2 := Sign(c, a, p.intent).ca;
    assert c2.fuel == 20;
    ConcludeRuns(lib, c0, c2, p);
    RecoveryIsCut(lib, authority, c0, Conclude(lib, c2, p.intent, Certificate(p), p.sourceIp).ca, p);
  }
}
