/** Where certificates come from: over all runs, every certificate on file and every certificate
    sent was an answer of the key that verified, to an attempt of the same request. */
module Certified {
  import opened Publication
  import opened Records
  import opened AuthorityState
  import opened Issuance
  import opened Advance
  import opened QuarantineCommand
  import opened IssuanceRuns
  import opened IssuanceMeaning
  import Adoption
  import Scan

  // ---------- commands that make no certificate ----------

  /** Certificates and the intents beside them are as they were, or gone with their directory. */
  ghost predicate Carries(c: Ca, c': Ca) {
    forall x: Id :: Has(c', x, CertificateFile) ==>
      && Has(c, x, CertificateFile) && FileOf(c', x, CertificateFile) == FileOf(c, x, CertificateFile)
      && (Has(c, x, IntentFile) ==> Has(c', x, IntentFile) && FileOf(c', x, IntentFile) == FileOf(c, x, IntentFile))
  }

  lemma CarriesOn(a: Ca, b: Ca, c: Ca)
    requires Carries(a, b) && Carries(b, c)
    ensures Carries(a, c)
  {
  }

  lemma AdvanceCarries(c: Ca, c': Ca)
    requires Advances(c, c') && NoneGained(c, c')
    ensures Carries(c, c')
  {
  }

  lemma RemainingCarries(c: Ca, c': Ca)
    requires forall x <- c'.issuances.Keys :: x in c.issuances && c'.issuances[x] == c.issuances[x]
    ensures Carries(c, c')
  {
  }

  lemma AdoptionCarries(authority: Id, c: Ca, id: Id)
    ensures Carries(c, Scan.AdoptIntent(authority, c, id).ca)
  {
    if id in c.issuances {
      AdoptionKeeps(c.issuances[id], IntentFile, c.fuel);
    }
  }

  lemma {:induction false} AdoptionsCarry(authority: Id, c: Ca, order: seq<Id>)
    ensures Carries(c, Scan.AdoptIntents(authority, c, order).ca)
    decreases |order|
  {
    if order != [] {
      AdoptionCarries(authority, c, order[0]);
      var one := Scan.AdoptIntent(authority, c, order[0]);
      if one.Ok? {
        AdoptionsCarry(authority, one.ca, order[1..]);
        CarriesOn(c, one.ca, Scan.AdoptIntents(authority, one.ca, order[1..]).ca);
      }
    }
  }

  lemma {:induction false} RecoveriesCarry(lib: Lib, authority: Id, c: Ca, order: seq<Id>)
    ensures Carries(c, Scan.RecoverAll(lib, authority, c, order).ca)
    decreases |order|
  {
    if order != [] {
      RecoveryGainsNone(lib, authority, c, order[0]);
      RecoverCommitAdvances(lib, authority, c, order[0]);
      AdvanceCarries(c, RecoverCommit(lib, authority, c, order[0]).ca);
      RemainingCarries(c, c);
      var one := Scan.RecoverOne(lib, authority, c, order[0]);
      if one.Ok? {
        RecoveriesCarry(lib, authority, one.ca, order[1..]);
        CarriesOn(c, one.ca, Scan.RecoverAll(lib, authority, one.ca, order[1..]).ca);
      }
    }
  }

  lemma StagingCarries(lib: Lib, authority: Id, c: Ca)
    ensures Carries(c, Scan.RecoverStaging(lib, authority, c).ca)
  {
    var order := lib.list(c.issuances.Keys);
    AdoptionsCarry(authority, c, order);
    var o1 := Scan.AdoptIntents(authority, c, order);
    if o1.Ok? {
      var staged := lib.list(Pendings(o1.ca.reservations));
      Adoption.ReservationsAside(authority, o1.ca, staged);
      var o2 := Scan.AdoptReservations(authority, o1.ca, staged);
      RemainingCarries(o1.ca, o2.ca);
      CarriesOn(c, o1.ca, o2.ca);
    }
  }

  lemma ScanCarries(lib: Lib, authority: Id, c: Ca)
    ensures Carries(c, Scan.FullScan(lib, authority, c).ca)
  {
    RemainingCarries(c, c);
    StagingCarries(lib, authority, c);
    var o1 := Scan.RecoverStaging(lib, authority, c);
    if o1.Ok? {
      RecoveriesCarry(lib, authority, o1.ca, lib.list(o1.ca.issuances.Keys));
      CarriesOn(c, o1.ca, Scan.RecoverAll(lib, authority, o1.ca, lib.list(o1.ca.issuances.Keys)).ca);
    }
  }

  lemma CopiesAreAside(c: Ca, q: Id, e: Evidence)
    requires q in c.quarantines && c.quarantines[q].original.Some?
    ensures var o1 := CopyReservation(c, q, e.reservation);
            o1.ca.issuances == c.issuances && CopyPending(o1.ca, q, e.pending).ca.issuances == c.issuances
  {
  }

  lemma FilingIsAside(lib: Lib, authority: Id, c: Ca, id: Id, e: Evidence, t: Ticket)
    requires t.destination in c.quarantines && c.quarantines[t.destination].original.Some?
    ensures FileEvidence(lib, authority, c, id, e, t).ca.issuances == c.issuances
  {
    var q := t.destination;
    CopiesAreAside(c, q, e);
    var o2 := CopyPending(CopyReservation(c, q, e.reservation).ca, q, e.pending);
    var o3 := PublishNote(o2.ca, q, QuarantinedNote, QuarantinedDoc(id, t.utc));
    assert o3.ca.issuances == o2.ca.issuances;
  }

  lemma MovingCarries(authority: Id, c: Ca, id: Id, e: Evidence, t: Ticket)
    ensures Carries(c, OpenAndMove(authority, c, id, e, t).ca)
  {
    var q, o1 := t.destination, OpenQuarantine(c, t.destination);
    if o1.Ok? {
      var o2 := PublishNote(o1.ca, q, PreparedNote, PreparedDoc(Prepared(id, authority, EvidenceSerial(c, e), t.utc)));
      assert o2.ca.issuances == c.issuances;
      OnlyItMoves(o2.ca, q, id);
    }
    RemainingCarries(c, OpenAndMove(authority, c, id, e, t).ca);
  }

  lemma OnlyItMoves(c: Ca, q: Id, id: Id)
    requires q in c.quarantines
    ensures var c' := MoveOriginal(c, q, id).ca;
            c'.issuances == c.issuances || c'.issuances == c.issuances - {id}
  {
  }

  lemma EvidenceCarries(lib: Lib, authority: Id, c: Ca, id: Id, e: Evidence, t: Ticket)
    ensures Carries(c, MoveEvidence(lib, authority, c, id, e, t).ca)
  {
    MovingCarries(authority, c, id, e, t);
    var moved := OpenAndMove(authority, c, id, e, t);
    if moved.Ok? {
      FilingIsAside(lib, authority, moved.ca, id, e, t);
      RemainingCarries(moved.ca, FileEvidence(lib, authority, moved.ca, id, e, t).ca);
    }
  }

  lemma QuarantineCarries(lib: Lib, authority: Id, c: Ca, id: Id, t: Ticket)
    ensures Carries(c, QuarantineIssuance(lib, authority, c, id, t).ca)
  {
    ScanCarries(lib, authority, c);
    var scanned := Scan.FullScan(lib, authority, c).ca;
    var found := Inspect(lib, authority, scanned, id);
    if found.Some? {
      EvidenceCarries(lib, authority, scanned, id, found.value, t);
    }
  }

  // ---------- enrollment keeps what is on file ----------

  ghost predicate FilesKept(c: Ca, c': Ca) {
    forall x: Id, f: File :: Has(c, x, f) ==> Has(c', x, f) && FileOf(c', x, f) == FileOf(c, x, f)
  }

  lemma AdvanceKeepsFiles(c: Ca, c': Ca)
    requires Advances(c, c')
    ensures FilesKept(c, c')
  {
  }

  lemma AfterPrepareKeepsFiles(lib: Lib, authority: Id, c: Ca, request: Request, a: Attempt, i: Intent)
    requires i.issuanceId in c.issuances
    ensures FilesKept(c, AfterPrepare(lib, authority, c, request, a, i).ca)
  {
    var o2 := Sign(c, a, i);
    if o2.Ok? {
      ConcludeAdvances(lib, o2.ca, i, o2.value, request.sourceIp);
      var o3 := Conclude(lib, o2.ca, i, o2.value, request.sourceIp);
      RecoverCommitAdvances(lib, authority, o3.ca, i.issuanceId);
      AdvanceKeepsFiles(o2.ca, o3.ca);
      AdvanceKeepsFiles(o3.ca, RecoverCommit(lib, authority, o3.ca, i.issuanceId).ca);
    }
  }

  lemma FreshKeepsFiles(lib: Lib, authority: Id, c: Ca, request: Request, a: Attempt, i: Intent)
    requires i.issuanceId !in c.issuances
    ensures FilesKept(c, IssueFresh(lib, authority, c, request, a, i).ca)
  {
    PrepareAdvances(c, a, i);
    var o1 := Prepare(c, a, i);
    AdvanceKeepsFiles(c, o1.ca);
    if o1.Ok? {
      AfterPrepareKeepsFiles(lib, authority, o1.ca, request, a, i);
    }
  }

  lemma IssueKeepsFiles(lib: Lib, authority: Id, c: Ca, request: Request, a: Attempt)
    ensures FilesKept(c, Issue(lib, authority, c, request, a).ca)
  {
    if Final(request.keyHash) !in c.mappings {
      var order := lib.list(c.issuances.Keys);
      FindByKeyMeaning(c, order, request.keyHash, request.requestHash);
      var found := FindByKey(c, order, request.keyHash, request.requestHash);
      if found.Ok? && found.value.Some? {
        RecoverCommitAdvances(lib, authority, c, found.value.value);
        AdvanceKeepsFiles(c, RecoverCommit(lib, authority, c, found.value.value).ca);
      } else if found.Ok? && UniqueId(c, a.ids).Some? && UniqueSerial(lib, c, a.serials).Found? {
        UniqueIdIsFree(c, a.ids);
        FreshKeepsFiles(lib, authority, c, request, a,
                        IntentFor(authority, request, a, UniqueId(c, a.ids).value,
                            UniqueSerial(lib, c, a.serials).value));
      }
    }
  }

  // ---------- runs ----------

  /** The certificate of issuance `x` is the key's answer to this step, which verified; and the
      issuance's intent is for the step's request and attempt. */
  ghost predicate MadeBy(authority: Id, c: Ca, x: Id, step: Step) {
    && step.event.Enroll? && Verified(step.event.attempt)
    && Has(c, x, CertificateFile) && FileOf(c, x, CertificateFile) == Whole(Answer(step.event.attempt))
    && exists i: Intent ::
         && IntentOf(authority, step.event.request, step.event.attempt, i) && i.issuanceId == x
         && Holds(c, x, IntentFile, IntentDoc(i))
  }

  ghost predicate Certified(authority: Id, c: Ca, steps: seq<Step>) {
    forall x: Id :: Has(c, x, CertificateFile) ==> exists step <- steps :: MadeBy(authority, c, x, step)
  }

  lemma MadeByOn(authority: Id, c: Ca, c': Ca, x: Id, step: Step)
    requires MadeBy(authority, c, x, step) && Has(c', x, CertificateFile) && Has(c', x, IntentFile)
    requires FileOf(c', x, CertificateFile) == FileOf(c, x, CertificateFile)
    requires FileOf(c', x, IntentFile) == FileOf(c, x, IntentFile)
    ensures MadeBy(authority, c', x, step)
  {
    var i: Intent :| IntentOf(authority, step.event.request, step.event.attempt, i) && i.issuanceId == x
                     && Holds(c, x, IntentFile, IntentDoc(i));
    assert Holds(c', x, IntentFile, IntentDoc(i));
  }

  lemma CarriedIsCertified(authority: Id, c: Ca, c': Ca, steps: seq<Step>, step: Step)
    requires Certified(authority, c, steps) && Carries(c, c')
    ensures Certified(authority, c', steps + [step])
  {
    forall x: Id | Has(c', x, CertificateFile) ensures exists s <- steps + [step] :: MadeBy(authority, c', x, s) {
      var s: Step :| s in steps && MadeBy(authority, c, x, s);
      MadeByOn(authority, c, c', x, s);
      assert s in steps + [step];
    }
  }

  lemma EnrollmentIsCertified(authority: Id, c: Ca, c': Ca, steps: seq<Step>, step: Step)
    requires Certified(authority, c, steps) && step.event.Enroll? && FilesKept(c, c')
    requires GainsVerified(c, c', authority, step.event.request, step.event.attempt)
    ensures Certified(authority, c', steps + [step])
  {
    forall x: Id | Has(c', x, CertificateFile) ensures exists s <- steps + [step] :: MadeBy(authority, c', x, s) {
      if Has(c, x, CertificateFile) {
        var s: Step :| s in steps && MadeBy(authority, c, x, s);
        MadeByOn(authority, c, c', x, s);
        assert s in steps + [step];
      } else {
        assert MadeBy(authority, c', x, step) && step in steps + [step];
      }
    }
  }

  lemma ApplyCertifies(lib: Lib, authority: Id, c: Ca, steps: seq<Step>, step: Step)
    requires Certified(authority, c, steps)
    ensures Certified(authority, Apply(lib, authority, c, step), steps + [step])
  {
    var ready, c' := c.(fuel := step.fuel, tear := step.tear), Apply(lib, authority, c, step);
    RemainingCarries(c, ready);
    match step.event
    case Enroll(request, attempt) =>
      IssueKeepsFiles(lib, authority, ready, request, attempt);
      IssueGainsVerified(lib, authority, ready, request, attempt);
      SameIssuancesSameGains(ready, c', c, c', authority, request, attempt);
      AdvanceFromSame(c, ready, c');
      EnrollmentIsCertified(authority, c, c', steps, step);
    case Rescan =>
      ScanCarries(lib, authority, ready);
      CarriesOn(c, ready, c');
      CarriedIsCertified(authority, c, c', steps, step);
    case Isolate(id, ticket) =>
      QuarantineCarries(lib, authority, ready, id, ticket);
      CarriesOn(c, ready, c');
      CarriedIsCertified(authority, c, c', steps, step);
  }

  lemma AdvanceFromSame(c: Ca, ready: Ca, c': Ca)
    requires ready.issuances == c.issuances && FilesKept(ready, c')
    ensures FilesKept(c, c')
  {
    assert forall x: Id, f: File :: Has(c, x, f) == Has(ready, x, f);
  }

  lemma {:induction false} RunCertifies(lib: Lib, authority: Id, c: Ca, before: seq<Step>, steps: seq<Step>)
    requires Certified(authority, c, before)
    ensures Certified(authority, Run(lib, authority, c, steps), before + steps)
    decreases |steps|
  {
    if steps == [] {
      assert before + steps == before;
    } else {
      ApplyCertifies(lib, authority, c, before, steps[0]);
      RunCertifies(lib, authority, Apply(lib, authority, c, steps[0]), before + [steps[0]], steps[1..]);
      assert before + [steps[0]] + steps[1..] == before + steps;
    }
  }

  /** An answer that this step's key gave, for the same key and request. */
  predicate SentFrom(step: Step, r: Reply) {
    && step.event.Enroll? && Verified(step.event.attempt)
    && r.certificate == Whole(Answer(step.event.attempt))
    && r.keyHash == step.event.request.keyHash && r.requestHash == step.event.request.requestHash
  }

  lemma AnsweredIsSent(authority: Id, c: Ca, steps: seq<Step>, r: Reply)
    requires Certified(authority, c, steps) && Sound(c) && Answered(c, r)
    ensures exists step <- steps :: SentFrom(step, r)
  {
    assert LeadsTo(c, r.keyHash, ParseMapping(c.mappings[Final(r.keyHash)]).value);
    var step: Step :| step in steps && MadeBy(authority, c, r.issuanceId, step);
    assert SentFrom(step, r);
  }

  /** In every run, stopped wherever: each certificate on file and each certificate sent to a
      client is what the key answered to some attempt of the run, that answer verified, and the
      attempt was for the same idempotency key and request. */
  lemma CertificatesAreVerified(lib: Lib, authority: Id, audits: Dir<nat>, steps: seq<Step>)
    requires LibOk(lib)
    ensures var c := Run(lib, authority, Fresh(audits), steps);
            && Certified(authority, c, steps)
            && forall r <- c.replies :: exists step <- steps :: SentFrom(step, r)
  {
    var c := Run(lib, authority, Fresh(audits), steps);
    RunCertifies(lib, authority, Fresh(audits), [], steps);
    assert [] + steps == steps;
    RunKeepsInv(lib, authority, Fresh(audits), steps);
    forall r <- c.replies ensures exists step <- steps :: SentFrom(step, r) {
      assert Answered(c, r);
      AnsweredIsSent(authority, c, steps, r);
    }
  }
}
