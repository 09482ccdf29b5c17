/** What a client can rely on once it has been answered: later runs, crashes, scans and
    quarantines included. */
module Answers {
  import opened Publication
  import opened Records
  import opened AuthorityState
  import opened Issuance
  import opened Advance
  import opened QuarantineCommand
  import opened IssuanceRuns
  import Scan

  // ---------- history only grows ----------

  ghost predicate Remembers(c: Ca, c': Ca) {
    c.signed <= c'.signed && c.replies <= c'.replies && Kept(c.reservations, c'.reservations)
  }

  lemma AdvanceRemembers(c: Ca, c': Ca)
    requires Advances(c, c')
    ensures Remembers(c, c') && c'.signed == c.signed && c'.replies == c.replies
  {
  }

  lemma RecoveryRemembers(lib: Lib, authority: Id, c: Ca, id: Id)
    ensures var c' := RecoverCommit(lib, authority, c, id).ca;
            Remembers(c, c') && c'.signed == c.signed && c'.replies == c.replies
  {
    RecoverCommitAdvances(lib, authority, c, id);
  }

  lemma ConcludeThenRecover(lib: Lib, authority: Id, c: Ca, intent: Intent, certificate: Blob, sourceIp: nat)
    requires intent.issuanceId in c.issuances && certificate.Whole?
    ensures var first := Conclude(lib, c, intent, certificate, sourceIp);
            var c' := if first.Err? then first.ca else RecoverCommit(lib, authority, first.ca, intent.issuanceId).ca;
            Remembers(c, c') && c'.signed == c.signed && c'.replies == c.replies
  {
    ConcludeAdvances(lib, c, intent, certificate, sourceIp);
    var first := Conclude(lib, c, intent, certificate, sourceIp);
    RecoveryRemembers(lib, authority, first.ca, intent.issuanceId);
  }

  /** The history after an attempt: at most one signature more, and the answer if there is one. */
  ghost predicate AnswersWith(c: Ca, out: Out<Reply>, request: Request) {
    && Remembers(c, out.ca)
    && |out.ca.signed| <= |c.signed| + 1
    && out.ca.replies == (if out.Ok? then c.replies + [out.value] else c.replies)
    && (out.Ok? ==> out.value.keyHash == request.keyHash && out.value.requestHash == request.requestHash)
  }

  lemma AfterPrepareAnswers(lib: Lib, authority: Id, c: Ca, request: Request, a: Attempt, intent: Intent)
    requires intent.issuanceId in c.issuances
    ensures AnswersWith(c, AfterPrepare(lib, authority, c, request, a, intent), request)
  {
    var o2 := Sign(c, a, intent);
    if o2.Ok? {
      ConcludeThenRecover(lib, authority, o2.ca, intent, o2.value, request.sourceIp);
    }
  }

  lemma FreshAnswers(lib: Lib, authority: Id, c: Ca, request: Request, a: Attempt, intent: Intent)
    requires intent.issuanceId !in c.issuances
    ensures AnswersWith(c, IssueFresh(lib, authority, c, request, a, intent), request)
  {
    PrepareAdvances(c, a, intent);
    var o1 := Prepare(c, a, intent);
    if o1.Ok? {
      AfterPrepareAnswers(lib, authority, o1.ca, request, a, intent);
    }
  }

  lemma IssueAnswers(lib: Lib, authority: Id, c: Ca, request: Request, a: Attempt)
    ensures AnswersWith(c, Issue(lib, authority, c, request, a), request)
  {
    if Final(request.keyHash) !in c.mappings {
      var order := lib.list(c.issuances.Keys);
      FindByKeyMeaning(c, order, request.keyHash, request.requestHash);
      var found := FindByKey(c, order, request.keyHash, request.requestHash);
      if found.Ok? && found.value.Some? {
        RecoveryRemembers(lib, authority, c, found.value.value);
      } else if found.Ok? && UniqueId(c, a.ids).Some? && UniqueSerial(lib, c, a.serials).Found? {
        UniqueIdIsFree(c, a.ids);
        FreshAnswers(lib, authority, c, request, a,
                     IntentFor(authority, request, a, UniqueId(c, a.ids).value, UniqueSerial(lib, c, a.serials).value));
      }
    }
  }

  lemma MoveRemembers(authority: Id, c: Ca, id: Id, e: Evidence, t: Ticket)
    ensures Remembers(c, OpenAndMove(authority, c, id, e, t).ca)
  {
    var o1 := OpenQuarantine(c, t.destination);
    assert Remembers(c, o1.ca);
    if o1.Ok? {
      NoteThenMoveRemembers(o1.ca, t.destination, PreparedDoc(Prepared(id, authority, EvidenceSerial(c, e), t.utc)),
            id);
    }
  }

  lemma NoteThenMoveRemembers(c: Ca, q: Id, note: Doc, id: Id)
    requires q in c.quarantines
    ensures var o2 := PublishNote(c, q, PreparedNote, note);
            Remembers(c, o2.ca) && (q in o2.ca.quarantines ==> Remembers(c, MoveOriginal(o2.ca, q, id).ca))
  {
    var o2 := PublishNote(c, q, PreparedNote, note);
    assert o2.ca == c.(quarantines := o2.ca.quarantines, fuel := o2.ca.fuel);
  }

  lemma FilingRemembers(lib: Lib, authority: Id, c: Ca, id: Id, e: Evidence, t: Ticket)
    requires t.destination in c.quarantines && c.quarantines[t.destination].original.Some?
    ensures Remembers(c, FileEvidence(lib, authority, c, id, e, t).ca)
  {
    var q := t.destination;
    CopiesAdvance(c, q, e);
    var o2 := CopyPending(CopyReservation(c, q, e.reservation).ca, q, e.pending);
    CloseAdvances(lib, o2.ca, q, QuarantinedDoc(id, t.utc), QuarantineRecord(authority, id, t.utc));
  }

  lemma EvidenceRemembers(lib: Lib, authority: Id, c: Ca, id: Id, e: Evidence, t: Ticket)
    ensures Remembers(c, MoveEvidence(lib, authority, c, id, e, t).ca)
  {
    MoveRemembers(authority, c, id, e, t);
    var moved := OpenAndMove(authority, c, id, e, t);
    if moved.Ok? {
      FilingRemembers(lib, authority, moved.ca, id, e, t);
    }
  }

  lemma QuarantineRemembers(lib: Lib, authority: Id, c: Ca, id: Id, t: Ticket)
    ensures Remembers(c, QuarantineIssuance(lib, authority, c, id, t).ca)
  {
    FullScanAdvances(lib, authority, c);
    var scanned := Scan.FullScan(lib, authority, c).ca;
    var found := Inspect(lib, authority, scanned, id);
    if found.Some? {
      EvidenceRemembers(lib, authority, scanned, id, found.value, t);
    }
  }

  lemma ApplyRemembers(lib: Lib, authority: Id, c: Ca, step: Step)
    ensures Remembers(c, Apply(lib, authority, c, step))
  {
    var ready := c.(fuel := step.fuel, tear := step.tear);
    match step.event
    case Enroll(request, attempt) => IssueAnswers(lib, authority, ready, request, attempt);
    case Rescan => FullScanAdvances(lib, authority, ready);
    case Isolate(id, ticket) => QuarantineRemembers(lib, authority, ready, id, ticket);
  }

  /** Signatures, answers and reservations of a run are never taken back. */
  lemma {:induction false} RunRemembers(lib: Lib, authority: Id, c: Ca, steps: seq<Step>)
    ensures Remembers(c, Run(lib, authority, c, steps))
    decreases |steps|
  {
    if steps != [] {
      ApplyRemembers(lib, authority, c, steps[0]);
      RunRemembers(lib, authority, Apply(lib, authority, c, steps[0]), steps[1..]);
    }
  }

  // ---------- an answer is for good ----------

  function Ready(c: Ca, fuel: nat, tear: Tear): Ca {
    c.(fuel := fuel, tear := tear)
  }

  lemma ReadyKeepsInv(c: Ca, fuel: nat, tear: Tear)
    requires Inv(c)
    ensures Inv(Ready(c, fuel, tear))
  {
    SameFilesSameSound(c, Ready(c, fuel, tear));
    assert forall e :: HasIntent(c, e) == HasIntent(Ready(c, fuel, tear), e);
    assert forall r :: Answered(c, r) == Answered(Ready(c, fuel, tear), r);
  }

  /** Once a request under a key has been answered with success, then after any further run,
      every success under that key is for the same request, with status 200, the same
      issuance and the same bytes. */
  lemma AnswersArePermanent(lib: Lib, authority: Id, audits: Dir<nat>, before: seq<Step>, request: Request, a: Attempt,
          fuel: nat, tear: Tear,
                            after: seq<Step>, later: Request, b: Attempt, fuel2: nat, tear2: Tear)
    requires LibOk(lib) && later.keyHash == request.keyHash
    requires Issue(lib, authority, Ready(Run(lib, authority, Fresh(audits), before), fuel, tear), request, a).Ok?
    ensures var first := Issue(lib, authority, Ready(Run(lib, authority, Fresh(audits), before), fuel, tear), request,
          a);
            var second := Issue(lib, authority, Ready(Run(lib, authority, first.ca, after), fuel2, tear2), later, b);
            second.Ok? ==>
              && later.requestHash == request.requestHash
              && second.value
                  == Reply(200, request.keyHash, request.requestHash, first.value.issuanceId, first.value.certificate)
  {
    var c1 := Ready(Run(lib, authority, Fresh(audits), before), fuel, tear);
    var first := Issue(lib, authority, c1, request, a);
    FirstAnswer(lib, authority, audits, before, request, a, fuel, tear);
    RunKeepsInv(lib, authority, first.ca, after);
    RunRemembers(lib, authority, first.ca, after);
    var c2 := Ready(Run(lib, authority, first.ca, after), fuel2, tear2);
    ReadyKeepsInv(Run(lib, authority, first.ca, after), fuel2, tear2);
    IssueKeepsInv(lib, authority, c2, later, b);
    IssueAnswers(lib, authority, c2, later, b);
    var second := Issue(lib, authority, c2, later, b);
    if second.Ok? {
      var i, j := |c1.replies|, |c2.replies|;
      assert second.ca.replies[i] == c2.replies[i] == first.ca.replies[i] == first.value;
      assert second.ca.replies[j] == second.value;
    }
  }

  lemma FirstAnswer(lib: Lib, authority: Id, audits: Dir<nat>, before: seq<Step>, request: Request, a: Attempt,
          fuel: nat, tear: Tear)
    requires LibOk(lib)
    ensures var c1 := Ready(Run(lib, authority, Fresh(audits), before), fuel, tear);
            var first := Issue(lib, authority, c1, request, a);
            Inv(first.ca) && AnswersWith(c1, first, request)
  {
    RunKeepsInv(lib, authority, Fresh(audits), before);
    ReadyKeepsInv(Run(lib, authority, Fresh(audits), before), fuel, tear);
    var c1 := Ready(Run(lib, authority, Fresh(audits), before), fuel, tear);
    IssueKeepsInv(lib, authority, c1, request, a);
    IssueAnswers(lib, authority, c1, request, a);
  }

  /** An answered issuance stays on disk with its certificate, and quarantine refuses it. */
  lemma AnsweredIsNeverQuarantined(lib: Lib, authority: Id, audits: Dir<nat>, steps: seq<Step>, r: Reply, t: Ticket,
          fuel: nat, tear: Tear)
    requires LibOk(lib) && r in Run(lib, authority, Fresh(audits), steps).replies
    ensures var c := Ready(Run(lib, authority, Fresh(audits), steps), fuel, tear);
            && Has(c, r.issuanceId, CertificateFile) && FileOf(c, r.issuanceId, CertificateFile) == r.certificate
            && QuarantineIssuance(lib, authority, c, r.issuanceId, t).Err?
            && Has(QuarantineIssuance(lib, authority, c, r.issuanceId, t).ca, r.issuanceId, CertificateFile)
  {
    RunKeepsInv(lib, authority, Fresh(audits), steps);
    var c := Ready(Run(lib, authority, Fresh(audits), steps), fuel, tear);
    assert Answered(Run(lib, authority, Fresh(audits), steps), r);
    FullScanAdvances(lib, authority, c);
    var scanned := Scan.FullScan(lib, authority, c).ca;
    assert Has(scanned, r.issuanceId, CompleteFile);
  }
}
