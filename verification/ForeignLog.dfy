/** A log whose next record is staged with something else than a certificate record. The scan
    looks at no staging in the log and accepts such a state, but from then on nothing is issued. */
module ForeignLog {
  import opened Publication
  import opened Records
  import opened AuthorityState
  import opened Issuance
  import opened IssuanceRuns
  import opened Finish
  import CrashRecovery
  import Jammed
  import QuarantineCommand
  import Scan
  import ScanMeaning
  import Standing

  /** Every issuance on record is complete. */
  ghost predicate RecordedAreComplete(c: Ca) {
    forall n: nat, id: Id :: Scan.IssuedAt(c.audits, n, id) ==> Has(c, id, IntentFile) && Has(c, id, CompleteFile)
  }

  ghost predicate Foreign(c: Ca) {
    Standing.LogBlocked(c.audits) && RecordedAreComplete(c)
  }

  lemma AbsentIsUnrecorded(c: Ca, id: Id)
    requires RecordedAreComplete(c) && id !in c.issuances
    ensures Jammed.Unrecorded(c.audits, id)
  {
    forall n: nat ensures !Scan.IssuedAt(c.audits, n, id) {
    }
  }

  // ---------- it stays ----------

  lemma ForeignStep(lib: Lib, authority: Id, c: Ca, step: Step)
    requires Foreign(c) && !Standing.StepRepeats(c.audits, step)
    ensures Foreign(Apply(lib, authority, c, step)) && Apply(lib, authority, c, step).audits == c.audits
  {
    Standing.LogStep(lib, authority, c, step);
    var c' := Apply(lib, authority, c, step);
    forall n: nat,
          id: Id | Scan.IssuedAt(c'.audits, n, id) ensures Has(c', id, IntentFile) && Has(c', id, CompleteFile) {
      assert Scan.IssuedAt(c.audits, n, id);
      Jammed.StepPersists(lib, authority, c, id, step);
    }
  }

  lemma {:induction false} ForeignStays(lib: Lib, authority: Id, c: Ca, steps: seq<Step>)
    requires Foreign(c) && Standing.Avoids(steps, c.audits)
    ensures Foreign(Run(lib, authority, c, steps)) && Run(lib, authority, c, steps).audits == c.audits
    decreases |steps|
  {
    if steps != [] {
      ForeignStep(lib, authority, c, steps[0]);
      ForeignStays(lib, authority, Apply(lib, authority, c, steps[0]), steps[1..]);
    }
  }

  lemma ForeignElsewhere(c: Ca, fuel: nat, tear: Tear)
    requires Foreign(c)
    ensures Foreign(c.(fuel := fuel, tear := tear))
  {
    var now := c.(fuel := fuel, tear := tear);
    forall n: nat,
          id: Id | Scan.IssuedAt(now.audits, n, id) ensures Has(now, id, IntentFile) && Has(now, id, CompleteFile) {
      assert Scan.IssuedAt(c.audits, n, id);
    }
  }

  // ---------- nothing new is answered ----------

  lemma RecoveryIsRefused(lib: Lib, authority: Id, c: Ca, intent: Intent)
    requires Holds(c, intent.issuanceId, IntentFile, IntentDoc(intent))
    requires Standing.LogBlocked(c.audits) && Jammed.Unrecorded(c.audits, intent.issuanceId)
    ensures RecoverCommit(lib, authority, c, intent.issuanceId).Err?
  {
    var id := intent.issuanceId;
    if Load(lib, authority, c.issuances[id]).Some? {
      var t := Load(lib, authority, c.issuances[id]).value;
      assert t.commit.issuanceId == id;
      var o1 := PublishFileExact(c, id, CompleteFile, CompleteDoc(t.complete));
      if o1.Ok? {
        var o2 := PublishMapping(o1.ca, t.commit.mapping);
        if o2.Ok? {
          Jammed.LogRefuses(lib, o2.ca, t.commit);
        }
      }
    }
  }

  lemma RestIsRefused(lib: Lib, authority: Id, c: Ca, request: Request, a: Attempt, intent: Intent)
    requires Holds(c, intent.issuanceId, IntentFile, IntentDoc(intent))
    requires Standing.LogBlocked(c.audits) && Jammed.Unrecorded(c.audits, intent.issuanceId)
    ensures AfterPrepare(lib, authority, c, request, a, intent).Err?
  {
    CrashRecovery.SignLeavesFiles(c, a, intent);
    var o2 := Sign(c, a, intent);
    if o2.Ok? {
      Standing.ConclusionStands(lib, o2.ca, intent, o2.value, request.sourceIp);
      ConcludeAdvances(lib, o2.ca, intent, o2.value, request.sourceIp);
      var o3 := Conclude(lib, o2.ca, intent, o2.value, request.sourceIp);
      if o3.Ok? {
        HoldsOn(o2.ca, o3.ca, intent.issuanceId, IntentFile, IntentDoc(intent));
        RecoveryIsRefused(lib, authority, o3.ca, intent);
      }
    }
  }

  lemma FreshIsRefused(lib: Lib, authority: Id, c: Ca, request: Request, a: Attempt, intent: Intent)
    requires Foreign(c) && intent.issuanceId !in c.issuances
    ensures IssueFresh(lib, authority, c, request, a, intent).Err?
  {
    AbsentIsUnrecorded(c, intent.issuanceId);
    Standing.PreparationStands(c, a, intent);
    PrepareAdvances(c, a, intent);
    var o1 := Prepare(c, a, intent);
    if o1.Ok? {
      RestIsRefused(lib, authority, o1.ca, request, a, intent);
    }
  }

  lemma RepliesAreRepeats(lib: Lib, c: Ca, request: Request)
    requires Final(request.keyHash) in c.mappings
    ensures Replay(lib, c, request).Ok? ==> Replay(lib, c, request).value.status == 200
  {
  }

  lemma AnswersAreRepeats(lib: Lib, authority: Id, c: Ca, request: Request, a: Attempt)
    requires Foreign(c)
    ensures var out := Issue(lib, authority, c, request, a); out.Ok? ==> out.value.status == 200
  {
    if Final(request.keyHash) in c.mappings {
      RepliesAreRepeats(lib, c, request);
    } else {
      var found := FindByKey(c, lib.list(c.issuances.Keys), request.keyHash, request.requestHash);
      FindByKeyMeaning(c, lib.list(c.issuances.Keys), request.keyHash, request.requestHash);
      if found.Ok? && found.value.Some? {
        var c1 := RecoverCommit(lib, authority, c, found.value.value).ca;
        if Final(request.keyHash) in c1.mappings {
          RepliesAreRepeats(lib, c1, request);
        }
      } else if found.Ok? && UniqueId(c, a.ids).Some? && UniqueSerial(lib, c, a.serials).Found? {
        UniqueIdIsFree(c, a.ids);
        FreshIsRefused(lib, authority, c, request, a,
                       IntentFor(authority, request, a, UniqueId(c, a.ids).value,
                           UniqueSerial(lib, c, a.serials).value));
      }
    }
  }

  /** From a foreign log on, no enrollment is ever answered 201, whatever is run in between,
      unless a quarantine writes the staged record again. */
  lemma NothingNewIsIssued(lib: Lib, authority: Id, c: Ca, steps: seq<Step>, fuel: nat, tear: Tear, request: Request,
          a: Attempt)
    requires Foreign(c) && Standing.Avoids(steps, c.audits)
    ensures var out := Issue(lib, authority, Run(lib, authority, c, steps).(fuel := fuel, tear := tear), request, a);
            out.Ok? ==> out.value.status == 200
  {
    ForeignStays(lib, authority, c, steps);
    ForeignElsewhere(Run(lib, authority, c, steps), fuel, tear);
    AnswersAreRepeats(lib, authority, Run(lib, authority, c, steps).(fuel := fuel, tear := tear), request, a);
  }

  // ---------- and what reaches COMPLETE is stuck ----------

  /** One publication into the directory of `id`. */
  lemma FileGrows(c: Ca, id: Id, d: Dir<File>, f: File, doc: Doc)
    requires id in c.issuances && c.issuances[id] == d && Final(f) !in d && Pending(f) !in d
    ensures var out := PublishFile(c, id, f, doc);
            && id in out.ca.issuances
            && (out.Ok? ==> out.ca.issuances[id] == d[Final(f) := Whole(doc)])
            && (out.Err? ==> forall g: File :: Final(g) in out.ca.issuances[id] ==> Final(g) in d)
  {
    PublishAbsent(d, f, Whole(doc), Empty, TornBlob(c.tear, Whole(doc)), c.fuel);
  }

  /** The directory of `id` holds no COMPLETE. */
  predicate Unfinished(c: Ca, id: Id) {
    !Has(c, id, CompleteFile)
  }

  lemma PreparedFiles(c: Ca, a: Attempt, p: Plan)
    requires p.intent.issuanceId !in c.issuances
    ensures var id, out := p.intent.issuanceId, Prepare(c, a, p.intent);
            && (out.Err? ==> Unfinished(out.ca, id))
            && (out.Ok? ==> id in out.ca.issuances && out.ca.issuances[id] == OneFile(p))
  {
    var id := p.intent.issuanceId;
    var nothing: Dir<File> := map[];
    if c.fuel > 0 {
      var c2 := c.(fuel := c.fuel - 1).(issuances := c.issuances[id := nothing]);
      FileGrows(c2, id, nothing, IntentFile, IntentDoc(p.intent));
      assert nothing[Final(IntentFile) := Whole(IntentDoc(p.intent))] == OneFile(p);
      var o3 := PublishFile(c2, id, IntentFile, IntentDoc(p.intent));
      ReservingLeavesFiles(o3.ca, ReservationFor(p.intent));
      if a.profileOk && o3.Ok? {
        assert Prepare(c, a, p.intent) == Reserve(o3.ca, ReservationFor(p.intent));
      }
    }
  }

  lemma ReservingLeavesFiles(c: Ca, r: Reservation)
    ensures Reserve(c, r).ca.issuances == c.issuances
  {
  }

  lemma CertifiedFiles(lib: Lib, c: Ca, p: Plan)
    requires p.intent.issuanceId in c.issuances && c.issuances[p.intent.issuanceId] == OneFile(p)
    ensures var id, out := p.intent.issuanceId, CertificateThenRecord(lib, c, p.intent, Certificate(p));
            && (out.Err? ==> Unfinished(out.ca, id))
            && (out.Ok? ==> out.ca.issuances[id] == ThreeFiles(lib, p))
  {
    var id := p.intent.issuanceId;
    FileGrows(c, id, OneFile(p), CertificateFile, CertificateDoc(p.der));
    var o1 := PublishFile(c, id, CertificateFile, CertificateDoc(p.der));
    if o1.Ok? {
      FileGrows(o1.ca, id, TwoFiles(p), RecordFile, RecordDoc(RecordOf(lib, p)));
    }
  }

  lemma CompletedFiles(lib: Lib, c: Ca, p: Plan)
    requires p.intent.issuanceId in c.issuances && c.issuances[p.intent.issuanceId] == ThreeFiles(lib, p)
    ensures var id, out := p.intent.issuanceId, CommitThenComplete(lib, c, p.intent, Certificate(p), p.sourceIp);
            && (out.Err? ==> Unfinished(out.ca, id))
            && (out.Ok? ==> id in out.ca.issuances && out.ca.issuances[id] == FiveFiles(lib, p))
  {
    var id := p.intent.issuanceId;
    FileGrows(c, id, ThreeFiles(lib, p), CommitFile, CommitDoc(CommitOf(lib, p)));
    var o3 := PublishFile(c, id, CommitFile, CommitDoc(CommitOf(lib, p)));
    if o3.Ok? {
      FileGrows(o3.ca, id, FourFiles(lib, p), CompleteFile, CompleteDoc(CompleteOf(lib, p)));
    }
  }

  lemma ConcludedFiles(lib: Lib, c: Ca, p: Plan)
    requires p.intent.issuanceId in c.issuances && c.issuances[p.intent.issuanceId] == OneFile(p)
    ensures var id, out := p.intent.issuanceId, Conclude(lib, c, p.intent, Certificate(p), p.sourceIp);
            && (out.Err? ==> Unfinished(out.ca, id))
            && (out.Ok? ==> id in out.ca.issuances && out.ca.issuances[id] == FiveFiles(lib, p))
  {
    CertifiedFiles(lib, c, p);
    var o1 := CertificateThenRecord(lib, c, p.intent, Certificate(p));
    if o1.Ok? {
      CompletedFiles(lib, o1.ca, p);
    }
  }

  /** The commit in the directory of `id` is readable and its own. */
  ghost predicate Loaded(lib: Lib, authority: Id, c: Ca, id: Id) {
    && Has(c, id, CompleteFile) && Load(lib, authority, c.issuances[id]).Some?
    && Load(lib, authority, c.issuances[id]).value.commit.issuanceId == id
  }

  lemma RecoveredFiles(lib: Lib, authority: Id, c: Ca, p: Plan)
    requires p.intent.issuanceId in c.issuances && c.issuances[p.intent.issuanceId] == FiveFiles(lib, p)
    requires p.intent.authorityId == authority
    ensures Loaded(lib, authority, RecoverCommit(lib, authority, c, p.intent.issuanceId).ca, p.intent.issuanceId)
  {
    var id := p.intent.issuanceId;
    LoadsAsPlanned(lib, authority, c.issuances[id], p);
    Jammed.RecoveryPersists(lib, authority, c, id, id);
    ScanMeaning.LoadStays(lib, authority, c.issuances[id],
                          RecoverCommit(lib, authority, c, id).ca.issuances[id]);
  }

  lemma FinishedFiles(lib: Lib, authority: Id, c: Ca, request: Request, a: Attempt, p: Plan)
    requires p.intent.issuanceId in c.issuances && c.issuances[p.intent.issuanceId] == OneFile(p)
    requires p.intent.authorityId == authority && p.sourceIp == request.sourceIp
    requires a.signer.Signs? ==> p.der == a.signer.der
    ensures var c' := AfterPrepare(lib, authority, c, request, a, p.intent).ca;
            Unfinished(c', p.intent.issuanceId) || Loaded(lib, authority, c', p.intent.issuanceId)
  {
    CrashRecovery.SignLeavesFiles(c, a, p.intent);
    var o2 := Sign(c, a, p.intent);
    if o2.Ok? {
      ConcludedFiles(lib, o2.ca, p);
      var o3 := Conclude(lib, o2.ca, p.intent, Certificate(p), p.sourceIp);
      if o3.Ok? {
        RecoveredFiles(lib, authority, o3.ca, p);
        var c4 := RecoverCommit(lib, authority, o3.ca, p.intent.issuanceId).ca;
        var c' := AfterPrepare(lib, authority, c, request, a, p.intent).ca;
        assert c'.issuances == c4.issuances;
      }
    }
  }

  lemma FreshFiles(lib: Lib, authority: Id, c: Ca, request: Request, a: Attempt, p: Plan)
    requires p.intent.issuanceId !in c.issuances
    requires p.intent.authorityId == authority && p.sourceIp == request.sourceIp
    requires a.signer.Signs? ==> p.der == a.signer.der
    ensures var c' := IssueFresh(lib, authority, c, request, a, p.intent).ca;
            Unfinished(c', p.intent.issuanceId) || Loaded(lib, authority, c', p.intent.issuanceId)
  {
    PreparedFiles(c, a, p);
    var o1 := Prepare(c, a, p.intent);
    if o1.Ok? {
      FinishedFiles(lib, authority, o1.ca, request, a, p);
    }
  }

  /** An enrollment that leaves the issuance it drew with COMPLETE leaves it loadable. */
  lemma NewIsLoaded(lib: Lib, authority: Id, c: Ca, request: Request, a: Attempt, id: Id)
    requires UniqueId(c, a.ids) == Some(id) && Has(Issue(lib, authority, c, request, a).ca, id, CompleteFile)
    ensures Loaded(lib, authority, Issue(lib, authority, c, request, a).ca, id)
  {
    UniqueIdIsFree(c, a.ids);
    var order := lib.list(c.issuances.Keys);
    FindByKeyMeaning(c, order, request.keyHash, request.requestHash);
    var found := FindByKey(c, order, request.keyHash, request.requestHash);
    if Final(request.keyHash) !in c.mappings && found.Ok? && found.value.None?
          && UniqueSerial(lib, c, a.serials).Found? {
      var p := Plan(IntentFor(authority, request, a, id, UniqueSerial(lib, c, a.serials).value),
                    if a.signer.Signs? then a.signer.der else [], request.sourceIp);
      FreshFiles(lib, authority, c, request, a, p);
    }
  }

  lemma NewIsShut(lib: Lib, authority: Id, c: Ca, request: Request, a: Attempt, id: Id)
    requires Foreign(c) && UniqueId(c, a.ids) == Some(id)
    requires Has(Issue(lib, authority, c, request, a).ca, id, CompleteFile)
    ensures Jammed.Shut(lib, authority, Issue(lib, authority, c, request, a).ca, id)
  {
    NewIsLoaded(lib, authority, c, request, a, id);
    Standing.EnrollmentStands(lib, authority, c, request, a);
    UniqueIdIsFree(c, a.ids);
    AbsentIsUnrecorded(c, id);
  }

  /** Once an enrollment on a foreign log has reached COMPLETE, every later scan refuses the
      state, and every later quarantine the issuance. */
  lemma CompletedIsStuck(lib: Lib, authority: Id, c: Ca, request: Request, a: Attempt, id: Id, steps: seq<Step>,
          fuel: nat, tear: Tear, t: QuarantineCommand.Ticket)
    requires LibOk(lib) && Foreign(c) && UniqueId(c, a.ids) == Some(id) && Standing.Avoids(steps, c.audits)
    requires Has(Issue(lib, authority, c, request, a).ca, id, CompleteFile)
    ensures var c' := Issue(lib, authority, c, request, a).ca;
            Jammed.Refused(lib, authority, Run(lib, authority, c', steps).(fuel := fuel, tear := tear), id, t)
  {
    var c' := Issue(lib, authority, c, request, a).ca;
    NewIsShut(lib, authority, c, request, a, id);
    Standing.EnrollmentStands(lib, authority, c, request, a);
    Jammed.JamStays(lib, authority, c', id, steps);
    Jammed.JamIsRefused(lib, authority, Run(lib, authority, c', steps), id, fuel, tear, t);
  }
}
