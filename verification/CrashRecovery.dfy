/** The crash-recovery theorem for enrollment. */
module CrashRecovery {
  import opened Publication
  import opened Records
  import opened AuthorityState
  import opened Issuance
  import opened Finish
  import CleanState
  import Recovery
  import Repair
  import ScanMeaning
  import WreckQuarantine
  import Wreckage

  // ---------- the states an enrollment passes through ----------

  /** `c0` with the issuance directory `d` and reservations `rs`. */
  ghost predicate At(c0: Ca, c: Ca, id: Id, d: Dir<File>, rs: Dir<Id>) {
    && c.initPending == c0.initPending && c.quarantines == c0.quarantines
    && c.mappings == c0.mappings && c.audits == c0.audits
    && c.issuances == c0.issuances[id := d] && c.reservations == rs
  }

  function ReservedDir(c0: Ca, p: Plan): Dir<Id> {
    c0.reservations[Final(p.intent.serial) := Whole(ReservationDoc(ReservationFor(p.intent)))]
  }

  /** Where an enrollment that did not return can have stopped. */
  ghost predicate Stopping(lib: Lib, c0: Ca, c: Ca, p: Plan) {
    || (Recovery.SameFiles(c, c0) && c.initPending == c0.initPending)
    || Wreckage.BlockedWreck(c0, c, p.intent)
    || (Committed(lib, c0, c, p) && Repair.NothingStagedIn(c.issuances[p.intent.issuanceId])
          && !TornAfterCommit(lib, c0, c, p))
    || Repair.Stuck(lib, c0, c, p)
  }

  lemma FileStep(c0: Ca, c: Ca, id: Id, d: Dir<File>, rs: Dir<Id>, f: File, doc: Doc)
    requires At(c0, c, id, d, rs) && Final(f) !in d && Pending(f) !in d
    ensures var out := PublishFile(c, id, f, doc);
            && (out.Ok? ==> At(c0, out.ca, id, d[Final(f) := Whole(doc)], rs))
            && (out.Err? ==> At(c0, out.ca, id, d, rs)
                             || exists b: Blob :: StagedFor(b, doc) && At(c0, out.ca, id, d[Pending(f) := b], rs))
  {
    var blob := Whole(doc);
    PublishAbsent(d, f, blob, Empty, TornBlob(c.tear, blob), c.fuel);
    var e := PublishFile(c, id, f, doc).ca.issuances[id];
    WreckQuarantine.UpdateTwice(c0.issuances, id, d, e);
    assert StagedFor(TornBlob(c.tear, blob), doc) && StagedFor(blob, doc);
    var out := PublishFile(c, id, f, doc);
    if c.fuel == 1 {
      assert At(c0, out.ca, id, d[Pending(f) := TornBlob(c.tear, blob)], rs);
    } else if c.fuel == 2 {
      assert At(c0, out.ca, id, d[Pending(f) := blob], rs);
    }
  }

  lemma WreckAt(c0: Ca, c: Ca, p: Plan, d: Dir<File>, rs: Dir<Id>)
    requires At(c0, c, p.intent.issuanceId, d, rs) && Wreckage.WreckDir(d, p.intent) && Wreckage.Blocked(d)
    requires rs == c0.reservations || (Final(IntentFile) in d && rs == ReservedDir(c0, p))
             || (Final(IntentFile) in d
                 && exists b: Blob :: StagedFor(b,
                     ReservationDoc(ReservationFor(p.intent))) && rs == c0.reservations[Pending(p.intent.serial) := b])
    ensures Wreckage.BlockedWreck(c0, c, p.intent)
  {
  }

  // ---------- before the signature ----------

  lemma ReserveStep(c0: Ca, c: Ca, p: Plan)
    requires Final(p.intent.serial) !in c0.reservations && Pending(p.intent.serial) !in c0.reservations
    requires At(c0, c, p.intent.issuanceId, OneFile(p), c0.reservations)
    ensures var out := Reserve(c, ReservationFor(p.intent));
            && (out.Ok? ==> At(c0, out.ca, p.intent.issuanceId, OneFile(p), ReservedDir(c0, p)))
            && (out.Err? ==> Wreckage.BlockedWreck(c0, out.ca, p.intent))
  {
    var s, blob := p.intent.serial, Whole(ReservationDoc(ReservationFor(p.intent)));
    var torn := TornBlob(c.tear, blob);
    PublishAbsent(c0.reservations, s, blob, Empty, torn, c.fuel);
    var out := Reserve(c, ReservationFor(p.intent));
    assert StagedFor(torn, blob.doc) && StagedFor(blob, blob.doc);
    if out.Err? {
      WreckAt(c0, out.ca, p, OneFile(p), out.ca.reservations);
    }
  }

  lemma IntentStep(c0: Ca, c: Ca, p: Plan)
    requires At(c0, c, p.intent.issuanceId, map[], c0.reservations)
    ensures var out := PublishFile(c, p.intent.issuanceId, IntentFile, IntentDoc(p.intent));
            && (out.Ok? ==> At(c0, out.ca, p.intent.issuanceId, OneFile(p), c0.reservations))
            && (out.Err? ==> Wreckage.BlockedWreck(c0, out.ca, p.intent))
  {
    var id, doc := p.intent.issuanceId, IntentDoc(p.intent);
    var nothing: Dir<File> := map[];
    FileStep(c0, c, id, nothing, c0.reservations, IntentFile, doc);
    var out := PublishFile(c, id, IntentFile, doc);
    if out.Ok? {
      assert nothing[Final(IntentFile) := Whole(doc)] == OneFile(p);
    } else if At(c0, out.ca, id, nothing, c0.reservations) {
      WreckAt(c0, out.ca, p, nothing, c0.reservations);
    } else {
      var b: Blob :| StagedFor(b, doc) && At(c0, out.ca, id, nothing[Pending(IntentFile) := b], c0.reservations);
      WreckAt(c0, out.ca, p, nothing[Pending(IntentFile) := b], c0.reservations);
    }
  }

  lemma IntentThenReserve(c0: Ca, c: Ca, p: Plan)
    requires Final(p.intent.serial) !in c0.reservations && Pending(p.intent.serial) !in c0.reservations
    requires At(c0, c, p.intent.issuanceId, map[], c0.reservations)
    ensures var first := PublishFile(c, p.intent.issuanceId, IntentFile, IntentDoc(p.intent));
            var out := if first.Err? then first else Reserve(first.ca, ReservationFor(p.intent));
            && (out.Ok? ==> At(c0, out.ca, p.intent.issuanceId, OneFile(p), ReservedDir(c0, p)))
            && (out.Err? ==> Wreckage.BlockedWreck(c0, out.ca, p.intent))
  {
    IntentStep(c0, c, p);
    var first := PublishFile(c, p.intent.issuanceId, IntentFile, IntentDoc(p.intent));
    if first.Ok? {
      ReserveStep(c0, first.ca, p);
    }
  }

  lemma PrepareStops(authority: Id, lib: Lib, c0: Ca, a: Attempt, p: Plan)
    requires CleanState.NothingStaged(c0) && Fits(authority, c0, p)
    ensures var out := Prepare(c0, a, p.intent);
            && (out.Ok? ==> At(c0, out.ca, p.intent.issuanceId, OneFile(p), ReservedDir(c0, p)))
            && (out.Err? ==>
                (Recovery.SameFiles(out.ca, c0) && out.ca.initPending == c0.initPending)
                    || Wreckage.BlockedWreck(c0, out.ca, p.intent))
  {
    var id := p.intent.issuanceId;
    if c0.fuel > 0 {
      var c2 := c0.(fuel := c0.fuel - 1).(issuances := c0.issuances[id := map[]]);
      assert At(c0, c2, id, map[], c0.reservations);
      WreckAt(c0, c2, p, map[], c0.reservations);
      IntentThenReserve(c0, c2, p);
    }
  }

  // ---------- from the signature to COMPLETE ----------

  lemma WreckStep(c0: Ca, c: Ca, p: Plan, d: Dir<File>, f: File, doc: Doc)
    requires At(c0, c, p.intent.issuanceId, d, ReservedDir(c0, p)) && Wreckage.WreckDir(d, p.intent)
    requires Final(IntentFile) in d
    requires Final(f) !in d && Pending(f) !in d && Final(CommitFile) !in d
    requires f == CertificateFile || f == RecordFile || f == CommitFile
    ensures var out := PublishFile(c, p.intent.issuanceId, f, doc);
            && (out.Ok? ==> At(c0, out.ca, p.intent.issuanceId, d[Final(f) := Whole(doc)], ReservedDir(c0, p)))
            && (out.Err? ==> Wreckage.BlockedWreck(c0, out.ca, p.intent))
  {
    var id, rs := p.intent.issuanceId, ReservedDir(c0, p);
    FileStep(c0, c, id, d, rs, f, doc);
    var out := PublishFile(c, id, f, doc);
    if out.Err? {
      if At(c0, out.ca, id, d, rs) {
        WreckAt(c0, out.ca, p, d, rs);
      } else {
        var b: Blob :| StagedFor(b, doc) && At(c0, out.ca, id, d[Pending(f) := b], rs);
        WreckAt(c0, out.ca, p, d[Pending(f) := b], rs);
      }
    }
  }

  lemma CommittedAt(lib: Lib, c0: Ca, c: Ca, p: Plan, d: Dir<File>)
    requires CleanState.NothingStaged(c0) && At(c0, c, p.intent.issuanceId, d, ReservedDir(c0, p))
    requires d == FourFiles(lib, p) || d == FiveFiles(lib, p)
    ensures Committed(lib, c0, c, p) && Repair.NothingStagedIn(d) && !TornAfterCommit(lib, c0, c, p)
  {
  }

  lemma CompleteIsStaged(lib: Lib, c0: Ca, c: Ca, p: Plan, b: Blob)
    requires At(c0, c, p.intent.issuanceId, FourFiles(lib, p)[Pending(CompleteFile) := b], ReservedDir(c0, p))
    ensures Wreckage.BlockedWreck(c0, c, p.intent)
  {
    WreckAt(c0, c, p, FourFiles(lib, p)[Pending(CompleteFile) := b], ReservedDir(c0, p));
  }

  lemma CompleteFileStep(lib: Lib, c0: Ca, c: Ca, p: Plan)
    requires CleanState.NothingStaged(c0) && At(c0, c, p.intent.issuanceId, FourFiles(lib, p), ReservedDir(c0, p))
    ensures var out := PublishFile(c, p.intent.issuanceId, CompleteFile, CompleteDoc(CompleteOf(lib, p)));
            && (out.Ok? ==> At(c0, out.ca, p.intent.issuanceId, FiveFiles(lib, p), ReservedDir(c0, p)))
            && (out.Err? ==>
                Wreckage.BlockedWreck(c0, out.ca, p.intent)
                    || At(c0, out.ca, p.intent.issuanceId, FourFiles(lib, p), ReservedDir(c0, p)))
  {
    var id, d, rs, doc := p.intent.issuanceId, FourFiles(lib, p), ReservedDir(c0, p), CompleteDoc(CompleteOf(lib, p));
    FileStep(c0, c, id, d, rs, CompleteFile, doc);
    var out := PublishFile(c, id, CompleteFile, doc);
    if out.Err? && !At(c0, out.ca, id, d, rs) {
      var b: Blob :| StagedFor(b, doc) && At(c0, out.ca, id, d[Pending(CompleteFile) := b], rs);
      CompleteIsStaged(lib, c0, out.ca, p, b);
    }
  }

  lemma CertificateThenRecordStops(lib: Lib, c0: Ca, c: Ca, p: Plan)
    requires At(c0, c, p.intent.issuanceId, OneFile(p), ReservedDir(c0, p))
    ensures var out := CertificateThenRecord(lib, c, p.intent, Certificate(p));
            && (out.Ok? ==> At(c0, out.ca, p.intent.issuanceId, ThreeFiles(lib, p), ReservedDir(c0, p)))
            && (out.Err? ==> Wreckage.BlockedWreck(c0, out.ca, p.intent))
  {
    WreckStep(c0, c, p, OneFile(p), CertificateFile, CertificateDoc(p.der));
    var o1 := PublishFile(c, p.intent.issuanceId, CertificateFile, CertificateDoc(p.der));
    if o1.Ok? {
      WreckStep(c0, o1.ca, p, TwoFiles(p), RecordFile, RecordDoc(RecordOf(lib, p)));
    }
  }

  lemma CommitThenCompleteStops(lib: Lib, c0: Ca, c: Ca, p: Plan)
    requires CleanState.NothingStaged(c0) && At(c0, c, p.intent.issuanceId, ThreeFiles(lib, p), ReservedDir(c0, p))
    ensures var out := CommitThenComplete(lib, c, p.intent, Certificate(p), p.sourceIp);
            && (out.Ok? ==> At(c0, out.ca, p.intent.issuanceId, FiveFiles(lib, p), ReservedDir(c0, p)))
            && (out.Err? ==> Stopping(lib, c0, out.ca, p))
  {
    WreckStep(c0, c, p, ThreeFiles(lib, p), CommitFile, CommitDoc(CommitOf(lib, p)));
    var o3 := PublishFile(c, p.intent.issuanceId, CommitFile, CommitDoc(CommitOf(lib, p)));
    if o3.Ok? {
      CompleteFileStep(lib, c0, o3.ca, p);
      var o4 := PublishFile(o3.ca, p.intent.issuanceId, CompleteFile, CompleteDoc(CompleteOf(lib, p)));
      if o4.Err? && !Wreckage.BlockedWreck(c0, o4.ca, p.intent) {
        CommittedAt(lib, c0, o4.ca, p, FourFiles(lib, p));
      }
    }
  }

  lemma ConcludeStops(lib: Lib, c0: Ca, c: Ca, p: Plan)
    requires CleanState.NothingStaged(c0) && At(c0, c, p.intent.issuanceId, OneFile(p), ReservedDir(c0, p))
    ensures var out := Conclude(lib, c, p.intent, Certificate(p), p.sourceIp);
            && (out.Ok? ==> At(c0, out.ca, p.intent.issuanceId, FiveFiles(lib, p), ReservedDir(c0, p)))
            && (out.Err? ==> Stopping(lib, c0, out.ca, p))
  {
    CertificateThenRecordStops(lib, c0, c, p);
    var first := CertificateThenRecord(lib, c, p.intent, Certificate(p));
    if first.Ok? {
      CommitThenCompleteStops(lib, c0, first.ca, p);
    }
  }

  // ---------- the whole enrollment ----------

  lemma RecoveryStops(lib: Lib, authority: Id, c0: Ca, c: Ca, p: Plan)
    requires LibOk(lib) && CleanState.Clean(lib, authority, c0) && Fits(authority, c0, p)
    requires At(c0, c, p.intent.issuanceId, FiveFiles(lib, p), ReservedDir(c0, p))
    ensures var out := RecoverCommit(lib, authority, c, p.intent.issuanceId);
            && (out.Ok? ==> Repair.IsFinished(lib, c0, out.ca, p))
            && (out.Err? ==> Stopping(lib, c0, out.ca, p))
  {
    CommittedAt(lib, c0, c, p, FiveFiles(lib, p));
    Recovery.RecoveryIsCompleteThenTail(lib, authority, c, p);
    ScanMeaning.HeldNeedsNothing(c, p.intent.issuanceId, CompleteFile, CompleteDoc(CompleteOf(lib, p)));
    Recovery.TailShape(lib, authority, c0, c, p);
    var out := RecoverCommit(lib, authority, c, p.intent.issuanceId);
    Recovery.CompleteIsNotStaged(lib, out.ca.issuances[p.intent.issuanceId], p);
  }

  lemma SignLeavesFiles(c: Ca, a: Attempt, intent: Intent)
    ensures var out := Sign(c, a, intent);
            && out.ca == c.(fuel := out.ca.fuel, signed := out.ca.signed)
            && (out.Ok? ==> a.signer.Signs? && out.value == Whole(CertificateDoc(a.signer.der)))
  {
  }

  lemma SignStops(lib: Lib, c0: Ca, c: Ca, a: Attempt, p: Plan)
    requires At(c0, c, p.intent.issuanceId, OneFile(p), ReservedDir(c0, p))
    ensures var out := Sign(c, a, p.intent);
            && At(c0, out.ca, p.intent.issuanceId, OneFile(p), ReservedDir(c0, p))
            && (out.Err? ==> Wreckage.BlockedWreck(c0, out.ca, p.intent))
            && (out.Ok? ==> a.signer.Signs? && out.value == Whole(CertificateDoc(a.signer.der)))
  {
    SignLeavesFiles(c, a, p.intent);
    var c' := Sign(c, a, p.intent).ca;
    assert At(c0, c', p.intent.issuanceId, OneFile(p), ReservedDir(c0, p));
    WreckAt(c0, c', p, OneFile(p), ReservedDir(c0, p));
  }

  lemma AfterConclude(lib: Lib, authority: Id, c0: Ca, c: Ca, p: Plan, reply: Reply)
    requires LibOk(lib) && CleanState.Clean(lib, authority, c0) && Fits(authority, c0, p)
    requires At(c0, c, p.intent.issuanceId, FiveFiles(lib, p), ReservedDir(c0, p))
    ensures var out := RecoverCommit(lib, authority, c, p.intent.issuanceId);
            && (out.Ok? ==> CleanState.Clean(lib, authority, out.ca.(replies := out.ca.replies + [reply])))
            && (out.Err? ==> Stopping(lib, c0, out.ca, p))
  {
    RecoveryStops(lib, authority, c0, c, p);
    var out := RecoverCommit(lib, authority, c, p.intent.issuanceId);
    if out.Ok? {
      Repair.FinishedIsClean(lib, authority, c0, out.ca.(replies := out.ca.replies + [reply]), p);
    }
  }

  lemma AfterPrepareStops(lib: Lib, authority: Id, c0: Ca, c: Ca, request: Request, a: Attempt, p: Plan)
    requires LibOk(lib) && CleanState.Clean(lib, authority, c0) && Fits(authority, c0, p)
    requires p.sourceIp == request.sourceIp
    requires a.signer.Signs? ==> p.der == a.signer.der
    requires At(c0, c, p.intent.issuanceId, OneFile(p), ReservedDir(c0, p))
    ensures var out := AfterPrepare(lib, authority, c, request, a, p.intent);
            && (out.Ok? ==> CleanState.Clean(lib, authority, out.ca))
            && (out.Err? ==> Stopping(lib, c0, out.ca, p))
  {
    SignStops(lib, c0, c, a, p);
    var o2 := Sign(c, a, p.intent);
    if o2.Ok? {
      assert o2.value == Certificate(p);
      ConcludeStops(lib, c0, o2.ca, p);
      var o3 := Conclude(lib, o2.ca, p.intent, o2.value, request.sourceIp);
      if o3.Ok? {
        AfterConclude(lib, authority, c0, o3.ca, p,
            Reply(201, request.keyHash, request.requestHash, p.intent.issuanceId, o2.value));
      }
    }
  }

  lemma IssueFreshStops(lib: Lib, authority: Id, c0: Ca, request: Request, a: Attempt, p: Plan)
    requires LibOk(lib) && CleanState.Clean(lib, authority, c0) && Fits(authority, c0, p)
    requires p.sourceIp == request.sourceIp
    requires a.signer.Signs? ==> p.der == a.signer.der
    ensures var out := IssueFresh(lib, authority, c0, request, a, p.intent);
            && (out.Ok? ==> CleanState.Clean(lib, authority, out.ca))
            && (out.Err? ==> Stopping(lib, c0, out.ca, p))
  {
    PrepareStops(authority, lib, c0, a, p);
    var o1 := Prepare(c0, a, p.intent);
    if o1.Ok? {
      AfterPrepareStops(lib, authority, c0, o1.ca, request, a, p);
    }
  }
}
