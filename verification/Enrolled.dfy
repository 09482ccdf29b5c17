/** What is on file, field by field, once an issuance has been recovered or an enrollment has been
    answered, in any state. */
module Enrolled {
  import opened Publication
  import opened Records
  import opened AuthorityState
  import opened Issuance
  import opened Advance
  import opened IssuanceRuns
  import opened IssuanceMeaning
  import ScanMeaning

  // ---------- recovering a commit ----------

  /** The intent, the certificate, its record and the commit are on file and agree. */
  predicate Agree(lib: Lib, authority: Id, d: Dir<File>, i: Intent, r: Record, k: Commit) {
    && Final(IntentFile) in d && ParseIntent(d[Final(IntentFile)]) == Some(i)
    && Final(RecordFile) in d && ParseRecord(d[Final(RecordFile)]) == Some(r)
    && Final(CommitFile) in d && ParseCommit(d[Final(CommitFile)]) == Some(k)
    && Final(CertificateFile) in d && r.certificateSha == lib.sha(d[Final(CertificateFile)])
    && i.authorityId == authority && r.authorityId == authority && k.authorityId == authority
    && k.issuanceId == i.issuanceId && k.mapping.issuanceId == i.issuanceId
    && k.mapping.keyHash == i.keyHash && k.mapping.requestHash == i.requestHash
    && k.mapping.certificateSha == r.certificateSha
  }

  /** The files are bound together by their digests. */
  predicate Completes(lib: Lib, authority: Id, d: Dir<File>, i: Intent, k: Complete) {
    && Final(IntentFile) in d && Final(RecordFile) in d && Final(CertificateFile) in d
    && k.version == 1 && k.issuanceId == i.issuanceId && k.authorityId == authority
    && k.intentSha == lib.sha(d[Final(IntentFile)]) && k.recordSha == lib.sha(d[Final(RecordFile)])
    && k.certificateSha == lib.sha(d[Final(CertificateFile)])
  }

  lemma LoadExactly(lib: Lib, authority: Id, d: Dir<File>, t: Transaction)
    ensures Load(lib, authority, d) == Some(t) <==>
              && Agree(lib, authority, d, t.intent, t.record, t.commit)
              && Completes(lib, authority, d, t.intent, t.complete)
  {
  }

  /** The audit record says that the certificate was issued, to whom and when. */
  predicate Logs(record: Audit, k: Commit) {
    && record.kind == CertificateIssued && record.issuanceId == Some(k.issuanceId)
    && record.authorityId == Some(k.authorityId) && record.sourceIp == Some(k.sourceIp)
    && record.accepted && record.operationId == None && record.detail == RecordedCertificate
    && record.utc == k.createdAt
  }

  ghost predicate Logged(audits: Dir<nat>, k: Commit) {
    exists n: nat :: Final(n) in audits && ParseAudit(audits[Final(n)]).Some?
                     && Logs(ParseAudit(audits[Final(n)]).value, k)
  }

  /** Everything that follows from a commit is on file. */
  ghost predicate Recovered(lib: Lib, authority: Id, c: Ca, id: Id, i: Intent, r: Record, k: Commit) {
    && id in c.issuances && Agree(lib, authority, c.issuances[id], i, r, k)
    && Has(c, id, CompleteFile) && FileOf(c, id, CompleteFile).Whole? && FileOf(c, id, CompleteFile).doc.CompleteDoc?
    && Completes(lib, authority, c.issuances[id], i, FileOf(c, id, CompleteFile).doc.complete)
    && Holds(c, id, AuditMarkFile, AuditMarkDoc(i.issuanceId))
    && Final(i.keyHash) in c.mappings && c.mappings[Final(i.keyHash)] == Whole(MappingDoc(k.mapping))
    && Logged(c.audits, k)
  }

  lemma AgreeOn(lib: Lib, authority: Id, d: Dir<File>, e: Dir<File>, i: Intent, r: Record, k: Commit, m: Complete)
    requires Kept(d, e) && Agree(lib, authority, d, i, r, k) && Completes(lib, authority, d, i, m)
    ensures Agree(lib, authority, e, i, r, k) && Completes(lib, authority, e, i, m)
  {
  }

  /** Recovering a commit succeeds only on files that agree, leaves everything that follows from
      them on file, and leaves the state alone when they do not agree. */
  lemma RecoveryMeans(lib: Lib, authority: Id, c: Ca, id: Id)
    ensures var out := RecoverCommit(lib, authority, c, id);
            && (out.Ok? ==> exists i: Intent, r: Record, k: Commit ::
                              id in c.issuances && Agree(lib, authority, c.issuances[id], i, r, k)
                              && Recovered(lib, authority, out.ca, id, i, r, k))
            && (id in c.issuances
                && (forall i: Intent, r: Record, k: Commit :: !Agree(lib, authority, c.issuances[id], i, r, k)) ==>
                  out == Err(c, Inconsistent))
            && (id !in c.issuances ==> out == Err(c, StateError))
  {
    var out := RecoverCommit(lib, authority, c, id);
    if out.Ok? {
      var t := ScanMeaning.RecoveryPublishes(lib, authority, c, id);
      RecoverCommitAdvances(lib, authority, c, id);
      LoadExactly(lib, authority, c.issuances[id], t);
      AgreeOn(lib, authority, c.issuances[id], out.ca.issuances[id], t.intent, t.record, t.commit, t.complete);
      var n: nat :| ScanMeaning.AuditedAs(out.ca.audits, t.commit, n);
      assert Logs(ParseAudit(out.ca.audits[Final(n)]).value, t.commit);
      assert Recovered(lib, authority, out.ca, id, t.intent, t.record, t.commit);
    } else if id in c.issuances && Load(lib, authority, c.issuances[id]).Some? {
      var t := Load(lib, authority, c.issuances[id]).value;
      LoadExactly(lib, authority, c.issuances[id], t);
    }
  }

  // ---------- an enrollment that answers ----------

  /** What an enrollment that answered 201 has put on file. */
  ghost predicate EnrolledAs(lib: Lib, authority: Id, c: Ca, request: Request, a: Attempt, i: Intent, r: Record,
          k: Commit)
    requires Verified(a)
  {
    && IntentOf(authority, request, a, i) && Holds(c, i.issuanceId, IntentFile, IntentDoc(i))
    && Holds(c, i.issuanceId, CertificateFile, Answer(a))
    && Holds(c, i.issuanceId, RecordFile, RecordDoc(r)) && Holds(c, i.issuanceId, CommitFile, CommitDoc(k))
    && r.version == 1 && r.issuanceId == i.issuanceId && r.serial == i.serial
    && r.certificateSize == lib.size(Whole(Answer(a))) && r.notBefore == a.notBefore && r.notAfter == a.notAfter
    && k.version == 1 && k.sourceIp == request.sourceIp && k.createdAt == a.createdAt
    && k.mapping.version == 1 && k.mapping.createdAt == a.createdAt
    && Recovered(lib, authority, c, i.issuanceId, i, r, k)
    && Final(i.serial) in c.reservations
    && c.reservations[Final(i.serial)]
        == Whole(ReservationDoc(Reservation(1, i.serial, i.issuanceId, authority, a.createdAt)))
  }

  lemma ConcludeHolds(lib: Lib, c: Ca, i: Intent, certificate: Blob, sourceIp: nat)
    requires i.issuanceId in c.issuances && certificate.Whole? && Conclude(lib, c, i, certificate, sourceIp).Ok?
    ensures var c' := Conclude(lib, c, i, certificate, sourceIp).ca;
            && Holds(c', i.issuanceId, CertificateFile, certificate.doc)
            && Holds(c', i.issuanceId, RecordFile, RecordDoc(RecordFor(lib, i, certificate)))
            && Holds(c', i.issuanceId, CommitFile, CommitDoc(CommitFor(lib, i, certificate, sourceIp)))
  {
    var id, record := i.issuanceId, RecordDoc(RecordFor(lib, i, certificate));
    var commit := CommitDoc(CommitFor(lib, i, certificate, sourceIp));
    var o1 := PublishFile(c, id, CertificateFile, certificate.doc);
    PublishedHolds(c, id, CertificateFile, certificate.doc);
    var o2 := PublishFile(o1.ca, id, RecordFile, record);
    PublishedHolds(o1.ca, id, RecordFile, record);
    FileAdvances(o1.ca, id, RecordFile, record);
    var o3 := PublishFile(o2.ca, id, CommitFile, commit);
    PublishedHolds(o2.ca, id, CommitFile, commit);
    FileAdvances(o2.ca, id, CommitFile, commit);
    FileAdvances(o3.ca, id, CompleteFile, CompleteDoc(CompleteFor(lib, i, certificate)));
  }

  lemma ReservedHolds(c: Ca, r: Reservation)
    requires Reserve(c, r).Ok?
    ensures var c' := Reserve(c, r).ca;
            Final(r.serial) in c'.reservations && c'.reservations[Final(r.serial)] == Whole(ReservationDoc(r))
  {
    DestinationIsAbsentOrExact(c.reservations, r.serial, Whole(ReservationDoc(r)), Empty,
                               TornBlob(c.tear, Whole(ReservationDoc(r))), c.fuel);
  }

  lemma PrepareReserves(c: Ca, a: Attempt, i: Intent) returns (c3: Ca)
    requires i.issuanceId !in c.issuances && Prepare(c, a, i).Ok?
    ensures a.profileOk && Prepare(c, a, i) == Reserve(c3, ReservationFor(i))
  {
    var c2 := c.(fuel := c.fuel - 1).(issuances := c.issuances[i.issuanceId := map[]]);
    c3 := PublishFile(c2, i.issuanceId, IntentFile, IntentDoc(i)).ca;
  }

  lemma PrepareHolds(c: Ca, a: Attempt, i: Intent)
    requires i.issuanceId !in c.issuances && Prepare(c, a, i).Ok?
    ensures var c' := Prepare(c, a, i).ca;
            && a.profileOk && Advances(c, c') && Holds(c', i.issuanceId, IntentFile, IntentDoc(i))
            && Final(i.serial) in c'.reservations
            && c'.reservations[Final(i.serial)] == Whole(ReservationDoc(ReservationFor(i)))
  {
    PrepareAdvances(c, a, i);
    var c3 := PrepareReserves(c, a, i);
    ReservedHolds(c3, ReservationFor(i));
  }

  lemma RecoveredIsEnrolled(lib: Lib, authority: Id, c: Ca, request: Request, a: Attempt, i: Intent)
    requires Verified(a) && IntentOf(authority, request, a, i)
    requires Holds(c, i.issuanceId, IntentFile, IntentDoc(i)) && Holds(c, i.issuanceId, CertificateFile, Answer(a))
    requires Holds(c, i.issuanceId, RecordFile, RecordDoc(RecordFor(lib, i, Whole(Answer(a)))))
    requires Holds(c, i.issuanceId, CommitFile, CommitDoc(CommitFor(lib, i, Whole(Answer(a)), request.sourceIp)))
    requires Final(i.serial) in c.reservations
          && c.reservations[Final(i.serial)] == Whole(ReservationDoc(ReservationFor(i)))
    ensures var out := RecoverCommit(lib, authority, c, i.issuanceId);
            out.Ok? ==> exists r: Record, k: Commit :: EnrolledAs(lib, authority, out.ca, request, a, i, r, k)
  {
    RecoveryMeans(lib, authority, c, i.issuanceId);
    RecoverCommitAdvances(lib, authority, c, i.issuanceId);
    var out := RecoverCommit(lib, authority, c, i.issuanceId);
    if out.Ok? {
      var r, k := RecordFor(lib, i, Whole(Answer(a))), CommitFor(lib, i, Whole(Answer(a)), request.sourceIp);
      assert Recovered(lib, authority, out.ca, i.issuanceId, i, r, k);
      HoldsOn(c, out.ca, i.issuanceId, IntentFile, IntentDoc(i));
      HoldsOn(c, out.ca, i.issuanceId, CertificateFile, Answer(a));
      HoldsOn(c, out.ca, i.issuanceId, RecordFile, RecordDoc(r));
      HoldsOn(c, out.ca, i.issuanceId, CommitFile, CommitDoc(k));
      assert EnrolledAs(lib, authority, out.ca, request, a, i, r, k);
    }
  }

  /** An answer of 201: the attempt verified, the identifier and the serial were drawn and free,
      one signature was made, and everything is on file. */
  ghost predicate Created(lib: Lib, authority: Id, c: Ca, request: Request, a: Attempt, out: Out<Reply>, i: Intent) {
    && out.Ok? && Verified(a)
    && out.value == Reply(201, request.keyHash, request.requestHash, i.issuanceId, Whole(Answer(a)))
    && Final(request.keyHash) !in c.mappings
    && i.issuanceId in a.ids && i.issuanceId !in c.issuances
    && i.serial in a.serials && Final(i.serial) !in c.reservations && !Named(c, i.serial)
    && out.ca.signed == c.signed + [Signing(request.keyHash, i.serial, i.issuanceId)]
    && exists r: Record, k: Commit :: EnrolledAs(lib, authority, out.ca, request, a, i, r, k)
  }

  lemma EnrolledOn(lib: Lib, authority: Id, c: Ca, c': Ca, request: Request, a: Attempt, i: Intent)
    requires c'.issuances == c.issuances && c'.reservations == c.reservations && c'.mappings == c.mappings
    requires c'.audits == c.audits && Verified(a)
    requires exists r: Record, k: Commit :: EnrolledAs(lib, authority, c, request, a, i, r, k)
    ensures exists r: Record, k: Commit :: EnrolledAs(lib, authority, c', request, a, i, r, k)
  {
    var r: Record, k: Commit :| EnrolledAs(lib, authority, c, request, a, i, r, k);
    assert EnrolledAs(lib, authority, c', request, a, i, r, k);
  }

  lemma SignedThenEnrolled(lib: Lib, authority: Id, c: Ca, request: Request, a: Attempt, i: Intent)
    requires Verified(a) && IntentOf(authority, request, a, i) && Holds(c, i.issuanceId, IntentFile, IntentDoc(i))
    requires Final(i.serial) in c.reservations
          && c.reservations[Final(i.serial)] == Whole(ReservationDoc(ReservationFor(i)))
    ensures var o1 := Conclude(lib, c, i, Whole(Answer(a)), request.sourceIp);
            o1.Ok? ==>
              var o2 := RecoverCommit(lib, authority, o1.ca, i.issuanceId);
              o2.Ok? ==> o2.ca.signed == c.signed
                         && exists r: Record, k: Commit :: EnrolledAs(lib, authority, o2.ca, request, a, i, r, k)
  {
    var o1 := Conclude(lib, c, i, Whole(Answer(a)), request.sourceIp);
    if o1.Ok? {
      ConcludeHolds(lib, c, i, Whole(Answer(a)), request.sourceIp);
      ConcludeAdvances(lib, c, i, Whole(Answer(a)), request.sourceIp);
      HoldsOn(c, o1.ca, i.issuanceId, IntentFile, IntentDoc(i));
      RecoveredIsEnrolled(lib, authority, o1.ca, request, a, i);
      RecoverCommitAdvances(lib, authority, o1.ca, i.issuanceId);
    }
  }

  lemma AfterPrepareEnrolls(lib: Lib, authority: Id, c: Ca, request: Request, a: Attempt, i: Intent)
    requires a.profileOk && IntentOf(authority, request, a, i) && Holds(c, i.issuanceId, IntentFile, IntentDoc(i))
    requires Final(i.serial) in c.reservations
          && c.reservations[Final(i.serial)] == Whole(ReservationDoc(ReservationFor(i)))
    ensures var out := AfterPrepare(lib, authority, c, request, a, i);
            out.Ok? ==>
              && Verified(a)
              && out.value == Reply(201, request.keyHash, request.requestHash, i.issuanceId, Whole(Answer(a)))
              && out.ca.signed == c.signed + [Signing(request.keyHash, i.serial, i.issuanceId)]
              && exists r: Record, k: Commit :: EnrolledAs(lib, authority, out.ca, request, a, i, r, k)
  {
    var out, o2 := AfterPrepare(lib, authority, c, request, a, i), Sign(c, a, i);
    if out.Ok? {
      assert Holds(o2.ca, i.issuanceId, IntentFile, IntentDoc(i));
      SignedThenEnrolled(lib, authority, o2.ca, request, a, i);
      var o3 := Conclude(lib, o2.ca, i, Whole(Answer(a)), request.sourceIp);
      EnrolledOn(lib, authority, RecoverCommit(lib, authority, o3.ca, i.issuanceId).ca, out.ca, request, a, i);
    }
  }

  lemma FreshEnrolls(lib: Lib, authority: Id, c: Ca, request: Request, a: Attempt, i: Intent)
    requires IntentOf(authority, request, a, i) && i.issuanceId !in c.issuances
    ensures var out := IssueFresh(lib, authority, c, request, a, i);
            out.Ok? ==>
              && Verified(a)
              && out.value == Reply(201, request.keyHash, request.requestHash, i.issuanceId, Whole(Answer(a)))
              && out.ca.signed == c.signed + [Signing(request.keyHash, i.serial, i.issuanceId)]
              && exists r: Record, k: Commit :: EnrolledAs(lib, authority, out.ca, request, a, i, r, k)
  {
    var o1 := Prepare(c, a, i);
    if o1.Ok? {
      PrepareHolds(c, a, i);
      AfterPrepareEnrolls(lib, authority, o1.ca, request, a, i);
    }
  }

  /** An answer of 200 repeats what the mapping on file and the certificate it names say, and the
      key signs nothing. */
  ghost predicate Repeated(lib: Lib, c: Ca, request: Request, out: Out<Reply>) {
    && out.Ok? && out.value.status == 200
    && out.value.keyHash == request.keyHash && out.value.requestHash == request.requestHash
    && out.ca.signed == c.signed
    && Final(request.keyHash) in out.ca.mappings && ParseMapping(out.ca.mappings[Final(request.keyHash)]).Some?
    && var m := ParseMapping(out.ca.mappings[Final(request.keyHash)]).value;
       && m.issuanceId == out.value.issuanceId && m.certificateSha == lib.sha(out.value.certificate)
       && Has(out.ca, m.issuanceId, CertificateFile)
       && FileOf(out.ca, m.issuanceId, CertificateFile) == out.value.certificate
       && (Final(request.keyHash) in c.mappings ==> m.requestHash == request.requestHash)
  }

  lemma RecoverThenRepeat(lib: Lib, authority: Id, c: Ca, request: Request, a: Attempt, id: Id)
    requires FindByKey(c, lib.list(c.issuances.Keys), request.keyHash, request.requestHash) == Ok(c, Some(id))
    requires Final(request.keyHash) !in c.mappings && Issue(lib, authority, c, request, a).Ok?
    ensures Repeated(lib, c, request, Issue(lib, authority, c, request, a))
  {
    RecoverCommitAdvances(lib, authority, c, id);
  }

  /** In any state a success is one of the two: a certificate made now, with all its files, or a
      repetition of one on file. */
  lemma AnswerMeans(lib: Lib, authority: Id, c: Ca, request: Request, a: Attempt)
    requires LibOk(lib)
    ensures var out := Issue(lib, authority, c, request, a);
            out.Ok? ==>
              Repeated(lib, c, request, out) || exists i: Intent :: Created(lib, authority, c, request, a, out, i)
  {
    var out := Issue(lib, authority, c, request, a);
    if Final(request.keyHash) !in c.mappings && out.Ok? {
      var order := lib.list(c.issuances.Keys);
      FindByKeyMeaning(c, order, request.keyHash, request.requestHash);
      var found := FindByKey(c, order, request.keyHash, request.requestHash);
      if found.value.Some? {
        RecoverThenRepeat(lib, authority, c, request, a, found.value.value);
      } else {
        UniqueIdMeans(c, a.ids);
        UniqueSerialMeans(lib, c, a.serials);
        var i := IntentFor(authority, request, a, UniqueId(c, a.ids).value, UniqueSerial(lib, c, a.serials).value);
        FreshEnrolls(lib, authority, c, request, a, i);
        assert Created(lib, authority, c, request, a, out, i);
      }
    }
  }

  // ---------- an enrollment that resumes or refuses ----------

  /** The issuance's intent is for the idempotency key. */
  ghost predicate KeyedBy(c: Ca, id: Id, keyHash: Digest, i: Intent) {
    Has(c, id, IntentFile) && ParseIntent(FileOf(c, id, IntentFile)) == Some(i) && i.keyHash == keyHash
  }

  /** Passed over: without an intent, or with one for another key. */
  ghost predicate PassedOver(c: Ca, id: Id, keyHash: Digest) {
    Has(c, id, IntentFile) ==>
      ParseIntent(FileOf(c, id, IntentFile)).Some? && ParseIntent(FileOf(c, id, IntentFile)).value.keyHash != keyHash
  }

  /** The first of the listed issuances that is not passed over decides: for another request it is
      a conflict, without a commit it is incomplete, and otherwise it is the one to resume. */
  ghost predicate Decides(c: Ca, order: seq<Id>, n: nat, keyHash: Digest, requestHash: Digest, out: Out<Option<Id>>)
    requires n < |order|
  {
    && (forall j :: 0 <= j < n ==> PassedOver(c, order[j], keyHash))
    && Has(c, order[n], IntentFile)
    && ((ParseIntent(FileOf(c, order[n], IntentFile)) == None && out == Err(c, StateError))
        || exists i: Intent :: KeyedBy(c, order[n], keyHash, i)
             && out == if i.requestHash != requestHash then Err(c, Conflict)
                       else if !Has(c, order[n], CommitFile) then Err(c, Incomplete)
                       else Ok(c, Some(order[n])))
  }

  ghost predicate SomeDecides(c: Ca, order: seq<Id>, keyHash: Digest, requestHash: Digest, out: Out<Option<Id>>) {
    exists n: nat :: n < |order| && Decides(c, order, n, keyHash, requestHash, out)
  }

  lemma {:induction false} FindExactly(c: Ca, order: seq<Id>, keyHash: Digest, requestHash: Digest)
    ensures var out := FindByKey(c, order, keyHash, requestHash);
            if forall id <- order :: PassedOver(c, id, keyHash) then out == Ok(c, None)
            else SomeDecides(c, order, keyHash, requestHash, out)
  {
    if order != [] {
      assert order == [order[0]] + order[1..];
      if PassedOver(c, order[0], keyHash) {
        FindExactly(c, order[1..], keyHash, requestHash);
        LaterDecides(c, order, keyHash, requestHash, FindByKey(c, order, keyHash, requestHash));
      } else {
        FirstDecides(c, order, keyHash, requestHash);
      }
    }
  }

  lemma LaterDecides(c: Ca, order: seq<Id>, keyHash: Digest, requestHash: Digest, out: Out<Option<Id>>)
    requires order != [] && PassedOver(c, order[0], keyHash)
    ensures SomeDecides(c, order[1..], keyHash, requestHash, out) ==> SomeDecides(c, order, keyHash, requestHash, out)
  {
    if SomeDecides(c, order[1..], keyHash, requestHash, out) {
      var n: nat :| n < |order| - 1 && Decides(c, order[1..], n, keyHash, requestHash, out);
      assert forall j :: 0 < j < n + 1 ==> order[j] == order[1..][j - 1];
      assert Decides(c, order, n + 1, keyHash, requestHash, out);
    }
  }

  lemma FirstDecides(c: Ca, order: seq<Id>, keyHash: Digest, requestHash: Digest)
    requires order != [] && !PassedOver(c, order[0], keyHash)
    ensures SomeDecides(c, order, keyHash, requestHash, FindByKey(c, order, keyHash, requestHash))
  {
    var n: nat := 0;
    if ParseIntent(FileOf(c, order[n], IntentFile)).Some? {
      assert KeyedBy(c, order[n], keyHash, ParseIntent(FileOf(c, order[n], IntentFile)).value);
    }
    assert Decides(c, order, n, keyHash, requestHash, FindByKey(c, order, keyHash, requestHash));
  }

  /** A commit found under the key is resumed: the request is answered with the certificate on
      file exactly when the recovery succeeds. */
  lemma ResumedIsAnswered(lib: Lib, authority: Id, c: Ca, request: Request, a: Attempt, id: Id)
    requires Sound(c) && Final(request.keyHash) !in c.mappings
    requires FindByKey(c, lib.list(c.issuances.Keys), request.keyHash, request.requestHash) == Ok(c, Some(id))
    ensures var recovered, out := RecoverCommit(lib, authority, c, id), Issue(lib, authority, c, request, a);
            && (out.Ok? <==> recovered.Ok?)
            && (out.Ok? ==> Has(c, id, CertificateFile)
                            && out.value == Reply(200, request.keyHash, request.requestHash, id,
                                                  FileOf(c, id, CertificateFile)))
  {
    FindByKeyMeaning(c, lib.list(c.issuances.Keys), request.keyHash, request.requestHash);
    var out := RecoverCommit(lib, authority, c, id);
    if out.Ok? {
      RecoveryMeans(lib, authority, c, id);
      RecoverCommitAdvances(lib, authority, c, id);
      var i: Intent, r: Record, k: Commit :|
        Agree(lib, authority, c.issuances[id], i, r, k) && Recovered(lib, authority, out.ca, id, i, r, k);
      assert i.issuanceId == id && i.keyHash == request.keyHash by {
        assert Has(c, id, IntentFile);
      }
    }
  }

  /** What is mapped is never signed for again: the same request is repeated if the certificate
      it names is on file, and another is a conflict. */
  lemma MappedIsRepeated(lib: Lib, authority: Id, c: Ca, request: Request, a: Attempt, m: Mapping)
    requires Final(request.keyHash) in c.mappings && ParseMapping(c.mappings[Final(request.keyHash)]) == Some(m)
    ensures var out := Issue(lib, authority, c, request, a);
            && out.ca == c.(replies := out.ca.replies)
            && (m.requestHash != request.requestHash ==> out == Err(c, Conflict))
            && (m.requestHash == request.requestHash ==>
                  (out.Ok? <==> Has(c, m.issuanceId, CertificateFile)
                                && lib.sha(FileOf(c, m.issuanceId, CertificateFile)) == m.certificateSha))
  {
  }
}
