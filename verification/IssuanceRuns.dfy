/** Safety of every run: any sequence of enrollments, scans and quarantines, each cut
    short after any number of file operations. */
module IssuanceRuns {
  import opened Publication
  import opened Records
  import opened AuthorityState
  import opened Issuance
  import opened QuarantineCommand
  import opened Advance
  import Scan

  // ---------- the invariant ----------

  ghost predicate HasIntent(c: Ca, e: Signing) {
    && Has(c, e.issuanceId, IntentFile)
    && var parsed := ParseIntent(FileOf(c, e.issuanceId, IntentFile));
       parsed.Some? && parsed.value.keyHash == e.keyHash && parsed.value.serial == e.serial
  }

  ghost predicate Answered(c: Ca, r: Reply) {
    && Final(r.keyHash) in c.mappings
    && var parsed := ParseMapping(c.mappings[Final(r.keyHash)]);
       && parsed.Some? && parsed.value.requestHash == r.requestHash && parsed.value.issuanceId == r.issuanceId
       && Has(c, r.issuanceId, CompleteFile)
       && Has(c, r.issuanceId, CertificateFile) && FileOf(c, r.issuanceId, CertificateFile) == r.certificate
  }

  ghost predicate SerialsReserved(c: Ca) {
    forall e <- c.signed :: Final(e.serial) in c.reservations
  }

  ghost predicate SerialsDistinct(signed: seq<Signing>) {
    forall i, j :: 0 <= i < j < |signed| ==> signed[i].serial != signed[j].serial
  }

  ghost predicate SignaturesHeld(c: Ca) {
    forall e <- c.signed :: HasIntent(c, e) || e.serial in c.retired
  }

  /** A key is signed for again only after the earlier issuance went to quarantine. */
  ghost predicate OncePerKey(signed: seq<Signing>, retired: set<Id>) {
    forall i, j :: 0 <= i < j < |signed| && signed[i].keyHash == signed[j].keyHash ==> signed[i].serial in retired
  }

  ghost predicate RepliesHeld(c: Ca) {
    forall r <- c.replies :: Answered(c, r)
  }

  ghost predicate RepliesAgree(replies: seq<Reply>) {
    forall i, j :: 0 <= i < j < |replies| && replies[i].keyHash == replies[j].keyHash ==>
      && replies[j].status == 200
      && replies[j].requestHash == replies[i].requestHash
      && replies[j].issuanceId == replies[i].issuanceId
      && replies[j].certificate == replies[i].certificate
  }

  ghost predicate SignaturesOk(c: Ca) {
    SerialsReserved(c) && SerialsDistinct(c.signed) && SignaturesHeld(c) && OncePerKey(c.signed, c.retired)
  }

  ghost predicate RepliesOk(c: Ca) {
    RepliesHeld(c) && RepliesAgree(c.replies)
  }

  ghost predicate Inv(c: Ca) {
    Sound(c) && SignaturesOk(c) && RepliesOk(c)
  }

  lemma SameFilesSameSound(c: Ca, c': Ca)
    requires c'.issuances == c.issuances && c'.mappings == c.mappings
    ensures Sound(c) ==> Sound(c')
  {
    assert forall x: Id, f: File :: Has(c, x, f) <==> Has(c', x, f);
  }

  lemma AdvanceKeepsInv(c: Ca, c': Ca)
    requires Inv(c) && Advances(c, c')
    ensures Inv(c')
  {
    forall x: Id, f: File | Has(c, x, f)
      ensures Has(c', x, f) && FileOf(c', x, f) == FileOf(c, x, f)
    {
    }
  }

  // ---------- what the searches establish ----------

  lemma {:induction false} FindByKeyMeaning(c: Ca, order: seq<Id>, keyHash: Digest, requestHash: Digest)
    ensures var out := FindByKey(c, order, keyHash, requestHash);
            && out.ca == c
            && (out.Ok? && out.value.None? ==>
                  forall x <- order :: Has(c, x, IntentFile) ==>
                    var p := ParseIntent(FileOf(c, x, IntentFile)); p.Some? && p.value.keyHash != keyHash)
            && (out.Ok? && out.value.Some? ==>
                  && Has(c, out.value.value, IntentFile)
                  && var p := ParseIntent(FileOf(c, out.value.value, IntentFile));
                     p.Some? && p.value.keyHash == keyHash && p.value.requestHash == requestHash)
  {
    if order != [] {
      FindByKeyMeaning(c, order[1..], keyHash, requestHash);
      assert order == [order[0]] + order[1..];
    }
  }

  lemma {:induction false} UniqueSerialIsFree(lib: Lib, c: Ca, draws: seq<nat>)
    ensures UniqueSerial(lib, c, draws).Found? ==> Final(UniqueSerial(lib, c, draws).value) !in c.reservations
  {
    if draws != [] {
      UniqueSerialIsFree(lib, c, draws[1..]);
    }
  }

  lemma {:induction false} UniqueIdIsFree(c: Ca, draws: seq<nat>)
    ensures UniqueId(c, draws).Some? ==> UniqueId(c, draws).value !in c.issuances
  {
    if draws != [] {
      UniqueIdIsFree(c, draws[1..]);
    }
  }

  /** A finished recovery has indexed the commit it read. */
  lemma RecoveredIsIndexed(lib: Lib, authority: Id, c: Ca, id: Id)
    requires RecoverCommit(lib, authority, c, id).Ok?
    ensures id in c.issuances && Load(lib, authority, c.issuances[id]).Some?
    ensures var t := Load(lib, authority, c.issuances[id]).value;
            var c' := RecoverCommit(lib, authority, c, id).ca;
            && Final(t.commit.mapping.keyHash) in c'.mappings
            && c'.mappings[Final(t.commit.mapping.keyHash)] == Whole(MappingDoc(t.commit.mapping))
            && Has(c', id, CompleteFile)
  {
    var t := Load(lib, authority, c.issuances[id]).value;
    var o1 := PublishFileExact(c, id, CompleteFile, CompleteDoc(t.complete));
    FileExactAdvances(c, id, CompleteFile, CompleteDoc(t.complete));
    var o2 := PublishMapping(o1.ca, t.commit.mapping);
    MappingIsPublished(o1.ca, t.commit.mapping);
    var o3 := EnsureIssuanceAudit(lib, o2.ca, t.commit);
    EnsureAuditAdvances(lib, o2.ca, t.commit);
    FileExactAdvances(o3.ca, id, AuditMarkFile, AuditMarkDoc(t.commit.issuanceId));
    Chain(o2.ca, o3.ca, RecoverCommit(lib, authority, c, id).ca);
    assert Has(o1.ca, id, CompleteFile) && o2.ca.issuances == o1.ca.issuances;
    assert Has(o2.ca, id, CompleteFile);
  }

  lemma MappingIsPublished(c: Ca, m: Mapping)
    requires PublishMapping(c, m).Ok?
    ensures Final(m.keyHash) in PublishMapping(c, m).ca.mappings
    ensures PublishMapping(c, m).ca.mappings[Final(m.keyHash)] == Whole(MappingDoc(m))
  {
    PublicationKeeps(c, c.mappings, m.keyHash, Whole(MappingDoc(m)));
  }

  // ---------- issue keeps the invariant ----------

  /** Sending an answer that matches the disk. */
  lemma AnswerKeepsInv(c: Ca, reply: Reply)
    requires Inv(c) && Answered(c, reply)
    requires forall r <- c.replies :: r.keyHash == reply.keyHash ==> reply.status == 200
    ensures Inv(c.(replies := c.replies + [reply]))
  {
    var c' := c.(replies := c.replies + [reply]);
    SameFilesSameSound(c, c');
    assert SignaturesOk(c') by {
      assert forall e :: HasIntent(c, e) == HasIntent(c', e);
    }
    forall r <- c'.replies ensures Answered(c', r) {
      assert r in c.replies || r == reply;
      assert Answered(c, r);
    }
    forall i | 0 <= i < |c.replies| && c.replies[i].keyHash == reply.keyHash
      ensures reply.status == 200 && reply.requestHash == c.replies[i].requestHash
              && reply.issuanceId == c.replies[i].issuanceId && reply.certificate == c.replies[i].certificate
    {
      assert c.replies[i] in c.replies;
      assert Answered(c, c.replies[i]);
    }
  }

  lemma ReplayKeepsInv(lib: Lib, c: Ca, request: Request)
    requires Inv(c) && Final(request.keyHash) in c.mappings
    requires ParseMapping(c.mappings[Final(request.keyHash)]).Some? ==>
               ParseMapping(c.mappings[Final(request.keyHash)]).value.requestHash == request.requestHash
    ensures Inv(Replay(lib, c, request).ca)
  {
    var out := Replay(lib, c, request);
    if out.Ok? {
      assert Answered(c, out.value);
      AnswerKeepsInv(c, out.value);
    }
  }

  ghost predicate Holds(c: Ca, id: Id, f: File, doc: Doc) {
    Has(c, id, f) && FileOf(c, id, f) == Whole(doc)
  }

  lemma HoldsOn(c: Ca, c': Ca, id: Id, f: File, doc: Doc)
    requires Advances(c, c') && Holds(c, id, f, doc)
    ensures Holds(c', id, f, doc)
  {
  }

  lemma PublishedHolds(c: Ca, id: Id, f: File, doc: Doc)
    requires id in c.issuances && PublishFile(c, id, f, doc).Ok?
    ensures Holds(PublishFile(c, id, f, doc).ca, id, f, doc)
  {
    DestinationIsAbsentOrExact(c.issuances[id], f, Whole(doc), Empty, TornBlob(c.tear, Whole(doc)), c.fuel);
  }

  lemma NewDirectoryAdvances(c: Ca, id: Id, fuel: nat)
    requires id !in c.issuances
    ensures Advances(c, c.(issuances := c.issuances[id := map[]], fuel := fuel))
  {
    var c' := c.(issuances := c.issuances[id := map[]], fuel := fuel);
    forall x: Id, f: File
      ensures Has(c, x, f) <==> Has(c', x, f)
      ensures Has(c, x, f) ==> FileOf(c', x, f) == FileOf(c, x, f)
    {
    }
  }

  lemma ReserveAdvances(c: Ca, r: Reservation)
    ensures Advances(c, Reserve(c, r).ca)
    ensures Reserve(c, r).Ok? ==> Final(r.serial) in Reserve(c, r).ca.reservations
  {
    PublicationKeeps(c, c.reservations, r.serial, Whole(ReservationDoc(r)));
    ReservationsAdvance(c, PublishIn(c, c.reservations, r.serial, Whole(ReservationDoc(r))));
  }

  lemma PrepareAdvances(c: Ca, a: Attempt, intent: Intent)
    requires intent.issuanceId !in c.issuances
    ensures var out := Prepare(c, a, intent);
            && Advances(c, out.ca)
            && (out.Ok? ==> Holds(out.ca, intent.issuanceId, IntentFile, IntentDoc(intent))
                            && Final(intent.serial) in out.ca.reservations)
  {
    var id := intent.issuanceId;
    if c.fuel > 0 {
      var c2 := c.(issuances := c.issuances[id := map[]], fuel := c.fuel - 1);
      assert c2 == c.(fuel := c.fuel - 1).(issuances := c.issuances[id := map[]]);
      NewDirectoryAdvances(c, id, c.fuel - 1);
      if a.profileOk {
        var o3 := PublishFile(c2, id, IntentFile, IntentDoc(intent));
        FileAdvances(c2, id, IntentFile, IntentDoc(intent));
        Chain(c, c2, o3.ca);
        if o3.Ok? {
          PublishedHolds(c2, id, IntentFile, IntentDoc(intent));
          var o4 := Reserve(o3.ca, ReservationFor(intent));
          ReserveAdvances(o3.ca, ReservationFor(intent));
          Chain(c, o3.ca, o4.ca);
          HoldsOn(o3.ca, o4.ca, id, IntentFile, IntentDoc(intent));
          assert Prepare(c, a, intent) == o4;
        } else {
          assert Prepare(c, a, intent).ca == o3.ca;
        }
      }
    }
  }

  lemma SignKeepsInv(c0: Ca, c: Ca, a: Attempt, intent: Intent)
    requires Inv(c0) && Advances(c0, c)
    requires Holds(c, intent.issuanceId, IntentFile, IntentDoc(intent))
    requires Final(intent.serial) !in c0.reservations && Final(intent.serial) in c.reservations
    requires forall x: Id :: Has(c0, x, IntentFile) ==>
               var p := ParseIntent(FileOf(c0, x, IntentFile)); p.Some? ==> p.value.keyHash != intent.keyHash
    ensures Inv(Sign(c, a, intent).ca)
  {
    AdvanceKeepsInv(c0, c);
    if c.fuel > 0 {
      var e := Signing(intent.keyHash, intent.serial, intent.issuanceId);
      forall x <- c.signed ensures x.serial != e.serial && (x.keyHash == e.keyHash ==> x.serial in c.retired) {
        assert x in c0.signed;
        assert HasIntent(c0, x) || x.serial in c0.retired;
      }
      SignatureKeepsInv(c, e, c.fuel - 1);
      assert Sign(c, a, intent).ca == c.(signed := c.signed + [e], fuel := c.fuel - 1);
    }
  }

  lemma SignatureKeepsInv(c: Ca, e: Signing, fuel: nat)
    requires Inv(c) && HasIntent(c, e) && Final(e.serial) in c.reservations
    requires forall x <- c.signed :: x.serial != e.serial && (x.keyHash == e.keyHash ==> x.serial in c.retired)
    ensures Inv(c.(signed := c.signed + [e], fuel := fuel))
  {
    var c' := c.(signed := c.signed + [e], fuel := fuel);
    SameFilesSameSound(c, c');
    assert SignaturesOk(c') by {
      forall x <- c'.signed ensures Final(x.serial) in c'.reservations && (HasIntent(c', x) || x.serial in c'.retired) {
        assert x == e || x in c.signed;
        assert HasIntent(c', x) == HasIntent(c, x);
      }
    }
    assert RepliesOk(c') by {
      assert forall r :: Answered(c, r) == Answered(c', r);
    }
  }

  lemma ConcludeAdvances(lib: Lib, c: Ca, intent: Intent, certificate: Blob, sourceIp: nat)
    requires intent.issuanceId in c.issuances && certificate.Whole?
    ensures var out := Conclude(lib, c, intent, certificate, sourceIp);
            && Advances(c, out.ca)
            && (out.Ok? ==> Holds(out.ca, intent.issuanceId, CertificateFile, certificate.doc))
  {
    var id := intent.issuanceId;
    var record, commit := RecordDoc(RecordFor(lib, intent, certificate)),
          CommitDoc(CommitFor(lib, intent, certificate, sourceIp));
    var complete := CompleteDoc(CompleteFor(lib, intent, certificate));
    var o1 := PublishFile(c, id, CertificateFile, certificate.doc);
    FileAdvances(c, id, CertificateFile, certificate.doc);
    if o1.Ok? {
      PublishedHolds(c, id, CertificateFile, certificate.doc);
      var o2 := PublishFile(o1.ca, id, RecordFile, record);
      FileAdvances(o1.ca, id, RecordFile, record);
      Chain(c, o1.ca, o2.ca);
      HoldsOn(o1.ca, o2.ca, id, CertificateFile, certificate.doc);
      if o2.Ok? {
        var o3 := PublishFile(o2.ca, id, CommitFile, commit);
        FileAdvances(o2.ca, id, CommitFile, commit);
        Chain(c, o2.ca, o3.ca);
        HoldsOn(o2.ca, o3.ca, id, CertificateFile, certificate.doc);
        if o3.Ok? {
          var o4 := PublishFile(o3.ca, id, CompleteFile, complete);
          FileAdvances(o3.ca, id, CompleteFile, complete);
          Chain(c, o3.ca, o4.ca);
          HoldsOn(o3.ca, o4.ca, id, CertificateFile, certificate.doc);
        }
      }
    }
  }

  lemma NoKeyMeans(lib: Lib, c: Ca, request: Request)
    requires LibOk(lib)
    requires FindByKey(c, lib.list(c.issuances.Keys), request.keyHash, request.requestHash) == Ok(c, None)
    ensures forall x: Id :: Has(c, x, IntentFile) ==>
              var p := ParseIntent(FileOf(c, x, IntentFile)); p.Some? ==> p.value.keyHash != request.keyHash
  {
    var order := lib.list(c.issuances.Keys);
    FindByKeyMeaning(c, order, request.keyHash, request.requestHash);
    assert Enumerates(order, c.issuances.Keys);
    forall x: Id | Has(c, x, IntentFile)
      ensures var p := ParseIntent(FileOf(c, x, IntentFile)); p.Some? ==> p.value.keyHash != request.keyHash
    {
      assert x in order;
    }
  }

  lemma IssueFreshKeepsInv(lib: Lib, authority: Id, c: Ca, request: Request, a: Attempt, id: Id, serial: Id)
    requires LibOk(lib) && Inv(c)
    requires Final(request.keyHash) !in c.mappings && id !in c.issuances && Final(serial) !in c.reservations
    requires FindByKey(c, lib.list(c.issuances.Keys), request.keyHash, request.requestHash) == Ok(c, None)
    ensures Inv(IssueFresh(lib, authority, c, request, a, IntentFor(authority, request, a, id, serial)).ca)
  {
    var intent := IntentFor(authority, request, a, id, serial);
    var o1 := Prepare(c, a, intent);
    PrepareAdvances(c, a, intent);
    AdvanceKeepsInv(c, o1.ca);
    if o1.Ok? {
      var o2 := Sign(o1.ca, a, intent);
      NoKeyMeans(lib, c, request);
      SignKeepsInv(c, o1.ca, a, intent);
      if o2.Ok? {
        assert Holds(o2.ca, id, IntentFile, IntentDoc(intent));
        var o3 := Conclude(lib, o2.ca, intent, o2.value, request.sourceIp);
        ConcludeAdvances(lib, o2.ca, intent, o2.value, request.sourceIp);
        AdvanceKeepsInv(o2.ca, o3.ca);
        if o3.Ok? {
          HoldsOn(o2.ca, o3.ca, id, IntentFile, IntentDoc(intent));
          IssueTailKeepsInv(lib, authority, c, o3.ca, request, intent, o2.value);
        }
      }
    }
  }

  lemma IssueTailKeepsInv(lib: Lib, authority: Id, c0: Ca, c: Ca, request: Request, intent: Intent, certificate: Blob)
    requires Inv(c0) && Inv(c) && c.replies == c0.replies && Final(request.keyHash) !in c0.mappings
    requires intent.keyHash == request.keyHash && intent.requestHash == request.requestHash && certificate.Whole?
    requires Holds(c, intent.issuanceId, IntentFile, IntentDoc(intent))
    requires Holds(c, intent.issuanceId, CertificateFile, certificate.doc)
    ensures var out := RecoverCommit(lib, authority, c, intent.issuanceId);
            && Inv(out.ca)
            && (out.Ok? ==> Inv(out.ca.(replies := out.ca.replies
                  + [Reply(201, request.keyHash, request.requestHash, intent.issuanceId, certificate)])))
  {
    var id := intent.issuanceId;
    var out := RecoverCommit(lib, authority, c, id);
    RecoverCommitAdvances(lib, authority, c, id);
    AdvanceKeepsInv(c, out.ca);
    if out.Ok? {
      RecoveredAnswers(lib, authority, c, request, intent, certificate);
      forall r <- out.ca.replies ensures r.keyHash != request.keyHash {
        assert Answered(c0, r);
      }
      AnswerKeepsInv(out.ca, Reply(201, request.keyHash, request.requestHash, id, certificate));
    }
  }

  lemma LoadedFor(lib: Lib, authority: Id, d: Dir<File>, intent: Intent)
    requires Load(lib, authority, d).Some? && Final(IntentFile) in d && d[Final(IntentFile)] == Whole(IntentDoc(intent))
    ensures var m := Load(lib, authority, d).value.commit.mapping;
            m.keyHash == intent.keyHash && m.requestHash == intent.requestHash && m.issuanceId == intent.issuanceId
  {
  }

  lemma RecoveredAnswers(lib: Lib, authority: Id, c: Ca, request: Request, intent: Intent, certificate: Blob)
    requires intent.keyHash == request.keyHash && intent.requestHash == request.requestHash && certificate.Whole?
    requires Holds(c, intent.issuanceId, IntentFile, IntentDoc(intent))
    requires Holds(c, intent.issuanceId, CertificateFile, certificate.doc)
    requires RecoverCommit(lib, authority, c, intent.issuanceId).Ok?
    ensures Answered(RecoverCommit(lib, authority, c, intent.issuanceId).ca,
                     Reply(201, request.keyHash, request.requestHash, intent.issuanceId, certificate))
  {
    var id := intent.issuanceId;
    RecoverCommitAdvances(lib, authority, c, id);
    RecoveredIsIndexed(lib, authority, c, id);
    LoadedFor(lib, authority, c.issuances[id], intent);
    HoldsOn(c, RecoverCommit(lib, authority, c, id).ca, id, CertificateFile, certificate.doc);
  }

  lemma IssueKeepsInv(lib: Lib, authority: Id, c: Ca, request: Request, a: Attempt)
    requires LibOk(lib) && Inv(c)
    ensures Inv(Issue(lib, authority, c, request, a).ca)
  {
    if Final(request.keyHash) in c.mappings {
      var parsed := ParseMapping(c.mappings[Final(request.keyHash)]);
      if parsed.Some? && parsed.value.requestHash == request.requestHash {
        ReplayKeepsInv(lib, c, request);
      }
    } else {
      var order := lib.list(c.issuances.Keys);
      FindByKeyMeaning(c, order, request.keyHash, request.requestHash);
      var found := FindByKey(c, order, request.keyHash, request.requestHash);
      if found.Ok? && found.value.Some? {
        RecoverThenReplay(lib, authority, c, request, found.value.value);
      } else if found.Ok? {
        UniqueIdIsFree(c, a.ids);
        UniqueSerialIsFree(lib, c, a.serials);
        if UniqueId(c, a.ids).Some? && UniqueSerial(lib, c, a.serials).Found? {
          IssueFreshKeepsInv(lib, authority, c, request, a, UniqueId(c, a.ids).value,
              UniqueSerial(lib, c, a.serials).value);
        }
      }
    }
  }

  lemma RecoverThenReplay(lib: Lib, authority: Id, c: Ca, request: Request, id: Id)
    requires Inv(c) && Has(c, id, IntentFile)
    requires var p := ParseIntent(FileOf(c, id, IntentFile));
             p.Some? && p.value.keyHash == request.keyHash && p.value.requestHash == request.requestHash
    ensures var out := RecoverCommit(lib, authority, c, id);
            && Inv(out.ca)
            && (out.Ok? && Final(request.keyHash) in out.ca.mappings ==> Inv(Replay(lib, out.ca, request).ca))
  {
    var out := RecoverCommit(lib, authority, c, id);
    RecoverCommitAdvances(lib, authority, c, id);
    AdvanceKeepsInv(c, out.ca);
    if out.Ok? {
      RecoveredIsIndexed(lib, authority, c, id);
      ReplayKeepsInv(lib, out.ca, request);
    }
  }

  // ---------- quarantine keeps the invariant ----------

  /** Quarantines lie outside everything the invariant speaks of. */
  lemma QuarantinesAside(c: Ca, quarantines: map<Id, Quarantined>, fuel: nat)
    ensures Advances(c, c.(quarantines := quarantines, fuel := fuel))
  {
    var c' := c.(quarantines := quarantines, fuel := fuel);
    assert forall x: Id, f: File :: Has(c, x, f) <==> Has(c', x, f);
  }

  lemma MoveKeepsInv(c: Ca, q: Id, id: Id)
    requires Inv(c) && q in c.quarantines && !Has(c, id, CompleteFile)
    ensures Inv(MoveOriginal(c, q, id).ca)
  {
    var c' := MoveOriginal(c, q, id).ca;
    forall x: Id, f: File | Has(c, x, f) && x != id
      ensures Has(c', x, f) && FileOf(c', x, f) == FileOf(c, x, f)
    {
    }
    forall e <- c.signed ensures HasIntent(c', e) || e.serial in c'.retired {
      assert HasIntent(c, e) || e.serial in c.retired;
    }
    forall r <- c.replies ensures Answered(c', r) {
      assert Answered(c, r);
    }
  }

  lemma RemovalAdvances(c: Ca, s: Id)
    ensures Advances(c, RemovePending(c, s).ca)
  {
    var c' := RemovePending(c, s).ca;
    assert forall x: Id, f: File :: Has(c, x, f) <==> Has(c', x, f);
  }

  lemma CopyAdvances(c: Ca, q: Id, f: File, blob: Blob)
    requires q in c.quarantines && c.quarantines[q].original.Some?
    ensures Advances(c, CopyInto(c, q, f, blob).ca)
  {
    var o := CopyInto(c, q, f, blob);
    QuarantinesAside(c, o.ca.quarantines, o.ca.fuel);
  }

  lemma CopyPendingAdvances(c: Ca, q: Id, pending: Option<Id>)
    requires q in c.quarantines && c.quarantines[q].original.Some?
    ensures Advances(c, CopyPending(c, q, pending).ca)
  {
    if pending.Some? && Pending(pending.value) in c.reservations {
      var o := CopyInto(c, q, PendingCopy, c.reservations[Pending(pending.value)]);
      CopyAdvances(c, q, PendingCopy, c.reservations[Pending(pending.value)]);
      if o.Ok? {
        RemovalAdvances(o.ca, pending.value);
        Chain(c, o.ca, RemovePending(o.ca, pending.value).ca);
      }
    }
  }

  lemma OpenAndMoveKeepsInv(authority: Id, c: Ca, id: Id, e: Evidence, t: Ticket)
    requires Inv(c) && !Has(c, id, CompleteFile)
    ensures Inv(OpenAndMove(authority, c, id, e, t).ca)
  {
    var q := t.destination;
    var o1 := OpenQuarantine(c, q);
    QuarantinesAside(c, o1.ca.quarantines, o1.ca.fuel);
    AdvanceKeepsInv(c, o1.ca);
    if o1.Ok? {
      var doc := PreparedDoc(Prepared(id, authority, EvidenceSerial(c, e), t.utc));
      var o2 := PublishNote(o1.ca, q, PreparedNote, doc);
      QuarantinesAside(o1.ca, o2.ca.quarantines, o2.ca.fuel);
      AdvanceKeepsInv(o1.ca, o2.ca);
      if o2.Ok? {
        assert Has(o2.ca, id, CompleteFile) == Has(c, id, CompleteFile);
        MoveKeepsInv(o2.ca, q, id);
      }
    }
  }

  lemma CloseAdvances(lib: Lib, c: Ca, q: Id, doc: Doc, record: Audit)
    requires q in c.quarantines
    ensures var o1 := PublishNote(c, q, QuarantinedNote, doc);
            Advances(c, o1.ca) && Advances(c, AppendAudit(lib, o1.ca, record).ca)
  {
    var o1 := PublishNote(c, q, QuarantinedNote, doc);
    QuarantinesAside(c, o1.ca.quarantines, o1.ca.fuel);
    AuditsAdvance(lib, o1.ca, record);
    Chain(c, o1.ca, AppendAudit(lib, o1.ca, record).ca);
  }

  lemma CopyReservationAdvances(c: Ca, q: Id, reservation: Option<Id>)
    requires q in c.quarantines && c.quarantines[q].original.Some?
    ensures Advances(c, CopyReservation(c, q, reservation).ca)
  {
    var o1 := CopyReservation(c, q, reservation);
    QuarantinesAside(c, o1.ca.quarantines, o1.ca.fuel);
  }

  lemma CopiesAdvance(c: Ca, q: Id, e: Evidence)
    requires q in c.quarantines && c.quarantines[q].original.Some?
    ensures var o1 := CopyReservation(c, q, e.reservation);
            Advances(c, o1.ca) && Advances(c, CopyPending(o1.ca, q, e.pending).ca)
  {
    CopyReservationAdvances(c, q, e.reservation);
    var o1 := CopyReservation(c, q, e.reservation);
    CopyPendingAdvances(o1.ca, q, e.pending);
    Chain(c, o1.ca, CopyPending(o1.ca, q, e.pending).ca);
  }

  lemma FileEvidenceKeepsInv(lib: Lib, authority: Id, c: Ca, id: Id, e: Evidence, t: Ticket)
    requires Inv(c) && t.destination in c.quarantines && c.quarantines[t.destination].original.Some?
    ensures Inv(FileEvidence(lib, authority, c, id, e, t).ca)
  {
    var q := t.destination;
    CopiesAdvance(c, q, e);
    var o2 := CopyPending(CopyReservation(c, q, e.reservation).ca, q, e.pending);
    CloseAdvances(lib, o2.ca, q, QuarantinedDoc(id, t.utc), QuarantineRecord(authority, id, t.utc));
    var c' := FileEvidence(lib, authority, c, id, e, t).ca;
    assert Advances(c, c') || Advances(o2.ca, c');
    if Advances(o2.ca, c') {
      Chain(c, o2.ca, c');
    }
    AdvanceKeepsInv(c, c');
  }

  lemma QuarantineKeepsInv(lib: Lib, authority: Id, c: Ca, id: Id, t: Ticket)
    requires Inv(c)
    ensures Inv(QuarantineIssuance(lib, authority, c, id, t).ca)
  {
    var scanned := Scan.FullScan(lib, authority, c);
    FullScanAdvances(lib, authority, c);
    AdvanceKeepsInv(c, scanned.ca);
    var found := Inspect(lib, authority, scanned.ca, id);
    if found.Some? {
      OpenAndMoveKeepsInv(authority, scanned.ca, id, found.value, t);
      var moved := OpenAndMove(authority, scanned.ca, id, found.value, t);
      if moved.Ok? {
        FileEvidenceKeepsInv(lib, authority, moved.ca, id, found.value, t);
      }
    }
  }

  // ---------- runs ----------

  datatype Event = Enroll(request: Request, attempt: Attempt) | Rescan | Isolate(id: Id, ticket: Ticket)

  /** One event, cut short after `fuel` file operations leaving `tear` of the last write. */
  datatype Step = Step(event: Event, fuel: nat, tear: Tear)

  ghost function Apply(lib: Lib, authority: Id, c: Ca, step: Step): Ca {
    var ready := c.(fuel := step.fuel, tear := step.tear);
    match step.event
    case Enroll(request, attempt) => Issue(lib, authority, ready, request, attempt).ca
    case Rescan => Scan.FullScan(lib, authority, ready).ca
    case Isolate(id, ticket) => QuarantineIssuance(lib, authority, ready, id, ticket).ca
  }

  ghost function Run(lib: Lib, authority: Id, c: Ca, steps: seq<Step>): Ca
    decreases |steps|
  {
    if steps == [] then c else Run(lib, authority, Apply(lib, authority, c, steps[0]), steps[1..])
  }

  /** The state an initialized authority starts from: nothing but its audit log. */
  function Fresh(audits: Dir<nat>): Ca {
    Ca(false, map[], map[], map[], audits, map[], [], [], {}, 0, NoBytes)
  }

  lemma ApplyKeepsInv(lib: Lib, authority: Id, c: Ca, step: Step)
    requires LibOk(lib) && Inv(c)
    ensures Inv(Apply(lib, authority, c, step))
  {
    var ready := c.(fuel := step.fuel, tear := step.tear);
    QuarantinesAside(c, c.quarantines, step.fuel);
    assert Advances(c, ready) by {
      assert forall x: Id, f: File :: Has(c, x, f) <==> Has(ready, x, f);
    }
    AdvanceKeepsInv(c, ready);
    match step.event
    case Enroll(request, attempt) => IssueKeepsInv(lib, authority, ready, request, attempt);
    case Rescan =>
      FullScanAdvances(lib, authority, ready);
      AdvanceKeepsInv(ready, Scan.FullScan(lib, authority, ready).ca);
    case Isolate(id, ticket) => QuarantineKeepsInv(lib, authority, ready, id, ticket);
  }

  lemma {:induction false} RunKeepsInv(lib: Lib, authority: Id, c: Ca, steps: seq<Step>)
    requires LibOk(lib) && Inv(c)
    ensures Inv(Run(lib, authority, c, steps))
    decreases |steps|
  {
    if steps != [] {
      ApplyKeepsInv(lib, authority, c, steps[0]);
      RunKeepsInv(lib, authority, Apply(lib, authority, c, steps[0]), steps[1..]);
    }
  }

  /** No two signatures of any run carry the same serial, and each serial stays reserved. */
  lemma SerialsNeverRecur(lib: Lib, authority: Id, audits: Dir<nat>, steps: seq<Step>)
    requires LibOk(lib)
    ensures var c := Run(lib, authority, Fresh(audits), steps);
            SerialsDistinct(c.signed) && SerialsReserved(c)
  {
    RunKeepsInv(lib, authority, Fresh(audits), steps);
  }

  predicate IsIsolate(step: Step) { step.event.Isolate? }

  lemma IssueRetiresNothing(lib: Lib, authority: Id, c: Ca, request: Request, a: Attempt)
    ensures Issue(lib, authority, c, request, a).ca.retired == c.retired
  {
    if Final(request.keyHash) !in c.mappings {
      var order := lib.list(c.issuances.Keys);
      FindByKeyMeaning(c, order, request.keyHash, request.requestHash);
      var found := FindByKey(c, order, request.keyHash, request.requestHash);
      if found.Ok? && found.value.Some? {
        RecoverCommitAdvances(lib, authority, c, found.value.value);
      } else if found.Ok? && UniqueId(c, a.ids).Some? && UniqueSerial(lib, c, a.serials).Found? {
        UniqueIdIsFree(c, a.ids);
        var intent := IntentFor(authority, request, a, UniqueId(c, a.ids).value, UniqueSerial(lib, c, a.serials).value);
        FreshRetiresNothing(lib, authority, c, request, a, intent);
      }
    }
  }

  lemma RestRetiresNothing(lib: Lib, authority: Id, c: Ca, request: Request, a: Attempt, intent: Intent)
    requires intent.issuanceId in c.issuances
    ensures AfterPrepare(lib, authority, c, request, a, intent).ca.retired == c.retired
  {
    var o2 := Sign(c, a, intent);
    if o2.Ok? {
      ConcludeAdvances(lib, o2.ca, intent, o2.value, request.sourceIp);
      var o3 := Conclude(lib, o2.ca, intent, o2.value, request.sourceIp);
      RecoverCommitAdvances(lib, authority, o3.ca, intent.issuanceId);
    }
  }

  lemma FreshRetiresNothing(lib: Lib, authority: Id, c: Ca, request: Request, a: Attempt, intent: Intent)
    requires intent.issuanceId !in c.issuances
    ensures IssueFresh(lib, authority, c, request, a, intent).ca.retired == c.retired
  {
    PrepareAdvances(c, a, intent);
    var o1 := Prepare(c, a, intent);
    if o1.Ok? {
      RestRetiresNothing(lib, authority, o1.ca, request, a, intent);
    }
  }

  lemma NothingRetiresWithoutQuarantine(lib: Lib, authority: Id, c: Ca, step: Step)
    requires !IsIsolate(step)
    ensures Apply(lib, authority, c, step).retired == c.retired
  {
    var ready := c.(fuel := step.fuel, tear := step.tear);
    if step.event.Enroll? {
      IssueRetiresNothing(lib, authority, ready, step.event.request, step.event.attempt);
    } else {
      FullScanAdvances(lib, authority, ready);
    }
  }

  lemma {:induction false} NothingRetires(lib: Lib, authority: Id, c: Ca, steps: seq<Step>)
    requires forall s <- steps :: !IsIsolate(s)
    ensures Run(lib, authority, c, steps).retired == c.retired
    decreases |steps|
  {
    if steps != [] {
      NothingRetiresWithoutQuarantine(lib, authority, c, steps[0]);
      NothingRetires(lib, authority, Apply(lib, authority, c, steps[0]), steps[1..]);
    }
  }

  /** The signing key is used at most once per idempotency key unless an operator moved the
      earlier issuance to quarantine; without quarantines, at most once. */
  lemma SignedOncePerKey(lib: Lib, authority: Id, audits: Dir<nat>, steps: seq<Step>)
    requires LibOk(lib)
    ensures var c := Run(lib, authority, Fresh(audits), steps);
            && OncePerKey(c.signed, c.retired)
            && ((forall s <- steps :: !IsIsolate(s)) ==>
                  forall i, j :: 0 <= i < j < |c.signed| ==> c.signed[i].keyHash != c.signed[j].keyHash)
  {
    RunKeepsInv(lib, authority, Fresh(audits), steps);
    if forall s <- steps :: !IsIsolate(s) {
      NothingRetires(lib, authority, Fresh(audits), steps);
    }
  }

  /** Once a key has been answered, every answer to it in the rest of the run has the same
      request, issuance and bytes, repeats have status 200, and the answered issuance is
      still on disk, complete, with the certificate that was sent. */
  lemma RepliesNeverChange(lib: Lib, authority: Id, audits: Dir<nat>, steps: seq<Step>)
    requires LibOk(lib)
    ensures var c := Run(lib, authority, Fresh(audits), steps);
            RepliesAgree(c.replies) && RepliesHeld(c)
  {
    RunKeepsInv(lib, authority, Fresh(audits), steps);
  }
}
