/** What an enrollment amounts to in any state, whatever is on disk: which certificate it may
    answer with, what is on file once it has answered, and when it refuses. */
module IssuanceMeaning {
  import opened Publication
  import opened Records
  import opened AuthorityState
  import opened Issuance
  import opened Advance
  import opened IssuanceRuns

  // ---------- the draws ----------

  /** The identifier is the first draw that names no issuance; there is none only when all do. */
  lemma {:induction false} UniqueIdMeans(c: Ca, draws: seq<nat>)
    ensures match UniqueId(c, draws)
            case Some(id) => exists k :: 0 <= k < |draws| && draws[k] == id && id !in c.issuances
                                         && forall j :: 0 <= j < k ==> draws[j] in c.issuances
            case None => forall id <- draws :: id in c.issuances
  {
    if draws != [] && draws[0] in c.issuances {
      UniqueIdMeans(c, draws[1..]);
      if UniqueId(c, draws).Some? {
        var k :| 0 <= k < |draws| - 1 && draws[1..][k] == UniqueId(c, draws).value
                 && forall j :: 0 <= j < k ==> draws[1..][j] in c.issuances;
        assert draws[k + 1] == draws[1..][k];
        assert forall j :: 0 < j < k + 1 ==> draws[j] == draws[1..][j - 1];
      } else {
        assert draws == [draws[0]] + draws[1..];
      }
    }
  }

  /** An active issuance is bound to the serial by its intent. */
  ghost predicate ActiveUses(c: Ca, id: Id, serial: Id) {
    Has(c, id, IntentFile) && ParseIntent(FileOf(c, id, IntentFile)).Some?
    && ParseIntent(FileOf(c, id, IntentFile)).value.serial == serial
  }

  predicate MovedUses(x: Quarantined, serial: Id) {
    x.original.Some? && Final(IntentFile) in x.original.value
    && ParseIntent(x.original.value[Final(IntentFile)]).Some?
    && ParseIntent(x.original.value[Final(IntentFile)]).value.serial == serial
  }

  predicate NoteUses(x: Quarantined, serial: Id) {
    Final(PreparedNote) in x.notes && ParsePrepared(x.notes[Final(PreparedNote)]).Some?
    && ParsePrepared(x.notes[Final(PreparedNote)]).value.serial == Some(serial)
  }

  /** Some intent, active or moved to quarantine, or some quarantine's note names the serial. */
  ghost predicate Named(c: Ca, serial: Id) {
    || (exists id: Id :: ActiveUses(c, id, serial))
    || (exists q <- c.quarantines.Keys :: MovedUses(c.quarantines[q], serial) || NoteUses(c.quarantines[q], serial))
  }

  lemma {:induction false} ActiveSearchMeans(c: Ca, order: seq<Id>, serial: Id)
    ensures BoundByIssuance(c, order, serial).Found? ==> exists id: Id :: ActiveUses(c, id, serial)
    ensures BoundByIssuance(c, order, serial).Absent? ==> forall id <- order :: !ActiveUses(c, id, serial)
  {
    if order != [] {
      ActiveSearchMeans(c, order[1..], serial);
      assert order == [order[0]] + order[1..];
      if BoundByIssuance(c, order, serial).Found? && Has(c, order[0], IntentFile)
         && BoundByIssuance(c, order[1..], serial) != BoundByIssuance(c, order, serial) {
        assert ActiveUses(c, order[0], serial);
      }
    }
  }

  lemma {:induction false} MovedSearchMeans(c: Ca, order: seq<Id>, serial: Id)
    requires forall q <- order :: q in c.quarantines
    ensures BoundByQuarantine(c, order, serial).Found? ==>
              exists q <- c.quarantines.Keys ::
                MovedUses(c.quarantines[q], serial) || NoteUses(c.quarantines[q], serial)
    ensures BoundByQuarantine(c, order, serial).Absent? ==>
              forall q <- order :: !MovedUses(c.quarantines[q], serial) && !NoteUses(c.quarantines[q], serial)
  {
    if order != [] {
      MovedSearchMeans(c, order[1..], serial);
      assert order == [order[0]] + order[1..];
    }
  }

  lemma BindingMeans(lib: Lib, c: Ca, serial: Id)
    requires LibOk(lib)
    ensures BoundByIntent(lib, c, serial).Found? ==> Named(c, serial)
    ensures BoundByIntent(lib, c, serial).Absent? ==> !Named(c, serial)
  {
    var active, moved := lib.list(c.issuances.Keys), lib.list(c.quarantines.Keys);
    assert Enumerates(active, c.issuances.Keys) && Enumerates(moved, c.quarantines.Keys);
    ActiveSearchMeans(c, active, serial);
    MovedSearchMeans(c, moved, serial);
    forall id: Id | ActiveUses(c, id, serial) ensures id in active {
    }
  }

  /** The serial is the first draw that is neither reserved nor named; the draws run out only when
      each is. */
  lemma {:induction false} UniqueSerialMeans(lib: Lib, c: Ca, draws: seq<nat>)
    requires LibOk(lib)
    ensures match UniqueSerial(lib, c, draws)
            case Found(s) => exists k :: 0 <= k < |draws| && draws[k] == s
                               && Final(s) !in c.reservations && !Named(c, s)
                               && forall j :: 0 <= j < k ==> Final(draws[j]) in c.reservations || Named(c, draws[j])
            case Absent => forall s <- draws :: Final(s) in c.reservations || Named(c, s)
            case Unreadable => true
  {
    if draws != [] {
      BindingMeans(lib, c, draws[0]);
      UniqueSerialMeans(lib, c, draws[1..]);
      var out := UniqueSerial(lib, c, draws);
      if out.Found? && (Final(draws[0]) in c.reservations || Named(c, draws[0])) {
        var k :| 0 <= k < |draws| - 1 && draws[1..][k] == out.value
                 && forall j :: 0 <= j < k ==> Final(draws[1..][j]) in c.reservations || Named(c, draws[1..][j]);
        assert draws[k + 1] == draws[1..][k];
        assert forall j :: 0 < j < k + 1 ==> draws[j] == draws[1..][j - 1];
      } else if out.Absent? {
        assert draws == [draws[0]] + draws[1..];
      }
    }
  }

  // ---------- what a new certificate is ----------

  /** The intent is for this request, under this authority, with what the attempt met. */
  predicate IntentOf(authority: Id, request: Request, a: Attempt, i: Intent) {
    && i.version == 1 && i.authorityId == authority
    && i.keyHash == request.keyHash && i.requestHash == request.requestHash && i.profile == request.profile
    && i.notBefore == a.notBefore && i.notAfter == a.notAfter && i.createdAt == a.createdAt
  }

  /** The attempt's profile was accepted, and the key answered with a certificate that verifies. */
  predicate Verified(a: Attempt) {
    a.profileOk && a.signer.Signs? && a.signer.verifies
  }

  function Answer(a: Attempt): Doc
    requires Verified(a)
  {
    CertificateDoc(a.signer.der)
  }

  /** No issuance has gained a finalized certificate. */
  ghost predicate NoneGained(c: Ca, c': Ca) {
    forall x: Id :: Has(c', x, CertificateFile) ==> Has(c, x, CertificateFile)
  }

  lemma OtherFileGainsNone(c: Ca, id: Id, f: File, doc: Doc)
    requires id in c.issuances && f != CertificateFile
    ensures NoneGained(c, PublishFile(c, id, f, doc).ca) && NoneGained(c, PublishFileExact(c, id, f, doc).ca)
  {
    PublicationKeeps(c, c.issuances[id], f, Whole(doc));
    var c1, c2 := PublishFile(c, id, f, doc).ca, PublishFileExact(c, id, f, doc).ca;
    forall x: Id | Has(c1, x, CertificateFile) ensures Has(c, x, CertificateFile) {
      assert x != id ==> c1.issuances[x] == c.issuances[x];
    }
    forall x: Id | Has(c2, x, CertificateFile) ensures Has(c, x, CertificateFile) {
      assert x != id ==> c2.issuances[x] == c.issuances[x];
    }
  }

  lemma SameIssuancesGainNone(c: Ca, c': Ca)
    requires c'.issuances == c.issuances
    ensures NoneGained(c, c')
  {
    assert forall x: Id :: Has(c', x, CertificateFile) == Has(c, x, CertificateFile);
  }

  lemma TailGainsNone(lib: Lib, c: Ca, id: Id, commit: Commit)
    requires id in c.issuances
    ensures NoneGained(c, Tail(lib, c, id, commit).ca)
  {
    var o2 := PublishMapping(c, commit.mapping);
    SameIssuancesGainNone(c, o2.ca);
    var o3 := EnsureIssuanceAudit(lib, o2.ca, commit);
    SameIssuancesGainNone(c, o3.ca);
    OtherFileGainsNone(o3.ca, id, AuditMarkFile, AuditMarkDoc(commit.issuanceId));
  }

  lemma RecoveryGainsNone(lib: Lib, authority: Id, c: Ca, id: Id)
    ensures NoneGained(c, RecoverCommit(lib, authority, c, id).ca)
  {
    if id in c.issuances && Load(lib, authority, c.issuances[id]).Some? {
      var t := Load(lib, authority, c.issuances[id]).value;
      OtherFileGainsNone(c, id, CompleteFile, CompleteDoc(t.complete));
      var o1 := PublishFileExact(c, id, CompleteFile, CompleteDoc(t.complete));
      TailGainsNone(lib, o1.ca, id, t.commit);
    }
  }

  /** Beside what was there, only the issuance `id` may now have a certificate, and it is `doc`. */
  ghost predicate GainsOnly(c: Ca, c': Ca, id: Id, doc: Doc) {
    forall x: Id :: Has(c', x, CertificateFile) && !Has(c, x, CertificateFile) ==>
      x == id && FileOf(c', x, CertificateFile) == Whole(doc)
  }

  lemma CertificateGains(c: Ca, id: Id, doc: Doc)
    requires id in c.issuances
    ensures GainsOnly(c, PublishFile(c, id, CertificateFile, doc).ca, id, doc)
  {
    PublicationKeeps(c, c.issuances[id], CertificateFile, Whole(doc));
    var c' := PublishFile(c, id, CertificateFile, doc).ca;
    assert forall x: Id :: x in c.issuances && x != id ==> c'.issuances[x] == c.issuances[x];
  }

  /** Gaining none beforehand or afterwards makes no difference. */
  lemma GainsAround(c: Ca, c1: Ca, c2: Ca, id: Id, doc: Doc)
    requires NoneGained(c, c1) && GainsOnly(c1, c2, id, doc)
    ensures GainsOnly(c, c2, id, doc)
  {
    forall x: Id | Has(c2, x, CertificateFile) && !Has(c, x, CertificateFile)
      ensures x == id && FileOf(c2, x, CertificateFile) == Whole(doc)
    {
      assert !Has(c1, x, CertificateFile);
    }
  }

  lemma GainsThenNone(c: Ca, c1: Ca, c2: Ca, id: Id, doc: Doc)
    requires GainsOnly(c, c1, id, doc) && Advances(c1, c2) && NoneGained(c1, c2)
    ensures GainsOnly(c, c2, id, doc)
  {
    forall x: Id | Has(c2, x, CertificateFile) && !Has(c, x, CertificateFile)
      ensures x == id && FileOf(c2, x, CertificateFile) == Whole(doc)
    {
      assert Has(c1, x, CertificateFile) && Kept(c1.issuances[x], c2.issuances[x]);
    }
  }

  lemma ConcludeGains(lib: Lib, c: Ca, intent: Intent, doc: Doc, sourceIp: nat)
    requires intent.issuanceId in c.issuances
    ensures GainsOnly(c, Conclude(lib, c, intent, Whole(doc), sourceIp).ca, intent.issuanceId, doc)
  {
    var id, certificate := intent.issuanceId, Whole(doc);
    var o1 := PublishFile(c, id, CertificateFile, doc);
    CertificateGains(c, id, doc);
    if o1.Ok? {
      var record := RecordDoc(RecordFor(lib, intent, certificate));
      var o2 := PublishFile(o1.ca, id, RecordFile, record);
      OtherFileGainsNone(o1.ca, id, RecordFile, record);
      FileAdvances(o1.ca, id, RecordFile, record);
      GainsThenNone(c, o1.ca, o2.ca, id, doc);
      if o2.Ok? {
        var commit := CommitDoc(CommitFor(lib, intent, certificate, sourceIp));
        var o3 := PublishFile(o2.ca, id, CommitFile, commit);
        OtherFileGainsNone(o2.ca, id, CommitFile, commit);
        FileAdvances(o2.ca, id, CommitFile, commit);
        GainsThenNone(c, o2.ca, o3.ca, id, doc);
        if o3.Ok? {
          var complete := CompleteDoc(CompleteFor(lib, intent, certificate));
          OtherFileGainsNone(o3.ca, id, CompleteFile, complete);
          FileAdvances(o3.ca, id, CompleteFile, complete);
          GainsThenNone(c, o3.ca, PublishFile(o3.ca, id, CompleteFile, complete).ca, id, doc);
        }
      }
    }
  }

  lemma PrepareGainsNone(c: Ca, a: Attempt, intent: Intent)
    requires intent.issuanceId !in c.issuances
    ensures NoneGained(c, Prepare(c, a, intent).ca)
  {
    if c.fuel > 0 {
      var id := intent.issuanceId;
      var c2 := c.(fuel := c.fuel - 1).(issuances := c.issuances[id := map[]]);
      assert NoneGained(c, c2);
      OtherFileGainsNone(c2, id, IntentFile, IntentDoc(intent));
      var o3 := PublishFile(c2, id, IntentFile, IntentDoc(intent));
      SameIssuancesGainNone(o3.ca, Reserve(o3.ca, ReservationFor(intent)).ca);
    }
  }

  /** A certificate that an attempt leaves on file for the first time is its key's answer, which
      verified, and the issuance it lies in is the attempt's. */
  ghost predicate GainsVerified(c: Ca, c': Ca, authority: Id, request: Request, a: Attempt) {
    forall x: Id :: Has(c', x, CertificateFile) && !Has(c, x, CertificateFile) ==>
      && Verified(a) && FileOf(c', x, CertificateFile) == Whole(Answer(a))
      && exists i: Intent ::
           IntentOf(authority, request, a, i) && i.issuanceId == x && Holds(c', x, IntentFile, IntentDoc(i))
  }

  lemma GainsAreVerified(c: Ca, c': Ca, authority: Id, request: Request, a: Attempt, i: Intent)
    requires Verified(a) && GainsOnly(c, c', i.issuanceId, Answer(a)) && IntentOf(authority, request, a, i)
    requires Holds(c', i.issuanceId, IntentFile, IntentDoc(i))
    ensures GainsVerified(c, c', authority, request, a)
  {
  }

  lemma ConcludedGains(lib: Lib, authority: Id, c: Ca, request: Request, a: Attempt, i: Intent)
    requires Holds(c, i.issuanceId, IntentFile, IntentDoc(i)) && IntentOf(authority, request, a, i) && Verified(a)
    ensures var out := Conclude(lib, c, i, Whole(Answer(a)), request.sourceIp);
            && GainsVerified(c, out.ca, authority, request, a)
            && (out.Ok? ==>
                  GainsVerified(c, RecoverCommit(lib, authority, out.ca, i.issuanceId).ca, authority, request, a))
  {
    var doc := Answer(a);
    var o3 := Conclude(lib, c, i, Whole(doc), request.sourceIp);
    ConcludeGains(lib, c, i, doc, request.sourceIp);
    ConcludeAdvances(lib, c, i, Whole(doc), request.sourceIp);
    HoldsOn(c, o3.ca, i.issuanceId, IntentFile, IntentDoc(i));
    GainsAreVerified(c, o3.ca, authority, request, a, i);
    if o3.Ok? {
      RecoveryGainsNone(lib, authority, o3.ca, i.issuanceId);
      RecoverCommitAdvances(lib, authority, o3.ca, i.issuanceId);
      var o4 := RecoverCommit(lib, authority, o3.ca, i.issuanceId);
      GainsThenNone(c, o3.ca, o4.ca, i.issuanceId, doc);
      HoldsOn(o3.ca, o4.ca, i.issuanceId, IntentFile, IntentDoc(i));
      GainsAreVerified(c, o4.ca, authority, request, a, i);
    }
  }

  lemma SameIssuancesSameGains(c: Ca, c': Ca, d: Ca, d': Ca, authority: Id, request: Request, a: Attempt)
    requires GainsVerified(c, c', authority, request, a) && d.issuances == c.issuances && d'.issuances == c'.issuances
    ensures GainsVerified(d, d', authority, request, a)
  {
    forall x: Id | Has(d', x, CertificateFile) && !Has(d, x, CertificateFile)
      ensures Verified(a) && FileOf(d', x, CertificateFile) == Whole(Answer(a))
      ensures exists i: Intent ::
                IntentOf(authority, request, a, i) && i.issuanceId == x && Holds(d', x, IntentFile, IntentDoc(i))
    {
      assert Has(c', x, CertificateFile) && !Has(c, x, CertificateFile);
      var i: Intent :|
        IntentOf(authority, request, a, i) && i.issuanceId == x && Holds(c', x, IntentFile, IntentDoc(i));
      assert Holds(d', x, IntentFile, IntentDoc(i));
    }
  }

  lemma StopsConcluding(lib: Lib, authority: Id, c: Ca, request: Request, a: Attempt, i: Intent, c2: Ca,
          certificate: Blob)
    requires i.issuanceId in c.issuances && Sign(c, a, i) == Ok(c2, certificate)
    requires Conclude(lib, c2, i, certificate, request.sourceIp).Err?
    ensures AfterPrepare(lib, authority, c, request, a, i).ca == Conclude(lib, c2, i, certificate, request.sourceIp).ca
  {
  }

  lemma GoesOnToRecover(lib: Lib, authority: Id, c: Ca, request: Request, a: Attempt, i: Intent, c2: Ca,
          certificate: Blob, c3: Ca)
    requires i.issuanceId in c.issuances && Sign(c, a, i) == Ok(c2, certificate)
    requires Conclude(lib, c2, i, certificate, request.sourceIp) == Ok(c3, ())
    ensures AfterPrepare(lib, authority, c, request, a, i).ca.issuances
            == RecoverCommit(lib, authority, c3, i.issuanceId).ca.issuances
  {
  }

  lemma SignedGains(lib: Lib, authority: Id, c: Ca, c2: Ca, request: Request, a: Attempt, i: Intent, done: Ca)
    requires Verified(a) && IntentOf(authority, request, a, i) && Holds(c2, i.issuanceId, IntentFile, IntentDoc(i))
    requires c2.issuances == c.issuances
    requires var o3 := Conclude(lib, c2, i, Whole(Answer(a)), request.sourceIp);
             if o3.Err? then done == o3.ca
             else done.issuances == RecoverCommit(lib, authority, o3.ca, i.issuanceId).ca.issuances
    ensures GainsVerified(c, done, authority, request, a)
  {
    ConcludedGains(lib, authority, c2, request, a, i);
    var o3 := Conclude(lib, c2, i, Whole(Answer(a)), request.sourceIp);
    var last := if o3.Ok? then RecoverCommit(lib, authority, o3.ca, i.issuanceId).ca else o3.ca;
    SameIssuancesSameGains(c2, last, c, done, authority, request, a);
  }

  lemma UnsignedGains(lib: Lib, authority: Id, c: Ca, request: Request, a: Attempt, i: Intent)
    requires i.issuanceId in c.issuances && Sign(c, a, i).Err?
    ensures GainsVerified(c, AfterPrepare(lib, authority, c, request, a, i).ca, authority, request, a)
  {
    var done := AfterPrepare(lib, authority, c, request, a, i).ca;
    assert done == Sign(c, a, i).ca;
    SameIssuancesGainNone(c, done);
  }

  lemma SigningIs(c: Ca, a: Attempt, i: Intent)
    requires Sign(c, a, i).Ok? && a.profileOk
    ensures Verified(a) && Sign(c, a, i).value == Whole(Answer(a)) && Sign(c, a, i).ca.issuances == c.issuances
  {
  }

  lemma AfterPrepareGains(lib: Lib, authority: Id, c: Ca, request: Request, a: Attempt, i: Intent)
    requires Holds(c, i.issuanceId, IntentFile, IntentDoc(i)) && IntentOf(authority, request, a, i) && a.profileOk
    ensures GainsVerified(c, AfterPrepare(lib, authority, c, request, a, i).ca, authority, request, a)
  {
    if Sign(c, a, i).Err? {
      UnsignedGains(lib, authority, c, request, a, i);
    } else {
      SigningIs(c, a, i);
      var c2 := Sign(c, a, i).ca;
      var o3 := Conclude(lib, c2, i, Whole(Answer(a)), request.sourceIp);
      if o3.Err? {
        StopsConcluding(lib, authority, c, request, a, i, c2, Whole(Answer(a)));
      } else {
        GoesOnToRecover(lib, authority, c, request, a, i, c2, Whole(Answer(a)), o3.ca);
      }
      SignedGains(lib, authority, c, c2, request, a, i, AfterPrepare(lib, authority, c, request, a, i).ca);
    }
  }

  lemma FreshGains(lib: Lib, authority: Id, c: Ca, request: Request, a: Attempt, i: Intent)
    requires i.issuanceId !in c.issuances && IntentOf(authority, request, a, i)
    ensures GainsVerified(c, IssueFresh(lib, authority, c, request, a, i).ca, authority, request, a)
  {
    PrepareGainsNone(c, a, i);
    PrepareAdvances(c, a, i);
    var o1 := Prepare(c, a, i);
    if o1.Ok? {
      AfterPrepareGains(lib, authority, o1.ca, request, a, i);
    }
  }

  /** In any state: the certificates an attempt puts on file are its own, and verified. */
  lemma IssueGainsVerified(lib: Lib, authority: Id, c: Ca, request: Request, a: Attempt)
    ensures GainsVerified(c, Issue(lib, authority, c, request, a).ca, authority, request, a)
  {
    if Final(request.keyHash) in c.mappings {
      SameIssuancesGainNone(c, Issue(lib, authority, c, request, a).ca);
    } else {
      var order := lib.list(c.issuances.Keys);
      FindByKeyMeaning(c, order, request.keyHash, request.requestHash);
      var found := FindByKey(c, order, request.keyHash, request.requestHash);
      if found.Ok? && found.value.Some? {
        RecoveryGainsNone(lib, authority, c, found.value.value);
        SameIssuancesSameGains(c, RecoverCommit(lib, authority, c, found.value.value).ca, c,
                               Issue(lib, authority, c, request, a).ca, authority, request, a);
      } else if found.Ok? && UniqueId(c, a.ids).Some? && UniqueSerial(lib, c, a.serials).Found? {
        UniqueIdIsFree(c, a.ids);
        FreshGains(lib, authority, c, request, a,
                   IntentFor(authority, request, a, UniqueId(c, a.ids).value, UniqueSerial(lib, c, a.serials).value));
      }
    }
  }
}
