/** What an accepting scan means: the directory is settled, cross-linked one to one, and a
    further scan accepts it without changing anything. */
module ScanMeaning {
  import opened Publication
  import opened Records
  import opened AuthorityState
  import opened Issuance
  import opened Scan
  import opened Advance

  ghost predicate AuditedAs(audits: Dir<nat>, commit: Commit, n: nat) {
    IssuedAt(audits, n, commit.issuanceId) && AgreesWithCommit(ParseAudit(audits[Final(n)]).value, commit)
  }

  predicate HoldsIn(d: Dir<File>, f: File, doc: Doc) {
    Final(f) in d && d[Final(f)] == Whole(doc)
  }

  /** An issuance with nothing left to recover. */
  ghost predicate IssuanceSettled(lib: Lib, authority: Id, c: Ca, id: Id) {
    && id in c.issuances
    && var d := c.issuances[id];
       && Load(lib, authority, d).Some?
       && var t := Load(lib, authority, d).value;
          && HoldsIn(d, CompleteFile, CompleteDoc(t.complete))
          && HoldsIn(d, AuditMarkFile, AuditMarkDoc(t.commit.issuanceId))
          && Final(t.commit.mapping.keyHash) in c.mappings
          && c.mappings[Final(t.commit.mapping.keyHash)] == Whole(MappingDoc(t.commit.mapping))
          && (exists n: nat :: AuditedAs(c.audits, t.commit, n))
          && Completed(lib, authority, d)
  }

  ghost predicate Settled(lib: Lib, authority: Id, c: Ca) {
    && !c.initPending
    && NoStaging(c)
    && AuditChainValid(lib, c.audits)
    && (forall id <- c.issuances.Keys :: IssuanceSettled(lib, authority, c, id))
    && ReservationsValid(lib, authority, c)
    && MappingsValid(authority, c)
    && QuarantinesDone(c)
  }

  // ---------- an accepting scan settles the state ----------

  lemma SettledStays(lib: Lib, authority: Id, c: Ca, c': Ca, id: Id)
    requires Advances(c, c') && IssuanceSettled(lib, authority, c, id)
    ensures IssuanceSettled(lib, authority, c', id)
  {
    var d, d' := c.issuances[id], c'.issuances[id];
    assert Kept(d, d');
    var t := Load(lib, authority, d).value;
    assert Load(lib, authority, d') == Some(t);
    var n: nat :| AuditedAs(c.audits, t.commit, n);
    assert AuditedAs(c'.audits, t.commit, n);
  }

  lemma {:induction false} SearchFindsIssued(audits: Dir<nat>, order: seq<nat>, id: Id)
    ensures SearchAudit(audits, order, id).Found? ==>
              exists n: nat :: IssuedAt(audits, n, id) && ParseAudit(audits[Final(n)]).value == SearchAudit(audits,
                  order, id).value
  {
    if order != [] && Final(order[0]) in audits && ParseAudit(audits[Final(order[0])]).Some? {
      if IsIssuedRecord(ParseAudit(audits[Final(order[0])]).value, id) {
        assert IssuedAt(audits, order[0], id);
      } else {
        SearchFindsIssued(audits, order[1..], id);
      }
    }
  }

  lemma EnsuredIsAudited(lib: Lib, c: Ca, commit: Commit)
    requires EnsureIssuanceAudit(lib, c, commit).Ok?
    ensures exists n: nat :: AuditedAs(EnsureIssuanceAudit(lib, c, commit).ca.audits, commit, n)
  {
    var order := lib.list(Finals(c.audits));
    SearchFindsIssued(c.audits, order, commit.issuanceId);
    var found := SearchAudit(c.audits, order, commit.issuanceId);
    if found.Found? {
      var n: nat :| IssuedAt(c.audits, n, commit.issuanceId) && ParseAudit(c.audits[Final(n)]).value == found.value;
      assert AuditedAs(c.audits, commit, n);
    } else {
      var next := NextAudit(lib, c.audits, IssuedRecord(commit));
      DestinationIsAbsentOrExact(c.audits, next.sequence, Whole(AuditDoc(next)), Empty,
            TornBlob(c.tear, Whole(AuditDoc(next))), c.fuel);
      assert AuditedAs(AppendAudit(lib, c, IssuedRecord(commit)).ca.audits, commit, next.sequence);
    }
  }

  lemma FileExactHolds(c: Ca, id: Id, f: File, doc: Doc)
    requires id in c.issuances && PublishFileExact(c, id, f, doc).Ok?
    ensures HoldsIn(PublishFileExact(c, id, f, doc).ca.issuances[id], f, doc)
    ensures NoStaging(c) ==> NoStaging(PublishFileExact(c, id, f, doc).ca)
  {
    var d := c.issuances[id];
    DestinationIsAbsentOrExact(d, f, Whole(doc), Empty, TornBlob(c.tear, Whole(doc)), c.fuel);
  }

  lemma TailStages(lib: Lib, c: Ca, id: Id, commit: Commit) returns (c2: Ca, c3: Ca, c4: Ca)
    requires id in c.issuances && Tail(lib, c, id, commit).Ok?
    ensures PublishMapping(c, commit.mapping) == Ok(c2, ())
    ensures EnsureIssuanceAudit(lib, c2, commit) == Ok(c3, ())
    ensures id in c3.issuances && PublishMark(c3, id, commit.issuanceId) == Ok(c4, ())
    ensures Tail(lib, c, id, commit) == Ok(c4, ())
  {
    c2 := PublishMapping(c, commit.mapping).ca;
    c3 := EnsureIssuanceAudit(lib, c2, commit).ca;
    c4 := PublishMark(c3, id, commit.issuanceId).ca;
  }

  /** The stages of a recovery that succeeds. */
  lemma RecoveryStages(lib: Lib, authority: Id, c: Ca, id: Id) returns (t: Transaction, c1: Ca, c2: Ca, c3: Ca, c4: Ca)
    requires RecoverCommit(lib, authority, c, id).Ok?
    ensures id in c.issuances && Load(lib, authority, c.issuances[id]) == Some(t)
    ensures PublishFileExact(c, id, CompleteFile, CompleteDoc(t.complete)) == Ok(c1, ())
    ensures PublishMapping(c1, t.commit.mapping) == Ok(c2, ())
    ensures EnsureIssuanceAudit(lib, c2, t.commit) == Ok(c3, ())
    ensures id in c3.issuances && PublishMark(c3, id, t.commit.issuanceId) == Ok(c4, ())
    ensures RecoverCommit(lib, authority, c, id) == Ok(c4, ())
  {
    t := Load(lib, authority, c.issuances[id]).value;
    c1 := PublishFileExact(c, id, CompleteFile, CompleteDoc(t.complete)).ca;
    c2, c3, c4 := TailStages(lib, c1, id, t.commit);
  }

  lemma MappingExactHolds(c: Ca, m: Mapping)
    requires PublishMapping(c, m).Ok?
    ensures Final(m.keyHash) in PublishMapping(c, m).ca.mappings
    ensures PublishMapping(c, m).ca.mappings[Final(m.keyHash)] == Whole(MappingDoc(m))
  {
    PublicationKeeps(c, c.mappings, m.keyHash, Whole(MappingDoc(m)));
  }

  lemma KeptIn(d: Dir<File>, e: Dir<File>, f: File, doc: Doc)
    requires Kept(d, e) && HoldsIn(d, f, doc)
    ensures HoldsIn(e, f, doc)
  {
  }

  lemma LoadStays(lib: Lib, authority: Id, d: Dir<File>, e: Dir<File>)
    requires Kept(d, e) && Load(lib, authority, d).Some?
    ensures Load(lib, authority, e) == Load(lib, authority, d)
  {
  }

  lemma RecoveryLeavesNoStaging(lib: Lib, authority: Id, c: Ca, id: Id)
    requires RecoverCommit(lib, authority, c, id).Ok? && NoStaging(c)
    ensures NoStaging(RecoverCommit(lib, authority, c, id).ca)
  {
    var t, c1, c2, c3, c4 := RecoveryStages(lib, authority, c, id);
    FileExactHolds(c, id, CompleteFile, CompleteDoc(t.complete));
    assert c2.issuances == c1.issuances == c3.issuances && c3.reservations == c1.reservations;
    FileExactHolds(c3, id, AuditMarkFile, AuditMarkDoc(t.commit.issuanceId));
  }

  /** What the disk holds once the audit record is in place. */
  ghost predicate Recorded(c: Ca, id: Id, t: Transaction) {
    && id in c.issuances
    && HoldsIn(c.issuances[id], CompleteFile, CompleteDoc(t.complete))
    && Final(t.commit.mapping.keyHash) in c.mappings
    && c.mappings[Final(t.commit.mapping.keyHash)] == Whole(MappingDoc(t.commit.mapping))
    && exists n: nat :: AuditedAs(c.audits, t.commit, n)
  }

  lemma AuditedIsRecorded(lib: Lib, c: Ca, id: Id, t: Transaction, c2: Ca)
    requires id in c.issuances && HoldsIn(c.issuances[id], CompleteFile, CompleteDoc(t.complete))
    requires PublishMapping(c, t.commit.mapping) == Ok(c2, ())
    requires EnsureIssuanceAudit(lib, c2, t.commit).Ok?
    ensures Recorded(EnsureIssuanceAudit(lib, c2, t.commit).ca, id, t)
  {
    MappingExactHolds(c, t.commit.mapping);
    EnsuredIsAudited(lib, c2, t.commit);
  }

  lemma MarkKeepsRecorded(c: Ca, id: Id, t: Transaction)
    requires Recorded(c, id, t) && PublishMark(c, id, t.commit.issuanceId).Ok?
    ensures var c4 := PublishMark(c, id, t.commit.issuanceId).ca;
            Recorded(c4, id, t) && HoldsIn(c4.issuances[id], AuditMarkFile, AuditMarkDoc(t.commit.issuanceId))
  {
    FileExactAdvances(c, id, AuditMarkFile, AuditMarkDoc(t.commit.issuanceId));
    FileExactHolds(c, id, AuditMarkFile, AuditMarkDoc(t.commit.issuanceId));
    KeptIn(c.issuances[id], PublishMark(c, id, t.commit.issuanceId).ca.issuances[id], CompleteFile,
          CompleteDoc(t.complete));
  }

  lemma RecoveryPublishes(lib: Lib, authority: Id, c: Ca, id: Id) returns (t: Transaction)
    requires RecoverCommit(lib, authority, c, id).Ok?
    ensures id in c.issuances && Load(lib, authority, c.issuances[id]) == Some(t)
    ensures var c4 := RecoverCommit(lib, authority, c, id).ca;
            Recorded(c4, id, t) && HoldsIn(c4.issuances[id], AuditMarkFile, AuditMarkDoc(t.commit.issuanceId))
  {
    var c1, c2, c3, c4;
    t, c1, c2, c3, c4 := RecoveryStages(lib, authority, c, id);
    FileExactHolds(c, id, CompleteFile, CompleteDoc(t.complete));
    AuditedIsRecorded(lib, c1, id, t, c2);
    MarkKeepsRecorded(c3, id, t);
  }

  lemma RecoverOneSettles(lib: Lib, authority: Id, c: Ca, id: Id)
    requires RecoverOne(lib, authority, c, id).Ok?
    ensures IssuanceSettled(lib, authority, RecoverOne(lib, authority, c, id).ca, id)
    ensures NoStaging(c) ==> NoStaging(RecoverOne(lib, authority, c, id).ca)
  {
    var t := RecoveryPublishes(lib, authority, c, id);
    var c4 := RecoverCommit(lib, authority, c, id).ca;
    RecoverCommitAdvances(lib, authority, c, id);
    LoadStays(lib, authority, c.issuances[id], c4.issuances[id]);
    if NoStaging(c) {
      RecoveryLeavesNoStaging(lib, authority, c, id);
    }
  }

  lemma SettledStaysToTheEnd(lib: Lib, authority: Id, c: Ca, order: seq<Id>, id: Id)
    requires IssuanceSettled(lib, authority, c, id)
    ensures IssuanceSettled(lib, authority, RecoverAll(lib, authority, c, order).ca, id)
  {
    RecoverAllAdvances(lib, authority, c, order);
    SettledStays(lib, authority, c, RecoverAll(lib, authority, c, order).ca, id);
  }

  lemma {:induction false} RecoverAllSettles(lib: Lib, authority: Id, c: Ca, order: seq<Id>)
    requires RecoverAll(lib, authority, c, order).Ok?
    ensures forall id <- order :: IssuanceSettled(lib, authority, RecoverAll(lib, authority, c, order).ca, id)
    ensures NoStaging(c) ==> NoStaging(RecoverAll(lib, authority, c, order).ca)
    decreases |order|
  {
    if order != [] {
      var c1 := RecoverOne(lib, authority, c, order[0]).ca;
      RecoverOneSettles(lib, authority, c, order[0]);
      RecoverAllSettles(lib, authority, c1, order[1..]);
      SettledStaysToTheEnd(lib, authority, c1, order[1..], order[0]);
      assert order == [order[0]] + order[1..];
    }
  }

  lemma ScanSettles(lib: Lib, authority: Id, c: Ca)
    requires LibOk(lib) && FullScan(lib, authority, c).Ok?
    ensures Settled(lib, authority, FullScan(lib, authority, c).ca)
  {
    var o1 := AdoptIntents(authority, c, lib.list(c.issuances.Keys));
    var o2 := AdoptReservations(authority, o1.ca, lib.list(Pendings(o1.ca.reservations)));
    var order := lib.list(o2.ca.issuances.Keys);
    RecoverAllSettles(lib, authority, o2.ca, order);
    FullScanAdvances(lib, authority, c);
    assert Enumerates(order, o2.ca.issuances.Keys);
  }

  // ---------- a settled state is a fixpoint of the scan ----------

  lemma {:induction false} SearchFindsTheOne(lib: Lib, audits: Dir<nat>, order: seq<nat>, id: Id, n: nat)
    requires AuditChainValid(lib, audits) && IssuedAt(audits, n, id) && n in order
    requires forall x <- order :: Final(x) in audits
    ensures SearchAudit(audits, order, id) == Found(ParseAudit(audits[Final(n)]).value)
  {
    assert AuditEntryValid(lib, audits, order[0]);
    if IssuedAt(audits, order[0], id) {
      assert order[0] == n;
    } else {
      assert order == [order[0]] + order[1..];
      SearchFindsTheOne(lib, audits, order[1..], id, n);
    }
  }

  lemma AuditedNeedsNothing(lib: Lib, c: Ca, commit: Commit)
    requires LibOk(lib) && AuditChainValid(lib, c.audits) && exists n: nat :: AuditedAs(c.audits, commit, n)
    ensures EnsureIssuanceAudit(lib, c, commit) == Ok(c, ())
  {
    var n: nat :| AuditedAs(c.audits, commit, n);
    var order := lib.list(Finals(c.audits));
    assert Enumerates(order, Finals(c.audits));
    assert Final(n) in c.audits.Keys;
    SearchFindsTheOne(lib, c.audits, order, commit.issuanceId, n);
  }

  lemma HeldNeedsNothing(c: Ca, id: Id, f: File, doc: Doc)
    requires id in c.issuances && HoldsIn(c.issuances[id], f, doc)
    ensures PublishFileExact(c, id, f, doc) == Ok(c, ())
  {
    assert c.issuances[id := c.issuances[id]] == c.issuances;
  }

  lemma SettledNeedsNothing(lib: Lib, authority: Id, c: Ca, id: Id)
    requires LibOk(lib) && AuditChainValid(lib, c.audits) && IssuanceSettled(lib, authority, c, id)
    ensures RecoverCommit(lib, authority, c, id) == Ok(c, ())
    ensures RecoverOne(lib, authority, c, id) == Ok(c, ())
  {
    var t := Load(lib, authority, c.issuances[id]).value;
    HeldNeedsNothing(c, id, CompleteFile, CompleteDoc(t.complete));
    AuditedNeedsNothing(lib, c, t.commit);
    HeldNeedsNothing(c, id, AuditMarkFile, AuditMarkDoc(t.commit.issuanceId));
  }

  lemma {:induction false} AllSettledNeedNothing(lib: Lib, authority: Id, c: Ca, order: seq<Id>)
    requires LibOk(lib) && AuditChainValid(lib, c.audits)
          && forall id <- order :: IssuanceSettled(lib, authority, c, id)
    ensures RecoverAll(lib, authority, c, order) == Ok(c, ())
    decreases |order|
  {
    if order != [] {
      SettledNeedsNothing(lib, authority, c, order[0]);
      AllSettledNeedNothing(lib, authority, c, order[1..]);
    }
  }

  /** Recovering in order passes over settled issuances to the one that is not. */
  lemma {:induction false} SkipsSettled(lib: Lib, authority: Id, c: Ca, order: seq<Id>, id: Id) returns (rest: seq<Id>)
    requires LibOk(lib) && AuditChainValid(lib, c.audits) && id in order
    requires forall x <- order :: x != id ==> IssuanceSettled(lib, authority, c, x)
    ensures forall x <- rest :: x in order
    ensures var one := RecoverOne(lib, authority, c, id);
            RecoverAll(lib, authority, c, order) == if one.Err? then one else RecoverAll(lib, authority, one.ca, rest)
    decreases |order|
  {
    assert order == [order[0]] + order[1..];
    if order[0] == id {
      rest := order[1..];
    } else {
      SettledNeedsNothing(lib, authority, c, order[0]);
      rest := SkipsSettled(lib, authority, c, order[1..], id);
    }
  }

  lemma {:induction false} NothingToAdopt(authority: Id, c: Ca, order: seq<Id>)
    requires forall id <- order :: id in c.issuances ==> Pending(IntentFile) !in c.issuances[id]
    ensures AdoptIntents(authority, c, order) == Ok(c, ())
    decreases |order|
  {
    if order != [] {
      NothingToAdopt(authority, c, order[1..]);
    }
  }

  lemma StagingIsRecovered(lib: Lib, authority: Id, c: Ca)
    requires LibOk(lib) && NoStaging(c)
    ensures RecoverStaging(lib, authority, c) == Ok(c, ())
  {
    NothingToAdopt(authority, c, lib.list(c.issuances.Keys));
    assert Pendings(c.reservations) == {};
    NothingListed(lib);
  }

  lemma NothingListed(lib: Lib)
    requires LibOk(lib)
    ensures lib.list({}) == []
  {
    var listed := lib.list({});
    assert Enumerates(listed, {});
    if listed != [] {
      HasElement(listed);
    }
  }

  lemma HasElement(s: seq<nat>)
    requires s != []
    ensures exists x :: x in s
  {
    assert s[0] in s;
  }

  /** The scan accepts exactly the settled states among those it leaves alone, and whatever
      it accepts it has turned into one: scanning twice is scanning once. */
  lemma ScanIsIdempotent(lib: Lib, authority: Id, c: Ca)
    requires LibOk(lib)
    ensures Settled(lib, authority, c) <==> FullScan(lib, authority, c) == Ok(c, ())
    ensures FullScan(lib, authority, c).Ok? ==>
              FullScan(lib, authority, FullScan(lib, authority, c).ca) == Ok(FullScan(lib, authority, c).ca, ())
  {
    if FullScan(lib, authority, c).Ok? {
      ScanSettles(lib, authority, c);
      SettledScans(lib, authority, FullScan(lib, authority, c).ca);
    }
    if Settled(lib, authority, c) {
      SettledScans(lib, authority, c);
    }
  }

  lemma SettledScans(lib: Lib, authority: Id, c: Ca)
    requires LibOk(lib) && Settled(lib, authority, c)
    ensures FullScan(lib, authority, c) == Ok(c, ())
  {
    StagingIsRecovered(lib, authority, c);
    var order := lib.list(c.issuances.Keys);
    assert Enumerates(order, c.issuances.Keys);
    AllSettledNeedNothing(lib, authority, c, order);
  }

  // ---------- cross-links ----------

  ghost predicate KeyOf(c: Ca, id: Id, key: Digest) {
    Has(c, id, IntentFile) && ParseIntent(FileOf(c, id, IntentFile)).Some?
    && ParseIntent(FileOf(c, id, IntentFile)).value.keyHash == key
  }

  /** Every record of the issuance names the directory it lies in. */
  ghost predicate NamesAgree(lib: Lib, authority: Id, c: Ca, id: Id) {
    && id in c.issuances
    && Load(lib, authority, c.issuances[id]).Some?
    && var t := Load(lib, authority, c.issuances[id]).value;
       t.intent.issuanceId == id && t.record.issuanceId == id && t.commit.issuanceId == id
       && t.commit.mapping.issuanceId == id && t.complete.issuanceId == id
       && t.record.serial == t.intent.serial
  }

  ghost predicate MapsTo(c: Ca, key: Digest, id: Id) {
    && Final(key) in c.mappings && ParseMapping(c.mappings[Final(key)]).Some?
    && ParseMapping(c.mappings[Final(key)]).value.issuanceId == id
  }

  lemma SettledNamesAgree(lib: Lib, authority: Id, c: Ca, id: Id)
    requires Settled(lib, authority, c) && id in c.issuances
    ensures NamesAgree(lib, authority, c, id)
  {
    assert IssuanceSettled(lib, authority, c, id);
    assert IsReserved(c, id);
    var s: Id, r: Reservation :| ReservedAt(c, s, r) && r.issuanceId == id;
    assert ReservationValid(lib, authority, c, r);
  }

  /** In a state the scan accepts, issuances, idempotency mappings and their reservations
      correspond one to one, every name agrees with its directory, no two issuances share a
      key, and each issuance has exactly one certificate record in the audit chain. */
  lemma AcceptedStateIsConsistent(lib: Lib, authority: Id, c: Ca)
    requires LibOk(lib) && FullScan(lib, authority, c).Ok?
    ensures var s := FullScan(lib, authority, c).ca;
            && (forall id <- s.issuances.Keys :: NamesAgree(lib, authority, s, id))
            && (forall id <- s.issuances.Keys :: exists key: Digest :: KeyOf(s, id, key) && MapsTo(s, key, id))
            && (forall key: Digest, id: Id :: MapsTo(s, key, id) ==> KeyOf(s, id, key))
            && (forall id: Id, other: Id, key: Digest :: KeyOf(s, id, key) && KeyOf(s, other, key) ==> id == other)
            && (forall id <- s.issuances.Keys :: exists n: nat :: IssuedAt(s.audits, n, id))
            && (forall n: nat, m: nat, id: Id :: IssuedAt(s.audits, n, id) && IssuedAt(s.audits, m, id) ==> n == m)
  {
    ScanSettles(lib, authority, c);
    var s := FullScan(lib, authority, c).ca;
    forall id <- s.issuances.Keys
      ensures NamesAgree(lib, authority, s, id)
      ensures exists key: Digest :: KeyOf(s, id, key) && MapsTo(s, key, id)
      ensures exists n: nat :: IssuedAt(s.audits, n, id)
    {
      SettledNamesAgree(lib, authority, s, id);
      LinksOut(lib, authority, s, id);
    }
    forall key: Digest, id: Id | MapsTo(s, key, id) ensures KeyOf(s, id, key) {
      MappingLinksBack(lib, authority, s, key, id);
    }
    forall id: Id, other: Id, key: Digest | KeyOf(s, id, key) && KeyOf(s, other, key) ensures id == other {
      KeysDiffer(lib, authority, s, id, other, key);
    }
  }

  lemma LinksOut(lib: Lib, authority: Id, s: Ca, id: Id)
    requires Settled(lib, authority, s) && NamesAgree(lib, authority, s, id)
    ensures exists key: Digest :: KeyOf(s, id, key) && MapsTo(s, key, id)
    ensures exists n: nat :: IssuedAt(s.audits, n, id)
  {
    assert IssuanceSettled(lib, authority, s, id);
    var t := Load(lib, authority, s.issuances[id]).value;
    assert KeyOf(s, id, t.intent.keyHash) && MapsTo(s, t.intent.keyHash, id);
    var n: nat :| AuditedAs(s.audits, t.commit, n);
    assert IssuedAt(s.audits, n, id);
  }

  lemma MappingLinksBack(lib: Lib, authority: Id, s: Ca, key: Digest, id: Id)
    requires Settled(lib, authority, s) && MapsTo(s, key, id)
    ensures KeyOf(s, id, key)
  {
    var m := ParseMapping(s.mappings[Final(key)]).value;
    assert MappingValid(authority, s, key, m);
    assert IssuanceSettled(lib, authority, s, id);
  }

  lemma KeysDiffer(lib: Lib, authority: Id, s: Ca, id: Id, other: Id, key: Digest)
    requires Settled(lib, authority, s) && KeyOf(s, id, key) && KeyOf(s, other, key)
    ensures id == other
  {
    SettledNamesAgree(lib, authority, s, id);
    SettledNamesAgree(lib, authority, s, other);
    assert IssuanceSettled(lib, authority, s, id) && IssuanceSettled(lib, authority, s, other);
  }

  /** The issuance side of the reservations: each active issuance has exactly one
      reservation file, and it carries the issuance's serial. */
  lemma ReservationsCorrespond(lib: Lib, authority: Id, c: Ca)
    requires LibOk(lib) && FullScan(lib, authority, c).Ok?
    ensures var s := FullScan(lib, authority, c).ca;
            forall id <- s.issuances.Keys ::
              && (exists n: Id, r: Reservation :: ReservedAt(s, n, r) && r.issuanceId == id)
              && (forall n: Id, r: Reservation, m: Id, q: Reservation ::
                    ReservedAt(s, n, r) && ReservedAt(s, m, q) && r.issuanceId == id && q.issuanceId == id ==> n == m)
              && (forall n: Id, r: Reservation :: ReservedAt(s, n, r) && r.issuanceId == id ==>
                    Load(lib, authority, s.issuances[id]).Some? && r.serial
                        == Load(lib, authority, s.issuances[id]).value.intent.serial)
  {
    ScanSettles(lib, authority, c);
    var s := FullScan(lib, authority, c).ca;
    forall id <- s.issuances.Keys, n: Id, r: Reservation | ReservedAt(s, n, r) && r.issuanceId == id
      ensures Load(lib, authority, s.issuances[id]).Some?
      ensures r.serial == Load(lib, authority, s.issuances[id]).value.intent.serial
    {
      assert IssuanceSettled(lib, authority, s, id);
      assert ReservationValid(lib, authority, s, r);
    }
  }
}
