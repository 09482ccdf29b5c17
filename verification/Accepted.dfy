/** What the scan accepts, spelled out file by file. */
module Accepted {
  import opened Publication
  import opened Records
  import opened AuthorityState
  import opened Issuance
  import opened Scan
  import opened Enrolled
  import AuditChain
  import ScanMeaning

  // ---------- the audit log ----------

  /** Entry `n` carries its number and the digest of the entry before. */
  ghost predicate EntryIs(lib: Lib, audits: Dir<nat>, n: nat, entry: Audit) {
    && Final(n) in audits && ParseAudit(audits[Final(n)]) == Some(entry)
    && entry.sequence == n
    && (n == 0 ==> entry.prior == None)
    && (n > 0 ==> Final(n - 1) in audits && entry.prior == Some(lib.sha(audits[Final(n - 1)])))
    && (entry.kind == CertificateIssued ==> entry.issuanceId.Some?)
  }

  ghost predicate HasEntry(lib: Lib, audits: Dir<nat>, n: nat) {
    exists entry: Audit :: EntryIs(lib, audits, n, entry)
  }

  ghost predicate SaysIssued(lib: Lib, audits: Dir<nat>, n: nat, id: Id) {
    exists entry: Audit ::
      EntryIs(lib, audits, n, entry) && entry.kind == CertificateIssued && entry.issuanceId == Some(id)
  }

  /** The log is a chain without a gap in which no issuance is recorded twice. */
  ghost predicate LogIs(lib: Lib, audits: Dir<nat>, length: nat) {
    && (forall n: nat :: Final(n) in audits <==> n < length)
    && (forall n: nat :: n < length ==> HasEntry(lib, audits, n))
    && (forall n: nat, m: nat, id: Id :: SaysIssued(lib, audits, n, id) && SaysIssued(lib, audits, m, id) ==> n == m)
  }

  lemma {:induction false} BelowIs(n: nat, s: set<nat>)
    requires forall k: nat :: k in s <==> k < n
    ensures |s| == n
  {
    if n == 0 {
      assert s == {};
    } else {
      BelowIs(n - 1, s - {n - 1});
    }
  }

  lemma EntriesAre(lib: Lib, audits: Dir<nat>, n: nat)
    ensures AuditEntryValid(lib, audits, n) <==> HasEntry(lib, audits, n)
  {
    if AuditEntryValid(lib, audits, n) {
      assert EntryIs(lib, audits, n, ParseAudit(audits[Final(n)]).value);
    }
  }

  lemma IssuedIs(lib: Lib, audits: Dir<nat>, n: nat, id: Id)
    requires AuditEntryValid(lib, audits, n)
    ensures IssuedAt(audits, n, id) <==> SaysIssued(lib, audits, n, id)
  {
    assert EntryIs(lib, audits, n, ParseAudit(audits[Final(n)]).value);
  }

  lemma LogExactly(lib: Lib, audits: Dir<nat>)
    ensures AuditChainValid(lib, audits) <==> exists length: nat :: LogIs(lib, audits, length)
  {
    AuditChain.FinalsAre(audits);
    forall n: nat ensures AuditEntryValid(lib, audits, n) <==> HasEntry(lib, audits, n) {
      EntriesAre(lib, audits, n);
    }
    forall n: nat, id: Id | AuditEntryValid(lib, audits, n)
      ensures IssuedAt(audits, n, id) <==> SaysIssued(lib, audits, n, id)
    {
      IssuedIs(lib, audits, n, id);
    }
    if AuditChainValid(lib, audits) {
      assert LogIs(lib, audits, |Finals(audits)|);
    }
    if length: nat :| LogIs(lib, audits, length) {
      BelowIs(length, Finals(audits));
    }
  }

  // ---------- an issuance ----------

  /** The issuance is recovered, and its record repeats its identifier, serial and size. */
  ghost predicate FinishedAs(lib: Lib, authority: Id, c: Ca, id: Id, i: Intent, r: Record, k: Commit) {
    && Recovered(lib, authority, c, id, i, r, k)
    && FileOf(c, id, CompleteFile) == Whole(CompleteDoc(Complete(1, i.issuanceId, authority,
         lib.sha(FileOf(c, id, IntentFile)), r.certificateSha, lib.sha(FileOf(c, id, RecordFile)))))
    && r.issuanceId == i.issuanceId && r.serial == i.serial
    && r.certificateSize == lib.size(FileOf(c, id, CertificateFile))
  }

  /** The completion check alone: intent, record and COMPLETE agree, and the digests and the size
      are those of the files. */
  lemma CompletedExactly(lib: Lib, authority: Id, d: Dir<File>)
    ensures Completed(lib, authority, d) <==>
              exists i: Intent, r: Record, k: Complete ::
                && Final(IntentFile) in d && ParseIntent(d[Final(IntentFile)]) == Some(i)
                && Final(RecordFile) in d && ParseRecord(d[Final(RecordFile)]) == Some(r)
                && Final(CompleteFile) in d && ParseComplete(d[Final(CompleteFile)]) == Some(k)
                && Final(CertificateFile) in d
                && i.authorityId == authority && r.authorityId == authority && k.authorityId == authority
                && r.issuanceId == i.issuanceId && k.issuanceId == i.issuanceId && r.serial == i.serial
                && r.certificateSha == lib.sha(d[Final(CertificateFile)])
                && r.certificateSize == lib.size(d[Final(CertificateFile)])
                && k.certificateSha == lib.sha(d[Final(CertificateFile)])
                && k.intentSha == lib.sha(d[Final(IntentFile)]) && k.recordSha == lib.sha(d[Final(RecordFile)])
  {
  }

  lemma AuditedIs(audits: Dir<nat>, k: Commit)
    ensures Logged(audits, k) <==> exists n: nat :: ScanMeaning.AuditedAs(audits, k, n)
  {
    if n: nat :| ScanMeaning.AuditedAs(audits, k, n) {
      assert Logs(ParseAudit(audits[Final(n)]).value, k);
    }
    if Logged(audits, k) {
      var n: nat :| Final(n) in audits && ParseAudit(audits[Final(n)]).Some?
                    && Logs(ParseAudit(audits[Final(n)]).value, k);
      assert ScanMeaning.AuditedAs(audits, k, n);
    }
  }

  lemma FinishedIsSettled(lib: Lib, authority: Id, c: Ca, id: Id, i: Intent, r: Record, k: Commit)
    requires FinishedAs(lib, authority, c, id, i, r, k)
    ensures ScanMeaning.IssuanceSettled(lib, authority, c, id)
  {
    var m := FileOf(c, id, CompleteFile).doc.complete;
    LoadExactly(lib, authority, c.issuances[id], Transaction(i, r, k, m));
    AuditedIs(c.audits, k);
  }

  lemma SettledIsFinished(lib: Lib, authority: Id, c: Ca, id: Id)
    requires ScanMeaning.IssuanceSettled(lib, authority, c, id)
    ensures var t := Load(lib, authority, c.issuances[id]).value;
            FinishedAs(lib, authority, c, id, t.intent, t.record, t.commit)
  {
    var t := Load(lib, authority, c.issuances[id]).value;
    LoadExactly(lib, authority, c.issuances[id], t);
    AuditedIs(c.audits, t.commit);
  }

  // ---------- reservations ----------

  /** The quarantine is closed, and its note names the issuance and the serial. */
  ghost predicate IsClosedFor(c: Ca, q: Id, r: Reservation) {
    && q in c.quarantines && Final(QuarantinedNote) in c.quarantines[q].notes
    && Final(PreparedNote) in c.quarantines[q].notes
    && ParsePrepared(c.quarantines[q].notes[Final(PreparedNote)]).Some?
    && var p := ParsePrepared(c.quarantines[q].notes[Final(PreparedNote)]).value;
       p.issuanceId == r.issuanceId && p.serial == Some(r.serial)
  }

  /** Not closed, or closed with a readable note that names something else. */
  ghost predicate IsOther(c: Ca, q: Id, r: Reservation) {
    && q in c.quarantines
    && (Final(PreparedNote) in c.quarantines[q].notes && Final(QuarantinedNote) in c.quarantines[q].notes ==>
          && ParsePrepared(c.quarantines[q].notes[Final(PreparedNote)]).Some?
          && var p := ParsePrepared(c.quarantines[q].notes[Final(PreparedNote)]).value;
             p.issuanceId != r.issuanceId || p.serial != Some(r.serial))
  }

  ghost predicate HoldsEqual(c: Ca, q: Id, r: Reservation) {
    && q in c.quarantines && c.quarantines[q].original.Some?
    && Final(ReservationCopy) in c.quarantines[q].original.value
    && ParseReservation(c.quarantines[q].original.value[Final(ReservationCopy)]) == Some(r)
  }

  /** The first closed quarantine for the reservation, in the order listed, holds an equal copy. */
  ghost predicate FirstHoldsCopy(c: Ca, order: seq<Id>, r: Reservation) {
    exists n: nat :: n < |order| && IsClosedFor(c, order[n], r) && HoldsEqual(c, order[n], r)
                     && forall j: nat :: j < n ==> IsOther(c, order[j], r)
  }

  lemma {:induction false} MatchExactly(c: Ca, order: seq<Id>, r: Reservation)
    ensures MatchesQuarantine(c, order, r) <==> FirstHoldsCopy(c, order, r)
  {
    if order != [] {
      MatchExactly(c, order[1..], r);
      if FirstHoldsCopy(c, order[1..], r) && IsOther(c, order[0], r) {
        var n: nat :| n < |order| - 1 && IsClosedFor(c, order[1..][n], r) && HoldsEqual(c, order[1..][n], r)
                      && forall j: nat :: j < n ==> IsOther(c, order[1..][j], r);
        assert order[n + 1] == order[1..][n];
        assert forall j: nat :: 0 < j < n + 1 ==> order[j] == order[1..][j - 1];
        assert FirstHoldsCopy(c, order, r);
      }
      if n: nat :| n < |order| && IsClosedFor(c, order[n], r) && HoldsEqual(c, order[n], r)
                   && forall j: nat :: j < n ==> IsOther(c, order[j], r) {
        if n > 0 {
          assert order[1..][n - 1] == order[n];
          assert forall j: nat :: j < n - 1 ==> order[1..][j] == order[j + 1];
          assert IsOther(c, order[0], r) && FirstHoldsCopy(c, order[1..], r);
        }
      }
    }
  }

  /** The reservation is that of an active issuance or of a closed quarantine. */
  ghost predicate ReservationIs(lib: Lib, authority: Id, c: Ca, r: Reservation) {
    && r.authorityId == authority
    && (Has(c, r.issuanceId, IntentFile) ==>
          exists i: Intent :: ParseIntent(FileOf(c, r.issuanceId, IntentFile)) == Some(i)
                              && i.serial == r.serial && i.issuanceId == r.issuanceId)
    && (!Has(c, r.issuanceId, IntentFile) ==> FirstHoldsCopy(c, lib.list(c.quarantines.Keys), r))
  }

  lemma ReservationExactly(lib: Lib, authority: Id, c: Ca, r: Reservation)
    ensures ReservationValid(lib, authority, c, r) <==> ReservationIs(lib, authority, c, r)
  {
    MatchExactly(c, lib.list(c.quarantines.Keys), r);
  }

  ghost predicate ReservedUnder(c: Ca, s: Id, r: Reservation) {
    Final(s) in c.reservations && ParseReservation(c.reservations[Final(s)]) == Some(r)
  }

  /** Each active issuance is reserved exactly once, and each reservation is accounted for. */
  ghost predicate ReservationsAre(lib: Lib, authority: Id, c: Ca) {
    && (forall s: Id :: Final(s) in c.reservations ==> exists r: Reservation :: ReservedUnder(c, s, r))
    && (forall s: Id, r: Reservation :: ReservedUnder(c, s, r) ==> ReservationIs(lib, authority, c, r))
    && (forall s: Id, t: Id, r: Reservation, q: Reservation ::
          ReservedUnder(c, s, r) && ReservedUnder(c, t, q) && r.issuanceId == q.issuanceId ==> s == t)
    && (forall id <- c.issuances.Keys :: exists s: Id, r: Reservation :: ReservedUnder(c, s, r) && r.issuanceId == id)
  }

  lemma ReservationsExactly(lib: Lib, authority: Id, c: Ca)
    ensures ReservationsValid(lib, authority, c) <==> ReservationsAre(lib, authority, c)
  {
    forall r: Reservation ensures ReservationValid(lib, authority, c, r) <==> ReservationIs(lib, authority, c, r) {
      ReservationExactly(lib, authority, c, r);
    }
    assert forall s: Id, r: Reservation :: ReservedAt(c, s, r) <==> ReservedUnder(c, s, r);
    if ReservationsValid(lib, authority, c) {
      forall s: Id | Final(s) in c.reservations ensures exists r: Reservation :: ReservedUnder(c, s, r) {
        assert ReservedUnder(c, s, ParseReservation(c.reservations[Final(s)]).value);
      }
      forall id <- c.issuances.Keys
        ensures exists s: Id, r: Reservation :: ReservedUnder(c, s, r) && r.issuanceId == id
      {
        assert IsReserved(c, id);
      }
    }
  }

  // ---------- the index and the quarantines ----------

  /** The mapping is the one in the commit of the issuance it names, under its own key. */
  ghost predicate MappingIs(authority: Id, c: Ca, key: Digest, m: Mapping) {
    && Final(key) in c.mappings && ParseMapping(c.mappings[Final(key)]) == Some(m) && m.keyHash == key
    && exists k: Commit ::
         && Has(c, m.issuanceId, CommitFile) && ParseCommit(FileOf(c, m.issuanceId, CommitFile)) == Some(k)
         && k.mapping == m && k.authorityId == authority
  }

  predicate ClosedQuarantine(x: Quarantined) {
    x.original.Some? && Final(PreparedNote) in x.notes && Final(QuarantinedNote) in x.notes
  }

  ghost predicate NothingStaged(c: Ca) {
    && (forall id <- c.issuances.Keys, f: File :: Pending(f) !in c.issuances[id])
    && (forall s: Id :: Pending(s) !in c.reservations)
  }

  /** What a state the scan accepts and leaves alone looks like. */
  ghost predicate Accepted(lib: Lib, authority: Id, c: Ca) {
    && !c.initPending
    && NothingStaged(c)
    && (exists length: nat :: LogIs(lib, c.audits, length))
    && (forall id <- c.issuances.Keys ::
          exists i: Intent, r: Record, k: Commit :: FinishedAs(lib, authority, c, id, i, r, k))
    && ReservationsAre(lib, authority, c)
    && (forall key: Digest :: Final(key) in c.mappings ==> exists m: Mapping :: MappingIs(authority, c, key, m))
    && (forall q <- c.quarantines.Keys :: ClosedQuarantine(c.quarantines[q]))
  }

  lemma MappingsExactly(authority: Id, c: Ca)
    ensures MappingsValid(authority, c) <==>
              forall key: Digest :: Final(key) in c.mappings ==> exists m: Mapping :: MappingIs(authority, c, key, m)
  {
    forall key: Digest | Final(key) in c.mappings
      ensures (ParseMapping(c.mappings[Final(key)]).Some?
               && MappingValid(authority, c, key, ParseMapping(c.mappings[Final(key)]).value))
              <==> exists m: Mapping :: MappingIs(authority, c, key, m)
    {
      if ParseMapping(c.mappings[Final(key)]).Some? {
        var m := ParseMapping(c.mappings[Final(key)]).value;
        assert MappingValid(authority, c, key, m) <==> MappingIs(authority, c, key, m);
      }
    }
  }

  lemma IssuancesExactly(lib: Lib, authority: Id, c: Ca)
    ensures (forall id <- c.issuances.Keys :: ScanMeaning.IssuanceSettled(lib, authority, c, id)) <==>
              forall id <- c.issuances.Keys :: exists i: Intent, r: Record, k: Commit ::
                FinishedAs(lib, authority, c, id, i, r, k)
  {
    forall id <- c.issuances.Keys
      ensures ScanMeaning.IssuanceSettled(lib, authority, c, id)
              <==> exists i: Intent, r: Record, k: Commit :: FinishedAs(lib, authority, c, id, i, r, k)
    {
      if ScanMeaning.IssuanceSettled(lib, authority, c, id) {
        SettledIsFinished(lib, authority, c, id);
      }
      if i: Intent, r: Record, k: Commit :| FinishedAs(lib, authority, c, id, i, r, k) {
        FinishedIsSettled(lib, authority, c, id, i, r, k);
      }
    }
  }

  /** The scan accepts a state and leaves it alone exactly when it is as described, and whatever
      it accepts it has brought there. */
  lemma AcceptsExactly(lib: Lib, authority: Id, c: Ca)
    requires LibOk(lib)
    ensures FullScan(lib, authority, c) == Ok(c, ()) <==> Accepted(lib, authority, c)
    ensures FullScan(lib, authority, c).Ok? ==> Accepted(lib, authority, FullScan(lib, authority, c).ca)
  {
    ScanMeaning.ScanIsIdempotent(lib, authority, c);
    SettledExactly(lib, authority, c);
    if FullScan(lib, authority, c).Ok? {
      ScanMeaning.ScanSettles(lib, authority, c);
      SettledExactly(lib, authority, FullScan(lib, authority, c).ca);
    }
  }

  lemma SettledExactly(lib: Lib, authority: Id, c: Ca)
    ensures ScanMeaning.Settled(lib, authority, c) <==> Accepted(lib, authority, c)
  {
    LogExactly(lib, c.audits);
    IssuancesExactly(lib, authority, c);
    ReservationsExactly(lib, authority, c);
    MappingsExactly(authority, c);
    assert NoStaging(c) <==> NothingStaged(c);
    assert QuarantinesDone(c) <==> forall q <- c.quarantines.Keys :: ClosedQuarantine(c.quarantines[q]);
  }
}
