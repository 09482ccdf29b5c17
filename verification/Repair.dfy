/** Every state an enrollment can stop in, and exactly which of them can be repaired. */
module Repair {
  import opened Publication
  import opened Records
  import opened AuthorityState
  import opened Issuance
  import opened Scan
  import opened CleanState
  import opened Finish
  import Advance
  import AuditChain
  import QuarantineCommand
  import Recovery
  import ScanMeaning
  import WreckQuarantine

  // ---------- a finished enrollment is clean ----------

  /** `c` is `c0` with the enrollment of `p` finished, up to history and fuel. */
  ghost predicate IsFinished(lib: Lib, c0: Ca, c: Ca, p: Plan) {
    c == Finished(lib, c0, c, p) && c.initPending == c0.initPending && c.quarantines == c0.quarantines
  }

  lemma FinishedSettles(lib: Lib, authority: Id, c0: Ca, c: Ca, p: Plan)
    requires Fits(authority, c0, p) && IsFinished(lib, c0, c, p)
    ensures ScanMeaning.IssuanceSettled(lib, authority, c, p.intent.issuanceId)
  {
    SixFilesLoad(lib, authority, p);
    RecordedIsAudited(lib, c0, p);
  }

  lemma SixFilesLoad(lib: Lib, authority: Id, p: Plan)
    requires p.intent.authorityId == authority
    ensures var d := SixFiles(lib, p);
            && Load(lib, authority, d)
                == Some(Transaction(p.intent, RecordOf(lib, p), CommitOf(lib, p), CompleteOf(lib, p)))
            && ScanMeaning.HoldsIn(d, CompleteFile, CompleteDoc(CompleteOf(lib, p)))
            && ScanMeaning.HoldsIn(d, AuditMarkFile, AuditMarkDoc(p.intent.issuanceId))
            && Completed(lib, authority, d)
  {
    var d := SixFiles(lib, p);
    assert Progress(FiveFiles(lib, p), d, AuditMarkFile, AuditMarkDoc(p.intent.issuanceId));
    LoadsAsPlanned(lib, authority, d, p);
  }

  lemma FinishedReservedBefore(lib: Lib, authority: Id, c0: Ca, c: Ca, p: Plan, u: Id, r: Reservation)
    requires IsFinished(lib, c0, c, p) && ReservedAt(c, u, r)
    ensures ReservedAt(c0, u, r) || (u == p.intent.serial && r == ReservationFor(p.intent))
  {
  }

  lemma FinishedEachAccounted(lib: Lib, authority: Id, c0: Ca, c: Ca, p: Plan, u: Id, r: Reservation)
    requires ReservationsAccounted(authority, c0) && Fits(authority, c0, p) && IsFinished(lib, c0, c, p)
    requires ReservedAt(c, u, r)
    ensures r.authorityId == authority
    ensures if Has(c, r.issuanceId, IntentFile) then
              var parsed := ParseIntent(FileOf(c, r.issuanceId, IntentFile));
              parsed.Some? && r.serial == parsed.value.serial && r.issuanceId == parsed.value.issuanceId
            else Copied(c, r)
  {
    FinishedReservedBefore(lib, authority, c0, c, p, u, r);
    if ReservedAt(c0, u, r) {
      assert c.issuances == c0.issuances[p.intent.issuanceId := SixFiles(lib, p)];
      assert Has(c, r.issuanceId, IntentFile) == Has(c0, r.issuanceId, IntentFile);
      if !Has(c0, r.issuanceId, IntentFile) {
        SameQuarantinesSameCopies(c0, c, r);
      }
    } else {
      assert Has(c, p.intent.issuanceId, IntentFile);
    }
  }

  lemma FinishedReserved(lib: Lib, authority: Id, c0: Ca, c: Ca, p: Plan, x: Id)
    requires ReservationsAccounted(authority, c0) && Fits(authority, c0, p) && IsFinished(lib, c0, c, p)
    requires x in c.issuances
    ensures IsReserved(c, x)
  {
    if x == p.intent.issuanceId {
      assert ReservedAt(c, p.intent.serial, ReservationFor(p.intent));
    } else {
      assert x in c0.issuances && IsReserved(c0, x);
      var u: Id, r: Reservation :| ReservedAt(c0, u, r) && r.issuanceId == x;
      assert ReservedAt(c, u, r);
    }
  }

  lemma FinishedReservations(lib: Lib, authority: Id, c0: Ca, c: Ca, p: Plan)
    requires ReservationsAccounted(authority, c0) && Fits(authority, c0, p) && IsFinished(lib, c0, c, p)
    ensures ReservationsAccounted(authority, c)
  {
    forall u: Id, r: Reservation | ReservedAt(c, u, r)
      ensures r.authorityId == authority
              && if Has(c, r.issuanceId, IntentFile) then
                   var parsed := ParseIntent(FileOf(c, r.issuanceId, IntentFile));
                   parsed.Some? && r.serial == parsed.value.serial && r.issuanceId == parsed.value.issuanceId
                 else Copied(c, r)
    {
      FinishedEachAccounted(lib, authority, c0, c, p, u, r);
    }
    forall u: Id, v: Id, r: Reservation,
          q: Reservation | ReservedAt(c, u, r) && ReservedAt(c, v, q) && r.issuanceId == q.issuanceId
      ensures u == v
    {
      FinishedReservedBefore(lib, authority, c0, c, p, u, r);
      FinishedReservedBefore(lib, authority, c0, c, p, v, q);
    }
    forall x <- c.issuances.Keys ensures IsReserved(c, x) {
      FinishedReserved(lib, authority, c0, c, p, x);
    }
  }

  lemma SameQuarantinesSameCopies(c0: Ca, c: Ca, r: Reservation)
    requires c.quarantines == c0.quarantines && Copied(c0, r)
    ensures Copied(c, r)
  {
    var q: Id :| Names(c0, q, r);
    assert Names(c, q, r);
    forall y: Id | Names(c, y, r) ensures HoldsCopy(c.quarantines[y], r) {
      assert Names(c0, y, r);
    }
  }

  lemma FinishedMappings(lib: Lib, authority: Id, c0: Ca, c: Ca, p: Plan)
    requires MappingsValid(authority, c0) && Fits(authority, c0, p) && IsFinished(lib, c0, c, p)
    ensures MappingsValid(authority, c)
  {
    forall key: Digest | Final(key) in c.mappings
      ensures ParseMapping(c.mappings[Final(key)]).Some?
      ensures MappingValid(authority, c, key, ParseMapping(c.mappings[Final(key)]).value)
    {
      if key != p.intent.keyHash {
        assert MappingValid(authority, c0, key, ParseMapping(c0.mappings[Final(key)]).value);
      }
    }
  }

  lemma FinishedNothingStaged(lib: Lib, c0: Ca, c: Ca, p: Plan)
    requires NothingStaged(c0) && IsFinished(lib, c0, c, p)
    ensures NothingStaged(c)
  {
    forall x <- c.issuances.Keys, f: File ensures Pending(f) !in c.issuances[x] {
      assert x == p.intent.issuanceId || (x in c0.issuances && c.issuances[x] == c0.issuances[x]);
    }
  }

  lemma MappingsKept(lib: Lib, before: Dir<Digest>, now: Dir<Digest>, p: Plan)
    requires Final(p.intent.keyHash) !in before && MappingProgress(lib, before, now, p)
    ensures Advance.Kept(before, now)
  {
  }

  lemma FinishedAuditsLead(lib: Lib, c0: Ca, c: Ca, p: Plan)
    requires AuditsLead(c0) && IsFinished(lib, c0, c, p)
    ensures AuditsLead(c)
  {
    forall n: nat, id: Id | IssuedAt(c.audits, n, id) ensures id in c.issuances {
      assert IssuedAt(c0.audits, n, id) || id == p.intent.issuanceId;
    }
  }

  lemma FinishedIsClean(lib: Lib, authority: Id, c0: Ca, c: Ca, p: Plan)
    requires LibOk(lib) && Clean(lib, authority, c0) && Fits(authority, c0, p) && IsFinished(lib, c0, c, p)
    ensures Clean(lib, authority, c)
  {
    FinishedNothingStaged(lib, c0, c, p);
    FinishedReservations(lib, authority, c0, c, p);
    FinishedMappings(lib, authority, c0, c, p);
    AlreadyRecorded(lib, c0, c, p);
    FinishedAuditsLead(lib, c0, c, p);
    forall x <- c.issuances.Keys ensures ScanMeaning.IssuanceSettled(lib, authority, c, x) {
      if x == p.intent.issuanceId {
        FinishedSettles(lib, authority, c0, c, p);
      } else {
        MappingsKept(lib, c0.mappings, c.mappings, p);
        WreckQuarantine.SettledWithMoreAudit(lib, authority, c0, c, x);
      }
    }
  }

  // ---------- a scan finishes what recovery can finish ----------

  predicate NothingStagedIn(d: Dir<File>) {
    Pending(CompleteFile) !in d && Pending(AuditMarkFile) !in d
  }

  lemma ChainIgnoresStaging(lib: Lib, before: Dir<nat>, n: nat, blob: Blob)
    requires AuditChainValid(lib, before)
    ensures AuditChainValid(lib, before[Pending(n) := blob])
  {
    var now := before[Pending(n) := blob];
    AuditChain.FinalsAre(before);
    AuditChain.FinalsAre(now);
    assert Finals(now) == Finals(before);
    forall m: nat | m < |Finals(now)| ensures AuditEntryValid(lib, now, m) {
      assert AuditEntryValid(lib, before, m);
    }
    forall m: nat, id: Id ensures IssuedAt(now, m, id) == IssuedAt(before, m, id) {
    }
  }

  lemma CommittedChain(lib: Lib, c0: Ca, c: Ca, p: Plan)
    requires LibOk(lib) && AuditChainValid(lib, c0.audits) && (forall n: nat :: Pending(n) !in c0.audits)
    requires (forall n: nat :: !IssuedAt(c0.audits, n, p.intent.issuanceId))
    requires AuditProgress(lib, c0.audits, c.audits, p)
    ensures AuditChainValid(lib, c.audits) && Advance.Kept(c0.audits, c.audits)
  {
    var next := NextOf(lib, c0.audits, p);
    if c.audits == RecordedAudits(lib, c0.audits, p) {
      AlreadyRecorded(lib, c0, c, p);
    } else if c.audits != c0.audits {
      ChainIgnoresStaging(lib, c0.audits, next.sequence, c.audits[Pending(next.sequence)]);
    }
  }

  lemma StagedInDirectory(lib: Lib, d: Dir<File>, p: Plan)
    requires DirProgress(lib, d, p)
    ensures forall f: File :: Pending(f) in d ==> f == CompleteFile || f == AuditMarkFile
  {
  }

  lemma CommittedStaging(lib: Lib, c0: Ca, c: Ca, p: Plan)
    requires NoStaging(c0) && Committed(lib, c0, c, p)
    ensures NothingStagedIn(c.issuances[p.intent.issuanceId]) ==> NoStaging(c)
    ensures (forall x <- c.issuances.Keys :: Pending(IntentFile) !in c.issuances[x])
    ensures (forall s: Id :: Pending(s) !in c.reservations)
  {
    StagedInDirectory(lib, c.issuances[p.intent.issuanceId], p);
    forall x <- c.issuances.Keys, f: File | x != p.intent.issuanceId ensures Pending(f) !in c.issuances[x] {
      assert c.issuances[x] == c0.issuances[x];
    }
  }

  lemma OtherIssuance(lib: Lib, c0: Ca, c: Ca, p: Plan, x: Id)
    requires Committed(lib, c0, c, p) && x in c.issuances && x != p.intent.issuanceId
    ensures x in c0.issuances && c.issuances[x] == c0.issuances[x]
  {
  }

  lemma CommittedContext(lib: Lib, authority: Id, c0: Ca, c: Ca, p: Plan)
    requires LibOk(lib) && Clean(lib, authority, c0) && Fits(authority, c0, p) && Committed(lib, c0, c, p)
    ensures AuditChainValid(lib, c.audits)
    ensures forall x <- c.issuances.Keys :: x != p.intent.issuanceId ==>
          ScanMeaning.IssuanceSettled(lib, authority, c, x)
    ensures NothingStagedIn(c.issuances[p.intent.issuanceId]) ==> NoStaging(c)
    ensures (forall x <- c.issuances.Keys :: Pending(IntentFile) !in c.issuances[x])
    ensures (forall s: Id :: Pending(s) !in c.reservations)
  {
    CommittedChain(lib, c0, c, p);
    CommittedStaging(lib, c0, c, p);
    MappingsKept(lib, c0.mappings, c.mappings, p);
    forall x <- c.issuances.Keys | x != p.intent.issuanceId ensures ScanMeaning.IssuanceSettled(lib, authority, c, x) {
      OtherIssuance(lib, c0, c, p, x);
      WreckQuarantine.SettledWithMoreAudit(lib, authority, c0, c, x);
    }
  }

  lemma RecoverOneFinishes(lib: Lib, authority: Id, c0: Ca, c: Ca, p: Plan)
    requires LibOk(lib) && Clean(lib, authority, c0) && Fits(authority, c0, p)
    requires Committed(lib, c0, c, p) && !TornAfterCommit(lib, c0, c, p) && c.fuel >= ENOUGH
    ensures var out := RecoverOne(lib, authority, c, p.intent.issuanceId);
            out.Ok? && IsFinished(lib, c0, out.ca, p)
  {
    Recovery.CommittedRecovers(lib, authority, c0, c, p);
    Recovery.StoppedRecoveryIsCommitted(lib, authority, c0, c, p);
    var done := RecoverCommit(lib, authority, c, p.intent.issuanceId).ca;
    FinishedSettles(lib, authority, c0, done, p);
    LoadsAsPlanned(lib, authority, c.issuances[p.intent.issuanceId], p);
  }

  lemma RecoverAllFinishes(lib: Lib, authority: Id, c0: Ca, c: Ca, p: Plan, order: seq<Id>)
    requires LibOk(lib) && Clean(lib, authority, c0) && Fits(authority, c0, p)
    requires Committed(lib, c0, c, p) && !TornAfterCommit(lib, c0, c, p) && c.fuel >= ENOUGH
    requires p.intent.issuanceId in order && (forall x <- order :: x in c.issuances)
    ensures var out := RecoverAll(lib, authority, c, order);
            out.Ok? && IsFinished(lib, c0, out.ca, p)
  {
    CommittedContext(lib, authority, c0, c, p);
    var rest := ScanMeaning.SkipsSettled(lib, authority, c, order, p.intent.issuanceId);
    RecoverOneFinishes(lib, authority, c0, c, p);
    var done := RecoverOne(lib, authority, c, p.intent.issuanceId).ca;
    FinishedIsClean(lib, authority, c0, done, p);
    ScanMeaning.AllSettledNeedNothing(lib, authority, done, rest);
  }

  /** A scan with enough fuel finishes a committed issuance whose directory holds no staging
      file and whose index and audit staging is not torn. */
  lemma ScanFinishes(lib: Lib, authority: Id, c0: Ca, c: Ca, p: Plan)
    requires LibOk(lib) && Clean(lib, authority, c0) && Fits(authority, c0, p) && Committed(lib, c0, c, p)
    requires NothingStagedIn(c.issuances[p.intent.issuanceId]) && !TornAfterCommit(lib, c0, c, p) && c.fuel >= ENOUGH
    ensures var out := FullScan(lib, authority, c);
            out.Ok? && IsFinished(lib, c0, out.ca, p) && Clean(lib, authority, out.ca)
  {
    CommittedContext(lib, authority, c0, c, p);
    ScanMeaning.StagingIsRecovered(lib, authority, c);
    var order := lib.list(c.issuances.Keys);
    assert Enumerates(order, c.issuances.Keys);
    RecoverAllFinishes(lib, authority, c0, c, p, order);
    var done := RecoverAll(lib, authority, c, order).ca;
    FinishedIsClean(lib, authority, c0, done, p);
    CleanScans(lib, authority, done);
  }

  // ---------- the states nothing repairs ----------

  /** Past COMPLETE with the audit marker staged, or with index or audit staging torn. */
  ghost predicate Marred(lib: Lib, c0: Ca, c: Ca, p: Plan) {
    || (p.intent.issuanceId in c.issuances && Pending(AuditMarkFile) in c.issuances[p.intent.issuanceId])
    || TornAt(c.mappings, p.intent.keyHash)
    || TornAt(c.audits, NextOf(lib, c0.audits, p).sequence)
  }

  ghost predicate Stuck(lib: Lib, c0: Ca, c: Ca, p: Plan) {
    Committed(lib, c0, c, p) && Final(CompleteFile) in c.issuances[p.intent.issuanceId] && Marred(lib, c0, c, p)
  }

  lemma TornStays<N(!new)>(c: Ca, dir: Dir<N>, n: N, doc: Doc)
    requires Final(n) !in dir && TornAt(dir, n)
    ensures PublishExactIn(c, dir, n, Whole(doc)) == Published(dir, c.fuel, Refused)
    ensures PublishIn(c, dir, n, Whole(doc)) == Published(dir, c.fuel, Refused)
  {
  }

  lemma StagedMeansUnfinished<N(!new)>(before: Dir<N>, now: Dir<N>, n: N, doc: Doc)
    requires Progress(before, now, n, doc) && Final(n) !in before && Pending(n) !in before && Pending(n) in now
    ensures Final(n) !in now
  {
  }

  lemma TornMappingStops(lib: Lib, c0: Ca, c: Ca, p: Plan)
    requires MappingProgress(lib, c0.mappings, c.mappings, p) && TornAt(c.mappings, p.intent.keyHash)
    requires Final(p.intent.keyHash) !in c0.mappings && Pending(p.intent.keyHash) !in c0.mappings
    ensures PublishMapping(c, MappingOf(lib, p)) == Err(c, StateError)
  {
    StagedMeansUnfinished(c0.mappings, c.mappings, p.intent.keyHash, MappingDoc(MappingOf(lib, p)));
    TornStays(c, c.mappings, p.intent.keyHash, MappingDoc(MappingOf(lib, p)));
  }

  lemma TornAuditStops(lib: Lib, authority: Id, c0: Ca, c: Ca, p: Plan)
    requires LibOk(lib) && Clean(lib, authority, c0) && Fits(authority, c0, p)
    requires AuditProgress(lib, c0.audits, c.audits, p) && TornAt(c.audits, NextOf(lib, c0.audits, p).sequence)
    ensures EnsureIssuanceAudit(lib, c, CommitOf(lib, p)) == Err(c, StateError)
  {
    var next := NextOf(lib, c0.audits, p);
    assert Final(next.sequence) !in c0.audits;
    StagedMeansUnfinished(c0.audits, c.audits, next.sequence, AuditDoc(next));
    UnrecordedIsAbsent(lib, c0, c.audits, p.intent.issuanceId);
    SameFinalsSameNext(lib, c0.audits, c.audits, IssuedRecord(CommitOf(lib, p)));
    TornStays(c, c.audits, next.sequence, AuditDoc(next));
  }

  lemma StuckTail(lib: Lib, authority: Id, c0: Ca, c: Ca, p: Plan)
    requires LibOk(lib) && Clean(lib, authority, c0) && Fits(authority, c0, p)
    requires Stuck(lib, c0, c, p) && Pending(AuditMarkFile) !in c.issuances[p.intent.issuanceId]
    ensures var out := Tail(lib, c, p.intent.issuanceId, CommitOf(lib, p));
            out.Err? && Marred(lib, c0, out.ca, p)
  {
    if TornAt(c.mappings, p.intent.keyHash) {
      TornMappingStops(lib, c0, c, p);
    } else {
      var o2 := PublishMapping(c, MappingOf(lib, p));
      MappingStep(lib, c0, c, p);
      if o2.Ok? {
        TornAuditStops(lib, authority, c0, o2.ca, p);
      }
    }
  }

  lemma StuckRecovery(lib: Lib, authority: Id, c0: Ca, c: Ca, p: Plan)
    requires LibOk(lib) && Clean(lib, authority, c0) && Fits(authority, c0, p)
    requires Stuck(lib, c0, c, p) && Pending(AuditMarkFile) !in c.issuances[p.intent.issuanceId]
    ensures var out := RecoverCommit(lib, authority, c, p.intent.issuanceId);
            out.Err? && Stuck(lib, c0, out.ca, p)
  {
    Recovery.RecoveryIsCompleteThenTail(lib, authority, c, p);
    CompleteHeld(lib, c.issuances[p.intent.issuanceId], p);
    ScanMeaning.HeldNeedsNothing(c, p.intent.issuanceId, CompleteFile, CompleteDoc(CompleteOf(lib, p)));
    Recovery.TailShape(lib, authority, c0, c, p);
    StuckTail(lib, authority, c0, c, p);
  }

  lemma CompleteHeld(lib: Lib, d: Dir<File>, p: Plan)
    requires DirProgress(lib, d, p) && Final(CompleteFile) in d
    ensures ScanMeaning.HoldsIn(d, CompleteFile, CompleteDoc(CompleteOf(lib, p)))
  {
  }

  lemma StuckRecoverOne(lib: Lib, authority: Id, c0: Ca, c: Ca, p: Plan)
    requires LibOk(lib) && Clean(lib, authority, c0) && Fits(authority, c0, p)
    requires Stuck(lib, c0, c, p) && Pending(AuditMarkFile) !in c.issuances[p.intent.issuanceId]
    ensures var out := RecoverOne(lib, authority, c, p.intent.issuanceId);
            out.Err? && Stuck(lib, c0, out.ca, p)
  {
    StuckRecovery(lib, authority, c0, c, p);
  }

  lemma StuckRecoverAll(lib: Lib, authority: Id, c0: Ca, c: Ca, p: Plan, order: seq<Id>)
    requires LibOk(lib) && Clean(lib, authority, c0) && Fits(authority, c0, p)
    requires Stuck(lib, c0, c, p) && Pending(AuditMarkFile) !in c.issuances[p.intent.issuanceId]
    requires p.intent.issuanceId in order && (forall x <- order :: x in c.issuances)
    ensures var out := RecoverAll(lib, authority, c, order);
            out.Err? && Stuck(lib, c0, out.ca, p)
  {
    CommittedContext(lib, authority, c0, c, p);
    var rest := ScanMeaning.SkipsSettled(lib, authority, c, order, p.intent.issuanceId);
    StuckRecoverOne(lib, authority, c0, c, p);
  }

  lemma StuckScan(lib: Lib, authority: Id, c0: Ca, c: Ca, p: Plan)
    requires LibOk(lib) && Clean(lib, authority, c0) && Fits(authority, c0, p) && Stuck(lib, c0, c, p)
    ensures var out := FullScan(lib, authority, c);
            out.Err? && Stuck(lib, c0, out.ca, p)
  {
    var id := p.intent.issuanceId;
    CommittedContext(lib, authority, c0, c, p);
    Recovery.CompleteIsNotStaged(lib, c.issuances[id], p);
    if Pending(AuditMarkFile) in c.issuances[id] {
      ScanMeaning.NothingToAdopt(authority, c, lib.list(c.issuances.Keys));
      assert Pendings(c.reservations) == {};
      ScanMeaning.NothingListed(lib);
      assert !NoStaging(c);
    } else {
      ScanMeaning.StagingIsRecovered(lib, authority, c);
      var order := lib.list(c.issuances.Keys);
      assert Enumerates(order, c.issuances.Keys);
      StuckRecoverAll(lib, authority, c0, c, p, order);
    }
  }

  lemma StuckQuarantine(lib: Lib, authority: Id, c0: Ca, c: Ca, p: Plan, t: QuarantineCommand.Ticket)
    requires LibOk(lib) && Clean(lib, authority, c0) && Fits(authority, c0, p) && Stuck(lib, c0, c, p)
    ensures var out := QuarantineCommand.QuarantineIssuance(lib, authority, c, p.intent.issuanceId, t);
            out.Err? && out.ca == FullScan(lib, authority, c).ca
  {
    StuckScan(lib, authority, c0, c, p);
    var scanned := FullScan(lib, authority, c).ca;
    assert Has(scanned, p.intent.issuanceId, CompleteFile);
  }
}
