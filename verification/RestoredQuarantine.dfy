/** A quarantine cut short: from where later commands can restore a clean state, and what is
    left otherwise. */
module RestoredQuarantine {
  import opened Publication
  import opened Records
  import opened AuthorityState
  import opened Issuance
  import opened CleanState
  import opened QuarantineCommand
  import opened IssuanceRuns
  import opened StoppedQuarantine
  import AuditChain
  import Clash
  import CrashRecovery
  import EnrollmentRecovery
  import Finish
  import ForeignLog
  import Jammed
  import Recovery
  import Repair
  import Scan
  import ScanMeaning
  import Standing
  import Uninterrupted
  import WreckQuarantine
  import Wreckage

  // ---------- fresh draws ----------

  function IdsReserved(c: Ca): set<Id> {
    set s <- Finals(c.reservations) |
      Final(s) in c.reservations && ParseReservation(c.reservations[Final(s)]).Some? ::
      ParseReservation(c.reservations[Final(s)]).value.issuanceId
  }

  function SerialsIssued(c: Ca): set<Id> {
    set x <- c.issuances.Keys | Has(c, x, IntentFile) && ParseIntent(FileOf(c, x, IntentFile)).Some? ::
      ParseIntent(FileOf(c, x, IntentFile)).value.serial
  }

  predicate HasMovedIntent(x: Quarantined) {
    x.original.Some? && Final(IntentFile) in x.original.value
  }

  function SerialsMoved(c: Ca): set<Id> {
    set q <- c.quarantines.Keys | HasMovedIntent(c.quarantines[q])
        && ParseIntent(c.quarantines[q].original.value[Final(IntentFile)]).Some? ::
      ParseIntent(c.quarantines[q].original.value[Final(IntentFile)]).value.serial
  }

  function SerialsNoted(c: Ca): set<Id> {
    set q <- c.quarantines.Keys | Final(PreparedNote) in c.quarantines[q].notes
        && ParsePrepared(c.quarantines[q].notes[Final(PreparedNote)]).Some?
        && ParsePrepared(c.quarantines[q].notes[Final(PreparedNote)]).value.serial.Some? ::
      ParsePrepared(c.quarantines[q].notes[Final(PreparedNote)]).value.serial.value
  }

  function SerialsKnown(c: Ca): set<Id> {
    Finals(c.reservations) + SerialsIssued(c) + SerialsMoved(c) + SerialsNoted(c)
  }

  /** Every quarantined intent can be read, as the search for a serial demands. */
  predicate Legible(x: Quarantined) {
    HasMovedIntent(x) ==> ParseIntent(x.original.value[Final(IntentFile)]).Some?
  }

  lemma {:induction false} NotIssued(c: Ca, order: seq<Id>, serial: Id)
    requires forall x <- order :: Has(c, x, IntentFile) && ParseIntent(FileOf(c, x, IntentFile)).Some?
    requires serial !in SerialsIssued(c)
    ensures BoundByIssuance(c, order, serial) == Absent
  {
    if order != [] {
      assert order[0] in order;
      assert order[0] in c.issuances.Keys;
      NotIssued(c, order[1..], serial);
    }
  }

  lemma NotBound(c: Ca, q: Id, serial: Id)
    requires q in c.quarantines && Readable(c.quarantines[q]) && Legible(c.quarantines[q])
    requires serial !in SerialsMoved(c) && serial !in SerialsNoted(c)
    ensures BoundByOne(c.quarantines[q], serial) == Absent
  {
    assert q in c.quarantines.Keys;
  }

  lemma {:induction false} NotQuarantined(c: Ca, order: seq<Id>, serial: Id)
    requires forall q <- order :: q in c.quarantines && Readable(c.quarantines[q]) && Legible(c.quarantines[q])
    requires serial !in SerialsMoved(c) && serial !in SerialsNoted(c)
    ensures BoundByQuarantine(c, order, serial) == Absent
  {
    if order != [] {
      NotBound(c, order[0], serial);
      NotQuarantined(c, order[1..], serial);
    }
  }

  lemma SerialIsFound(lib: Lib, c: Ca, draws: seq<nat>)
    requires LibOk(lib) && draws != [] && draws[0] !in SerialsKnown(c)
    requires forall x <- c.issuances.Keys :: Has(c, x, IntentFile) && ParseIntent(FileOf(c, x, IntentFile)).Some?
    requires forall q <- c.quarantines.Keys :: Readable(c.quarantines[q]) && Legible(c.quarantines[q])
    ensures UniqueSerial(lib, c, draws) == Found(draws[0])
  {
    var issued, moved := lib.list(c.issuances.Keys), lib.list(c.quarantines.Keys);
    assert Enumerates(issued, c.issuances.Keys) && Enumerates(moved, c.quarantines.Keys);
    NotIssued(c, issued, draws[0]);
    NotQuarantined(c, moved, draws[0]);
    AuditChain.FinalsAre(c.reservations);
  }

  lemma SerialIsUnnamed(c: Ca, serial: Id)
    requires serial !in SerialsKnown(c)
    ensures forall q: Id, r: Reservation :: Names(c, q, r) ==> r.serial != serial
  {
    forall q: Id, r: Reservation | Names(c, q, r) ensures r.serial != serial {
      assert q in c.quarantines.Keys;
    }
  }

  lemma IdIsUnused(lib: Lib, authority: Id, c: Ca, id: Id, serial: Id)
    requires Clean(lib, authority, c)
    requires id !in c.issuances.Keys + IdsReserved(c) && serial !in SerialsKnown(c)
    ensures Unused(c, id, serial)
  {
    AuditChain.FinalsAre(c.reservations);
    SerialIsUnnamed(c, serial);
    forall s: Id, r: Reservation | Scan.ReservedAt(c, s, r) ensures r.issuanceId != id {
      assert s in Finals(c.reservations);
    }
  }

  /** An attempt that meets nothing in its way. */
  function SmoothAttempt(id: Id, serial: Id): Attempt {
    Attempt([id, id, id, id, id, id, id, id],
            [serial, serial, serial, serial, serial, serial, serial, serial], true, 0, 0, 0, Signs([], true))
  }

  // ---------- an empty staging file in the log is filled by the next enrollment ----------

  /** `c` is clean but for an empty staging file under the log's next number. */
  ghost predicate EmptyStaged(lib: Lib, authority: Id, c: Ca, clean: Ca) {
    && Clean(lib, authority, clean)
    && c == clean.(audits := clean.audits[Pending(|Finals(clean.audits)|) := Empty])
  }

  lemma OthersStaySettled(lib: Lib, authority: Id, c: Ca, clean: Ca, x: Id)
    requires EmptyStaged(lib, authority, c, clean) && x in c.issuances
    ensures ScanMeaning.IssuanceSettled(lib, authority, c, x)
  {
    assert ScanMeaning.IssuanceSettled(lib, authority, clean, x);
    WreckQuarantine.SettledWithMoreAudit(lib, authority, clean, c, x);
  }

  lemma FilledIsCommitted(lib: Lib, authority: Id, c: Ca, clean: Ca, now: Ca, p: Finish.Plan)
    requires EmptyStaged(lib, authority, c, clean) && Finish.Fits(authority, clean, p)
    requires CrashRecovery.At(c, now, p.intent.issuanceId, Finish.FiveFiles(lib, p), CrashRecovery.ReservedDir(c, p))
    ensures Finish.Committed(lib, clean, now, p) && !Finish.TornAfterCommit(lib, clean, now, p)
  {
    var mid := now.(audits := clean.audits);
    assert CrashRecovery.At(clean, mid, p.intent.issuanceId, Finish.FiveFiles(lib, p),
                            CrashRecovery.ReservedDir(clean, p));
    CrashRecovery.CommittedAt(lib, clean, mid, p, Finish.FiveFiles(lib, p));
    EmptyIsProgress(lib, c, clean, p);
    Recovery.AuditsReplaced(lib, clean, mid, p, now.audits, now.fuel);
    assert mid.(audits := now.audits, fuel := now.fuel) == now;
  }

  lemma EmptyIsProgress(lib: Lib, c: Ca, clean: Ca, p: Finish.Plan)
    requires c.audits == clean.audits[Pending(|Finals(clean.audits)|) := Empty]
    requires Scan.AuditChainValid(lib, clean.audits)
    ensures Finish.AuditProgress(lib, clean.audits, c.audits, p)
    ensures !Finish.TornAt(c.audits, Finish.NextOf(lib, clean.audits, p).sequence)
    ensures clean.audits != Finish.RecordedAudits(lib, clean.audits, p)
  {
    assert Finish.NextOf(lib, clean.audits, p).sequence == |Finals(clean.audits)|;
    assert Final(|Finals(clean.audits)|) !in clean.audits;
  }

  lemma FilledFinishes(lib: Lib, authority: Id, c: Ca, clean: Ca, now: Ca, p: Finish.Plan)
    requires LibOk(lib) && EmptyStaged(lib, authority, c, clean) && Finish.Fits(authority, clean, p)
    requires CrashRecovery.At(c, now, p.intent.issuanceId, Finish.FiveFiles(lib, p), CrashRecovery.ReservedDir(c, p))
    requires now.fuel >= ENOUGH
    ensures var out := RecoverCommit(lib, authority, now, p.intent.issuanceId);
            out.Ok? && Repair.IsFinished(lib, clean, out.ca, p)
  {
    FilledIsCommitted(lib, authority, c, clean, now, p);
    Recovery.CommittedRecovers(lib, authority, clean, now, p);
    Recovery.StoppedRecoveryIsCommitted(lib, authority, clean, now, p);
  }

  lemma FilledRest(lib: Lib, authority: Id, c: Ca, clean: Ca, now: Ca, request: Request, a: Attempt, p: Finish.Plan)
    requires LibOk(lib) && EmptyStaged(lib, authority, c, clean) && Finish.Fits(authority, clean, p)
    requires CrashRecovery.At(c, now, p.intent.issuanceId, Finish.OneFile(p), CrashRecovery.ReservedDir(c, p))
    requires now.fuel >= ENOUGH + 13 && a.signer == Signs(p.der, true) && request.sourceIp == p.sourceIp
    ensures var out := AfterPrepare(lib, authority, now, request, a, p.intent);
            out.Ok? && Repair.IsFinished(lib, clean, out.ca, p)
  {
    CrashRecovery.SignStops(lib, c, now, a, p);
    var c2 := Sign(now, a, p.intent).ca;
    assert c2.fuel == now.fuel - 1;
    Uninterrupted.ConcludeRuns(lib, c, c2, p);
    FilledFinishes(lib, authority, c, clean, Conclude(lib, c2, p.intent, Finish.Certificate(p), p.sourceIp).ca, p);
  }

  lemma FilledFresh(lib: Lib, authority: Id, c: Ca, clean: Ca, request: Request, a: Attempt, p: Finish.Plan)
    requires LibOk(lib) && EmptyStaged(lib, authority, c, clean) && Finish.Fits(authority, clean, p)
    requires c.fuel >= 2 * ENOUGH && a.profileOk
    requires a.signer == Signs(p.der, true) && request.sourceIp == p.sourceIp
    ensures Clean(lib, authority, IssueFresh(lib, authority, c, request, a, p.intent).ca)
  {
    Uninterrupted.PrepareRuns(c, a, p);
    FilledRest(lib, authority, c, clean, Prepare(c, a, p.intent).ca, request, a, p);
    Repair.FinishedIsClean(lib, authority, clean, IssueFresh(lib, authority, c, request, a, p.intent).ca, p);
  }

  lemma FreshDrawn(lib: Lib, authority: Id, c: Ca, clean: Ca, request: Request, id: Id, serial: Id)
    requires LibOk(lib) && EmptyStaged(lib, authority, c, clean)
    requires forall q <- clean.quarantines.Keys :: Legible(clean.quarantines[q])
    requires Final(request.keyHash) !in c.mappings && id !in c.issuances && serial !in SerialsKnown(c)
    ensures var a := SmoothAttempt(id, serial);
            Issue(lib, authority, c, request, a)
                == IssueFresh(lib, authority, c, request, a, IntentFor(authority, request, a, id, serial))
  {
    var order := lib.list(c.issuances.Keys);
    assert Enumerates(order, c.issuances.Keys);
    forall x <- c.issuances.Keys
      ensures ScanMeaning.IssuanceSettled(lib, authority, c, x)
      ensures Has(c, x, IntentFile) && ParseIntent(FileOf(c, x, IntentFile)).Some?
    {
      OthersStaySettled(lib, authority, c, clean, x);
      EnrollmentRecovery.IntentKeyIsIndexed(lib, authority, c, x);
    }
    EnrollmentRecovery.UnindexedIsNotFound(lib, authority, c, order, request.keyHash, request.requestHash);
    SerialIsFound(lib, c, SmoothAttempt(id, serial).serials);
  }

  /** Then some enrollment leaves a clean state. */
  lemma EmptyIsFilled(lib: Lib, authority: Id, c: Ca, clean: Ca) returns (step: Step)
    requires LibOk(lib) && EmptyStaged(lib, authority, c, clean)
    requires forall q <- clean.quarantines.Keys :: Legible(clean.quarantines[q])
    ensures step.event.Enroll? && Clean(lib, authority, Apply(lib, authority, c, step))
  {
    var id := EnrollmentRecovery.UnusedName(c.issuances.Keys + IdsReserved(c));
    var serial := EnrollmentRecovery.UnusedName(SerialsKnown(c));
    var key := EnrollmentRecovery.UnusedName(Finals(c.mappings));
    var request, a := Request(key, 0, 0, 0), SmoothAttempt(id, serial);
    step := Step(Enroll(request, a), 2 * ENOUGH, NoBytes);
    var ready, base := c.(fuel := 2 * ENOUGH, tear := NoBytes), clean.(fuel := 2 * ENOUGH, tear := NoBytes);
    EnrollmentRecovery.CleanElsewhere(lib, authority, clean, base);
    assert EmptyStaged(lib, authority, ready, base);
    var p := Finish.Plan(IntentFor(authority, request, a, id, serial), [], 0);
    AuditChain.FinalsAre(c.mappings);
    SameKnown(ready, base);
    SameKnown(ready, c);
    IdIsUnused(lib, authority, base, id, serial);
    FreshDrawn(lib, authority, ready, base, request, id, serial);
    FilledFresh(lib, authority, ready, base, request, a, p);
  }

  lemma SameKnown(a: Ca, b: Ca)
    requires a.issuances == b.issuances && a.reservations == b.reservations && a.quarantines == b.quarantines
    ensures SerialsKnown(a) == SerialsKnown(b) && IdsReserved(a) == IdsReserved(b)
  {
    assert forall x: Id, f: File :: Has(a, x, f) == Has(b, x, f);
    assert SerialsIssued(a) == SerialsIssued(b);
  }

  // ---------- the log a stopped quarantine leaves ----------

  /** No later quarantine draws the same destination, or is of the same issuance at the very
      same instant. */
  predicate Elsewhere(steps: seq<Step>, id: Id, t: Ticket) {
    forall s <- steps :: s.event.Isolate? ==>
      s.event.ticket.destination != t.destination && (s.event.id != id || s.event.ticket.utc != t.utc)
  }

  /** Some further commands restore a clean state. */
  ghost predicate CleanLater(lib: Lib, authority: Id, c: Ca, id: Id, t: Ticket) {
    exists steps: seq<Step> :: Elsewhere(steps, id, t) && Clean(lib, authority, Run(lib, authority, c, steps))
  }

  /** The destination is not made yet, or its second note is in place and nothing but an empty
      file is staged under the log's next number. */
  predicate Restorable(c: Ca, t: Ticket) {
    || t.destination !in c.quarantines
    || (&& Final(QuarantinedNote) in c.quarantines[t.destination].notes
        && (Pending(|Finals(c.audits)|) in c.audits ==> c.audits[Pending(|Finals(c.audits)|)] == Empty))
  }

  lemma StepsRestore(lib: Lib, authority: Id, c: Ca, steps: seq<Step>, id: Id, t: Ticket)
    requires Elsewhere(steps, id, t) && Clean(lib, authority, Run(lib, authority, c, steps))
    ensures CleanLater(lib, authority, c, id, t)
  {
  }

  lemma CleanIsRestored(lib: Lib, authority: Id, c: Ca, id: Id, t: Ticket)
    requires Clean(lib, authority, c)
    ensures CleanLater(lib, authority, c, id, t)
  {
    var steps: seq<Step> := [];
    StepsRestore(lib, authority, c, steps, id, t);
  }

  lemma OneStepRestores(lib: Lib, authority: Id, c: Ca, step: Step, id: Id, t: Ticket)
    requires Elsewhere([step], id, t) && Clean(lib, authority, Apply(lib, authority, c, step))
    ensures CleanLater(lib, authority, c, id, t)
  {
    OneStep(lib, authority, c, step);
    StepsRestore(lib, authority, c, [step], id, t);
  }

  /** Everything of a quarantine of `id` is in place; its audit record is on its way into the
      log of the clean state `c0`. */
  ghost predicate InPlace(lib: Lib, authority: Id, c0: Ca, c: Ca, id: Id, t: Ticket) {
    var record := QuarantineRecord(authority, id, t.utc);
    var next := NextAudit(lib, c0.audits, record);
    && Scan.AuditChainValid(lib, c0.audits) && (forall n: nat :: Pending(n) !in c0.audits)
    && Clean(lib, authority, c.(audits := c0.audits))
    && Clean(lib, authority, c.(audits := AuditChain.Appended(lib, c0.audits, record)))
    && Finish.Progress(c0.audits, c.audits, next.sequence, AuditDoc(next))
    && t.destination in c.quarantines && Final(QuarantinedNote) in c.quarantines[t.destination].notes
    && (forall q <- c.quarantines.Keys :: Legible(c.quarantines[q]))
  }

  predicate Staged(audits: Dir<nat>) {
    Pending(|Finals(audits)|) in audits
  }

  lemma SameCount(audits: Dir<nat>, n: nat, blob: Blob)
    ensures Finals(audits[Pending(n) := blob]) == Finals(audits)
  {
    AuditChain.FinalsAre(audits);
    AuditChain.FinalsAre(audits[Pending(n) := blob]);
  }

  /** Where the log can stand. */
  lemma LogStops(lib: Lib, authority: Id, c0: Ca, c: Ca, id: Id, t: Ticket)
    requires InPlace(lib, authority, c0, c, id, t)
    ensures var record := QuarantineRecord(authority, id, t.utc);
            var next := |Finals(c0.audits)|;
            if Staged(c.audits)
            then && |Finals(c.audits)| == next && Final(next) !in c.audits
                 && c.audits == c0.audits[Pending(next) := c.audits[Pending(next)]]
                 && StagedFor(c.audits[Pending(next)], AuditDoc(NextAudit(lib, c0.audits, record)))
            else c.audits == c0.audits || c.audits == AuditChain.Appended(lib, c0.audits, record)
  {
    var record := QuarantineRecord(authority, id, t.utc);
    var next := |Finals(c0.audits)|;
    assert Final(next) !in c0.audits;
    assert c0.audits - {Pending(next)} == c0.audits;
    if Pending(next) in c.audits {
      SameCount(c0.audits, next, c.audits[Pending(next)]);
    }
  }

  lemma NotStagedIsClean(lib: Lib, authority: Id, c0: Ca, c: Ca, id: Id, t: Ticket)
    requires InPlace(lib, authority, c0, c, id, t) && !Staged(c.audits)
    ensures CleanLater(lib, authority, c, id, t) && Restorable(c, t)
  {
    LogStops(lib, authority, c0, c, id, t);
    assert c.(audits := c.audits) == c;
    CleanIsRestored(lib, authority, c, id, t);
  }

  lemma EmptyIsRestored(lib: Lib, authority: Id, c0: Ca, c: Ca, id: Id, t: Ticket)
    requires LibOk(lib) && InPlace(lib, authority, c0, c, id, t)
    requires Staged(c.audits) && c.audits[Pending(|Finals(c.audits)|)] == Empty
    ensures CleanLater(lib, authority, c, id, t)
  {
    LogStops(lib, authority, c0, c, id, t);
    var clean := c.(audits := c0.audits);
    assert clean.(audits := c.audits) == c;
    var step := EmptyIsFilled(lib, authority, c, clean);
    OneStepRestores(lib, authority, c, step, id, t);
  }

  /** A record staged torn or in full is foreign to every later command. */
  lemma OtherwiseIsForeign(lib: Lib, authority: Id, c0: Ca, c: Ca, id: Id, t: Ticket)
    requires InPlace(lib, authority, c0, c, id, t)
    requires Staged(c.audits) && c.audits[Pending(|Finals(c.audits)|)] != Empty
    ensures ForeignLog.Foreign(c)
  {
    LogStops(lib, authority, c0, c, id, t);
    assert Standing.LogBlocked(c.audits);
    var clean := c.(audits := c0.audits);
    forall n: nat, x: Id | Scan.IssuedAt(c.audits, n, x) ensures Has(c, x, IntentFile) && Has(c, x, CompleteFile) {
      assert Scan.IssuedAt(clean.audits, n, x);
      SettledHasComplete(lib, authority, clean, x);
    }
  }

  lemma ElsewhereAvoids(lib: Lib, authority: Id, c0: Ca, c: Ca, id: Id, t: Ticket, steps: seq<Step>)
    requires InPlace(lib, authority, c0, c, id, t) && Staged(c.audits) && Elsewhere(steps, id, t)
    ensures Standing.Avoids(steps, c.audits)
  {
    LogStops(lib, authority, c0, c, id, t);
    forall s <- steps ensures !Standing.StepRepeats(c.audits, s) {
    }
  }

  lemma ForeignIsNotRestored(lib: Lib, authority: Id, c0: Ca, c: Ca, id: Id, t: Ticket)
    requires InPlace(lib, authority, c0, c, id, t)
    requires Staged(c.audits) && c.audits[Pending(|Finals(c.audits)|)] != Empty
    ensures !CleanLater(lib, authority, c, id, t)
  {
    OtherwiseIsForeign(lib, authority, c0, c, id, t);
    forall steps: seq<Step> | Elsewhere(steps, id, t) ensures !Clean(lib, authority, Run(lib, authority, c, steps)) {
      ElsewhereAvoids(lib, authority, c0, c, id, t, steps);
      Standing.BlockedLogStays(lib, authority, c, steps);
      assert Pending(|Finals(c.audits)|) in Run(lib, authority, c, steps).audits;
    }
  }

  lemma InPlaceStops(lib: Lib, authority: Id, c0: Ca, c: Ca, id: Id, t: Ticket)
    requires LibOk(lib) && InPlace(lib, authority, c0, c, id, t)
    ensures CleanLater(lib, authority, c, id, t) <==> Restorable(c, t)
  {
    if !Staged(c.audits) {
      NotStagedIsClean(lib, authority, c0, c, id, t);
    } else if c.audits[Pending(|Finals(c.audits)|)] == Empty {
      EmptyIsRestored(lib, authority, c0, c, id, t);
    } else {
      ForeignIsNotRestored(lib, authority, c0, c, id, t);
    }
  }

  lemma PartialIsNeverClean(lib: Lib, authority: Id, c: Ca, id: Id, t: Ticket)
    requires LibOk(lib) && Partial(c, t.destination)
    ensures !CleanLater(lib, authority, c, id, t)
  {
    forall steps: seq<Step> | Elsewhere(steps, id, t) ensures !Clean(lib, authority, Run(lib, authority, c, steps)) {
      PartialStays(lib, authority, c, t.destination, steps);
      PartialBlocksScan(lib, authority, Run(lib, authority, c, steps), t.destination);
      if Clean(lib, authority, Run(lib, authority, c, steps)) {
        CleanScans(lib, authority, Run(lib, authority, c, steps));
      }
    }
  }

  // ---------- a filed quarantine is in place ----------

  lemma AccountedAside(authority: Id, c: Ca, audits: Dir<nat>)
    requires ReservationsAccounted(authority, c)
    ensures ReservationsAccounted(authority, c.(audits := audits))
  {
    var c' := c.(audits := audits);
    assert forall s: Id, r: Reservation :: Scan.ReservedAt(c', s, r) == Scan.ReservedAt(c, s, r);
    forall s: Id,
          r: Reservation | Scan.ReservedAt(c', s, r) && !Has(c', r.issuanceId, IntentFile) ensures Copied(c', r) {
      assert Copied(c, r);
      Repair.SameQuarantinesSameCopies(c, c', r);
    }
    forall x <- c'.issuances.Keys ensures Scan.IsReserved(c', x) {
      assert Scan.IsReserved(c, x);
      var s: Id, r: Reservation :| Scan.ReservedAt(c, s, r) && r.issuanceId == x;
      assert Scan.ReservedAt(c', s, r);
    }
  }

  /** The log of the clean state that it came from suits it too. */
  lemma OlderLog(lib: Lib, authority: Id, c0: Ca, done: Ca)
    requires Clean(lib, authority, c0) && Clean(lib, authority, done)
    requires done.issuances == c0.issuances && done.mappings == c0.mappings
    ensures Clean(lib, authority, done.(audits := c0.audits))
  {
    var c := done.(audits := c0.audits);
    AccountedAside(authority, done, c0.audits);
    WreckQuarantine.SameMappingsValid(authority, done, c);
    forall x <- c.issuances.Keys ensures ScanMeaning.IssuanceSettled(lib, authority, c, x) {
      WreckQuarantine.SettledWithMoreAudit(lib, authority, c0, c, x);
    }
  }

  lemma IsolatedIsInPlace(lib: Lib, authority: Id, c0: Ca, c: Ca, intent: Intent, t: Ticket)
    requires LibOk(lib) && Clean(lib, authority, c0) && intent.authorityId == authority
    requires var record := QuarantineRecord(authority, intent.issuanceId, t.utc);
             var done := c.(audits := AuditChain.Appended(lib, c0.audits, record));
             && WreckQuarantine.Isolated(lib, authority, c0, done, intent, t)
             && WreckQuarantine.Apart(c0, done, intent, t)
             && Finish.Progress(c0.audits, c.audits, NextAudit(lib, c0.audits, record).sequence,
                                AuditDoc(NextAudit(lib, c0.audits, record)))
    requires forall q <- c.quarantines.Keys :: Legible(c.quarantines[q])
    ensures InPlace(lib, authority, c0, c, intent.issuanceId, t)
  {
    var record := QuarantineRecord(authority, intent.issuanceId, t.utc);
    var done := c.(audits := AuditChain.Appended(lib, c0.audits, record));
    WreckQuarantine.IsolatedIsClean(lib, authority, c0, done, intent, t);
    OlderLog(lib, authority, c0, done);
    assert done.(audits := c0.audits) == c.(audits := c0.audits);
    assert Readable(c.quarantines[t.destination]);
  }

  lemma LegibleWithOneMore(before: map<Id, Quarantined>, q: Id, x: Quarantined)
    requires (forall y <- before.Keys :: Legible(before[y])) && Legible(x)
    ensures var after := before[q := x]; forall y <- after.Keys :: Legible(after[y])
  {
  }

  lemma WreckIsLegible(c0: Ca, w: Ca, intent: Intent, t: Ticket, note: Doc)
    requires Wreckage.Wreck(c0, w, intent)
    ensures Legible(WreckQuarantine.Closed(intent.issuanceId, t,
                      WreckQuarantine.WithCopies(w, w.issuances[intent.issuanceId],
                                                 WreckQuarantine.ExpectedEvidence(w, intent)), note))
  {
  }

  lemma FiledIsInPlace(lib: Lib, authority: Id, c0: Ca, w: Ca, c: Ca, intent: Intent, t: Ticket)
    requires LibOk(lib) && Clean(lib, authority, c0) && Wreckage.Wreck(c0, w, intent)
    requires Unused(c0, intent.issuanceId, intent.serial) && t.destination !in c0.quarantines
    requires intent.authorityId == authority
    requires forall q <- c0.quarantines.Keys :: Legible(c0.quarantines[q])
    requires Filed(lib, authority, w, c, intent.issuanceId, WreckQuarantine.ExpectedEvidence(w, intent), t)
    ensures InPlace(lib, authority, c0, c, intent.issuanceId, t)
  {
    FiledIsIsolated(lib, authority, c0, w, c, intent, t);
    var id, e := intent.issuanceId, WreckQuarantine.ExpectedEvidence(w, intent);
    var note := PreparedDoc(Prepared(id, authority, EvidenceSerial(w, e), t.utc));
    WreckIsLegible(c0, w, intent, t, note);
    LegibleWithOneMore(c0.quarantines, t.destination,
                       WreckQuarantine.Closed(id, t, WreckQuarantine.WithCopies(w, w.issuances[id], e), note));
    IsolatedIsInPlace(lib, authority, c0, c, intent, t);
  }

  lemma FiledBareIsInPlace(lib: Lib, authority: Id, c0: Ca, w: Ca, c: Ca, id: Id, serial: Id, s: Id, r: Reservation,
          t: Ticket)
    requires LibOk(lib) && Clean(lib, authority, c0) && Remembered(c0, w, id, serial, s, r)
    requires t.destination !in c0.quarantines
    requires forall q <- c0.quarantines.Keys :: Legible(c0.quarantines[q])
    requires Filed(lib, authority, w, c, id, Evidence(None, Some(s), None), t)
    ensures InPlace(lib, authority, c0, c, id, t)
  {
    var record, e := QuarantineRecord(authority, id, t.utc), Evidence(None, Some(s), None);
    var done := c.(audits := AuditChain.Appended(lib, c0.audits, record));
    Clash.BareMoved(lib, authority, c0, w, id, serial, s, r, t, c.fuel, c.retired);
    assert done == WreckQuarantine.Moved(lib, authority, w, id, e, t, c.fuel, c.retired);
    forall u: Id, y: Reservation | Scan.ReservedAt(c0, u, y) && y.issuanceId == id ensures y == r {
    }
    var note := PreparedDoc(Prepared(id, authority, EvidenceSerial(w, e), t.utc));
    var x := WreckQuarantine.Closed(id, t, WreckQuarantine.WithCopies(w, w.issuances[id], e), note);
    assert Legible(x);
    LegibleWithOneMore(c0.quarantines, t.destination, x);
    IsolatedIsInPlace(lib, authority, c0, c, Clash.Stand(id, authority, serial), t);
  }

  // ---------- the theorem ----------

  /** Another quarantine of what is still there restores a clean state. */
  lemma WreckIsRestored(lib: Lib, authority: Id, c0: Ca, c: Ca, intent: Intent, t: Ticket)
    requires LibOk(lib) && Clean(lib, authority, c0) && Wreckage.BlockedWreck(c0, c, intent)
    requires Unused(c0, intent.issuanceId, intent.serial)
    requires intent.authorityId == authority && intent.version == SCHEMA_VERSION
    ensures CleanLater(lib, authority, c, intent.issuanceId, t)
  {
    var name := EnrollmentRecovery.UnusedName(c.quarantines.Keys + {t.destination});
    var other := Ticket(name, t.utc + 1);
    var ready := c.(fuel := ENOUGH, tear := NoBytes);
    assert Wreckage.BlockedWreck(c0, ready, intent);
    WreckQuarantine.BlockedWreckQuarantine(lib, authority, c0, ready, intent, other);
    var step := Step(Isolate(intent.issuanceId, other), ENOUGH, NoBytes);
    IsolatingIs(lib, authority, c, intent.issuanceId, other);
    OneStepRestores(lib, authority, c, step, intent.issuanceId, t);
  }

  lemma RememberedIsRestored(lib: Lib, authority: Id, c0: Ca, c: Ca, id: Id, serial: Id, s: Id, r: Reservation,
          t: Ticket)
    requires LibOk(lib) && Clean(lib, authority, c0) && Remembered(c0, c, id, serial, s, r)
    ensures CleanLater(lib, authority, c, id, t)
  {
    var name := EnrollmentRecovery.UnusedName(c.quarantines.Keys + {t.destination});
    var other := Ticket(name, t.utc + 1);
    var ready := c.(fuel := ENOUGH, tear := NoBytes);
    assert Clash.BareWreck(c0, ready, id);
    Clash.BareQuarantine(lib, authority, c0, ready, id, serial, s, r, other);
    var step := Step(Isolate(id, other), ENOUGH, NoBytes);
    IsolatingIs(lib, authority, c, id, other);
    OneStepRestores(lib, authority, c, step, id, t);
  }

  /** What holds wherever the quarantine stopped. */
  ghost predicate Outcome(lib: Lib, authority: Id, c0: Ca, c: Ca, id: Id, t: Ticket) {
    && (CleanLater(lib, authority, c, id, t) <==> Restorable(c, t))
    && (t.destination in c.quarantines && Final(QuarantinedNote) in c.quarantines[t.destination].notes ==>
          InPlace(lib, authority, c0, c, id, t))
  }

  lemma WreckOutcome(lib: Lib, authority: Id, c0: Ca, c: Ca, intent: Intent, t: Ticket)
    requires LibOk(lib) && Clean(lib, authority, c0) && Wreckage.BlockedWreck(c0, c, intent)
    requires Unused(c0, intent.issuanceId, intent.serial) && t.destination !in c0.quarantines
    requires intent.authorityId == authority && intent.version == SCHEMA_VERSION
    requires forall q <- c0.quarantines.Keys :: Legible(c0.quarantines[q])
    ensures Outcome(lib, authority, c0, QuarantineIssuance(lib, authority, c, intent.issuanceId, t).ca,
                    intent.issuanceId, t)
  {
    var id, c' := intent.issuanceId, QuarantineIssuance(lib, authority, c, intent.issuanceId, t).ca;
    QuarantineStops(lib, authority, c0, c, intent, t);
    if Partial(c', t.destination) {
      PartialIsNeverClean(lib, authority, c', id, t);
    } else if Wreckage.BlockedWreck(c0, c', intent) {
      WreckIsRestored(lib, authority, c0, c', intent, t);
    } else {
      var w: Ca :| Wreckage.BlockedWreck(c0, w, intent)
                   && Filed(lib, authority, w, c', id, WreckQuarantine.ExpectedEvidence(w, intent), t);
      FiledIsInPlace(lib, authority, c0, w, c', intent, t);
      InPlaceStops(lib, authority, c0, c', id, t);
    }
  }

  lemma RememberedOutcome(lib: Lib, authority: Id, c0: Ca, c: Ca, id: Id, serial: Id, s: Id, r: Reservation, t: Ticket)
    requires LibOk(lib) && Clean(lib, authority, c0) && Remembered(c0, c, id, serial, s, r)
    requires t.destination !in c0.quarantines
    requires forall q <- c0.quarantines.Keys :: Legible(c0.quarantines[q])
    ensures Outcome(lib, authority, c0, QuarantineIssuance(lib, authority, c, id, t).ca, id, t)
  {
    var c', e := QuarantineIssuance(lib, authority, c, id, t).ca, Evidence(None, Some(s), None);
    Clash.BareScan(lib, authority, c0, c, id);
    Clash.BareInspected(lib, authority, c0, c, id, s, r);
    MoveStops(lib, authority, c, id, e, t);
    if Partial(c', t.destination) {
      PartialIsNeverClean(lib, authority, c', id, t);
    } else if c' == c {
      RememberedIsRestored(lib, authority, c0, c, id, serial, s, r, t);
    } else {
      FiledBareIsInPlace(lib, authority, c0, c, c', id, serial, s, r, t);
      InPlaceStops(lib, authority, c0, c', id, t);
    }
  }

  // ---------- the search for a serial has read every quarantined intent ----------

  lemma {:induction false} SearchedIsLegible(c: Ca, order: seq<Id>, serial: Id)
    requires BoundByQuarantine(c, order, serial) == Absent && (forall q <- order :: q in c.quarantines)
    ensures forall q <- order :: Legible(c.quarantines[q])
  {
    if order != [] {
      assert BoundByOne(c.quarantines[order[0]], serial) == Absent;
      SearchedIsLegible(c, order[1..], serial);
      assert order == [order[0]] + order[1..];
    }
  }

  lemma FoundMeansLegible(lib: Lib, c: Ca, draws: seq<nat>)
    requires LibOk(lib) && UniqueSerial(lib, c, draws).Found?
    ensures forall q <- c.quarantines.Keys :: Legible(c.quarantines[q])
  {
    EnrollmentRecovery.UniqueSerialIsUnbound(lib, c, draws);
    var order := lib.list(c.quarantines.Keys);
    assert Enumerates(order, c.quarantines.Keys);
    SearchedIsLegible(c, order, UniqueSerial(lib, c, draws).value);
  }

  /** The enrollment stops where quarantining its issuance would repair the state. */
  ghost predicate Quarantinable(lib: Lib, authority: Id, c0: Ca, request: Request, a: Attempt) {
    && Clean(lib, authority, c0) && Final(request.keyHash) !in c0.mappings
    && UniqueId(c0, a.ids).Some? && UniqueSerial(lib, c0, a.serials).Found?
    && EnrollmentRecovery.QuarantineRepairs(lib, authority, Issue(lib, authority, c0, request, a).ca,
                                            UniqueId(c0, a.ids).value)
  }

  /** The state in which its quarantine stops. */
  ghost function CutShort(lib: Lib, authority: Id, c0: Ca, request: Request, a: Attempt, fuel: nat, tear: Tear,
          t: Ticket): Ca
    requires UniqueId(c0, a.ids).Some?
  {
    var stopped := Issue(lib, authority, c0, request, a).ca.(fuel := fuel, tear := tear);
    QuarantineIssuance(lib, authority, stopped, UniqueId(c0, a.ids).value, t).ca
  }

  lemma CutShortOutcome(lib: Lib, authority: Id, c0: Ca, request: Request, a: Attempt, fuel: nat, tear: Tear,
          t: Ticket)
    requires LibOk(lib) && Quarantinable(lib, authority, c0, request, a) && t.destination !in c0.quarantines
    ensures Outcome(lib, authority, c0, CutShort(lib, authority, c0, request, a, fuel, tear, t),
                    UniqueId(c0, a.ids).value, t)
  {
    var id, serial := UniqueId(c0, a.ids).value, UniqueSerial(lib, c0, a.serials).value;
    var p := EnrollmentRecovery.PlanOf(lib, authority, c0, request, a);
    RepairedByQuarantine(lib, authority, c0, request, a);
    FoundMeansLegible(lib, c0, a.serials);
    var stopped := Issue(lib, authority, c0, request, a).ca.(fuel := fuel, tear := tear);
    if EnrollmentRecovery.NewId(c0, id) {
      assert Wreckage.BlockedWreck(c0, stopped, p.intent);
      WreckOutcome(lib, authority, c0, stopped, p.intent, t);
    } else {
      EnrollmentRecovery.DrawsAreFree(lib, authority, c0, a);
      var s: Id, r: Reservation :| Scan.ReservedAt(c0, s, r) && r.issuanceId == id;
      assert Clash.BareWreck(c0, stopped, id);
      RememberedOutcome(lib, authority, c0, stopped, id, serial, s, r, t);
    }
  }

  /** The second note is in place, and the log's next record is staged, torn or in full. */
  predicate LeftForeign(c: Ca, t: Ticket) {
    && t.destination in c.quarantines && Final(QuarantinedNote) in c.quarantines[t.destination].notes
    && !Restorable(c, t)
  }

  /** Stop an enrollment anywhere such that quarantining it would repair the state, and then stop
      that quarantine anywhere: later commands can restore a clean state exactly when the
      destination was not made yet, or its second note is in place and nothing but an empty
      file is staged under the log's next number. With the second note in place and anything
      else staged, a scan accepts the state all the same. */
  lemma StoppedQuarantineIsRestoredExactlyWhen(lib: Lib, authority: Id, c0: Ca, request: Request, a: Attempt,
          fuel: nat, tear: Tear, t: Ticket)
    requires LibOk(lib) && Quarantinable(lib, authority, c0, request, a) && t.destination !in c0.quarantines
    ensures var id, c := UniqueId(c0, a.ids).value, CutShort(lib, authority, c0, request, a, fuel, tear, t);
            && (CleanLater(lib, authority, c, id, t) <==> Restorable(c, t))
            && (LeftForeign(c, t) ==> AcceptedLater(lib, authority, c, t.destination))
  {
    CutShortOutcome(lib, authority, c0, request, a, fuel, tear, t);
    StoppedQuarantineIsAcceptedExactlyWhen(lib, authority, c0, request, a, fuel, tear, t);
  }

  lemma LeftIsForeign(lib: Lib, authority: Id, c0: Ca, request: Request, a: Attempt, fuel: nat, tear: Tear, t: Ticket,
          steps: seq<Step>)
    requires LibOk(lib) && Quarantinable(lib, authority, c0, request, a) && t.destination !in c0.quarantines
    requires var c := CutShort(lib, authority, c0, request, a, fuel, tear, t);
             LeftForeign(c, t) && Elsewhere(steps, UniqueId(c0, a.ids).value, t)
    ensures var c := CutShort(lib, authority, c0, request, a, fuel, tear, t);
            ForeignLog.Foreign(c) && Standing.Avoids(steps, c.audits)
  {
    var id, c := UniqueId(c0, a.ids).value, CutShort(lib, authority, c0, request, a, fuel, tear, t);
    CutShortOutcome(lib, authority, c0, request, a, fuel, tear, t);
    OtherwiseIsForeign(lib, authority, c0, c, id, t);
    ElsewhereAvoids(lib, authority, c0, c, id, t, steps);
  }

  /** From there on, whatever is run, no enrollment is answered 201. */
  lemma AfterwardsNothingIsIssued(lib: Lib, authority: Id, c0: Ca, request: Request, a: Attempt, fuel: nat, tear: Tear,
          t: Ticket, steps: seq<Step>, fuel2: nat, tear2: Tear, later: Request, b: Attempt)
    requires LibOk(lib) && Quarantinable(lib, authority, c0, request, a) && t.destination !in c0.quarantines
    requires var c := CutShort(lib, authority, c0, request, a, fuel, tear, t);
             LeftForeign(c, t) && Elsewhere(steps, UniqueId(c0, a.ids).value, t)
    ensures var c := CutShort(lib, authority, c0, request, a, fuel, tear, t);
            var now := Run(lib, authority, c, steps).(fuel := fuel2, tear := tear2);
            Issue(lib, authority, now, later, b).Ok? ==> Issue(lib, authority, now, later, b).value.status == 200
  {
    LeftIsForeign(lib, authority, c0, request, a, fuel, tear, t, steps);
    ForeignLog.NothingNewIsIssued(lib, authority, CutShort(lib, authority, c0, request, a, fuel, tear, t), steps,
                                  fuel2, tear2, later, b);
  }

  /** And once an enrollment has reached COMPLETE, every later scan refuses the state, and every
      later quarantine that issuance. */
  lemma AfterwardsCompletedIsStuck(lib: Lib, authority: Id, c0: Ca, request: Request, a: Attempt, fuel: nat, tear: Tear,
          t: Ticket, steps: seq<Step>, fuel2: nat, tear2: Tear, later: Request, b: Attempt, x: Id, more: seq<Step>,
          fuel3: nat, tear3: Tear, u: Ticket)
    requires LibOk(lib) && Quarantinable(lib, authority, c0, request, a) && t.destination !in c0.quarantines
    requires var c := CutShort(lib, authority, c0, request, a, fuel, tear, t);
             LeftForeign(c, t) && Elsewhere(steps + more, UniqueId(c0, a.ids).value, t)
    requires var c := CutShort(lib, authority, c0, request, a, fuel, tear, t);
             var now := Run(lib, authority, c, steps).(fuel := fuel2, tear := tear2);
             UniqueId(now, b.ids) == Some(x) && Has(Issue(lib, authority, now, later, b).ca, x, CompleteFile)
    ensures var c := CutShort(lib, authority, c0, request, a, fuel, tear, t);
            var now := Run(lib, authority, c, steps).(fuel := fuel2, tear := tear2);
            var c' := Run(lib, authority, Issue(lib, authority, now, later, b).ca, more);
            Jammed.Refused(lib, authority, c'.(fuel := fuel3, tear := tear3), x, u)
  {
    var c := CutShort(lib, authority, c0, request, a, fuel, tear, t);
    assert forall s <- steps :: s in steps + more;
    assert forall s <- more :: s in steps + more;
    LeftIsForeign(lib, authority, c0, request, a, fuel, tear, t, steps);
    LeftIsForeign(lib, authority, c0, request, a, fuel, tear, t, more);
    ForeignLog.ForeignStays(lib, authority, c, steps);
    ForeignLog.ForeignElsewhere(Run(lib, authority, c, steps), fuel2, tear2);
    ForeignLog.CompletedIsStuck(lib, authority, Run(lib, authority, c, steps).(fuel := fuel2, tear := tear2), later, b,
                                x, more, fuel3, tear3, u);
  }

  // ---------- it is reached ----------

  /** File operations of a quarantine of an empty directory up to the complete staging of its
      audit record. */
  const RECORD_STAGED := 10

  lemma OpenedOnly(lib: Lib, authority: Id, c0: Ca, a: Attempt, intent: Intent)
    requires c0.fuel == 1 && intent.issuanceId !in c0.issuances && a.profileOk
    ensures Prepare(c0, a, intent).Err?
    ensures Prepare(c0, a, intent).ca == c0.(fuel := 0, issuances := c0.issuances[intent.issuanceId := map[]])
  {
    var c2 := c0.(fuel := 0).(issuances := c0.issuances[intent.issuanceId := map[]]);
    assert PublishFile(c2, intent.issuanceId, IntentFile, IntentDoc(intent)).ca == c2;
  }

  /** An enrollment stopped after its first operation. */
  lemma OpenedStops(lib: Lib, authority: Id, c0: Ca, request: Request, a: Attempt)
    requires LibOk(lib) && Clean(lib, authority, c0) && Uninterrupted.Smooth(lib, c0, request, a) && c0.fuel == 1
    ensures Quarantinable(lib, authority, c0, request, a)
    ensures var p := EnrollmentRecovery.PlanOf(lib, authority, c0, request, a);
            && Finish.Fits(authority, c0, p)
            && Issue(lib, authority, c0, request, a).ca
                == c0.(fuel := 0, issuances := c0.issuances[p.intent.issuanceId := map[]])
  {
    var p := EnrollmentRecovery.PlanOf(lib, authority, c0, request, a);
    Uninterrupted.SmoothFits(lib, authority, c0, request, a);
    OpenedOnly(lib, authority, c0, a, p.intent);
    var c := Issue(lib, authority, c0, request, a).ca;
    assert Wreckage.BlockedWreck(c0, c, p.intent);
    EnrollmentRecovery.WreckIsRepaired(lib, authority, c0, c, p);
  }

  lemma RecordIsStaged(lib: Lib, c: Ca, record: Audit)
    requires Scan.AuditChainValid(lib, c.audits) && (forall n: nat :: Pending(n) !in c.audits) && c.fuel == 2
    ensures AppendAudit(lib, c, record).ca.audits
          == c.audits[Pending(|Finals(c.audits)|) := Whole(AuditDoc(NextAudit(lib, c.audits, record)))]
    ensures AppendAudit(lib, c, record).ca.quarantines == c.quarantines
  {
    var blob := Whole(AuditDoc(NextAudit(lib, c.audits, record)));
    assert Final(|Finals(c.audits)|) !in c.audits;
    PublishAbsent(c.audits, |Finals(c.audits)|, blob, Empty, TornBlob(c.tear, blob), c.fuel);
  }

  lemma FiledUpToTheRecord(lib: Lib, authority: Id, c: Ca, id: Id, t: Ticket, note: Doc)
    requires Scan.AuditChainValid(lib, c.audits) && (forall n: nat :: Pending(n) !in c.audits) && c.fuel == 5
    requires t.destination in c.quarantines
    requires c.quarantines[t.destination] == Quarantined(map[Final(PreparedNote) := Whole(note)], Some(map[]))
    ensures LeftForeign(FileEvidence(lib, authority, c, id, Evidence(None, None, None), t).ca, t)
  {
    var q, last := t.destination, QuarantinedDoc(id, t.utc);
    PublishAbsent(c.quarantines[q].notes, QuarantinedNote, Whole(last), Empty, TornBlob(c.tear, Whole(last)), c.fuel);
    var c6 := PublishNote(c, q, QuarantinedNote, last).ca;
    var record := QuarantineRecord(authority, id, t.utc);
    assert c6.fuel == 2 && c6.audits == c.audits;
    RecordIsStaged(lib, c6, record);
    SameCount(c.audits, |Finals(c.audits)|, Whole(AuditDoc(NextAudit(lib, c.audits, record))));
  }

  lemma MovedUpToTheRecord(lib: Lib, authority: Id, c0: Ca, c: Ca, id: Id, t: Ticket)
    requires Clean(lib, authority, c0) && t.destination !in c0.quarantines && c.fuel == RECORD_STAGED
    requires c.audits == c0.audits && c.quarantines == c0.quarantines && id in c.issuances && c.issuances[id] == map[]
    ensures LeftForeign(MoveEvidence(lib, authority, c, id, Evidence(None, None, None), t).ca, t)
  {
    var e := Evidence(None, None, None);
    var c3 := WreckQuarantine.FrontHalf(authority, c, id, e, t);
    FiledUpToTheRecord(lib, authority, c3, id, t, PreparedDoc(Prepared(id, authority, EvidenceSerial(c, e), t.utc)));
  }

  lemma NothingIsFound(lib: Lib, authority: Id, c0: Ca, c: Ca, intent: Intent)
    requires LibOk(lib) && Clean(lib, authority, c0) && Wreckage.BlockedWreck(c0, c, intent)
    requires Unused(c0, intent.issuanceId, intent.serial) && intent.authorityId == authority
    requires c.issuances[intent.issuanceId] == map[] && c.reservations == c0.reservations
    ensures Inspect(lib, authority, c, intent.issuanceId) == Some(Evidence(None, None, None))
  {
    WreckQuarantine.WreckIsInspected(lib, authority, c0, c, intent);
  }

  /** Stop an enrollment that meets nothing in its way after its first operation, and its
      quarantine once the audit record is staged in full: this is such a state. */
  lemma ForeignLogIsReached(lib: Lib, authority: Id, c0: Ca, request: Request, a: Attempt, tear: Tear, t: Ticket)
    requires LibOk(lib) && Clean(lib, authority, c0) && Uninterrupted.Smooth(lib, c0, request, a) && c0.fuel == 1
    requires t.destination !in c0.quarantines
    ensures Quarantinable(lib, authority, c0, request, a)
    ensures LeftForeign(CutShort(lib, authority, c0, request, a, RECORD_STAGED, tear, t), t)
  {
    OpenedStops(lib, authority, c0, request, a);
    var p := EnrollmentRecovery.PlanOf(lib, authority, c0, request, a);
    var id := p.intent.issuanceId;
    var c := Issue(lib, authority, c0, request, a).ca.(fuel := RECORD_STAGED, tear := tear);
    assert Wreckage.BlockedWreck(c0, c, p.intent) && Clash.BareWreck(c0, c, id);
    Clash.BareScan(lib, authority, c0, c, id);
    NothingIsFound(lib, authority, c0, c, p.intent);
    MovedUpToTheRecord(lib, authority, c0, c, id, t);
  }
}
