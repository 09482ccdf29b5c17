/** An enrollment whose drawn identifier a reservation already names, left there by a
    quarantined issuance: what it leaves behind, and for how long. */
module Clash {
  import opened Publication
  import opened Records
  import opened AuthorityState
  import opened Issuance
  import opened Scan
  import opened QuarantineCommand
  import opened IssuanceRuns
  import Advance
  import Answers
  import AuditChain
  import CleanState
  import CrashRecovery
  import Jammed
  import Recovery
  import ScanMeaning
  import WreckQuarantine
  import Wreckage

  /** The issuance's intent is final, or staged in full. */
  predicate Knows(c: Ca, id: Id, i: Intent) {
    id in c.issuances && IntentEvidence(c.issuances[id]) == Found(i)
  }

  /** A reservation of another serial names the issuance. */
  ghost predicate Clashes(c: Ca, id: Id, i: Intent, s: Id, r: Reservation) {
    Knows(c, id, i) && ReservedAt(c, s, r) && r.issuanceId == id && r.serial != i.serial
  }

  ghost predicate Clashing(c: Ca) {
    exists id: Id, i: Intent, s: Id, r: Reservation :: Clashes(c, id, i, s, r)
  }

  // ---------- no scan accepts it ----------

  lemma {:induction false} AdoptionsKeepKnown(authority: Id, c: Ca, order: seq<Id>, id: Id, i: Intent)
    requires Knows(c, id, i)
    ensures Knows(AdoptIntents(authority, c, order).ca, id, i)
    decreases |order|
  {
    if order != [] {
      var one := AdoptIntent(authority, c, order[0]);
      assert Knows(one.ca, id, i);
      if one.Ok? {
        AdoptionsKeepKnown(authority, one.ca, order[1..], id, i);
      }
    }
  }

  lemma StagingKeepsKnown(lib: Lib, authority: Id, c: Ca, id: Id, i: Intent)
    requires Knows(c, id, i)
    ensures var out := RecoverStaging(lib, authority, c);
            Knows(out.ca, id, i) && (out.Ok? ==> Has(out.ca, id, IntentFile))
  {
    var listed := lib.list(c.issuances.Keys);
    AdoptionsKeepKnown(authority, c, listed, id, i);
    var o1 := AdoptIntents(authority, c, listed);
    if o1.Ok? {
      Jammed.ReservationsPersist(authority, o1.ca, lib.list(Pendings(o1.ca.reservations)), id);
    }
  }

  lemma ScanKeepsKnown(lib: Lib, authority: Id, c: Ca, id: Id, i: Intent)
    requires Knows(c, id, i)
    ensures Knows(FullScan(lib, authority, c).ca, id, i)
  {
    StagingKeepsKnown(lib, authority, c, id, i);
    var o1 := RecoverStaging(lib, authority, c);
    if o1.Ok? {
      Advance.RecoverAllAdvances(lib, authority, o1.ca, lib.list(o1.ca.issuances.Keys));
    }
  }

  lemma SettledAgrees(lib: Lib, authority: Id, c: Ca, id: Id, i: Intent, s: Id, r: Reservation)
    requires ScanMeaning.Settled(lib, authority, c) && Knows(c, id, i) && ReservedAt(c, s, r) && r.issuanceId == id
    ensures r.serial == i.serial
  {
    assert ScanMeaning.IssuanceSettled(lib, authority, c, id);
    assert ReservationValid(lib, authority, c, r);
  }

  lemma ScanRefusesClash(lib: Lib, authority: Id, c: Ca, id: Id, i: Intent, s: Id, r: Reservation)
    requires LibOk(lib) && Clashes(c, id, i, s, r)
    ensures FullScan(lib, authority, c).Err? && Clashes(FullScan(lib, authority, c).ca, id, i, s, r)
  {
    ScanKeepsKnown(lib, authority, c, id, i);
    Advance.FullScanAdvances(lib, authority, c);
    var out := FullScan(lib, authority, c);
    assert Clashes(out.ca, id, i, s, r);
    if out.Ok? {
      ScanMeaning.ScanSettles(lib, authority, c);
      SettledAgrees(lib, authority, out.ca, id, i, s, r);
    }
  }

  lemma CleanNeverClashes(lib: Lib, authority: Id, c: Ca)
    requires LibOk(lib) && CleanState.Clean(lib, authority, c)
    ensures !Clashing(c)
  {
    if Clashing(c) {
      var id: Id, i: Intent, s: Id, r: Reservation :| Clashes(c, id, i, s, r);
      ScanRefusesClash(lib, authority, c, id, i, s, r);
      CleanState.CleanScans(lib, authority, c);
    }
  }

  // ---------- nor does any quarantine of it succeed ----------

  lemma OnlyOne(s: set<Id>, x: Id)
    requires x in s && |s| <= 1
    ensures s == {x}
  {
    var rest := s - {x};
    assert |rest| == |s| - 1;
    assert s == rest + {x};
  }

  lemma InspectionRefusesClash(lib: Lib, authority: Id, c: Ca, id: Id, i: Intent, s: Id, r: Reservation)
    requires LibOk(lib) && Clashes(c, id, i, s, r)
    ensures Inspect(lib, authority, c, id).None?
  {
    AuditChain.FinalsAre(c.reservations);
    assert s in Reserved(c, id);
    if |Reserved(c, id)| <= 1 {
      OnlyOne(Reserved(c, id), s);
      var order := lib.list(Finals(c.reservations));
      assert Enumerates(order, Finals(c.reservations));
      WreckQuarantine.OnlyFinds(Reserved(c, id), order, s);
      assert ReservationOf(c, s) == Some(r);
    }
  }

  lemma QuarantineKeepsClash(lib: Lib, authority: Id, c: Ca, x: Id, t: Ticket, id: Id, i: Intent, s: Id, r: Reservation)
    requires LibOk(lib) && Clashes(c, id, i, s, r)
    ensures var out := QuarantineIssuance(lib, authority, c, x, t);
            Clashes(out.ca, id, i, s, r) && (x == id ==> out.Err?)
  {
    ScanRefusesClash(lib, authority, c, id, i, s, r);
    var scanned := FullScan(lib, authority, c).ca;
    InspectionRefusesClash(lib, authority, scanned, id, i, s, r);
    var found := Inspect(lib, authority, scanned, x);
    if found.Some? {
      assert x != id;
      Jammed.EvidencePersists(lib, authority, scanned, x, found.value, t, id);
      Answers.EvidenceRemembers(lib, authority, scanned, x, found.value, t);
    }
  }

  // ---------- and it stays ----------

  lemma EnrollmentKeepsClash(lib: Lib, authority: Id, c: Ca, request: Request, a: Attempt, id: Id, i: Intent, s: Id,
          r: Reservation)
    requires Clashes(c, id, i, s, r)
    ensures Clashes(Issue(lib, authority, c, request, a).ca, id, i, s, r)
  {
    Jammed.EnrollmentPersists(lib, authority, c, request, a, id);
    Answers.IssueAnswers(lib, authority, c, request, a);
  }

  lemma ClashStep(lib: Lib, authority: Id, c: Ca, step: Step, id: Id, i: Intent, s: Id, r: Reservation)
    requires LibOk(lib) && Clashes(c, id, i, s, r)
    ensures Clashes(Apply(lib, authority, c, step), id, i, s, r)
  {
    var ready := c.(fuel := step.fuel, tear := step.tear);
    assert Clashes(ready, id, i, s, r);
    match step.event {
      case Enroll(request, attempt) => EnrollmentKeepsClash(lib, authority, ready, request, attempt, id, i, s, r);
      case Rescan => ScanRefusesClash(lib, authority, ready, id, i, s, r);
      case Isolate(x, ticket) => QuarantineKeepsClash(lib, authority, ready, x, ticket, id, i, s, r);
    }
  }

  lemma {:induction false} ClashStays(lib: Lib, authority: Id, c: Ca, steps: seq<Step>, id: Id, i: Intent, s: Id,
          r: Reservation)
    requires LibOk(lib) && Clashes(c, id, i, s, r)
    ensures Clashes(Run(lib, authority, c, steps), id, i, s, r)
    decreases |steps|
  {
    if steps != [] {
      ClashStep(lib, authority, c, steps[0], id, i, s, r);
      ClashStays(lib, authority, Apply(lib, authority, c, steps[0]), steps[1..], id, i, s, r);
    }
  }

  /** A clashing state is refused by every scan, after any further commands. */
  lemma ClashForGood(lib: Lib, authority: Id, c: Ca, steps: seq<Step>, fuel: nat, tear: Tear)
    requires LibOk(lib) && Clashing(c)
    ensures FullScan(lib, authority, Run(lib, authority, c, steps).(fuel := fuel, tear := tear)).Err?
  {
    var id: Id, i: Intent, s: Id, r: Reservation :| Clashes(c, id, i, s, r);
    ClashStays(lib, authority, c, steps, id, i, s, r);
    var now := Run(lib, authority, c, steps).(fuel := fuel, tear := tear);
    assert Clashes(now, id, i, s, r);
    ScanRefusesClash(lib, authority, now, id, i, s, r);
  }

  // ---------- where such an enrollment can stop ----------

  /** Nothing of the issuance is known: its intent is not staged, or not in full. */
  predicate Bare(d: Dir<File>) {
    && (forall name <- d.Keys :: name == Pending(IntentFile))
    && (Pending(IntentFile) in d ==> !d[Pending(IntentFile)].Whole?)
  }

  ghost predicate BareWreck(c0: Ca, c: Ca, id: Id) {
    id in c.issuances && CrashRecovery.At(c0, c, id, c.issuances[id], c0.reservations) && Bare(c.issuances[id])
  }

  lemma HoldsIsKnown(c: Ca, intent: Intent)
    requires Holds(c, intent.issuanceId, IntentFile, IntentDoc(intent))
    ensures Knows(c, intent.issuanceId, intent)
  {
  }

  /** From the signature on, the intent and the reservations stay. */
  lemma RestKeepsIntent(lib: Lib, authority: Id, c: Ca, request: Request, a: Attempt, intent: Intent)
    requires Holds(c, intent.issuanceId, IntentFile, IntentDoc(intent))
    ensures var c' := AfterPrepare(lib, authority, c, request, a, intent).ca;
            Holds(c', intent.issuanceId, IntentFile, IntentDoc(intent)) && Advance.Kept(c.reservations, c'.reservations)
  {
    var id, doc := intent.issuanceId, IntentDoc(intent);
    CrashRecovery.SignLeavesFiles(c, a, intent);
    var o2 := Sign(c, a, intent);
    assert Holds(o2.ca, id, IntentFile, doc);
    if o2.Ok? {
      ConcludeAdvances(lib, o2.ca, intent, o2.value, request.sourceIp);
      var o3 := Conclude(lib, o2.ca, intent, o2.value, request.sourceIp);
      HoldsOn(o2.ca, o3.ca, id, IntentFile, doc);
      Advance.RecoverCommitAdvances(lib, authority, o3.ca, id);
      HoldsOn(o3.ca, RecoverCommit(lib, authority, o3.ca, id).ca, id, IntentFile, doc);
    }
  }

  /** Where the intent's publication can have stopped. */
  lemma IntentStops(c0: Ca, c: Ca, intent: Intent)
    requires CrashRecovery.At(c0, c, intent.issuanceId, map[], c0.reservations)
    ensures var out := PublishFile(c, intent.issuanceId, IntentFile, IntentDoc(intent));
            && out.ca.reservations == c0.reservations
            && (out.Ok? ==> Holds(out.ca, intent.issuanceId, IntentFile, IntentDoc(intent)))
            && (out.Err? ==> BareWreck(c0, out.ca, intent.issuanceId) || Knows(out.ca, intent.issuanceId, intent))
  {
    var id, doc := intent.issuanceId, IntentDoc(intent);
    var nothing: Dir<File> := map[];
    CrashRecovery.FileStep(c0, c, id, nothing, c0.reservations, IntentFile, doc);
    var out := PublishFile(c, id, IntentFile, doc);
    if out.Err? && !CrashRecovery.At(c0, out.ca, id, nothing, c0.reservations) {
      var b: Blob :| StagedFor(b, doc) && CrashRecovery.At(c0, out.ca, id, nothing[Pending(IntentFile) := b],
            c0.reservations);
      assert out.ca.issuances[id] == nothing[Pending(IntentFile) := b];
    }
  }

  lemma IntentThenReserveStops(c0: Ca, c: Ca, intent: Intent)
    requires CrashRecovery.At(c0, c, intent.issuanceId, map[], c0.reservations)
    ensures var first := PublishFile(c, intent.issuanceId, IntentFile, IntentDoc(intent));
            var out := if first.Err? then first else Reserve(first.ca, ReservationFor(intent));
            && Advance.Kept(c0.reservations, out.ca.reservations)
            && (out.Ok? ==> Holds(out.ca, intent.issuanceId, IntentFile, IntentDoc(intent)))
            && (out.Err? ==> BareWreck(c0, out.ca, intent.issuanceId) || Knows(out.ca, intent.issuanceId, intent))
  {
    IntentStops(c0, c, intent);
    var first := PublishFile(c, intent.issuanceId, IntentFile, IntentDoc(intent));
    if first.Ok? {
      ReserveAdvances(first.ca, ReservationFor(intent));
      var out := Reserve(first.ca, ReservationFor(intent));
      assert out.ca.issuances == first.ca.issuances;
      HoldsIsKnown(out.ca, intent);
    }
  }

  lemma RepeatedPrepareStops(c0: Ca, a: Attempt, intent: Intent)
    requires intent.issuanceId !in c0.issuances
    ensures var out := Prepare(c0, a, intent);
            && Advance.Kept(c0.reservations, out.ca.reservations)
            && (out.Ok? ==> Holds(out.ca, intent.issuanceId, IntentFile, IntentDoc(intent)))
            && (out.Err? ==> || (Recovery.SameFiles(out.ca, c0) && out.ca.initPending == c0.initPending)
                             || BareWreck(c0, out.ca, intent.issuanceId) || Knows(out.ca, intent.issuanceId, intent))
  {
    var id := intent.issuanceId;
    if c0.fuel > 0 {
      var c2 := c0.(fuel := c0.fuel - 1).(issuances := c0.issuances[id := map[]]);
      assert CrashRecovery.At(c0, c2, id, map[], c0.reservations);
      assert BareWreck(c0, c2, id);
      IntentThenReserveStops(c0, c2, intent);
    }
  }

  /** An enrollment under an identifier that a reservation of another serial names. */
  lemma RepeatedStops(lib: Lib, authority: Id, c0: Ca, request: Request, a: Attempt, intent: Intent, s: Id,
          r: Reservation)
    requires intent.issuanceId !in c0.issuances
    requires ReservedAt(c0, s, r) && r.issuanceId == intent.issuanceId && r.serial != intent.serial
    ensures var out := IssueFresh(lib, authority, c0, request, a, intent);
            && (out.Ok? ==> Clashes(out.ca, intent.issuanceId, intent, s, r))
            && (|| (Recovery.SameFiles(out.ca, c0) && out.ca.initPending == c0.initPending)
                || BareWreck(c0, out.ca, intent.issuanceId)
                || Clashes(out.ca, intent.issuanceId, intent, s, r))
  {
    RepeatedPrepareStops(c0, a, intent);
    var o1 := Prepare(c0, a, intent);
    if o1.Ok? {
      RestKeepsIntent(lib, authority, o1.ca, request, a, intent);
      HoldsIsKnown(AfterPrepare(lib, authority, o1.ca, request, a, intent).ca, intent);
    }
  }

  // ---------- while nothing is known, a quarantine clears it ----------

  lemma BareIsBlocked(c0: Ca, c: Ca, intent: Intent)
    requires BareWreck(c0, c, intent.issuanceId)
    requires Pending(IntentFile) in c.issuances[intent.issuanceId] ==>
               StagedFor(c.issuances[intent.issuanceId][Pending(IntentFile)], IntentDoc(intent))
    ensures Wreckage.BlockedWreck(c0, c, intent)
  {
  }

  lemma {:induction false} NothingAdopted(authority: Id, c: Ca, order: seq<Id>)
    requires forall x <- c.issuances.Keys :: Pending(IntentFile) in c.issuances[x] ==>
          !c.issuances[x][Pending(IntentFile)].Whole?
    ensures var out := AdoptIntents(authority, c, order);
            out == Ok(c, ()) || out == Err(c, StateError)
    decreases |order|
  {
    if order != [] {
      NothingAdopted(authority, c, order[1..]);
    }
  }

  lemma BareScan(lib: Lib, authority: Id, c0: Ca, c: Ca, id: Id)
    requires LibOk(lib) && CleanState.Clean(lib, authority, c0) && id !in c0.issuances && BareWreck(c0, c, id)
    ensures FullScan(lib, authority, c).Err? && FullScan(lib, authority, c).ca == c
    ensures FullScan(lib, authority, c).error != Stopped
  {
    BareStaging(lib, authority, c0, c, id);
    if RecoverStaging(lib, authority, c).Ok? {
      var order := lib.list(c.issuances.Keys);
      assert Enumerates(order, c.issuances.Keys);
      forall x <- order | x != id ensures ScanMeaning.IssuanceSettled(lib, authority, c, x) {
        BesideBare(lib, authority, c0, c, id, x);
      }
      Wreckage.RecoverAllStops(lib, authority, c, order, id);
    }
  }

  lemma BesideBare(lib: Lib, authority: Id, c0: Ca, c: Ca, id: Id, x: Id)
    requires CleanState.Clean(lib, authority, c0) && BareWreck(c0, c, id) && x in c.issuances && x != id
    ensures ScanMeaning.IssuanceSettled(lib, authority, c, x)
  {
    assert x in c0.issuances && c.issuances[x] == c0.issuances[x];
    assert ScanMeaning.IssuanceSettled(lib, authority, c0, x);
  }

  lemma BareStaging(lib: Lib, authority: Id, c0: Ca, c: Ca, id: Id)
    requires LibOk(lib) && CleanState.Clean(lib, authority, c0) && id !in c0.issuances && BareWreck(c0, c, id)
    ensures var out := RecoverStaging(lib, authority, c); out == Ok(c, ()) || out == Err(c, StateError)
  {
    forall x <- c.issuances.Keys ensures Pending(IntentFile) in c.issuances[x] ==>
          !c.issuances[x][Pending(IntentFile)].Whole? {
      assert x == id || (x in c0.issuances && c.issuances[x] == c0.issuances[x]);
    }
    NothingAdopted(authority, c, lib.list(c.issuances.Keys));
    assert Pendings(c.reservations) == {};
    ScanMeaning.NothingListed(lib);
  }

  /** The one reservation that names the issuance. */
  lemma OneReservation(lib: Lib, authority: Id, c0: Ca, c: Ca, id: Id, s: Id, r: Reservation)
    requires LibOk(lib) && CleanState.Clean(lib, authority, c0) && c.reservations == c0.reservations
    requires ReservedAt(c0, s, r) && r.issuanceId == id
    ensures Reserved(c, id) == {s} && ReservationsReadable(c)
    ensures Only(Reserved(c, id), lib.list(Finals(c.reservations))) == Some(s)
    ensures Pendings(c.reservations) == {} && lib.list(Pendings(c.reservations)) == []
  {
    AuditChain.FinalsAre(c.reservations);
    forall u <- Reserved(c, id) ensures u == s {
      assert ReservedAt(c0, u, ReservationOf(c, u).value);
    }
    assert Reserved(c, id) == {s};
    var order := lib.list(Finals(c.reservations));
    assert Enumerates(order, Finals(c.reservations));
    WreckQuarantine.OnlyFinds(Reserved(c, id), order, s);
    assert Pendings(c.reservations) == {};
    ScanMeaning.NothingListed(lib);
  }

  lemma BareInspected(lib: Lib, authority: Id, c0: Ca, c: Ca, id: Id, s: Id, r: Reservation)
    requires LibOk(lib) && CleanState.Clean(lib, authority, c0) && id !in c0.issuances && BareWreck(c0, c, id)
    requires ReservedAt(c0, s, r) && r.issuanceId == id
    ensures Inspect(lib, authority, c, id) == Some(Evidence(None, Some(s), None))
  {
    OneReservation(lib, authority, c0, c, id, s, r);
    WreckQuarantine.NoMappingYet(lib, authority, c0, c, id);
    assert IntentEvidence(c.issuances[id]) == Absent && StagingOnly(c.issuances[id]);
    assert PendingReserved(c, id, None) == {};
  }

  /** Stands for the issuance's intent, which is unknown; its serial is free. */
  function Stand(id: Id, authority: Id, serial: Id): Intent {
    Intent(SCHEMA_VERSION, id, authority, serial, 0, 0, 0, 0, 0, 0)
  }

  lemma BareIsolated(lib: Lib, authority: Id, c0: Ca, c: Ca, id: Id, serial: Id, s: Id, r: Reservation, t: Ticket)
    requires LibOk(lib) && CleanState.Clean(lib, authority, c0) && id !in c0.issuances && BareWreck(c0, c, id)
    requires ReservedAt(c0, s, r) && r.issuanceId == id && t.destination !in c0.quarantines && c.fuel >= 20
    requires Final(serial) !in c0.reservations
    ensures var out := MoveEvidence(lib, authority, c, id, Evidence(None, Some(s), None), t);
            && out.Ok? && WreckQuarantine.Isolated(lib, authority, c0, out.ca, Stand(id, authority, serial), t)
            && out.ca.reservations == c0.reservations && CleanState.HoldsCopy(out.ca.quarantines[t.destination], r)
  {
    var e := Evidence(None, Some(s), None);
    var fuel, retired := WreckQuarantine.MoveSucceeds(lib, authority, c, id, e, t);
    BareMoved(lib, authority, c0, c, id, serial, s, r, t, fuel, retired);
  }

  lemma BareMoved(lib: Lib, authority: Id, c0: Ca, c: Ca, id: Id, serial: Id, s: Id, r: Reservation, t: Ticket,
                  fuel: nat, retired: set<Id>)
    requires id !in c0.issuances && BareWreck(c0, c, id) && ReservedAt(c0, s, r) && t.destination !in c0.quarantines
    requires Final(serial) !in c0.reservations
    ensures var out := WreckQuarantine.Moved(lib, authority, c, id, Evidence(None, Some(s), None), t, fuel, retired);
            && WreckQuarantine.Isolated(lib, authority, c0, out, Stand(id, authority, serial), t)
            && out.reservations == c0.reservations && CleanState.HoldsCopy(out.quarantines[t.destination], r)
  {
    var e := Evidence(None, Some(s), None);
    var original := WreckQuarantine.WithCopies(c, c.issuances[id], e);
    var note := Prepared(id, authority, EvidenceSerial(c, e), t.utc);
    WreckQuarantine.ClosedIsReadable(id, t, original, note);
    var out := WreckQuarantine.Moved(lib, authority, c, id, e, t, fuel, retired);
    assert c.issuances - {id} == c0.issuances;
    assert out.quarantines[t.destination] == WreckQuarantine.Closed(id, t, original, PreparedDoc(note));
    assert Final(ReservationCopy) in original && original[Final(ReservationCopy)] == c0.reservations[Final(s)];
  }

  /** Quarantining it restores a clean state. */
  lemma BareQuarantine(lib: Lib, authority: Id, c0: Ca, c: Ca, id: Id, serial: Id, s: Id, r: Reservation, t: Ticket)
    requires LibOk(lib) && CleanState.Clean(lib, authority, c0) && id !in c0.issuances && BareWreck(c0, c, id)
    requires ReservedAt(c0, s, r) && r.issuanceId == id && t.destination !in c0.quarantines
    requires c.fuel >= CleanState.ENOUGH
    requires Final(serial) !in c0.reservations
    requires (forall q: Id, y: Reservation :: CleanState.Names(c0, q, y) ==> y.serial != serial)
    ensures var out := QuarantineIssuance(lib, authority, c, id, t);
            out.Ok? && CleanState.Clean(lib, authority, out.ca)
  {
    BareScan(lib, authority, c0, c, id);
    BareInspected(lib, authority, c0, c, id, s, r);
    BareIsolated(lib, authority, c0, c, id, serial, s, r, t);
    var out := QuarantineIssuance(lib, authority, c, id, t);
    forall u: Id, y: Reservation | ReservedAt(c0, u, y) && y.issuanceId == id ensures y == r {
    }
    WreckQuarantine.IsolatedIsClean(lib, authority, c0, out.ca, Stand(id, authority, serial), t);
  }
}
