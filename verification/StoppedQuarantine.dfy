/** A quarantine cut short: from where it can be repaired, and from where it never is. */
module StoppedQuarantine {
  import opened Publication
  import opened Records
  import opened AuthorityState
  import opened Issuance
  import opened Scan
  import opened CleanState
  import opened WreckQuarantine
  import opened QuarantineCommand
  import opened IssuanceRuns
  import Advance
  import AuditChain
  import Clash
  import CrashRecovery
  import EnrollmentRecovery
  import Finish
  import Jammed
  import Recovery
  import Repair
  import ScanMeaning
  import Standing
  import Wreckage

  // ---------- a partial quarantine ----------

  /** The destination exists and its second note is not in place. */
  predicate Partial(c: Ca, q: Id) {
    q in c.quarantines && Final(QuarantinedNote) !in c.quarantines[q].notes
  }

  /** No quarantine of the run draws the name `q` again. */
  predicate DrawsOthers(steps: seq<Step>, q: Id) {
    forall s <- steps :: s.event.Isolate? ==> s.event.ticket.destination != q
  }

  lemma {:induction false} PartialStays(lib: Lib, authority: Id, c: Ca, q: Id, steps: seq<Step>)
    requires Partial(c, q) && DrawsOthers(steps, q)
    ensures Partial(Run(lib, authority, c, steps), q)
    decreases |steps|
  {
    if steps != [] {
      var step := steps[0];
      var ready := c.(fuel := step.fuel, tear := step.tear);
      match step.event {
        case Enroll(request, attempt) => Standing.EnrollmentStands(lib, authority, ready, request, attempt);
        case Rescan => Standing.ScanStands(lib, authority, ready);
        case Isolate(x, ticket) => Standing.QuarantineStands(lib, authority, ready, x, ticket, q);
      }
      PartialStays(lib, authority, Apply(lib, authority, c, step), q, steps[1..]);
    }
  }

  lemma PartialBlocksScan(lib: Lib, authority: Id, c: Ca, q: Id)
    requires LibOk(lib) && Partial(c, q)
    ensures FullScan(lib, authority, c).Err?
  {
    Standing.ScanStands(lib, authority, c);
    var out := FullScan(lib, authority, c);
    if out.Ok? {
      ScanMeaning.ScanSettles(lib, authority, c);
      SettledIsWhole(lib, authority, out.ca, q);
    }
  }

  lemma SettledIsWhole(lib: Lib, authority: Id, c: Ca, q: Id)
    requires ScanMeaning.Settled(lib, authority, c) && q in c.quarantines
    ensures Final(QuarantinedNote) in c.quarantines[q].notes
  {
    assert QuarantineDone(c.quarantines[q]);
  }

  // ---------- where a quarantine can stop ----------

  lemma NotedOrPartial(c: Ca, q: Id, n: Note, doc: Doc)
    requires q in c.quarantines && Final(n) !in c.quarantines[q].notes && Pending(n) !in c.quarantines[q].notes
    requires Final(QuarantinedNote) !in c.quarantines[q].notes
    ensures var out := PublishNote(c, q, n, doc);
            && (out.Err? ==> Partial(out.ca, q))
            && (out.Ok? ==> c.fuel >= 3 && out.ca == c.(fuel := c.fuel - 3, quarantines := c.quarantines[q :=
                  c.quarantines[q].(notes := c.quarantines[q].notes[Final(n) := Whole(doc)])]))
  {
    PublishAbsent(c.quarantines[q].notes, n, Whole(doc), Empty, TornBlob(c.tear, Whole(doc)), c.fuel);
  }

  lemma FrontStops(authority: Id, c: Ca, id: Id, e: Evidence, t: Ticket)
    requires t.destination !in c.quarantines && id in c.issuances
    ensures var out := OpenAndMove(authority, c, id, e, t);
            && (out.Ok? ==> c.fuel >= 5)
            && (out.Err? ==> out.ca == c || Partial(out.ca, t.destination))
  {
    var q, note := t.destination, PreparedDoc(Prepared(id, authority, EvidenceSerial(c, e), t.utc));
    if c.fuel > 0 {
      var c1 := OpenQuarantine(c, q).ca;
      NotedOrPartial(c1, q, PreparedNote, note);
      var o2 := PublishNote(c1, q, PreparedNote, note);
      if o2.Ok? {
        assert MoveOriginal(o2.ca, q, id).Err? ==> Partial(MoveOriginal(o2.ca, q, id).ca, q);
      }
    }
  }

  /** A copy into the moved directory is made or the run ends; the notes stay. */
  lemma CopyStops(c: Ca, q: Id, f: File, blob: Blob)
    requires q in c.quarantines && c.quarantines[q].original.Some?
    requires Final(f) !in c.quarantines[q].original.value && Pending(f) !in c.quarantines[q].original.value
    ensures var out := CopyInto(c, q, f, blob);
            && q in out.ca.quarantines && out.ca.quarantines[q].notes == c.quarantines[q].notes
            && (out.Ok? ==> c.fuel >= 3 && out.ca == c.(fuel := c.fuel - 3, quarantines := c.quarantines[q :=
                  c.quarantines[q].(original := Some(c.quarantines[q].original.value[Final(f) := blob]))]))
  {
    PublishAbsent(c.quarantines[q].original.value, f, blob, Empty, TornBlob(c.tear, blob), c.fuel);
  }

  function Copies(c: Ca, q: Id, e: Evidence): Out<()>
    requires q in c.quarantines && c.quarantines[q].original.Some?
  {
    var (c1, _) :- CopyReservation(c, q, e.reservation);
    CopyPending(c1, q, e.pending)
  }

  lemma CopiesStop(c: Ca, q: Id, e: Evidence)
    requires Partial(c, q) && c.quarantines[q].original.Some?
    requires forall f: File :: f == ReservationCopy || f == PendingCopy ==>
               Final(f) !in c.quarantines[q].original.value && Pending(f) !in c.quarantines[q].original.value
    requires e.reservation.Some? ==> Final(e.reservation.value) in c.reservations
    requires e.pending.Some? ==> Pending(e.pending.value) in c.reservations
    ensures var out := Copies(c, q, e);
            && (out.Err? ==> Partial(out.ca, q))
            && (out.Ok? ==> out.ca == c.(fuel := out.ca.fuel, reservations := WithoutPending(c, e),
                  quarantines := c.quarantines[q :=
                    c.quarantines[q].(original := Some(WithCopies(c, c.quarantines[q].original.value, e)))]))
  {
    if e.reservation.Some? {
      CopyStops(c, q, ReservationCopy, c.reservations[Final(e.reservation.value)]);
    }
    var o1 := CopyReservation(c, q, e.reservation);
    if o1.Ok? {
      assert o1.ca.quarantines == c.quarantines[q := o1.ca.quarantines[q]];
      if e.pending.Some? {
        CopyStops(o1.ca, q, PendingCopy, c.reservations[Pending(e.pending.value)]);
      }
      var out := Copies(c, q, e);
      assert out.ca.quarantines == c.quarantines[q := out.ca.quarantines[q]];
    }
  }

  /** The state once the second note is written, up to the audit log. */
  ghost predicate Filed(lib: Lib, authority: Id, c: Ca, c': Ca, id: Id, e: Evidence, t: Ticket) {
    && id in c.issuances
    && c' == Moved(lib, authority, c, id, e, t, c'.fuel, c'.retired).(audits := c'.audits)
    && var next := NextAudit(lib, c.audits, QuarantineRecord(authority, id, t.utc));
       Finish.Progress(c.audits, c'.audits, next.sequence, AuditDoc(next))
  }

  lemma RecordStops(lib: Lib, c: Ca, record: Audit)
    requires AuditChainValid(lib, c.audits) && (forall n: nat :: Pending(n) !in c.audits)
    ensures var out := AppendAudit(lib, c, record);
            var next := NextAudit(lib, c.audits, record);
            && out.ca == c.(audits := out.ca.audits, fuel := out.ca.fuel)
            && Finish.Progress(c.audits, out.ca.audits, next.sequence, AuditDoc(next))
  {
    var next := NextAudit(lib, c.audits, record);
    assert Final(next.sequence) !in c.audits;
    Finish.PublishShape(c.audits, c.audits, next.sequence, AuditDoc(next), c.tear, c.fuel);
  }

  lemma BackStops(lib: Lib, authority: Id, c: Ca, id: Id, e: Evidence, t: Ticket, d: Dir<File>, note: Doc)
    requires t.destination in c.quarantines
    requires c.quarantines[t.destination] == Quarantined(map[Final(PreparedNote) := Whole(note)], Some(d))
    requires AuditChainValid(lib, c.audits) && (forall n: nat :: Pending(n) !in c.audits)
    requires forall f: File :: f == ReservationCopy || f == PendingCopy ==> Final(f) !in d && Pending(f) !in d
    requires e.reservation.Some? ==> Final(e.reservation.value) in c.reservations
    requires e.pending.Some? ==> Pending(e.pending.value) in c.reservations
    ensures var out := FileEvidence(lib, authority, c, id, e, t);
            var next := NextAudit(lib, c.audits, QuarantineRecord(authority, id, t.utc));
            || Partial(out.ca, t.destination)
            || (&& out.ca == c.(fuel := out.ca.fuel, reservations := WithoutPending(c, e), audits := out.ca.audits,
                     quarantines := c.quarantines[t.destination := Closed(id, t, WithCopies(c, d, e), note)])
                && Finish.Progress(c.audits, out.ca.audits, next.sequence, AuditDoc(next)))
  {
    var q, last := t.destination, QuarantinedDoc(id, t.utc);
    CopiesStop(c, q, e);
    var o2 := Copies(c, q, e);
    if o2.Ok? {
      NotedOrPartial(o2.ca, q, QuarantinedNote, last);
      var o3 := PublishNote(o2.ca, q, QuarantinedNote, last);
      if o3.Ok? {
        RecordStops(lib, o3.ca, QuarantineRecord(authority, id, t.utc));
        assert o2.ca.quarantines[q].notes[Final(QuarantinedNote) := Whole(last)]
            == Closed(id, t, WithCopies(c, d, e), note).notes;
        UpdateTwice(c.quarantines, q, o2.ca.quarantines[q], Closed(id, t, WithCopies(c, d, e), note));
      }
    }
  }

  lemma MoveStops(lib: Lib, authority: Id, c: Ca, id: Id, e: Evidence, t: Ticket)
    requires id in c.issuances && t.destination !in c.quarantines
    requires AuditChainValid(lib, c.audits) && (forall n: nat :: Pending(n) !in c.audits)
    requires forall f: File :: f == ReservationCopy || f == PendingCopy ==>
               Final(f) !in c.issuances[id] && Pending(f) !in c.issuances[id]
    requires e.reservation.Some? ==> Final(e.reservation.value) in c.reservations
    requires e.pending.Some? ==> Pending(e.pending.value) in c.reservations
    ensures var c' := MoveEvidence(lib, authority, c, id, e, t).ca;
            c' == c || Partial(c', t.destination) || Filed(lib, authority, c, c', id, e, t)
  {
    FrontStops(authority, c, id, e, t);
    if OpenAndMove(authority, c, id, e, t).Ok? {
      var note := PreparedDoc(Prepared(id, authority, EvidenceSerial(c, e), t.utc));
      var c3 := FrontHalf(authority, c, id, e, t);
      BackStops(lib, authority, c3, id, e, t, c.issuances[id], note);
      SameCopies(c, c3, c.issuances[id], e);
      UpdateTwice(c.quarantines, t.destination, c3.quarantines[t.destination],
                  Closed(id, t, WithCopies(c, c.issuances[id], e), note));
    }
  }

  /** Wherever the quarantine of a wreck stops: the wreck is as it was, its destination is
      partial, or everything but the audit record is in place. */
  lemma QuarantineStops(lib: Lib, authority: Id, c0: Ca, c: Ca, intent: Intent, t: Ticket)
    requires LibOk(lib) && Clean(lib, authority, c0) && Wreckage.BlockedWreck(c0, c, intent)
    requires Unused(c0, intent.issuanceId, intent.serial) && t.destination !in c0.quarantines
    requires intent.authorityId == authority && intent.version == SCHEMA_VERSION
    ensures var c' := QuarantineIssuance(lib, authority, c, intent.issuanceId, t).ca;
            || Wreckage.BlockedWreck(c0, c', intent)
            || Partial(c', t.destination)
            || exists w: Ca :: Wreckage.BlockedWreck(c0, w, intent)
                 && Filed(lib, authority, w, c', intent.issuanceId, ExpectedEvidence(w, intent), t)
  {
    WreckIsMovedOn(lib, authority, c0, c, intent, t);
    var w := FullScan(lib, authority, c).ca;
    MoveStops(lib, authority, w, intent.issuanceId, ExpectedEvidence(w, intent), t);
  }

  /** Past its scan, the command moves the evidence that it expects. */
  lemma WreckIsMovedOn(lib: Lib, authority: Id, c0: Ca, c: Ca, intent: Intent, t: Ticket)
    requires LibOk(lib) && Clean(lib, authority, c0) && Wreckage.BlockedWreck(c0, c, intent)
    requires Unused(c0, intent.issuanceId, intent.serial)
    requires intent.authorityId == authority && intent.version == SCHEMA_VERSION
    ensures var w := FullScan(lib, authority, c).ca;
            && Wreckage.BlockedWreck(c0, w, intent)
            && (|| QuarantineIssuance(lib, authority, c, intent.issuanceId, t).ca == w
                || QuarantineIssuance(lib, authority, c, intent.issuanceId, t)
                == MoveEvidence(lib, authority, w, intent.issuanceId, ExpectedEvidence(w, intent), t))
  {
    Wreckage.BlockedWreckScan(lib, authority, c0, c, intent);
    WreckIsInspected(lib, authority, c0, FullScan(lib, authority, c).ca, intent);
  }

  // ---------- a filed quarantine is accepted ----------

  lemma ProgressIsValid(lib: Lib, before: Dir<nat>, now: Dir<nat>, record: Audit)
    requires AuditChainValid(lib, before) && (forall n: nat :: Pending(n) !in before)
    requires record.kind != CertificateIssued
    requires LibOk(lib)
    requires var next := NextAudit(lib, before, record);
             Finish.Progress(before, now, next.sequence, AuditDoc(next))
    ensures AuditChainValid(lib, now) && Advance.Kept(before, now)
  {
    var next := NextAudit(lib, before, record);
    assert before - {Pending(next.sequence)} == before;
    assert Final(next.sequence) !in before;
    AuditChain.AppendKeepsChain(lib, before, record);
    if now != before && now != AuditChain.Appended(lib, before, record) {
      Repair.ChainIgnoresStaging(lib, before, next.sequence, now[Pending(next.sequence)]);
    }
  }

  lemma FiledIsIsolated(lib: Lib, authority: Id, c0: Ca, w: Ca, c: Ca, intent: Intent, t: Ticket)
    requires LibOk(lib) && Clean(lib, authority, c0) && Wreckage.Wreck(c0, w, intent)
    requires Unused(c0, intent.issuanceId, intent.serial) && t.destination !in c0.quarantines
    requires Filed(lib, authority, w, c, intent.issuanceId, ExpectedEvidence(w, intent), t)
    ensures var record := QuarantineRecord(authority, intent.issuanceId, t.utc);
            Isolated(lib, authority, c0, c.(audits := AuditChain.Appended(lib, c0.audits, record)), intent, t)
    ensures AuditChainValid(lib, c.audits) && Advance.Kept(c0.audits, c.audits)
  {
    var record := QuarantineRecord(authority, intent.issuanceId, t.utc);
    FinalReservation(lib, authority, c0, w, intent);
    MovedIsIsolated(lib, authority, c0, w, intent, t, c.fuel, c.retired);
    ProgressIsValid(lib, c0.audits, c.audits, record);
    assert c.(audits := AuditChain.Appended(lib, c0.audits, record))
        == Moved(lib, authority, w, intent.issuanceId, ExpectedEvidence(w, intent), t, c.fuel, c.retired);
  }

  /** Reservations do not depend on the audit log. */
  lemma AuditsAside(lib: Lib, authority: Id, c: Ca, audits: Dir<nat>)
    requires ReservationsValid(lib, authority, c)
    ensures ReservationsValid(lib, authority, c.(audits := audits))
  {
    var c' := c.(audits := audits);
    assert forall s: Id, r: Reservation :: ReservedAt(c', s, r) == ReservedAt(c, s, r);
    forall s: Id, r: Reservation | ReservedAt(c', s, r) ensures ReservationValid(lib, authority, c', r) {
      assert ReservationValid(lib, authority, c, r);
      SameMatches(c, c', lib.list(c.quarantines.Keys), r);
    }
    forall id <- c'.issuances.Keys ensures IsReserved(c', id) {
      assert IsReserved(c, id);
      var s: Id, r: Reservation :| ReservedAt(c, s, r) && r.issuanceId == id;
      assert ReservedAt(c', s, r);
    }
  }

  lemma {:induction false} SameMatches(c: Ca, c': Ca, order: seq<Id>, r: Reservation)
    requires c'.quarantines == c.quarantines
    ensures MatchesQuarantine(c', order, r) == MatchesQuarantine(c, order, r)
  {
    if order != [] {
      SameMatches(c, c', order[1..], r);
    }
  }

  /** All that a settled state needs holds whatever the log is staged with. */
  lemma IsolatedIsSettled(lib: Lib, authority: Id, c0: Ca, c: Ca, intent: Intent, t: Ticket)
    requires LibOk(lib) && Clean(lib, authority, c0) && intent.authorityId == authority
    requires AuditChainValid(lib, c.audits) && Advance.Kept(c0.audits, c.audits)
    requires var record := QuarantineRecord(authority, intent.issuanceId, t.utc);
             var done := c.(audits := AuditChain.Appended(lib, c0.audits, record));
             Isolated(lib, authority, c0, done, intent, t) && Apart(c0, done, intent, t)
    ensures ScanMeaning.Settled(lib, authority, c)
  {
    var record := QuarantineRecord(authority, intent.issuanceId, t.utc);
    var done := c.(audits := AuditChain.Appended(lib, c0.audits, record));
    IsolatedIsClean(lib, authority, c0, done, intent, t);
    CleanReservationsValid(lib, authority, done);
    AuditsAside(lib, authority, done, c.audits);
    assert done.(audits := c.audits) == c;
    SameMappingsValid(authority, done, c);
    forall x <- c.issuances.Keys ensures ScanMeaning.IssuanceSettled(lib, authority, c, x) {
      SettledWithMoreAudit(lib, authority, c0, c, x);
    }
  }

  lemma FiledIsSettled(lib: Lib, authority: Id, c0: Ca, w: Ca, c: Ca, intent: Intent, t: Ticket)
    requires LibOk(lib) && Clean(lib, authority, c0) && Wreckage.Wreck(c0, w, intent)
    requires Unused(c0, intent.issuanceId, intent.serial) && t.destination !in c0.quarantines
    requires intent.authorityId == authority
    requires Filed(lib, authority, w, c, intent.issuanceId, ExpectedEvidence(w, intent), t)
    ensures ScanMeaning.Settled(lib, authority, c)
  {
    FiledIsIsolated(lib, authority, c0, w, c, intent, t);
    IsolatedIsSettled(lib, authority, c0, c, intent, t);
  }

  /** The same where nothing is known of the issuance and a reservation already names it. */
  lemma FiledBareIsSettled(lib: Lib, authority: Id, c0: Ca, w: Ca, c: Ca, id: Id, serial: Id, s: Id, r: Reservation,
          t: Ticket)
    requires LibOk(lib) && Clean(lib, authority, c0) && Remembered(c0, w, id, serial, s, r)
    requires t.destination !in c0.quarantines
    requires Filed(lib, authority, w, c, id, Evidence(None, Some(s), None), t)
    ensures ScanMeaning.Settled(lib, authority, c)
  {
    var record := QuarantineRecord(authority, id, t.utc);
    var done := c.(audits := AuditChain.Appended(lib, c0.audits, record));
    Clash.BareMoved(lib, authority, c0, w, id, serial, s, r, t, c.fuel, c.retired);
    ProgressIsValid(lib, c0.audits, c.audits, record);
    assert done == Moved(lib, authority, w, id, Evidence(None, Some(s), None), t, c.fuel, c.retired);
    forall u: Id, y: Reservation | ReservedAt(c0, u, y) && y.issuanceId == id ensures y == r {
    }
    IsolatedIsSettled(lib, authority, c0, c, Clash.Stand(id, authority, serial), t);
  }

  /** An enrollment under an identifier that `r` names, stopped while nothing is known of it. */
  ghost predicate Remembered(c0: Ca, c: Ca, id: Id, serial: Id, s: Id, r: Reservation) {
    && id !in c0.issuances && Clash.BareWreck(c0, c, id) && ReservedAt(c0, s, r) && r.issuanceId == id
    && Final(serial) !in c0.reservations && (forall q: Id, y: Reservation :: Names(c0, q, y) ==> y.serial != serial)
  }

  // ---------- the theorem ----------

  /** Some further commands lead to a state that a scan accepts. */
  ghost predicate AcceptedLater(lib: Lib, authority: Id, c: Ca, q: Id) {
    exists steps: seq<Step> :: DrawsOthers(steps, q)
      && FullScan(lib, authority, Run(lib, authority, c, steps).(fuel := ENOUGH, tear := NoBytes)).Ok?
  }

  lemma SettledIsAccepted(lib: Lib, authority: Id, c: Ca, q: Id)
    requires LibOk(lib) && ScanMeaning.Settled(lib, authority, c)
    ensures AcceptedLater(lib, authority, c, q)
  {
    var ready := c.(fuel := ENOUGH, tear := NoBytes);
    AuditsAside(lib, authority, c, c.audits);
    SettledRefuelled(lib, authority, c);
    ScanMeaning.SettledScans(lib, authority, ready);
    var steps: seq<Step> := [];
    assert Run(lib, authority, c, steps) == c && DrawsOthers(steps, q);
  }

  lemma SettledRefuelled(lib: Lib, authority: Id, c: Ca)
    requires ScanMeaning.Settled(lib, authority, c)
    ensures ScanMeaning.Settled(lib, authority, c.(fuel := ENOUGH, tear := NoBytes))
  {
    var ready := c.(fuel := ENOUGH, tear := NoBytes);
    assert forall s: Id, r: Reservation :: ReservedAt(ready, s, r) == ReservedAt(c, s, r);
    forall s: Id, r: Reservation | ReservedAt(ready, s, r) ensures ReservationValid(lib, authority, ready, r) {
      assert ReservationValid(lib, authority, c, r);
      SameMatches(c, ready, lib.list(c.quarantines.Keys), r);
    }
    forall id <- ready.issuances.Keys ensures IsReserved(ready, id) {
      assert IsReserved(c, id);
      var s: Id, r: Reservation :| ReservedAt(c, s, r) && r.issuanceId == id;
      assert ReservedAt(ready, s, r);
    }
    SameMappingsValid(authority, c, ready);
    forall id <- ready.issuances.Keys ensures ScanMeaning.IssuanceSettled(lib, authority, ready, id) {
      SettledWithMoreAudit(lib, authority, c, ready, id);
    }
  }

  lemma WreckIsAccepted(lib: Lib, authority: Id, c0: Ca, c: Ca, intent: Intent, q: Id)
    requires LibOk(lib) && Clean(lib, authority, c0) && Wreckage.BlockedWreck(c0, c, intent)
    requires Unused(c0, intent.issuanceId, intent.serial)
    requires intent.authorityId == authority && intent.version == SCHEMA_VERSION
    ensures AcceptedLater(lib, authority, c, q)
  {
    var name := EnrollmentRecovery.UnusedName(c.quarantines.Keys + {q});
    var t := Ticket(name, 0);
    var ready := c.(fuel := ENOUGH, tear := NoBytes);
    assert Wreckage.BlockedWreck(c0, ready, intent);
    BlockedWreckQuarantine(lib, authority, c0, ready, intent, t);
    CleanIsAccepted(lib, authority, QuarantineIssuance(lib, authority, ready, intent.issuanceId, t).ca);
    var step := Step(Isolate(intent.issuanceId, t), ENOUGH, NoBytes);
    IsolatingIs(lib, authority, c, intent.issuanceId, t);
    OneStep(lib, authority, c, step);
    StepsLead(lib, authority, c, [step], q);
  }

  lemma CleanIsAccepted(lib: Lib, authority: Id, c: Ca)
    requires LibOk(lib) && Clean(lib, authority, c)
    ensures FullScan(lib, authority, c.(fuel := ENOUGH, tear := NoBytes)).Ok?
  {
    EnrollmentRecovery.CleanElsewhere(lib, authority, c, c.(fuel := ENOUGH, tear := NoBytes));
    CleanScans(lib, authority, c.(fuel := ENOUGH, tear := NoBytes));
  }

  lemma IsolatingIs(lib: Lib, authority: Id, c: Ca, id: Id, t: Ticket)
    ensures Apply(lib, authority, c, Step(Isolate(id, t), ENOUGH, NoBytes))
            == QuarantineIssuance(lib, authority, c.(fuel := ENOUGH, tear := NoBytes), id, t).ca
  {
  }

  lemma OneStep(lib: Lib, authority: Id, c: Ca, step: Step)
    ensures Run(lib, authority, c, [step]) == Apply(lib, authority, c, step)
  {
    assert [step][1..] == [];
  }

  lemma StepsLead(lib: Lib, authority: Id, c: Ca, steps: seq<Step>, q: Id)
    requires DrawsOthers(steps, q)
    requires FullScan(lib, authority, Run(lib, authority, c, steps).(fuel := ENOUGH, tear := NoBytes)).Ok?
    ensures AcceptedLater(lib, authority, c, q)
  {
  }

  lemma PartialIsNeverAccepted(lib: Lib, authority: Id, c: Ca, q: Id)
    requires LibOk(lib) && Partial(c, q)
    ensures !AcceptedLater(lib, authority, c, q)
  {
    forall steps: seq<Step> | DrawsOthers(steps, q)
      ensures FullScan(lib, authority, Run(lib, authority, c, steps).(fuel := ENOUGH, tear := NoBytes)).Err?
    {
      PartialStays(lib, authority, c, q, steps);
      PartialBlocksScan(lib, authority, Run(lib, authority, c, steps).(fuel := ENOUGH, tear := NoBytes), q);
    }
  }

  /** The quarantine of a wreck, stopped anywhere. */
  lemma WreckStops(lib: Lib, authority: Id, c0: Ca, c: Ca, intent: Intent, t: Ticket)
    requires LibOk(lib) && Clean(lib, authority, c0) && Wreckage.BlockedWreck(c0, c, intent)
    requires Unused(c0, intent.issuanceId, intent.serial) && t.destination !in c0.quarantines
    requires intent.authorityId == authority && intent.version == SCHEMA_VERSION
    ensures var q, c' := t.destination, QuarantineIssuance(lib, authority, c, intent.issuanceId, t).ca;
            AcceptedLater(lib, authority, c', q)
            <==> q !in c'.quarantines || Final(QuarantinedNote) in c'.quarantines[q].notes
  {
    var q, c' := t.destination, QuarantineIssuance(lib, authority, c, intent.issuanceId, t).ca;
    QuarantineStops(lib, authority, c0, c, intent, t);
    if Partial(c', q) {
      PartialIsNeverAccepted(lib, authority, c', q);
    } else if Wreckage.BlockedWreck(c0, c', intent) {
      WreckIsAccepted(lib, authority, c0, c', intent, q);
    } else {
      var w: Ca :| Wreckage.BlockedWreck(c0, w, intent)
                   && Filed(lib, authority, w, c', intent.issuanceId, ExpectedEvidence(w, intent), t);
      FiledIsSettled(lib, authority, c0, w, c', intent, t);
      SettledIsAccepted(lib, authority, c', q);
    }
  }

  lemma RememberedIsAccepted(lib: Lib, authority: Id, c0: Ca, c: Ca, id: Id, serial: Id, s: Id, r: Reservation, q: Id)
    requires LibOk(lib) && Clean(lib, authority, c0) && Remembered(c0, c, id, serial, s, r)
    ensures AcceptedLater(lib, authority, c, q)
  {
    var name := EnrollmentRecovery.UnusedName(c.quarantines.Keys + {q});
    var t := Ticket(name, 0);
    var ready := c.(fuel := ENOUGH, tear := NoBytes);
    assert Clash.BareWreck(c0, ready, id);
    Clash.BareQuarantine(lib, authority, c0, ready, id, serial, s, r, t);
    CleanIsAccepted(lib, authority, QuarantineIssuance(lib, authority, ready, id, t).ca);
    var step := Step(Isolate(id, t), ENOUGH, NoBytes);
    IsolatingIs(lib, authority, c, id, t);
    OneStep(lib, authority, c, step);
    StepsLead(lib, authority, c, [step], q);
  }

  lemma RememberedStops(lib: Lib, authority: Id, c0: Ca, c: Ca, id: Id, serial: Id, s: Id, r: Reservation, t: Ticket)
    requires LibOk(lib) && Clean(lib, authority, c0) && Remembered(c0, c, id, serial, s, r)
    requires t.destination !in c0.quarantines
    ensures var q, c' := t.destination, QuarantineIssuance(lib, authority, c, id, t).ca;
            AcceptedLater(lib, authority, c', q)
            <==> q !in c'.quarantines || Final(QuarantinedNote) in c'.quarantines[q].notes
  {
    var q, c', e := t.destination, QuarantineIssuance(lib, authority, c, id, t).ca, Evidence(None, Some(s), None);
    Clash.BareScan(lib, authority, c0, c, id);
    Clash.BareInspected(lib, authority, c0, c, id, s, r);
    MoveStops(lib, authority, c, id, e, t);
    if Partial(c', q) {
      PartialIsNeverAccepted(lib, authority, c', q);
    } else if c' == c {
      RememberedIsAccepted(lib, authority, c0, c, id, serial, s, r, q);
    } else {
      FiledBareIsSettled(lib, authority, c0, c, c', id, serial, s, r, t);
      SettledIsAccepted(lib, authority, c', q);
    }
  }

  /** A quarantine that would succeed is of an enrollment stopped before COMPLETE. */
  lemma RepairableByQuarantine(lib: Lib, authority: Id, c: Ca, id: Id)
    requires LibOk(lib) && EnrollmentRecovery.QuarantineRepairs(lib, authority, c, id)
    ensures !(Has(c, id, CompleteFile) && Has(c, id, IntentFile))
  {
    var name := EnrollmentRecovery.UnusedName(c.quarantines.Keys);
    var t := Ticket(name, 0);
    var ready := EnrollmentRecovery.Refuelled(c, NoBytes);
    assert QuarantineIssuance(lib, authority, ready, id, t).Ok?;
    if Has(c, id, CompleteFile) && Has(c, id, IntentFile) {
      Jammed.QuarantinePersists(lib, authority, ready, id, t, id);
    }
  }

  lemma NeitherCleanNorClashing(lib: Lib, authority: Id, c: Ca, id: Id)
    requires LibOk(lib) && EnrollmentRecovery.QuarantineRepairs(lib, authority, c, id)
    ensures !Clean(lib, authority, c) && !Clash.Clashing(c)
  {
    RepairableByQuarantine(lib, authority, c, id);
    if Clash.Clashing(c) {
      EnrollmentRecovery.ClashIsBeyondRepair(lib, authority, c);
    }
    if Clean(lib, authority, c) {
      SettledHasComplete(lib, authority, c, id);
    }
  }

  lemma SettledHasComplete(lib: Lib, authority: Id, c: Ca, id: Id)
    requires Clean(lib, authority, c) && id in c.issuances
    ensures Has(c, id, CompleteFile) && Has(c, id, IntentFile)
  {
    assert ScanMeaning.IssuanceSettled(lib, authority, c, id);
  }

  /** The command's own scan completes a committed issuance, which it then refuses. */
  lemma CommittedIsNotQuarantined(lib: Lib, authority: Id, c0: Ca, c: Ca, p: Finish.Plan)
    requires LibOk(lib) && Clean(lib, authority, c0) && Finish.Fits(authority, c0, p)
    requires Finish.Committed(lib, c0, c, p) && !Finish.TornAfterCommit(lib, c0, c, p)
    requires Repair.NothingStagedIn(c.issuances[p.intent.issuanceId])
    ensures !EnrollmentRecovery.QuarantineRepairs(lib, authority, c, p.intent.issuanceId)
  {
    var name := EnrollmentRecovery.UnusedName(c.quarantines.Keys);
    var id, ready := p.intent.issuanceId, EnrollmentRecovery.Refuelled(c, NoBytes);
    ScanCompletes(lib, authority, c0, c, p);
    CompleteIsRefused(lib, authority, ready, id, Ticket(name, 0));
    RefusedIsNotRepaired(lib, authority, c, id, Ticket(name, 0));
  }

  lemma ScanCompletes(lib: Lib, authority: Id, c0: Ca, c: Ca, p: Finish.Plan)
    requires LibOk(lib) && Clean(lib, authority, c0) && Finish.Fits(authority, c0, p)
    requires Finish.Committed(lib, c0, c, p) && !Finish.TornAfterCommit(lib, c0, c, p)
    requires Repair.NothingStagedIn(c.issuances[p.intent.issuanceId])
    ensures var ready := EnrollmentRecovery.Refuelled(c, NoBytes);
            Has(FullScan(lib, authority, ready).ca, p.intent.issuanceId, CompleteFile)
  {
    Recovery.RefuelledStays(lib, c0, c, p, ENOUGH, NoBytes);
    Repair.ScanFinishes(lib, authority, c0, EnrollmentRecovery.Refuelled(c, NoBytes), p);
  }

  lemma RefusedIsNotRepaired(lib: Lib, authority: Id, c: Ca, id: Id, t: Ticket)
    requires t.destination !in c.quarantines
    requires QuarantineIssuance(lib, authority, EnrollmentRecovery.Refuelled(c, NoBytes), id, t).Err?
    ensures !EnrollmentRecovery.QuarantineRepairs(lib, authority, c, id)
  {
  }

  lemma CompleteIsRefused(lib: Lib, authority: Id, c: Ca, id: Id, t: Ticket)
    requires Has(FullScan(lib, authority, c).ca, id, CompleteFile)
    ensures QuarantineIssuance(lib, authority, c, id, t).Err?
  {
  }

  lemma RepairedStopping(lib: Lib, authority: Id, c0: Ca, c: Ca, p: Finish.Plan)
    requires LibOk(lib) && Clean(lib, authority, c0) && Finish.Fits(authority, c0, p)
    requires CrashRecovery.Stopping(lib, c0, c, p) && !Clean(lib, authority, c)
    requires EnrollmentRecovery.QuarantineRepairs(lib, authority, c, p.intent.issuanceId)
    ensures Wreckage.BlockedWreck(c0, c, p.intent)
  {
    if Recovery.SameFiles(c, c0) && c.initPending == c0.initPending {
      EnrollmentRecovery.CleanElsewhere(lib, authority, c0, c);
    } else if Repair.Stuck(lib, c0, c, p) {
      EnrollmentRecovery.StuckIsBeyondRepair(lib, authority, c0, c, p);
    } else if !Wreckage.BlockedWreck(c0, c, p.intent) {
      CommittedIsNotQuarantined(lib, authority, c0, c, p);
    }
  }

  /** What a quarantine of the enrollment repairs is a wreck or a bare directory. */
  lemma RepairedByQuarantine(lib: Lib, authority: Id, c0: Ca, request: Request, a: Attempt)
    requires LibOk(lib) && Clean(lib, authority, c0) && Final(request.keyHash) !in c0.mappings
    requires UniqueId(c0, a.ids).Some? && UniqueSerial(lib, c0, a.serials).Found?
    requires EnrollmentRecovery.QuarantineRepairs(lib, authority, Issue(lib, authority, c0, request, a).ca,
                                                  UniqueId(c0, a.ids).value)
    ensures var id, c := UniqueId(c0, a.ids).value, Issue(lib, authority, c0, request, a).ca;
            var p := EnrollmentRecovery.PlanOf(lib, authority, c0, request, a);
            if EnrollmentRecovery.NewId(c0, id)
            then Finish.Fits(authority, c0, p) && Wreckage.BlockedWreck(c0, c, p.intent)
            else Clash.BareWreck(c0, c, id)
  {
    var id, c := UniqueId(c0, a.ids).value, Issue(lib, authority, c0, request, a).ca;
    EnrollmentRecovery.IssueStops(lib, authority, c0, request, a);
    RepairableByQuarantine(lib, authority, c, id);
    NeitherCleanNorClashing(lib, authority, c, id);
    if EnrollmentRecovery.NewId(c0, id) {
      RepairedStopping(lib, authority, c0, c, EnrollmentRecovery.PlanOf(lib, authority, c0, request, a));
    }
  }

  /** Stop an enrollment anywhere such that quarantining it would repair the state, and then stop
      that quarantine anywhere: later commands can make the scan accept the state again
      exactly when the destination does not exist yet or its second note is in place;
      otherwise they never do, since each further quarantine draws another name. */
  lemma StoppedQuarantineIsAcceptedExactlyWhen(lib: Lib, authority: Id, c0: Ca, request: Request, a: Attempt, fuel: nat,
          tear: Tear, t: Ticket)
    requires LibOk(lib) && Clean(lib, authority, c0) && Final(request.keyHash) !in c0.mappings
    requires UniqueId(c0, a.ids).Some? && UniqueSerial(lib, c0, a.serials).Found?
    requires t.destination !in c0.quarantines
    requires EnrollmentRecovery.QuarantineRepairs(lib, authority, Issue(lib, authority, c0, request, a).ca,
                                                  UniqueId(c0, a.ids).value)
    ensures var id, q := UniqueId(c0, a.ids).value, t.destination;
            var stopped := Issue(lib, authority, c0, request, a).ca.(fuel := fuel, tear := tear);
            var c' := QuarantineIssuance(lib, authority, stopped, id, t).ca;
            AcceptedLater(lib, authority, c', q)
            <==> q !in c'.quarantines || Final(QuarantinedNote) in c'.quarantines[q].notes
  {
    var id, serial := UniqueId(c0, a.ids).value, UniqueSerial(lib, c0, a.serials).value;
    var c := Issue(lib, authority, c0, request, a).ca;
    var p := EnrollmentRecovery.PlanOf(lib, authority, c0, request, a);
    RepairedByQuarantine(lib, authority, c0, request, a);
    var stopped := c.(fuel := fuel, tear := tear);
    if EnrollmentRecovery.NewId(c0, id) {
      assert Wreckage.BlockedWreck(c0, stopped, p.intent);
      WreckStops(lib, authority, c0, stopped, p.intent, t);
    } else {
      EnrollmentRecovery.DrawsAreFree(lib, authority, c0, a);
      var s: Id, r: Reservation :| ReservedAt(c0, s, r) && r.issuanceId == id;
      assert Clash.BareWreck(c0, stopped, id);
      RememberedStops(lib, authority, c0, stopped, id, serial, s, r, t);
    }
  }
}
