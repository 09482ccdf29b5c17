/** The crash-recovery theorem: from a clean state, stop an enrollment after any file
    operation; the scan or a quarantine makes the state clean again, except in the two kinds
    of states named here, which nothing repairs. */
module EnrollmentRecovery {
  import opened Publication
  import opened Records
  import opened AuthorityState
  import opened Issuance
  import opened Scan
  import opened CleanState
  import opened Finish
  import opened Clash
  import CrashRecovery
  import IssuanceRuns
  import QuarantineCommand
  import Recovery
  import Repair
  import ScanMeaning
  import WreckQuarantine
  import Wreckage

  // ---------- what the identifier searches establish ----------

  /** No reservation remembers the identifier. */
  ghost predicate NewId(c: Ca, id: Id) {
    forall s: Id, r: Reservation :: ReservedAt(c, s, r) ==> r.issuanceId != id
  }

  lemma {:induction false} UniqueIdIsDrawn(c: Ca, draws: seq<nat>)
    ensures var id := UniqueId(c, draws); id.Some? ==> id.value in draws && id.value !in c.issuances
  {
    if draws != [] {
      UniqueIdIsDrawn(c, draws[1..]);
    }
  }

  lemma {:induction false} UnboundByQuarantine(c: Ca, order: seq<Id>, serial: Id)
    requires BoundByQuarantine(c, order, serial) == Absent
    requires forall q <- order :: q in c.quarantines && Readable(c.quarantines[q])
    ensures forall q <- order, r: Reservation :: Names(c, q, r) ==> r.serial != serial
  {
    if order != [] {
      assert BoundByOne(c.quarantines[order[0]], serial) == Absent;
      UnboundByQuarantine(c, order[1..], serial);
      assert order == [order[0]] + order[1..];
    }
  }

  lemma {:induction false} UniqueSerialIsUnbound(lib: Lib, c: Ca, draws: seq<nat>)
    ensures var s := UniqueSerial(lib, c, draws);
            s.Found? ==> Final(s.value) !in c.reservations && BoundByIntent(lib, c, s.value) == Absent
  {
    if draws != [] {
      UniqueSerialIsUnbound(lib, c, draws[1..]);
    }
  }

  lemma DrawsAreFree(lib: Lib, authority: Id, c: Ca, a: Attempt)
    requires LibOk(lib) && Clean(lib, authority, c)
    requires UniqueId(c, a.ids).Some? && UniqueSerial(lib, c, a.serials).Found?
    ensures var id, serial := UniqueId(c, a.ids).value, UniqueSerial(lib, c, a.serials).value;
            && id !in c.issuances && (forall n: nat :: !IssuedAt(c.audits, n, id))
            && Final(serial) !in c.reservations
            && (forall q: Id, r: Reservation :: Names(c, q, r) ==> r.serial != serial)
  {
    var serial := UniqueSerial(lib, c, a.serials).value;
    UniqueIdIsDrawn(c, a.ids);
    UniqueSerialIsUnbound(lib, c, a.serials);
    var order := lib.list(c.quarantines.Keys);
    assert Enumerates(order, c.quarantines.Keys);
    UnboundByQuarantine(c, order, serial);
    forall q: Id, r: Reservation | Names(c, q, r) ensures r.serial != serial {
      assert q in order;
    }
  }

  /** A remembered identifier is remembered under another serial. */
  lemma RememberedSerialDiffers(lib: Lib, authority: Id, c: Ca, a: Attempt, s: Id, r: Reservation)
    requires LibOk(lib) && Clean(lib, authority, c)
    requires UniqueId(c, a.ids).Some? && UniqueSerial(lib, c, a.serials).Found?
    requires ReservedAt(c, s, r) && r.issuanceId == UniqueId(c, a.ids).value
    ensures r.serial != UniqueSerial(lib, c, a.serials).value
  {
    DrawsAreFree(lib, authority, c, a);
    assert Copied(c, r);
    var q: Id :| Names(c, q, r);
  }

  lemma IntentKeyIsIndexed(lib: Lib, authority: Id, c: Ca, x: Id)
    requires ScanMeaning.IssuanceSettled(lib, authority, c, x)
    ensures Has(c, x, IntentFile) && ParseIntent(FileOf(c, x, IntentFile)).Some?
    ensures Final(ParseIntent(FileOf(c, x, IntentFile)).value.keyHash) in c.mappings
  {
  }

  /** In a clean state every issuance is indexed, so the search by key finds nothing new. */
  lemma {:induction false} UnindexedIsNotFound(lib: Lib, authority: Id, c: Ca, order: seq<Id>, keyHash: Digest,
          requestHash: Digest)
    requires forall x <- order :: ScanMeaning.IssuanceSettled(lib, authority, c, x)
    requires Final(keyHash) !in c.mappings
    ensures FindByKey(c, order, keyHash, requestHash) == Ok(c, None)
  {
    if order != [] {
      IntentKeyIsIndexed(lib, authority, c, order[0]);
      UnindexedIsNotFound(lib, authority, c, order[1..], keyHash, requestHash);
    }
  }

  // ---------- where an enrollment can stop ----------

  lemma SettledElsewhere(lib: Lib, authority: Id, c0: Ca, c: Ca, x: Id)
    requires Recovery.SameFiles(c, c0) && ScanMeaning.IssuanceSettled(lib, authority, c0, x)
    ensures ScanMeaning.IssuanceSettled(lib, authority, c, x)
  {
    var commit := Load(lib, authority, c0.issuances[x]).value.commit;
    var n: nat :| ScanMeaning.AuditedAs(c0.audits, commit, n);
    assert ScanMeaning.AuditedAs(c.audits, commit, n);
  }

  lemma AccountedElsewhere(authority: Id, c0: Ca, c: Ca)
    requires Recovery.SameFiles(c, c0) && ReservationsAccounted(authority, c0)
    ensures ReservationsAccounted(authority, c)
  {
    assert forall s: Id, r: Reservation :: ReservedAt(c, s, r) == ReservedAt(c0, s, r);
    forall s: Id, r: Reservation | ReservedAt(c, s, r) && !Has(c, r.issuanceId, IntentFile) ensures Copied(c, r) {
      assert Copied(c0, r);
      Repair.SameQuarantinesSameCopies(c0, c, r);
    }
    forall id <- c.issuances.Keys ensures IsReserved(c, id) {
      assert IsReserved(c0, id);
      var s: Id, r: Reservation :| ReservedAt(c0, s, r) && r.issuanceId == id;
      assert ReservedAt(c, s, r);
    }
  }

  lemma CleanElsewhere(lib: Lib, authority: Id, c0: Ca, c: Ca)
    requires Recovery.SameFiles(c, c0) && c.initPending == c0.initPending && Clean(lib, authority, c0)
    ensures Clean(lib, authority, c)
  {
    AccountedElsewhere(authority, c0, c);
    WreckQuarantine.SameMappingsValid(authority, c0, c);
    forall id <- c.issuances.Keys ensures ScanMeaning.IssuanceSettled(lib, authority, c, id) {
      SettledElsewhere(lib, authority, c0, c, id);
    }
  }

  lemma ReplayOnlyAnswers(lib: Lib, c: Ca, request: Request)
    requires Final(request.keyHash) in c.mappings
    ensures var out := Replay(lib, c, request); out.ca == c.(replies := out.ca.replies)
  {
  }

  lemma AnsweringStaysClean(lib: Lib, authority: Id, c: Ca, replies: seq<Reply>)
    requires Clean(lib, authority, c)
    ensures Clean(lib, authority, c.(replies := replies))
  {
    CleanElsewhere(lib, authority, c, c.(replies := replies));
  }

  /** The plan of the enrollment that an attempt starts. */
  function PlanOf(lib: Lib, authority: Id, c: Ca, request: Request, a: Attempt): Plan
    requires UniqueId(c, a.ids).Some? && UniqueSerial(lib, c, a.serials).Found?
  {
    Plan(IntentFor(authority, request, a, UniqueId(c, a.ids).value, UniqueSerial(lib, c, a.serials).value),
         if a.signer.Signs? then a.signer.der else [], request.sourceIp)
  }

  ghost predicate StopsAt(lib: Lib, authority: Id, c0: Ca, c: Ca, request: Request, a: Attempt) {
    || Clean(lib, authority, c)
    || (&& UniqueId(c0, a.ids).Some? && UniqueSerial(lib, c0, a.serials).Found?
        && var p := PlanOf(lib, authority, c0, request, a);
           || (Fits(authority, c0, p) && CrashRecovery.Stopping(lib, c0, c, p))
           || (!NewId(c0, p.intent.issuanceId) && (BareWreck(c0, c, p.intent.issuanceId) || Clashing(c))))
  }

  lemma UnindexedIssue(lib: Lib, authority: Id, c0: Ca, request: Request, a: Attempt)
    requires LibOk(lib) && Clean(lib, authority, c0) && Final(request.keyHash) !in c0.mappings
    ensures Issue(lib, authority, c0, request, a) ==
            if UniqueId(c0, a.ids).None? then Err(c0, Incomplete)
            else if UniqueSerial(lib, c0, a.serials).Absent? then Err(c0, Incomplete)
            else if UniqueSerial(lib, c0, a.serials).Unreadable? then Err(c0, StateError)
            else IssueFresh(lib, authority, c0, request, a, PlanOf(lib, authority, c0, request, a).intent)
  {
    var order := lib.list(c0.issuances.Keys);
    assert Enumerates(order, c0.issuances.Keys);
    UnindexedIsNotFound(lib, authority, c0, order, request.keyHash, request.requestHash);
  }

  lemma IndexedIssueIs(lib: Lib, authority: Id, c: Ca, request: Request, a: Attempt)
    requires Final(request.keyHash) in c.mappings
    ensures Issue(lib, authority, c, request, a).ca == c
            || Issue(lib, authority, c, request, a).ca == Replay(lib, c, request).ca
  {
  }

  lemma IndexedIssue(lib: Lib, authority: Id, c0: Ca, request: Request, a: Attempt)
    requires Clean(lib, authority, c0) && Final(request.keyHash) in c0.mappings
    ensures Clean(lib, authority, Issue(lib, authority, c0, request, a).ca)
  {
    IndexedIssueIs(lib, authority, c0, request, a);
    ReplayOnlyAnswers(lib, c0, request);
    AnsweringStaysClean(lib, authority, c0, Replay(lib, c0, request).ca.replies);
  }

  lemma FreshStops(lib: Lib, authority: Id, c0: Ca, request: Request, a: Attempt)
    requires LibOk(lib) && Clean(lib, authority, c0) && Final(request.keyHash) !in c0.mappings
    requires UniqueId(c0, a.ids).Some? && UniqueSerial(lib, c0, a.serials).Found?
    ensures var p := PlanOf(lib, authority, c0, request, a);
            var out := IssueFresh(lib, authority, c0, request, a, p.intent);
            && StopsAt(lib, authority, c0, out.ca, request, a)
            && (out.Ok? ==> if NewId(c0, p.intent.issuanceId) then Clean(lib, authority, out.ca) else Clashing(out.ca))
  {
    var p := PlanOf(lib, authority, c0, request, a);
    DrawsAreFree(lib, authority, c0, a);
    if NewId(c0, p.intent.issuanceId) {
      CrashRecovery.IssueFreshStops(lib, authority, c0, request, a, p);
    } else {
      var s: Id, r: Reservation :| ReservedAt(c0, s, r) && r.issuanceId == p.intent.issuanceId;
      RememberedSerialDiffers(lib, authority, c0, a, s, r);
      RepeatedStops(lib, authority, c0, request, a, p.intent, s, r);
      var c := IssueFresh(lib, authority, c0, request, a, p.intent).ca;
      if Recovery.SameFiles(c, c0) && c.initPending == c0.initPending {
        CleanElsewhere(lib, authority, c0, c);
      }
    }
  }

  /** Every place an enrollment from a clean state can stop. */
  lemma IssueStops(lib: Lib, authority: Id, c0: Ca, request: Request, a: Attempt)
    requires LibOk(lib) && Clean(lib, authority, c0)
    ensures var out := Issue(lib, authority, c0, request, a);
            && (out.Ok? ==> Clean(lib, authority, out.ca) || Clashing(out.ca))
            && StopsAt(lib, authority, c0, out.ca, request, a)
  {
    if Final(request.keyHash) in c0.mappings {
      IndexedIssue(lib, authority, c0, request, a);
    } else {
      UnindexedIssue(lib, authority, c0, request, a);
      if UniqueId(c0, a.ids).Some? && UniqueSerial(lib, c0, a.serials).Found? {
        FreshStops(lib, authority, c0, request, a);
      }
    }
  }

  // ---------- repair ----------

  function Refuelled(c: Ca, tear: Tear): Ca {
    c.(fuel := ENOUGH, tear := tear)
  }

  ghost predicate ScanRepairs(lib: Lib, authority: Id, c: Ca) {
    forall tear: Tear ::
      var out := FullScan(lib, authority, Refuelled(c, tear));
      out.Ok? && Clean(lib, authority, out.ca)
  }

  /** Quarantining `id` under any unused name succeeds and leaves a clean state. */
  ghost predicate QuarantineRepairs(lib: Lib, authority: Id, c: Ca, id: Id) {
    && id in c.issuances
    && forall tear: Tear, t: QuarantineCommand.Ticket :: t.destination !in c.quarantines ==>
         var out := QuarantineCommand.QuarantineIssuance(lib, authority, Refuelled(c, tear), id, t);
         out.Ok? && Clean(lib, authority, out.ca)
  }

  ghost predicate Repairable(lib: Lib, authority: Id, c: Ca) {
    ScanRepairs(lib, authority, c) || exists id: Id :: QuarantineRepairs(lib, authority, c, id)
  }

  /** An audit marker is staged, or the staging of an index entry or audit record is torn. */
  ghost predicate Wedged(c: Ca) {
    || (exists id: Id :: id in c.issuances && Pending(AuditMarkFile) in c.issuances[id])
    || (exists key: Digest :: TornAt(c.mappings, key))
    || (exists n: nat :: TornAt(c.audits, n))
  }

  lemma CleanIsRepaired(lib: Lib, authority: Id, c: Ca)
    requires LibOk(lib) && Clean(lib, authority, c)
    ensures ScanRepairs(lib, authority, c) && !Wedged(c)
  {
    forall tear: Tear ensures FullScan(lib, authority, Refuelled(c, tear)) == Ok(Refuelled(c, tear), ())
                              && Clean(lib, authority, Refuelled(c, tear)) {
      CleanElsewhere(lib, authority, c, Refuelled(c, tear));
      CleanScans(lib, authority, Refuelled(c, tear));
    }
  }

  lemma WreckIsRepaired(lib: Lib, authority: Id, c0: Ca, c: Ca, p: Plan)
    requires LibOk(lib) && Clean(lib, authority, c0) && Fits(authority, c0, p) && Wreckage.BlockedWreck(c0, c, p.intent)
    ensures QuarantineRepairs(lib, authority, c, p.intent.issuanceId)
  {
    forall tear: Tear, t: QuarantineCommand.Ticket | t.destination !in c.quarantines
      ensures var out := QuarantineCommand.QuarantineIssuance(lib, authority, Refuelled(c, tear), p.intent.issuanceId,
            t);
              out.Ok? && Clean(lib, authority, out.ca)
    {
      assert Wreckage.BlockedWreck(c0, Refuelled(c, tear), p.intent);
      WreckQuarantine.BlockedWreckQuarantine(lib, authority, c0, Refuelled(c, tear), p.intent, t);
    }
  }

  lemma WreckIsNotWedged(lib: Lib, authority: Id, c0: Ca, c: Ca, intent: Intent)
    requires NothingStaged(c0) && Wreckage.Wreck(c0, c, intent)
    ensures !Wedged(c)
  {
    forall id: Id | id in c.issuances ensures Pending(AuditMarkFile) !in c.issuances[id] {
      assert id == intent.issuanceId || (id in c0.issuances && c.issuances[id] == c0.issuances[id]);
    }
  }

  lemma CommittedIsRepaired(lib: Lib, authority: Id, c0: Ca, c: Ca, p: Plan)
    requires LibOk(lib) && Clean(lib, authority, c0) && Fits(authority, c0, p) && Committed(lib, c0, c, p)
    requires Repair.NothingStagedIn(c.issuances[p.intent.issuanceId]) && !TornAfterCommit(lib, c0, c, p)
    ensures ScanRepairs(lib, authority, c)
  {
    forall tear: Tear ensures var out := FullScan(lib, authority, Refuelled(c, tear)); out.Ok? && Clean(lib, authority,
          out.ca) {
      Recovery.RefuelledStays(lib, c0, c, p, ENOUGH, tear);
      Repair.ScanFinishes(lib, authority, c0, Refuelled(c, tear), p);
    }
  }

  lemma CommittedIsNotWedged(lib: Lib, authority: Id, c0: Ca, c: Ca, p: Plan)
    requires NothingStaged(c0) && Committed(lib, c0, c, p)
    requires Repair.NothingStagedIn(c.issuances[p.intent.issuanceId]) && !TornAfterCommit(lib, c0, c, p)
    ensures !Wedged(c)
  {
    forall id: Id | id in c.issuances ensures Pending(AuditMarkFile) !in c.issuances[id] {
      if id != p.intent.issuanceId {
        Repair.OtherIssuance(lib, c0, c, p, id);
      }
    }
  }

  lemma StuckIsWedged(lib: Lib, c0: Ca, c: Ca, p: Plan)
    requires Repair.Stuck(lib, c0, c, p)
    ensures Wedged(c)
  {
  }

  lemma StuckRefusesOthers(lib: Lib, authority: Id, c0: Ca, c: Ca, p: Plan, x: Id, t: QuarantineCommand.Ticket)
    requires LibOk(lib) && Clean(lib, authority, c0) && Fits(authority, c0, p) && Repair.Stuck(lib, c0, c, p)
    requires x in c.issuances && x != p.intent.issuanceId
    ensures QuarantineCommand.QuarantineIssuance(lib, authority, c, x, t).Err?
  {
    Repair.OtherIssuance(lib, c0, c, p, x);
    assert ScanMeaning.IssuanceSettled(lib, authority, c0, x);
    Repair.StuckScan(lib, authority, c0, c, p);
    var scanned := FullScan(lib, authority, c).ca;
    OtherIsThere(lib, c0, scanned, p, x);
    assert Has(scanned, x, CompleteFile);
  }

  lemma OtherIsThere(lib: Lib, c0: Ca, c: Ca, p: Plan, x: Id)
    requires Committed(lib, c0, c, p) && x in c0.issuances && x != p.intent.issuanceId
    ensures x in c.issuances && c.issuances[x] == c0.issuances[x]
  {
  }

  lemma StuckIsBeyondRepair(lib: Lib, authority: Id, c0: Ca, c: Ca, p: Plan)
    requires LibOk(lib) && Clean(lib, authority, c0) && Fits(authority, c0, p) && Repair.Stuck(lib, c0, c, p)
    ensures !Repairable(lib, authority, c)
  {
    var ready := Refuelled(c, NoBytes);
    Recovery.RefuelledStays(lib, c0, c, p, ENOUGH, NoBytes);
    assert Repair.Stuck(lib, c0, ready, p);
    Repair.StuckScan(lib, authority, c0, ready, p);
    assert !ScanRepairs(lib, authority, c);
    var q: Id := UnusedName(c.quarantines.Keys);
    var t := QuarantineCommand.Ticket(q, 0);
    forall id: Id | id in c.issuances ensures !QuarantineRepairs(lib, authority, c, id) {
      if id == p.intent.issuanceId {
        Repair.StuckQuarantine(lib, authority, c0, ready, p, t);
      } else {
        StuckRefusesOthers(lib, authority, c0, ready, p, id, t);
      }
      assert QuarantineCommand.QuarantineIssuance(lib, authority, Refuelled(c, NoBytes), id, t).Err?;
    }
  }

  lemma UnusedName(s: set<nat>) returns (x: nat)
    ensures x !in s
  {
    x := 0;
    if s != {} {
      var y := LargestOf(s);
      x := y + 1;
    }
  }

  lemma {:induction false} LargestOf(s: set<nat>) returns (m: nat)
    requires s != {}
    ensures m in s && forall x <- s :: x <= m
    decreases |s|
  {
    var x :| x in s;
    m := x;
    if s != {x} {
      assert s - {x} != {};
      var rest := LargestOf(s - {x});
      m := if rest <= x then x else rest;
      forall y <- s ensures y <= m {
        assert y == x || y in s - {x};
      }
    }
  }

  /** A clash is refused by the scan and by quarantine, and outlasts quarantines of others. */
  lemma ClashIsBeyondRepair(lib: Lib, authority: Id, c: Ca)
    requires LibOk(lib) && Clashing(c)
    ensures !Repairable(lib, authority, c)
  {
    var id: Id, i: Intent, s: Id, r: Reservation :| Clashes(c, id, i, s, r);
    var ready := Refuelled(c, NoBytes);
    assert Clashes(ready, id, i, s, r);
    ScanRefusesClash(lib, authority, ready, id, i, s, r);
    var q: Id := UnusedName(c.quarantines.Keys);
    forall x: Id | x in c.issuances ensures !QuarantineRepairs(lib, authority, c, x) {
      var out := QuarantineCommand.QuarantineIssuance(lib, authority, ready, x, QuarantineCommand.Ticket(q, 0));
      QuarantineKeepsClash(lib, authority, ready, x, QuarantineCommand.Ticket(q, 0), id, i, s, r);
      assert Clashing(out.ca);
      if Clean(lib, authority, out.ca) {
        CleanNeverClashes(lib, authority, out.ca);
      }
    }
  }

  lemma BareIsRepaired(lib: Lib, authority: Id, c0: Ca, c: Ca, request: Request, a: Attempt)
    requires LibOk(lib) && Clean(lib, authority, c0)
    requires UniqueId(c0, a.ids).Some? && UniqueSerial(lib, c0, a.serials).Found?
    requires !NewId(c0, UniqueId(c0, a.ids).value) && BareWreck(c0, c, UniqueId(c0, a.ids).value)
    ensures QuarantineRepairs(lib, authority, c, UniqueId(c0, a.ids).value) && !Wedged(c)
  {
    var id, serial := UniqueId(c0, a.ids).value, UniqueSerial(lib, c0, a.serials).value;
    DrawsAreFree(lib, authority, c0, a);
    var s: Id, r: Reservation :| ReservedAt(c0, s, r) && r.issuanceId == id;
    forall tear: Tear, t: QuarantineCommand.Ticket | t.destination !in c.quarantines
      ensures var out := QuarantineCommand.QuarantineIssuance(lib, authority, Refuelled(c, tear), id, t);
              out.Ok? && Clean(lib, authority, out.ca)
    {
      assert BareWreck(c0, Refuelled(c, tear), id);
      BareQuarantine(lib, authority, c0, Refuelled(c, tear), id, serial, s, r, t);
    }
    forall x: Id | x in c.issuances ensures Pending(AuditMarkFile) !in c.issuances[x] {
      assert x == id || (x in c0.issuances && c.issuances[x] == c0.issuances[x]);
    }
  }

  /** From a clean state, whatever the attempt meets and after however many file operations
      it is cut short: the state it leaves can be made clean by a scan or a quarantine exactly
      when it is neither wedged nor clashing; and success leaves a clean state exactly when
      it does not clash. */
  lemma StoppedEnrollmentIsRepairableExactlyWhen(lib: Lib, authority: Id, c0: Ca, request: Request, a: Attempt)
    requires LibOk(lib) && Clean(lib, authority, c0)
    ensures var out := Issue(lib, authority, c0, request, a);
            && (out.Ok? ==> (Clean(lib, authority, out.ca) <==> !Clashing(out.ca)))
            && (Repairable(lib, authority, out.ca) <==> !Wedged(out.ca) && !Clashing(out.ca))
  {
    IssueStops(lib, authority, c0, request, a);
    var c := Issue(lib, authority, c0, request, a).ca;
    if Clashing(c) {
      ClashIsBeyondRepair(lib, authority, c);
      if Clean(lib, authority, c) {
        CleanNeverClashes(lib, authority, c);
      }
    } else if Clean(lib, authority, c) {
      CleanIsRepaired(lib, authority, c);
    } else if NewId(c0, UniqueId(c0, a.ids).value) {
      StoppingRepairs(lib, authority, c0, c, PlanOf(lib, authority, c0, request, a));
    } else if BareWreck(c0, c, UniqueId(c0, a.ids).value) {
      BareIsRepaired(lib, authority, c0, c, request, a);
    }
  }

  lemma IssuedUnder(lib: Lib, authority: Id, c: Ca, request: Request, a: Attempt, intent: Intent)
    requires IssueFresh(lib, authority, c, request, a, intent).Ok?
    ensures IssueFresh(lib, authority, c, request, a, intent).value.issuanceId == intent.issuanceId
  {
  }

  /** A new enrollment that succeeds leaves a clean state exactly when no reservation named its
      identifier before; otherwise no scan accepts the state ever again. */
  lemma RepeatedIdentifierIsRefused(lib: Lib, authority: Id, c0: Ca, request: Request, a: Attempt,
          steps: seq<IssuanceRuns.Step>,
          fuel: nat, tear: Tear)
    requires LibOk(lib) && Clean(lib, authority, c0) && Final(request.keyHash) !in c0.mappings
    requires Issue(lib, authority, c0, request, a).Ok?
    ensures var out := Issue(lib, authority, c0, request, a);
            && (Clean(lib, authority, out.ca) <==> NewId(c0, out.value.issuanceId))
            && (!NewId(c0, out.value.issuanceId) ==>
                  FullScan(lib, authority,
                      IssuanceRuns.Run(lib, authority, out.ca, steps).(fuel := fuel, tear := tear)).Err?)
  {
    var out := Issue(lib, authority, c0, request, a);
    UnindexedIssue(lib, authority, c0, request, a);
    FreshStops(lib, authority, c0, request, a);
    IssuedUnder(lib, authority, c0, request, a, PlanOf(lib, authority, c0, request, a).intent);
    if !NewId(c0, out.value.issuanceId) {
      ClashForGood(lib, authority, out.ca, steps, fuel, tear);
      if Clean(lib, authority, out.ca) {
        CleanNeverClashes(lib, authority, out.ca);
      }
    }
  }

  lemma StoppingRepairs(lib: Lib, authority: Id, c0: Ca, c: Ca, p: Plan)
    requires LibOk(lib) && Clean(lib, authority, c0) && Fits(authority, c0, p) && CrashRecovery.Stopping(lib, c0, c, p)
    ensures Repairable(lib, authority, c) <==> !Wedged(c)
  {
    if Recovery.SameFiles(c, c0) && c.initPending == c0.initPending {
      CleanElsewhere(lib, authority, c0, c);
      CleanIsRepaired(lib, authority, c);
    } else if Wreckage.BlockedWreck(c0, c, p.intent) {
      WreckIsRepaired(lib, authority, c0, c, p);
      WreckIsNotWedged(lib, authority, c0, c, p.intent);
    } else if Repair.Stuck(lib, c0, c, p) {
      StuckIsBeyondRepair(lib, authority, c0, c, p);
      StuckIsWedged(lib, c0, c, p);
    } else {
      CommittedIsRepaired(lib, authority, c0, c, p);
      CommittedIsNotWedged(lib, authority, c0, c, p);
    }
  }
}
