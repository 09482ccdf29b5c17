/** The authority's state directory as an object its commands change one file operation at
    a time (authority.rs and state.rs). Each method leaves exactly the state, and returns
    exactly the result, of the specification function of the same operation; the theorems
    about those functions are therefore theorems about these methods. */
module StateDirectories {
  import opened Publication
  import opened Records
  import opened AuthorityState
  import opened Issuance
  import opened Validators
  import AuditChain
  import Inspection
  import QuarantineCommand
  import Scan

  datatype Outcome<+T> = Success(value: T) | Failure(error: Error)

  function Report<T>(c: Ca, r: Outcome<T>): Out<T> {
    match r
    case Success(value) => Ok(c, value)
    case Failure(error) => Err(c, error)
  }

  function Ended(status: Status): Outcome<()> {
    match status
    case Done => Success(())
    case Refused => Failure(StateError)
    case Interrupted => Failure(Stopped)
  }

  class StateDirectory {
    const lib: Lib
    const authority: Id
    var initPending: bool
    var issuances: map<Id, Dir<File>>
    var reservations: Dir<Id>
    var mappings: Dir<Digest>
    var audits: Dir<nat>
    var quarantines: map<Id, Quarantined>
    var signed: seq<Signing>
    var replies: seq<Reply>
    var retired: set<Id>
    var fuel: nat
    var tear: Tear

    constructor (lib: Lib, authority: Id, c: Ca)
      ensures this.lib == lib && this.authority == authority && View() == c
    {
      this.lib, this.authority := lib, authority;
      initPending, issuances, reservations, mappings := c.initPending, c.issuances, c.reservations, c.mappings;
      audits, quarantines, signed, replies := c.audits, c.quarantines, c.signed, c.replies;
      retired, fuel, tear := c.retired, c.fuel, c.tear;
    }

    function View(): Ca
      reads this
    {
      Ca(initPending, issuances, reservations, mappings, audits, quarantines, signed, replies, retired, fuel, tear)
    }

    // ---------- publications ----------

    method DurableFile(id: Id, f: File, doc: Doc) returns (r: Outcome<()>)
      requires id in issuances
      modifies this`issuances, this`fuel
      ensures Report(View(), r) == PublishFile(old(View()), id, f, doc)
    {
      var p := DurableBytes(issuances[id], f, Whole(doc), Empty, TornBlob(tear, Whole(doc)), fuel);
      issuances, fuel := issuances[id := p.dir], p.fuel;
      r := Ended(p.status);
    }

    method DurableReservation(reservation: Reservation) returns (r: Outcome<()>)
      modifies this`reservations, this`fuel
      ensures Report(View(), r) == Issuance.Reserve(old(View()), reservation)
    {
      var blob := Whole(ReservationDoc(reservation));
      var p := DurableBytes(reservations, reservation.serial, blob, Empty, TornBlob(tear, blob), fuel);
      reservations, fuel := p.dir, p.fuel;
      r := Ended(p.status);
    }

    method PublishExactOrValidateFile(id: Id, f: File, doc: Doc) returns (r: Outcome<()>)
      requires id in issuances
      modifies this`issuances, this`fuel
      ensures Report(View(), r) == PublishFileExact(old(View()), id, f, doc)
    {
      if Final(f) in issuances[id] {
        assert issuances[id := issuances[id]] == issuances;
        return if issuances[id][Final(f)] == Whole(doc) then Success(()) else Failure(StateError);
      }
      r := DurableFile(id, f, doc);
    }

    method PublishExactOrValidateMapping(mapping: Mapping) returns (r: Outcome<()>)
      modifies this`mappings, this`fuel
      ensures Report(View(), r) == Issuance.PublishMapping(old(View()), mapping)
    {
      var key, blob := mapping.keyHash, Whole(MappingDoc(mapping));
      if Final(key) in mappings {
        return if mappings[Final(key)] == blob then Success(()) else Failure(StateError);
      }
      var p := DurableBytes(mappings, key, blob, Empty, TornBlob(tear, blob), fuel);
      mappings, fuel := p.dir, p.fuel;
      r := Ended(p.status);
    }

    // ---------- append_audit and ensure_issuance_audit ----------

    method AppendAudit(record: Audit) returns (r: Outcome<()>)
      requires LibOk(lib)
      modifies this`audits, this`fuel
      ensures Report(View(), r) == Issuance.AppendAudit(lib, old(View()), record)
    {
      var listed := lib.list(Finals(audits));
      var entries := Sort(listed);
      var prior: Option<Digest> := None;
      Inspection.ListedOnce(lib, Finals(audits));
      SortedEnumerates(listed, Finals(audits));
      EnumerationSize(entries, Finals(audits));
      EnumerationSize(listed, Finals(audits));
      if entries != [] {
        var last := entries[|entries| - 1];
        LastIsLargest(entries, listed, Finals(audits));
        assert last in entries;
        assert Final(last) in audits by {
          AuditChain.FinalsAre(audits);
        }
        prior := Some(lib.sha(audits[Final(last)]));
      }
      var next := record.(sequence := |entries|, prior := prior);
      assert next == Issuance.NextAudit(lib, audits, record);
      var blob := Whole(AuditDoc(next));
      var p := DurableBytes(audits, next.sequence, blob, Empty, TornBlob(tear, blob), fuel);
      audits, fuel := p.dir, p.fuel;
      r := Ended(p.status);
    }

    method EnsureIssuanceAudit(commit: Commit) returns (r: Outcome<()>)
      requires LibOk(lib)
      modifies this`audits, this`fuel
      ensures Report(View(), r) == Issuance.EnsureIssuanceAudit(lib, old(View()), commit)
    {
      var entries := lib.list(Finals(audits));
      for i := 0 to |entries|
        invariant audits == old(audits) && fuel == old(fuel)
        invariant SearchAudit(audits, entries, commit.issuanceId)
            == SearchAudit(audits, entries[i..], commit.issuanceId)
      {
        var name := entries[i];
        assert entries[i..][0] == name && entries[i..][1..] == entries[i + 1..];
        if Final(name) !in audits {
          return Failure(StateError);
        }
        var parsed := ParseAudit(audits[Final(name)]);
        if parsed.None? {
          return Failure(StateError);
        }
        if IsIssuedRecord(parsed.value, commit.issuanceId) {
          return if AgreesWithCommit(parsed.value, commit) then Success(()) else Failure(Inconsistent);
        }
      }
      r := AppendAudit(IssuedRecord(commit));
    }

    // ---------- recover_issuance_commit ----------

    method RecoverIssuanceCommit(id: Id) returns (r: Outcome<()>)
      requires LibOk(lib)
      modifies this`issuances, this`mappings, this`audits, this`fuel
      ensures Report(View(), r) == Issuance.RecoverCommit(lib, authority, old(View()), id)
    {
      if id !in issuances {
        return Failure(StateError);
      }
      var loaded := Load(lib, authority, issuances[id]);
      if loaded.None? {
        return Failure(Inconsistent);
      }
      var t := loaded.value;
      r := PublishExactOrValidateFile(id, CompleteFile, CompleteDoc(t.complete));
      if r.Failure? {
        return;
      }
      r := PublishAfterComplete(id, t.commit);
    }

    /** The index entry, the audit record and the audit marker. */
    method PublishAfterComplete(id: Id, commit: Commit) returns (r: Outcome<()>)
      requires LibOk(lib) && id in issuances
      modifies this`issuances, this`mappings, this`audits, this`fuel
      ensures Report(View(), r) == Issuance.Tail(lib, old(View()), id, commit)
    {
      r := PublishExactOrValidateMapping(commit.mapping);
      if r.Failure? {
        return;
      }
      r := EnsureIssuanceAudit(commit);
      if r.Failure? {
        return;
      }
      r := PublishExactOrValidateFile(id, AuditMarkFile, AuditMarkDoc(commit.issuanceId));
    }

    // ---------- unique_id, unique_serial, find_issuance_by_idempotency ----------

    method UniqueId(draws: Draws) returns (id: Option<Id>)
      ensures id == Issuance.UniqueId(View(), draws)
    {
      for i := 0 to DRAWS
        invariant Issuance.UniqueId(View(), draws) == Issuance.UniqueId(View(), draws[i..])
      {
        assert draws[i..][0] == draws[i] && draws[i..][1..] == draws[i + 1..];
        if draws[i] !in issuances {
          return Some(draws[i]);
        }
      }
      return None;
    }

    method SerialIsBoundByIssuance(serial: Id) returns (bound: Search<()>)
      ensures bound == BoundByIssuance(View(), lib.list(issuances.Keys), serial)
    {
      var entries := lib.list(issuances.Keys);
      for i := 0 to |entries|
        invariant BoundByIssuance(View(), entries, serial) == BoundByIssuance(View(), entries[i..], serial)
      {
        var id := entries[i];
        assert entries[i..][0] == id && entries[i..][1..] == entries[i + 1..];
        if id in issuances && Final(IntentFile) in issuances[id] {
          var parsed := ParseIntent(issuances[id][Final(IntentFile)]);
          if parsed.None? {
            return Unreadable;
          }
          if parsed.value.serial == serial {
            return Found(());
          }
        }
      }
      return Absent;
    }

    method SerialIsBoundByQuarantine(serial: Id) returns (bound: Search<()>)
      ensures bound == BoundByQuarantine(View(), lib.list(quarantines.Keys), serial)
    {
      var entries := lib.list(quarantines.Keys);
      for i := 0 to |entries|
        invariant BoundByQuarantine(View(), entries, serial) == BoundByQuarantine(View(), entries[i..], serial)
      {
        assert entries[i..][0] == entries[i] && entries[i..][1..] == entries[i + 1..];
        if entries[i] !in quarantines {
          return Absent;
        }
        var one := BoundByOne(quarantines[entries[i]], serial);
        if one != Absent {
          return one;
        }
      }
      return Absent;
    }

    method UniqueSerial(draws: Draws) returns (serial: Search<Id>)
      ensures serial == Issuance.UniqueSerial(lib, View(), draws)
    {
      for i := 0 to DRAWS
        invariant Issuance.UniqueSerial(lib, View(), draws) == Issuance.UniqueSerial(lib, View(), draws[i..])
      {
        assert draws[i..][0] == draws[i] && draws[i..][1..] == draws[i + 1..];
        if Final(draws[i]) !in reservations {
          var bound := SerialIsBoundByIssuance(draws[i]);
          if bound == Absent {
            bound := SerialIsBoundByQuarantine(draws[i]);
          }
          match bound {
            case Absent =>
              return Found(draws[i]);
            case Unreadable =>
              return Unreadable;
            case Found(_) =>
          }
        }
      }
      return Absent;
    }

    method FindIssuanceByIdempotency(keyHash: Digest, requestHash: Digest) returns (r: Outcome<Option<Id>>)
      ensures Report(View(), r) == FindByKey(View(), lib.list(issuances.Keys), keyHash, requestHash)
    {
      var entries := lib.list(issuances.Keys);
      for i := 0 to |entries|
        invariant FindByKey(View(), entries, keyHash, requestHash)
            == FindByKey(View(), entries[i..], keyHash, requestHash)
      {
        var id := entries[i];
        assert entries[i..][0] == id && entries[i..][1..] == entries[i + 1..];
        if id in issuances && Final(IntentFile) in issuances[id] {
          var parsed := ParseIntent(issuances[id][Final(IntentFile)]);
          if parsed.None? {
            return Failure(StateError);
          }
          if parsed.value.keyHash == keyHash {
            if parsed.value.requestHash != requestHash {
              return Failure(Conflict);
            }
            if Final(CommitFile) !in issuances[id] {
              return Failure(Incomplete);
            }
            return Success(Some(id));
          }
        }
      }
      return Success(None);
    }

    // ---------- issue ----------

    method Replay(request: Request) returns (r: Outcome<Reply>)
      requires Final(request.keyHash) in mappings
      modifies this`replies
      ensures Report(View(), r) == Issuance.Replay(lib, old(View()), request)
    {
      var parsed := ParseMapping(mappings[Final(request.keyHash)]);
      if parsed.None? {
        return Failure(StateError);
      }
      var id := parsed.value.issuanceId;
      if id !in issuances || Final(CertificateFile) !in issuances[id] {
        return Failure(Inconsistent);
      }
      var certificate := issuances[id][Final(CertificateFile)];
      if lib.sha(certificate) != parsed.value.certificateSha {
        return Failure(Inconsistent);
      }
      var reply := Reply(200, request.keyHash, request.requestHash, id, certificate);
      replies := replies + [reply];
      return Success(reply);
    }

    /** Directory, intent and serial reservation. */
    method Prepare(a: Attempt, intent: Intent) returns (r: Outcome<()>)
      modifies this`issuances, this`reservations, this`fuel
      ensures Report(View(), r) == Issuance.Prepare(old(View()), a, intent)
      ensures r.Success? ==> intent.issuanceId in issuances
    {
      if fuel == 0 {
        return Failure(Stopped);
      }
      fuel := fuel - 1;
      if intent.issuanceId !in issuances {
        issuances := issuances[intent.issuanceId := map[]];
      }
      if !a.profileOk {
        return Failure(Precondition);
      }
      r := DurableFile(intent.issuanceId, IntentFile, IntentDoc(intent));
      if r.Failure? {
        return;
      }
      r := DurableReservation(ReservationFor(intent));
    }

    method Sign(a: Attempt, intent: Intent) returns (r: Outcome<Blob>)
      modifies this`signed, this`fuel
      ensures Report(View(), r) == Issuance.Sign(old(View()), a, intent)
      ensures r.Success? ==> r.value.Whole?
    {
      if fuel == 0 {
        return Failure(Stopped);
      }
      fuel := fuel - 1;
      signed := signed + [Signing(intent.keyHash, intent.serial, intent.issuanceId)];
      match a.signer
      case Refuses => return Failure(Provider);
      case Signs(der, verifies) =>
        return if verifies then Success(Whole(CertificateDoc(der))) else Failure(Inconsistent);
    }

    method Conclude(intent: Intent, certificate: Blob, sourceIp: nat) returns (r: Outcome<()>)
      requires intent.issuanceId in issuances && certificate.Whole?
      modifies this`issuances, this`fuel
      ensures Report(View(), r) == Issuance.Conclude(lib, old(View()), intent, certificate, sourceIp)
    {
      r := CertificateThenRecord(intent, certificate);
      if r.Failure? {
        return;
      }
      r := CommitThenComplete(intent, certificate, sourceIp);
    }

    method CertificateThenRecord(intent: Intent, certificate: Blob) returns (r: Outcome<()>)
      requires intent.issuanceId in issuances && certificate.Whole?
      modifies this`issuances, this`fuel
      ensures Report(View(), r) == Issuance.CertificateThenRecord(lib, old(View()), intent, certificate)
      ensures intent.issuanceId in issuances
    {
      r := DurableFile(intent.issuanceId, CertificateFile, certificate.doc);
      if r.Failure? {
        return;
      }
      r := DurableFile(intent.issuanceId, RecordFile, RecordDoc(RecordFor(lib, intent, certificate)));
    }

    method CommitThenComplete(intent: Intent, certificate: Blob, sourceIp: nat) returns (r: Outcome<()>)
      requires intent.issuanceId in issuances
      modifies this`issuances, this`fuel
      ensures Report(View(), r) == Issuance.CommitThenComplete(lib, old(View()), intent, certificate, sourceIp)
    {
      r := DurableFile(intent.issuanceId, CommitFile, CommitDoc(CommitFor(lib, intent, certificate, sourceIp)));
      if r.Failure? {
        return;
      }
      r := DurableFile(intent.issuanceId, CompleteFile, CompleteDoc(CompleteFor(lib, intent, certificate)));
    }

    method SignAndConclude(request: Request, a: Attempt, intent: Intent) returns (r: Outcome<Reply>)
      requires LibOk(lib) && intent.issuanceId in issuances
      modifies this`issuances, this`mappings, this`audits, this`signed, this`replies, this`fuel
      ensures Report(View(), r) == AfterPrepare(lib, authority, old(View()), request, a, intent)
    {
      var certificate := Sign(a, intent);
      if certificate.Failure? {
        return Failure(certificate.error);
      }
      var concluded := Conclude(intent, certificate.value, request.sourceIp);
      if concluded.Failure? {
        return Failure(concluded.error);
      }
      var recovered := RecoverIssuanceCommit(intent.issuanceId);
      if recovered.Failure? {
        return Failure(recovered.error);
      }
      var reply := Reply(201, request.keyHash, request.requestHash, intent.issuanceId, certificate.value);
      replies := replies + [reply];
      return Success(reply);
    }

    method IssueFresh(request: Request, a: Attempt, intent: Intent) returns (r: Outcome<Reply>)
      requires LibOk(lib)
      modifies this
      ensures Report(View(), r) == Issuance.IssueFresh(lib, authority, old(View()), request, a, intent)
    {
      var prepared := Prepare(a, intent);
      if prepared.Failure? {
        return Failure(prepared.error);
      }
      r := SignAndConclude(request, a, intent);
    }

    method RecoverThenReplay(request: Request, id: Id) returns (r: Outcome<Reply>)
      requires LibOk(lib)
      modifies this
      ensures var recovered := Issuance.RecoverCommit(lib, authority, old(View()), id);
              Report(View(), r) ==
                if recovered.Err? then Err(recovered.ca, recovered.error)
                else if Final(request.keyHash) in recovered.ca.mappings then Issuance.Replay(lib, recovered.ca, request)
                else Err(recovered.ca, StateError)
    {
      var recovered := RecoverIssuanceCommit(id);
      if recovered.Failure? {
        return Failure(recovered.error);
      }
      if Final(request.keyHash) !in mappings {
        return Failure(StateError);
      }
      r := Replay(request);
    }

    method Issue(request: Request, a: Attempt) returns (r: Outcome<Reply>)
      requires LibOk(lib)
      modifies this
      ensures Report(View(), r) == Issuance.Issue(lib, authority, old(View()), request, a)
    {
      if Final(request.keyHash) in mappings {
        var parsed := ParseMapping(mappings[Final(request.keyHash)]);
        if parsed.None? {
          return Failure(StateError);
        }
        if parsed.value.requestHash != request.requestHash {
          return Failure(Conflict);
        }
        r := Replay(request);
        return;
      }
      var existing := FindIssuanceByIdempotency(request.keyHash, request.requestHash);
      if existing.Failure? {
        return Failure(existing.error);
      }
      if existing.value.Some? {
        r := RecoverThenReplay(request, existing.value.value);
        return;
      }
      var id := UniqueId(a.ids);
      if id.None? {
        return Failure(Incomplete);
      }
      var serial := UniqueSerial(a.serials);
      if serial.Absent? {
        return Failure(Incomplete);
      }
      if serial.Unreadable? {
        return Failure(StateError);
      }
      r := IssueFresh(request, a, IntentFor(authority, request, a, id.value, serial.value));
    }

    // ---------- full_scan ----------

    method AdoptPendingIntent(id: Id) returns (r: Outcome<()>)
      modifies this`issuances, this`fuel
      ensures Report(View(), r) == Scan.AdoptIntent(authority, old(View()), id)
    {
      if id !in issuances || Final(IntentFile) in issuances[id] || Pending(IntentFile) !in issuances[id] {
        return Success(());
      }
      match issuances[id][Pending(IntentFile)] {
        case Empty =>
          return Success(());
        case Whole(IntentDoc(intent)) =>
          if intent.version != SCHEMA_VERSION || intent.issuanceId != id || intent.authorityId != authority {
            return Success(());
          }
          var p := FinalizePending(issuances[id], IntentFile, fuel);
          issuances, fuel := issuances[id := p.dir], p.fuel;
          return Ended(p.status);
        case _ =>
          return Failure(StateError);
      }
    }

    method AdoptPendingReservation(serial: Id) returns (r: Outcome<()>)
      modifies this`reservations, this`fuel
      ensures Report(View(), r) == Scan.AdoptReservation(authority, old(View()), serial)
    {
      if Pending(serial) !in reservations {
        return Failure(StateError);
      }
      match reservations[Pending(serial)] {
        case Whole(ReservationDoc(reservation)) =>
          if !Scan.ReservationFits(authority, View(), serial, reservation) {
            return Failure(Inconsistent);
          }
          var p := FinalizePending(reservations, serial, fuel);
          reservations, fuel := p.dir, p.fuel;
          return Ended(p.status);
        case _ =>
          return Failure(StateError);
      }
    }

    method AdoptAllIntents() returns (r: Outcome<()>)
      modifies this`issuances, this`fuel
      ensures Report(View(), r) == Scan.AdoptIntents(authority, old(View()), lib.list(old(issuances).Keys))
    {
      var entries := lib.list(issuances.Keys);
      ghost var start := View();
      for i := 0 to |entries|
        invariant Scan.AdoptIntents(authority, start, entries) == Scan.AdoptIntents(authority, View(), entries[i..])
      {
        assert entries[i..][0] == entries[i] && entries[i..][1..] == entries[i + 1..];
        r := AdoptPendingIntent(entries[i]);
        if r.Failure? {
          return;
        }
      }
      return Success(());
    }

    method AdoptAllReservations() returns (r: Outcome<()>)
      modifies this`reservations, this`fuel
      ensures Report(View(), r) == Scan.AdoptReservations(authority, old(View()), lib.list(Pendings(old(reservations))))
    {
      var entries := lib.list(Pendings(reservations));
      ghost var start := View();
      for i := 0 to |entries|
        invariant Scan.AdoptReservations(authority, start, entries)
            == Scan.AdoptReservations(authority, View(), entries[i..])
      {
        assert entries[i..][0] == entries[i] && entries[i..][1..] == entries[i + 1..];
        r := AdoptPendingReservation(entries[i]);
        if r.Failure? {
          return;
        }
      }
      return Success(());
    }

    method NothingIsStaged() returns (ok: bool)
      requires LibOk(lib)
      ensures ok == Scan.NoStaging(View())
    {
      var entries := lib.list(issuances.Keys);
      Inspection.ListedOnce(lib, issuances.Keys);
      for i := 0 to |entries|
        invariant forall k: nat, f: File :: k < i ==> entries[k] in issuances && Pending(f) !in issuances[entries[k]]
      {
        var id := entries[i];
        assert id in entries;
        AuditChain.FinalsAre(issuances[id]);
        if Pendings(issuances[id]) != {} {
          ghost var f :| f in Pendings(issuances[id]);
          assert Pending(f) in issuances[id];
          return false;
        }
      }
      AuditChain.FinalsAre(reservations);
      if Pendings(reservations) != {} {
        ghost var s :| s in Pendings(reservations);
        assert Pending(s) in reservations;
        return false;
      }
      return true;
    }

    method RecoverPendingPrecommitPublications() returns (r: Outcome<()>)
      requires LibOk(lib)
      modifies this`issuances, this`reservations, this`fuel
      ensures Report(View(), r) == Scan.RecoverStaging(lib, authority, old(View()))
    {
      r := AdoptAllIntents();
      if r.Failure? {
        return;
      }
      r := AdoptAllReservations();
      if r.Failure? {
        return;
      }
      var ok := NothingIsStaged();
      return if ok then Success(()) else Failure(StateError);
    }

    method RecoverOne(id: Id) returns (r: Outcome<()>)
      requires LibOk(lib)
      modifies this`issuances, this`mappings, this`audits, this`fuel
      ensures Report(View(), r) == Scan.RecoverOne(lib, authority, old(View()), id)
    {
      if id !in issuances || Final(CommitFile) !in issuances[id] {
        return Failure(StateError);
      }
      r := RecoverIssuanceCommit(id);
      if r.Failure? {
        return;
      }
      return if Scan.Completed(lib, authority, issuances[id]) then Success(()) else Failure(Inconsistent);
    }

    method RecoverAll() returns (r: Outcome<()>)
      requires LibOk(lib)
      modifies this`issuances, this`mappings, this`audits, this`fuel
      ensures Report(View(), r) == Scan.RecoverAll(lib, authority, old(View()), lib.list(old(issuances).Keys))
    {
      var entries := lib.list(issuances.Keys);
      ghost var start := View();
      for i := 0 to |entries|
        invariant Scan.RecoverAll(lib, authority, start, entries)
            == Scan.RecoverAll(lib, authority, View(), entries[i..])
      {
        RecoverAllFrom(lib, authority, View(), entries, i);
        r := RecoverOne(entries[i]);
        if r.Failure? {
          return;
        }
      }
      return Success(());
    }

    method ValidateAll() returns (ok: bool)
      requires LibOk(lib)
      ensures ok == (Scan.ReservationsValid(lib, authority, View()) && Scan.MappingsValid(authority, View())
                     && Scan.AuditChainValid(lib, audits) && Scan.QuarantinesDone(View()))
    {
      ok := ValidateReservations(lib, authority, View());
      if !ok {
        return;
      }
      ok := ValidateIdempotencyIndex(lib, authority, View());
      if !ok {
        return;
      }
      ok := ValidateAuditChain(lib, audits);
      if !ok {
        return;
      }
      ok := ValidateQuarantines(lib, View());
    }

    method FullScan() returns (r: Outcome<()>)
      requires LibOk(lib)
      modifies this
      ensures Report(View(), r) == Scan.FullScan(lib, authority, old(View()))
    {
      if initPending {
        return Failure(StateError);
      }
      r := RecoverPendingPrecommitPublications();
      if r.Failure? {
        return;
      }
      var chained := ValidateAuditChain(lib, audits);
      if !chained {
        return Failure(Inconsistent);
      }
      r := RecoverAll();
      if r.Failure? {
        return;
      }
      var valid := ValidateAll();
      return if valid then Success(()) else Failure(Inconsistent);
    }

    // ---------- quarantine ----------

    method DurableNote(q: Id, n: Note, doc: Doc) returns (r: Outcome<()>)
      requires q in quarantines
      modifies this`quarantines, this`fuel
      ensures Report(View(), r) == QuarantineCommand.PublishNote(old(View()), q, n, doc)
    {
      var x := quarantines[q];
      var p := DurableBytes(x.notes, n, Whole(doc), Empty, TornBlob(tear, Whole(doc)), fuel);
      quarantines, fuel := quarantines[q := x.(notes := p.dir)], p.fuel;
      r := Ended(p.status);
    }

    method DurableCopy(q: Id, f: File, blob: Blob) returns (r: Outcome<()>)
      requires q in quarantines && quarantines[q].original.Some?
      modifies this`quarantines, this`fuel
      ensures Report(View(), r) == QuarantineCommand.CopyInto(old(View()), q, f, blob)
    {
      var x := quarantines[q];
      var p := DurableBytes(x.original.value, f, blob, Empty, TornBlob(tear, blob), fuel);
      quarantines, fuel := quarantines[q := x.(original := Some(p.dir))], p.fuel;
      r := Ended(p.status);
    }

    method OpenQuarantine(q: Id) returns (r: Outcome<()>)
      modifies this`quarantines, this`fuel
      ensures Report(View(), r) == QuarantineCommand.OpenQuarantine(old(View()), q)
      ensures r.Success? ==> q in quarantines
    {
      if fuel == 0 {
        return Failure(Stopped);
      }
      fuel := fuel - 1;
      if q !in quarantines {
        quarantines := quarantines[q := Quarantined(map[], None)];
      }
      return Success(());
    }

    method MoveOriginal(q: Id, id: Id) returns (r: Outcome<()>)
      requires q in quarantines
      modifies this`issuances, this`quarantines, this`retired, this`fuel
      ensures Report(View(), r) == QuarantineCommand.MoveOriginal(old(View()), q, id)
    {
      var x := quarantines[q];
      if id in issuances && x.original.Some? {
        return Failure(StateError);
      }
      if fuel == 0 {
        return Failure(Stopped);
      }
      fuel := fuel - 1;
      if id in issuances {
        var directory := issuances[id];
        var serials: set<Id> := {};
        if Final(IntentFile) in directory {
          var parsed := ParseIntent(directory[Final(IntentFile)]);
          if parsed.Some? {
            serials := {parsed.value.serial};
          }
        }
        issuances := issuances - {id};
        quarantines := quarantines[q := x.(original := Some(directory))];
        retired := retired + serials;
      } else {
        assert issuances - {id} == issuances;
        var directory := if x.original.Some? then x.original.value else map[];
        quarantines := quarantines[q := x.(original := Some(directory))];
        assert retired == retired + {};
      }
      return Success(());
    }

    method CopyReservation(q: Id, reservation: Option<Id>) returns (r: Outcome<()>)
      requires q in quarantines && quarantines[q].original.Some?
      modifies this`quarantines, this`fuel
      ensures Report(View(), r) == QuarantineCommand.CopyReservation(old(View()), q, reservation)
    {
      if reservation.None? {
        return Success(());
      }
      if Final(reservation.value) !in reservations {
        return Failure(StateError);
      }
      r := DurableCopy(q, ReservationCopy, reservations[Final(reservation.value)]);
    }

    method CopyPending(q: Id, pending: Option<Id>) returns (r: Outcome<()>)
      requires q in quarantines && quarantines[q].original.Some?
      modifies this`quarantines, this`reservations, this`fuel
      ensures Report(View(), r) == QuarantineCommand.CopyPending(old(View()), q, pending)
    {
      if pending.None? {
        return Success(());
      }
      if Pending(pending.value) !in reservations {
        return Failure(StateError);
      }
      r := DurableCopy(q, PendingCopy, reservations[Pending(pending.value)]);
      if r.Failure? {
        return;
      }
      if fuel == 0 {
        return Failure(Stopped);
      }
      reservations, fuel := reservations - {Pending(pending.value)}, fuel - 1;
    }

    method OpenAndMove(id: Id, e: QuarantineCommand.Evidence, t: QuarantineCommand.Ticket) returns (r: Outcome<()>)
      modifies this`issuances, this`quarantines, this`retired, this`fuel
      ensures Report(View(), r) == QuarantineCommand.OpenAndMove(authority, old(View()), id, e, t)
    {
      var serial := QuarantineCommand.EvidenceSerial(View(), e);
      r := OpenQuarantine(t.destination);
      if r.Failure? {
        return;
      }
      r := DurableNote(t.destination, PreparedNote, PreparedDoc(Prepared(id, authority, serial, t.utc)));
      if r.Failure? {
        return;
      }
      r := MoveOriginal(t.destination, id);
    }

    method FileEvidence(id: Id, e: QuarantineCommand.Evidence, t: QuarantineCommand.Ticket) returns (r: Outcome<()>)
      requires LibOk(lib) && t.destination in quarantines && quarantines[t.destination].original.Some?
      modifies this`reservations, this`audits, this`quarantines, this`fuel
      ensures Report(View(), r) == QuarantineCommand.FileEvidence(lib, authority, old(View()), id, e, t)
    {
      r := CopyReservation(t.destination, e.reservation);
      if r.Failure? {
        return;
      }
      r := CopyPending(t.destination, e.pending);
      if r.Failure? {
        return;
      }
      r := DurableNote(t.destination, QuarantinedNote, QuarantinedDoc(id, t.utc));
      if r.Failure? {
        return;
      }
      r := AppendAudit(QuarantineCommand.QuarantineRecord(authority, id, t.utc));
    }

    method Quarantine(id: Id, t: QuarantineCommand.Ticket) returns (r: Outcome<()>)
      requires LibOk(lib)
      modifies this
      ensures Report(View(), r) == QuarantineCommand.QuarantineIssuance(lib, authority, old(View()), id, t)
    {
      r := FullScan();
      if r == Failure(Stopped) {
        return;
      }
      var evidence := Inspection.InspectIssuance(lib, authority, View(), id);
      if evidence.None? {
        return Failure(Precondition);
      }
      r := OpenAndMove(id, evidence.value, t);
      if r.Failure? {
        return;
      }
      r := FileEvidence(id, evidence.value, t);
    }
  }

  lemma RecoverAllFrom(lib: Lib, authority: Id, c: Ca, entries: seq<Id>, i: nat)
    requires i < |entries|
    ensures var one := Scan.RecoverOne(lib, authority, c, entries[i]);
            Scan.RecoverAll(lib, authority, c, entries[i..])
            == if one.Err? then one else Scan.RecoverAll(lib, authority, one.ca, entries[i + 1..])
  {
    assert entries[i..][0] == entries[i] && entries[i..][1..] == entries[i + 1..];
  }

  lemma LastIsLargest(entries: seq<nat>, listed: seq<nat>, s: set<nat>)
    requires Ascending(entries) && Enumerates(entries, s) && Enumerates(listed, s) && entries != [] && listed != []
    ensures entries[|entries| - 1] == Largest(listed)
  {
    var last, largest := entries[|entries| - 1], Largest(listed);
    assert last in entries && last in listed;
    assert largest in listed && largest in entries;
  }
}
