/** Issuing a leaf certificate and finishing a committed issuance
    (`issue`, `recover_issuance_commit` and what they call in authority.rs). */
module Issuance {
  import opened Publication
  import opened Records
  import opened AuthorityState

  // ---------- the audit chain ----------

  function Largest(s: seq<nat>): (m: nat)
    requires s != []
    ensures m in s && forall x :: x in s ==> x <= m
  {
    if |s| == 1 then s[0]
    else
      var rest := Largest(s[1..]);
      assert s == [s[0]] + s[1..];
      if rest <= s[0] then s[0] else rest
  }

  /** The digest the next record must carry: that of the record with the largest number. */
  function PriorDigest(lib: Lib, audits: Dir<nat>): Option<Digest> {
    var listed := lib.list(Finals(audits));
    if listed == [] then None
    else
      var last := Final(Largest(listed));
      if last in audits then Some(lib.sha(audits[last])) else None
  }

  function NextAudit(lib: Lib, audits: Dir<nat>, record: Audit): Audit {
    record.(sequence := |Finals(audits)|, prior := PriorDigest(lib, audits))
  }

  function AppendAudit(lib: Lib, c: Ca, record: Audit): Out<()> {
    var next := NextAudit(lib, c.audits, record);
    WithAudits(c, PublishIn(c, c.audits, next.sequence, Whole(AuditDoc(next))))
  }

  datatype Search<+T> = Found(value: T) | Absent | Unreadable

  predicate IsIssuedRecord(record: Audit, id: Id) {
    record.kind == CertificateIssued && record.issuanceId == Some(id)
  }

  /** The first certificate record of `id` in enumeration order. */
  function SearchAudit(audits: Dir<nat>, order: seq<nat>, id: Id): Search<Audit> {
    if order == [] then Absent
    else if Final(order[0]) !in audits then Unreadable
    else
      match ParseAudit(audits[Final(order[0])])
      case None => Unreadable
      case Some(record) =>
        if IsIssuedRecord(record, id) then Found(record) else SearchAudit(audits, order[1..], id)
  }

  function IssuedRecord(commit: Commit): Audit {
    Audit(SCHEMA_VERSION, 0, None, CertificateIssued, Some(commit.authorityId),
          Some(commit.issuanceId), None, Some(commit.sourceIp), true, RecordedCertificate, commit.createdAt)
  }

  predicate AgreesWithCommit(record: Audit, commit: Commit) {
    && record.authorityId == Some(commit.authorityId)
    && record.sourceIp == Some(commit.sourceIp)
    && record.accepted
    && record.operationId == None
    && record.detail == RecordedCertificate
    && record.utc == commit.createdAt
  }

  function EnsureIssuanceAudit(lib: Lib, c: Ca, commit: Commit): (out: Out<()>)
    ensures out.ca.issuances == c.issuances
  {
    match SearchAudit(c.audits, lib.list(Finals(c.audits)), commit.issuanceId)
    case Unreadable => Err(c, StateError)
    case Found(record) => if AgreesWithCommit(record, commit) then Ok(c, ()) else Err(c, Inconsistent)
    case Absent => AppendAudit(lib, c, IssuedRecord(commit))
  }

  // ---------- finishing a committed issuance ----------

  /** The four documents a commit is checked against, as read from one issuance directory. */
  datatype Transaction = Transaction(intent: Intent, record: Record, commit: Commit, complete: Complete)

  predicate Bound(lib: Lib, authority: Id, i: Intent, r: Record, k: Commit, certificate: Blob) {
    && i.authorityId == authority && r.authorityId == authority && k.authorityId == authority
    && k.issuanceId == i.issuanceId
    && k.mapping.issuanceId == i.issuanceId
    && k.mapping.keyHash == i.keyHash
    && k.mapping.requestHash == i.requestHash
    && lib.sha(certificate) == r.certificateSha
    && k.mapping.certificateSha == r.certificateSha
  }

  /** Reads and cross-checks a committed issuance directory. */
  function Load(lib: Lib, authority: Id, d: Dir<File>): Option<Transaction> {
    if Final(IntentFile) in d && Final(CertificateFile) in d && Final(RecordFile) in d && Final(CommitFile) in d then
      match (ParseIntent(d[Final(IntentFile)]), ParseRecord(d[Final(RecordFile)]), ParseCommit(d[Final(CommitFile)]))
      case (Some(i), Some(r), Some(k)) =>
        if Bound(lib, authority, i, r, k, d[Final(CertificateFile)]) then
          Some(Transaction(i, r, k, Complete(SCHEMA_VERSION, i.issuanceId, authority,
            lib.sha(d[Final(IntentFile)]), r.certificateSha, lib.sha(d[Final(RecordFile)]))))
        else None
      case _ => None
    else None
  }

  function PublishMapping(c: Ca, mapping: Mapping): (out: Out<()>)
    ensures out.ca.issuances == c.issuances
  {
    WithMappings(c, PublishExactIn(c, c.mappings, mapping.keyHash, Whole(MappingDoc(mapping))))
  }

  function PublishMark(c: Ca, id: Id, issuanceId: Id): (out: Out<()>)
    requires id in c.issuances
    ensures out.ca.issuances.Keys == c.issuances.Keys
  {
    PublishFileExact(c, id, AuditMarkFile, AuditMarkDoc(issuanceId))
  }

  /** The three publications after COMPLETE: index entry, audit record, audit marker. */
  function Tail(lib: Lib, c: Ca, id: Id, commit: Commit): (out: Out<()>)
    requires id in c.issuances
    ensures out.ca.issuances.Keys == c.issuances.Keys
  {
    var (c2, _) :- PublishMapping(c, commit.mapping);
    var (c3, _) :- EnsureIssuanceAudit(lib, c2, commit);
    PublishMark(c3, id, commit.issuanceId)
  }

  function RecoverCommit(lib: Lib, authority: Id, c: Ca, id: Id): (out: Out<()>)
    ensures out.ca.issuances.Keys == c.issuances.Keys
  {
    if id !in c.issuances then Err(c, StateError)
    else
      match Load(lib, authority, c.issuances[id])
      case None => Err(c, Inconsistent)
      case Some(t) =>
        var (c1, _) :- PublishFileExact(c, id, CompleteFile, CompleteDoc(t.complete));
        Tail(lib, c1, id, t.commit)
  }

  // ---------- fresh identifiers ----------

  const DRAWS := 8
  type Draws = s: seq<nat> | |s| == 8 witness [0, 0, 0, 0, 0, 0, 0, 0]

  /** `unique_id`: the first draw that names no issuance directory. */
  function UniqueId(c: Ca, draws: seq<nat>): Option<Id> {
    if draws == [] then None
    else if draws[0] !in c.issuances then Some(draws[0])
    else UniqueId(c, draws[1..])
  }

  function BoundByIssuance(c: Ca, order: seq<Id>, serial: Id): Search<()> {
    if order == [] then Absent
    else if Has(c, order[0], IntentFile) then
      match ParseIntent(FileOf(c, order[0], IntentFile))
      case None => Unreadable
      case Some(i) => if i.serial == serial then Found(()) else BoundByIssuance(c, order[1..], serial)
    else BoundByIssuance(c, order[1..], serial)
  }

  function BoundByOne(x: Quarantined, serial: Id): Search<()> {
    var moved :=
      if x.original.Some? && Final(IntentFile) in x.original.value then
        match ParseIntent(x.original.value[Final(IntentFile)])
        case None => Unreadable
        case Some(i) => if i.serial == serial then Found(()) else Absent
      else Absent;
    if moved != Absent then moved
    else if Final(PreparedNote) in x.notes then
      match ParsePrepared(x.notes[Final(PreparedNote)])
      case None => Unreadable
      case Some(p) => if p.serial == Some(serial) then Found(()) else Absent
    else Absent
  }

  function BoundByQuarantine(c: Ca, order: seq<Id>, serial: Id): Search<()> {
    if order == [] || order[0] !in c.quarantines then Absent
    else
      var one := BoundByOne(c.quarantines[order[0]], serial);
      if one == Absent then BoundByQuarantine(c, order[1..], serial) else one
  }

  function BoundByIntent(lib: Lib, c: Ca, serial: Id): Search<()> {
    var active := BoundByIssuance(c, lib.list(c.issuances.Keys), serial);
    if active == Absent then BoundByQuarantine(c, lib.list(c.quarantines.Keys), serial) else active
  }

  /** `unique_serial`: neither reserved nor bound by an intent, active or quarantined. */
  function UniqueSerial(lib: Lib, c: Ca, draws: seq<nat>): Search<Id> {
    if draws == [] then Absent
    else if Final(draws[0]) in c.reservations then UniqueSerial(lib, c, draws[1..])
    else
      match BoundByIntent(lib, c, draws[0])
      case Absent => Found(draws[0])
      case Found(_) => UniqueSerial(lib, c, draws[1..])
      case Unreadable => Unreadable
  }

  // ---------- issue ----------

  datatype Request = Request(keyHash: Digest, requestHash: Digest, profile: Digest, sourceIp: nat)

  /** What one attempt meets: random draws, clock, certificate profile and the key's answer. */
  datatype Signer = Refuses | Signs(der: seq<bv8>, verifies: bool)
  datatype Attempt = Attempt(
    ids: Draws, serials: Draws, profileOk: bool, notBefore: nat, notAfter: nat, createdAt: nat, signer: Signer)

  /** `find_issuance_by_idempotency`. */
  function FindByKey(c: Ca, order: seq<Id>, keyHash: Digest, requestHash: Digest): Out<Option<Id>> {
    if order == [] then Ok(c, None)
    else if !Has(c, order[0], IntentFile) then FindByKey(c, order[1..], keyHash, requestHash)
    else
      match ParseIntent(FileOf(c, order[0], IntentFile))
      case None => Err(c, StateError)
      case Some(i) =>
        if i.keyHash != keyHash then FindByKey(c, order[1..], keyHash, requestHash)
        else if i.requestHash != requestHash then Err(c, Conflict)
        else if !Has(c, order[0], CommitFile) then Err(c, Incomplete)
        else Ok(c, Some(order[0]))
  }

  /** Answers from the stored mapping and certificate. */
  function Replay(lib: Lib, c: Ca, request: Request): Out<Reply>
    requires Final(request.keyHash) in c.mappings
  {
    match ParseMapping(c.mappings[Final(request.keyHash)])
    case None => Err(c, StateError)
    case Some(m) =>
      if Has(c, m.issuanceId, CertificateFile) && lib.sha(FileOf(c, m.issuanceId, CertificateFile))
            == m.certificateSha then
        var reply := Reply(200, request.keyHash, request.requestHash, m.issuanceId,
            FileOf(c, m.issuanceId, CertificateFile));
        Ok(c.(replies := c.replies + [reply]), reply)
      else Err(c, Inconsistent)
  }

  function IntentFor(authority: Id, request: Request, a: Attempt, id: Id, serial: Id): Intent {
    Intent(SCHEMA_VERSION, id, authority, serial, request.keyHash, request.requestHash,
           request.profile, a.notBefore, a.notAfter, a.createdAt)
  }

  function ReservationFor(intent: Intent): Reservation {
    Reservation(SCHEMA_VERSION, intent.serial, intent.issuanceId, intent.authorityId, intent.createdAt)
  }

  function RecordFor(lib: Lib, intent: Intent, certificate: Blob): Record {
    Record(SCHEMA_VERSION, intent.issuanceId, intent.authorityId, intent.serial, lib.sha(certificate),
           lib.size(certificate), intent.notBefore, intent.notAfter)
  }

  function CommitFor(lib: Lib, intent: Intent, certificate: Blob, sourceIp: nat): Commit {
    Commit(SCHEMA_VERSION, intent.issuanceId, intent.authorityId,
           Mapping(SCHEMA_VERSION, intent.keyHash, intent.requestHash, intent.issuanceId, lib.sha(certificate),
               intent.createdAt),
           sourceIp, intent.createdAt)
  }

  function CompleteFor(lib: Lib, intent: Intent, certificate: Blob): Complete {
    Complete(SCHEMA_VERSION, intent.issuanceId, intent.authorityId, lib.sha(Whole(IntentDoc(intent))),
             lib.sha(certificate), lib.sha(Whole(RecordDoc(RecordFor(lib, intent, certificate)))))
  }

  function Reserve(c: Ca, reservation: Reservation): Out<()> {
    WithReservations(c, PublishIn(c, c.reservations, reservation.serial, Whole(ReservationDoc(reservation))))
  }

  /** Everything before the signature: directory, intent, serial reservation. */
  function Prepare(c: Ca, a: Attempt, intent: Intent): (out: Out<()>)
    ensures out.Ok? ==> intent.issuanceId in out.ca.issuances
  {
    var id := intent.issuanceId;
    var (c1, _) :- Spend(c);
    var c2 := if id in c1.issuances then c1 else c1.(issuances := c1.issuances[id := map[]]);
    if !a.profileOk then Err(c2, Precondition)
    else
      var (c3, _) :- PublishFile(c2, id, IntentFile, IntentDoc(intent));
      Reserve(c3, ReservationFor(intent))
  }

  /** The signing call; the key may refuse, or answer with a certificate that fails to verify. */
  function Sign(c: Ca, a: Attempt, intent: Intent): Out<Blob> {
    var (c1, _) :- Spend(c);
    var c2 := c1.(signed := c1.signed + [Signing(intent.keyHash, intent.serial, intent.issuanceId)]);
    match a.signer
    case Refuses => Err(c2, Provider)
    case Signs(der, verifies) =>
      if verifies then Ok(c2, Whole(CertificateDoc(der))) else Err(c2, Inconsistent)
  }

  function CertificateThenRecord(lib: Lib, c: Ca, intent: Intent, certificate: Blob): (out: Out<()>)
    requires intent.issuanceId in c.issuances && certificate.Whole?
    ensures intent.issuanceId in out.ca.issuances
  {
    var (c1, _) :- PublishFile(c, intent.issuanceId, CertificateFile, certificate.doc);
    PublishFile(c1, intent.issuanceId, RecordFile, RecordDoc(RecordFor(lib, intent, certificate)))
  }

  function CommitThenComplete(lib: Lib, c: Ca, intent: Intent, certificate: Blob, sourceIp: nat): Out<()>
    requires intent.issuanceId in c.issuances
  {
    var (c1, _) :- PublishFile(c, intent.issuanceId, CommitFile,
          CommitDoc(CommitFor(lib, intent, certificate, sourceIp)));
    PublishFile(c1, intent.issuanceId, CompleteFile, CompleteDoc(CompleteFor(lib, intent, certificate)))
  }

  /** Certificate, record, commit and COMPLETE, in that order. */
  function Conclude(lib: Lib, c: Ca, intent: Intent, certificate: Blob, sourceIp: nat): Out<()>
    requires intent.issuanceId in c.issuances && certificate.Whole?
  {
    var (c2, _) :- CertificateThenRecord(lib, c, intent, certificate);
    CommitThenComplete(lib, c2, intent, certificate, sourceIp)
  }

  /** From the signature to the answer. */
  function AfterPrepare(lib: Lib, authority: Id, c: Ca, request: Request, a: Attempt, intent: Intent): Out<Reply>
    requires intent.issuanceId in c.issuances
  {
    var (c2, certificate) :- Sign(c, a, intent);
    var (c3, _) :- Conclude(lib, c2, intent, certificate, request.sourceIp);
    var (c4, _) :- RecoverCommit(lib, authority, c3, intent.issuanceId);
    var reply := Reply(201, request.keyHash, request.requestHash, intent.issuanceId, certificate);
    Ok(c4.(replies := c4.replies + [reply]), reply)
  }

  function IssueFresh(lib: Lib, authority: Id, c: Ca, request: Request, a: Attempt, intent: Intent): Out<Reply> {
    var (c1, _) :- Prepare(c, a, intent);
    AfterPrepare(lib, authority, c1, request, a, intent)
  }

  function Issue(lib: Lib, authority: Id, c: Ca, request: Request, a: Attempt): Out<Reply> {
    if Final(request.keyHash) in c.mappings then
      match ParseMapping(c.mappings[Final(request.keyHash)])
      case None => Err(c, StateError)
      case Some(m) => if m.requestHash != request.requestHash then Err(c, Conflict) else Replay(lib, c, request)
    else
      var (_, existing) :- FindByKey(c, lib.list(c.issuances.Keys), request.keyHash, request.requestHash);
      match existing
      case Some(id) =>
        var (c1, _) :- RecoverCommit(lib, authority, c, id);
        if Final(request.keyHash) in c1.mappings then Replay(lib, c1, request) else Err(c1, StateError)
      case None =>
        match UniqueId(c, a.ids)
        case None => Err(c, Incomplete)
        case Some(id) =>
          match UniqueSerial(lib, c, a.serials)
          case Absent => Err(c, Incomplete)
          case Unreadable => Err(c, StateError)
          case Found(serial) => IssueFresh(lib, authority, c, request, a, IntentFor(authority, request, a, id, serial))
  }
}
