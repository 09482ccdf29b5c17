/** The persistent records of the certificate authority (crates/azihsm-ca/src/state.rs). */
module Records {

  datatype Option<+T> = None | Some(value: T)

  /** Identifiers drawn from sixteen random bytes, and digests, stand for their value. */
  type Id = nat
  type Digest = nat

  const SCHEMA_VERSION: nat := 1

  datatype Intent = Intent(
    version: nat, issuanceId: Id, authorityId: Id, serial: Id, keyHash: Digest,
    requestHash: Digest, profile: Digest, notBefore: nat, notAfter: nat, createdAt: nat)

  datatype Reservation = Reservation(
    version: nat, serial: Id, issuanceId: Id, authorityId: Id, createdAt: nat)

  datatype Record = Record(
    version: nat, issuanceId: Id, authorityId: Id, serial: Id, certificateSha: Digest,
    certificateSize: nat, notBefore: nat, notAfter: nat)

  datatype Mapping = Mapping(
    version: nat, keyHash: Digest, requestHash: Digest, issuanceId: Id,
    certificateSha: Digest, createdAt: nat)

  datatype Commit = Commit(
    version: nat, issuanceId: Id, authorityId: Id, mapping: Mapping, sourceIp: nat, createdAt: nat)

  datatype Complete = Complete(
    version: nat, issuanceId: Id, authorityId: Id, intentSha: Digest,
    certificateSha: Digest, recordSha: Digest)

  datatype AuditKind = CertificateIssued | IssuanceQuarantined | AuthorityInitialized | InitAbandoned

  datatype AuditText = RecordedCertificate | PreservedIssuance | PublishedAuthority | ProvedAbsence | OtherText

  datatype Audit = Audit(
    version: nat, sequence: nat, prior: Option<Digest>, kind: AuditKind,
    authorityId: Option<Id>, issuanceId: Option<Id>, operationId: Option<Id>,
    sourceIp: Option<nat>, accepted: bool, detail: AuditText, utc: nat)

  datatype Prepared = Prepared(issuanceId: Id, authorityId: Id, serial: Option<Id>, utc: nat)

  /** One canonical document; distinct documents have distinct, prefix-free encodings. */
  datatype Doc =
    | IntentDoc(intent: Intent)
    | ReservationDoc(reservation: Reservation)
    | CertificateDoc(der: seq<bv8>)
    | RecordDoc(record: Record)
    | CommitDoc(commit: Commit)
    | CompleteDoc(complete: Complete)
    | MappingDoc(mapping: Mapping)
    | AuditDoc(audit: Audit)
    | AuditMarkDoc(issuanceId: Id)
    | PreparedDoc(prepared: Prepared)
    | QuarantinedDoc(issuanceId: Id, utc: nat)

  /** The contents of a file: nothing, a strict prefix of an encoding, or a whole one. A
      prefix `parses` when only the trailing newline of a JSON document is missing. */
  datatype Contents<+D> = Empty | Torn(of: D, parses: bool) | Whole(doc: D)

  type Blob = Contents<Doc>

  /** What a write that is cut short leaves in the file. */
  datatype Tear = NoBytes | SomeBytes | AllButNewline

  function TornBlob<D>(tear: Tear, blob: Contents<D>): Contents<D> {
    match (tear, blob)
    case (NoBytes, _) => Empty
    case (_, Empty) => Empty
    case (_, Torn(doc, _)) => Torn(doc, false)
    case (SomeBytes, Whole(doc)) => Torn(doc, false)
    case (AllButNewline, Whole(doc)) => Torn(doc, true)
  }

  /** Contents a staging file for `doc` can be left with. */
  predicate StagedFor<D(==)>(blob: Contents<D>, doc: D) {
    blob == Empty || blob == Whole(doc) || (blob.Torn? && blob.of == doc)
  }

  /** The document a JSON parser sees. */
  function Parse<D>(blob: Contents<D>): Option<D> {
    match blob
    case Whole(doc) => Some(doc)
    case Torn(doc, true) => Some(doc)
    case _ => None
  }

  function ParseIntent(blob: Blob): Option<Intent> {
    match Parse<Doc>(blob) case Some(IntentDoc(x)) => Some(x) case _ => None
  }

  function ParseReservation(blob: Blob): Option<Reservation> {
    match Parse<Doc>(blob) case Some(ReservationDoc(x)) => Some(x) case _ => None
  }

  function ParseRecord(blob: Blob): Option<Record> {
    match Parse<Doc>(blob) case Some(RecordDoc(x)) => Some(x) case _ => None
  }

  function ParseCommit(blob: Blob): Option<Commit> {
    match Parse<Doc>(blob) case Some(CommitDoc(x)) => Some(x) case _ => None
  }

  function ParseComplete(blob: Blob): Option<Complete> {
    match Parse<Doc>(blob) case Some(CompleteDoc(x)) => Some(x) case _ => None
  }

  function ParseMapping(blob: Blob): Option<Mapping> {
    match Parse<Doc>(blob) case Some(MappingDoc(x)) => Some(x) case _ => None
  }

  function ParseAudit(blob: Blob): Option<Audit> {
    match Parse<Doc>(blob) case Some(AuditDoc(x)) => Some(x) case _ => None
  }

  function ParsePrepared(blob: Blob): Option<Prepared> {
    match Parse<Doc>(blob) case Some(PreparedDoc(x)) => Some(x) case _ => None
  }

  /** What the model leaves open: the hash, the size of a file, and the order in which a
      directory is enumerated. Theorems hold for every choice; `LibOk` says only that an
      enumeration lists each entry once. */
  datatype Lib = Lib(sha: Blob -> Digest, size: Blob -> nat, list: set<nat> -> seq<nat>)

  ghost predicate Enumerates(s: seq<nat>, entries: set<nat>) {
    && (forall x :: x in s <==> x in entries)
    && (forall i, j :: 0 <= i < j < |s| ==> s[i] != s[j])
  }

  ghost predicate LibOk(lib: Lib) {
    forall entries: set<nat> :: Enumerates(lib.list(entries), entries)
  }
}
