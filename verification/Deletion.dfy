/** The client's deletion of a key: an irreversible act between a durable intent and a durable
    record (`run_deletion` and its validators in crates/azihsm-ca-client/src/artifacts.rs). */
module Deletion {
  import opened Publication
  import opened Records
  import ClientFiles

  /** The recorded identity of the key. */
  datatype Metadata = Metadata(provider: nat, keyName: nat, spki: Digest)

  datatype DeletionIntent = DeletionIntent(version: nat, identity: Metadata, confirmation: nat, operationId: Id,
        requestedAt: nat)

  datatype DeletionRecord = DeletionRecord(
    version: nat, identity: Metadata, operationId: Id, requestedAt: nat, deletedAt: nat, verifiedAbsent: bool)

  datatype DeletionDoc = RequestedDoc(intent: DeletionIntent) | DeletedDoc(record: DeletionRecord)
  datatype Artifact = IntentArtifact | RecordArtifact

  type Artifacts = map<Name<Artifact>, Contents<DeletionDoc>>

  datatype Fault = BeforeIntent | AfterIntent | AfterDelete | AfterAbsence | AfterFinalStaging | AfterFinalPublication

  /** The output directory and the key store; `deletions` counts the deletions that took effect. */
  datatype Client = Client(files: Artifacts, keyExists: bool, deletions: nat, fuel: nat, tear: Tear)

  datatype Error = State | Validation | Precondition | Provider | Stopped | Injected

  datatype Did<+T> = Ok(s: Client, value: T) | Err(s: Client, error: Error) {
    predicate IsFailure() { Err? }
    function PropagateFailure<U>(): Did<U> requires Err? { Err(s, error) }
    function Extract(): (Client, T) requires Ok? { (s, value) }
  }

  /** What the key store does in one run; a delete may take effect and report failure, or
      report success without effect. */
  datatype Env = Env(operationId: Id, now: nat, opens: bool, deletes: bool, reports: bool, fault: Option<Fault>)

  function Ended(s: Client, p: Published<Artifact, Contents<DeletionDoc>>): Did<()> {
    var s1 := s.(files := p.dir, fuel := p.fuel);
    match p.status
    case Done => Ok(s1, ())
    case Refused => Err(s1, State)
    case Interrupted => Err(s1, Stopped)
  }

  function PublishInto(s: Client, a: Artifact, doc: DeletionDoc): Did<()> {
    Ended(s, ClientFiles.PublishArtifact(s.files, a, Whole(doc), Empty, TornBlob(s.tear, Whole(doc)), s.fuel))
  }

  function StageArtifact(s: Client, a: Artifact, doc: DeletionDoc): Did<()> {
    Ended(s, ClientFiles.Stage(s.files, a, Whole(doc), Empty, TornBlob(s.tear, Whole(doc)), s.fuel))
  }

  function CommitArtifact(s: Client, a: Artifact, doc: DeletionDoc): Did<()> {
    Ended(s, ClientFiles.CommitStaged(s.files, a, Whole(doc), s.fuel))
  }

  function FailDeletion(s: Client, env: Env, at: Fault): Did<()> {
    if env.fault == Some(at) then Err(s, Injected) else Ok(s, ())
  }

  // ---------- validators ----------

  /** `validate_deletion_intent`. */
  predicate ValidIntent(i: DeletionIntent, m: Metadata, confirmation: nat) {
    i.version == SCHEMA_VERSION && i.identity == m && i.confirmation == confirmation && i.confirmation == m.keyName
  }

  /** `validate_deletion_record`. */
  predicate ValidRecord(r: DeletionRecord, m: Metadata, i: DeletionIntent) {
    r.version == SCHEMA_VERSION && r.identity == m && r.operationId == i.operationId && r.requestedAt == i.requestedAt
          && r.verifiedAbsent
  }

  function IntentIn(blob: Contents<DeletionDoc>): Option<DeletionIntent> {
    match Parse<DeletionDoc>(blob) case Some(RequestedDoc(i)) => Some(i) case _ => None
  }

  function RecordIn(blob: Contents<DeletionDoc>): Option<DeletionRecord> {
    match Parse<DeletionDoc>(blob) case Some(DeletedDoc(r)) => Some(r) case _ => None
  }

  /** `load_deletion_intent`. */
  function LoadIntent(s: Client, m: Metadata, confirmation: nat): Did<Option<DeletionIntent>> {
    if Final(IntentArtifact) !in s.files then Ok(s, None)
    else
      match IntentIn(s.files[Final(IntentArtifact)])
      case None => Err(s, State)
      case Some(i) => if ValidIntent(i, m, confirmation) then Ok(s, Some(i)) else Err(s, Validation)
  }

  // ---------- run_deletion ----------

  function Inspect(s: Client, env: Env): Did<bool> {
    if env.opens then Ok(s, s.keyExists) else Err(s, Provider)
  }

  function Delete(s: Client, env: Env): Did<()> {
    if s.fuel == 0 then Err(s, Stopped)
    else
      var gone := env.deletes && s.keyExists;
      var s1 := s.(fuel := s.fuel - 1, keyExists := s.keyExists && !env.deletes,
            deletions := s.deletions + if gone then 1 else 0);
      if env.reports then Ok(s1, ()) else Err(s1, Provider)
  }

  function RequireAbsent(s: Client, env: Env): Did<()> {
    if env.opens && !s.keyExists then Ok(s, ()) else Err(s, Provider)
  }

  function NewIntent(m: Metadata, confirmation: nat, env: Env): DeletionIntent {
    DeletionIntent(SCHEMA_VERSION, m, confirmation, env.operationId, env.now)
  }

  /** The durable intent: the one that exists, or a new one for a key that exists. */
  function EnsureIntent(s: Client, m: Metadata, confirmation: nat, existing: Option<DeletionIntent>,
          env: Env): Did<DeletionIntent> {
    match existing
    case Some(i) => Ok(s, i)
    case None =>
      var (s1, present) :- Inspect(s, env);
      if !present then Err(s1, Precondition)
      else
        var (s2, _) :- FailDeletion(s1, env, BeforeIntent);
        var i := NewIntent(m, confirmation, env);
        var (s3, _) :- PublishInto(s2, IntentArtifact, RequestedDoc(i));
        var (s4, _) :- FailDeletion(s3, env, AfterIntent);
        Ok(s4, i)
  }

  /** Deletes the key if it is still there, and proves it absent. */
  function EnsureAbsent(s: Client, env: Env): Did<()> {
    var (s1, present) :- Inspect(s, env);
    var (s2, _) :- if present then DeleteThenFault(s1, env) else Ok(s1, ());
    var (s3, _) :- RequireAbsent(s2, env);
    FailDeletion(s3, env, AfterAbsence)
  }

  function DeleteThenFault(s: Client, env: Env): Did<()> {
    var (s1, _) :- Delete(s, env);
    FailDeletion(s1, env, AfterDelete)
  }

  /** The record: the staged one if it is there, otherwise a new one. */
  function ChooseRecord(s: Client, m: Metadata, i: DeletionIntent, env: Env): Did<DeletionRecord> {
    if Pending(RecordArtifact) in s.files then
      match RecordIn(s.files[Pending(RecordArtifact)])
      case None => Err(s, State)
      case Some(r) => if ValidRecord(r, m, i) then Ok(s, r) else Err(s, Validation)
    else Ok(s, DeletionRecord(SCHEMA_VERSION, m, i.operationId, i.requestedAt, env.now, true))
  }

  function WriteRecord(s: Client, m: Metadata, i: DeletionIntent, env: Env): Did<()> {
    var (s1, r) :- ChooseRecord(s, m, i, env);
    var (s2, _) :- StageArtifact(s1, RecordArtifact, DeletedDoc(r));
    var (s3, _) :- FailDeletion(s2, env, AfterFinalStaging);
    var (s4, _) :- CommitArtifact(s3, RecordArtifact, DeletedDoc(r));
    FailDeletion(s4, env, AfterFinalPublication)
  }

  /** From the durable intent to the record. */
  function Finish(s: Client, m: Metadata, confirmation: nat, existing: Option<DeletionIntent>, env: Env): Did<()> {
    var (s1, i) :- EnsureIntent(s, m, confirmation, existing, env);
    var (s2, _) :- EnsureAbsent(s1, env);
    WriteRecord(s2, m, i, env)
  }

  function RunDeletion(s: Client, m: Metadata, confirmation: nat, env: Env): Did<()> {
    var (s1, existing) :- LoadIntent(s, m, confirmation);
    if Final(RecordArtifact) in s1.files then
      if existing.None? then Err(s1, State)
      else
        match RecordIn(s1.files[Final(RecordArtifact)])
        case None => Err(s1, State)
        case Some(r) => if ValidRecord(r, m, existing.value) then Ok(s1, ()) else Err(s1, Validation)
    else Finish(s1, m, confirmation, existing, env)
  }

  /** The command: the confirmation must name the key. */
  function DeleteKey(s: Client, m: Metadata, confirmation: nat, env: Env): Did<()> {
    if confirmation != m.keyName then Err(s, Precondition) else RunDeletion(s, m, confirmation, env)
  }

  datatype Standing = NotRequested | PendingRecovery | Completed

  /** `deletion_status`. */
  function DeletionStatus(s: Client, m: Metadata): Did<Standing> {
    var (s1, intent) :- LoadIntent(s, m, m.keyName);
    if Final(RecordArtifact) in s1.files then
      if intent.None? then Err(s1, State)
      else
        match RecordIn(s1.files[Final(RecordArtifact)])
        case None => Err(s1, State)
        case Some(r) => if ValidRecord(r, m, intent.value) then Ok(s1, Completed) else Err(s1, Validation)
    else Ok(s1, if intent.Some? then PendingRecovery else NotRequested)
  }
}
