/** `run_deletion` as the object it works on: an output directory and a key store. */
module DeletionClients {
  import opened Publication
  import opened Records
  import opened Deletion
  import ClientFiles

  datatype Outcome<+T> = Success(value: T) | Failure(error: Error)

  function Reported<T>(s: Client, r: Outcome<T>): Did<T> {
    match r
    case Success(value) => Ok(s, value)
    case Failure(error) => Err(s, error)
  }

  function Settled(status: Publication.Status): Outcome<()> {
    match status
    case Done => Success(())
    case Refused => Failure(State)
    case Interrupted => Failure(Stopped)
  }

  class DeletionClient {
    const metadata: Metadata
    var files: Artifacts
    var keyExists: bool
    var deletions: nat
    var fuel: nat
    var tear: Tear

    constructor (m: Metadata, s: Client)
      ensures metadata == m && View() == s
    {
      metadata := m;
      files, keyExists, deletions, fuel, tear := s.files, s.keyExists, s.deletions, s.fuel, s.tear;
    }

    function View(): Client
      reads this
    {
      Client(files, keyExists, deletions, fuel, tear)
    }

    method StageJson(a: Artifact, doc: DeletionDoc) returns (r: Outcome<()>)
      modifies this`files, this`fuel
      ensures Reported(View(), r) == StageArtifact(old(View()), a, doc)
    {
      var p := ClientFiles.StageFile(files, a, Whole(doc), Empty, TornBlob(tear, Whole(doc)), fuel);
      files, fuel := p.dir, p.fuel;
      r := Settled(p.status);
    }

    method CommitJson(a: Artifact, doc: DeletionDoc) returns (r: Outcome<()>)
      modifies this`files, this`fuel
      ensures Reported(View(), r) == CommitArtifact(old(View()), a, doc)
    {
      var p := ClientFiles.CommitFile(files, a, Whole(doc), fuel);
      files, fuel := p.dir, p.fuel;
      r := Settled(p.status);
    }

    method PublishJson(a: Artifact, doc: DeletionDoc) returns (r: Outcome<()>)
      modifies this`files, this`fuel
      ensures Reported(View(), r) == PublishInto(old(View()), a, doc)
    {
      r := StageJson(a, doc);
      if r.Failure? {
        return;
      }
      r := CommitJson(a, doc);
    }

    method LoadDeletionIntent(confirmation: nat) returns (r: Outcome<Option<DeletionIntent>>)
      ensures Reported(View(), r) == LoadIntent(View(), metadata, confirmation)
    {
      if Final(IntentArtifact) !in files {
        return Success(None);
      }
      var intent := IntentIn(files[Final(IntentArtifact)]);
      if intent.None? {
        return Failure(State);
      }
      return if ValidIntent(intent.value, metadata, confirmation) then Success(intent) else Failure(Validation);
    }

    /** The key store deletes the key or not, and reports success or failure, each independently. */
    method DeleteMatchingKey(env: Env) returns (r: Outcome<()>)
      modifies this`keyExists, this`deletions, this`fuel
      ensures Reported(View(), r) == Delete(old(View()), env)
    {
      if fuel == 0 {
        return Failure(Stopped);
      }
      fuel := fuel - 1;
      if env.deletes {
        if keyExists {
          deletions := deletions + 1;
        }
        keyExists := false;
      }
      return if env.reports then Success(()) else Failure(Provider);
    }

    /** A durable intent for a key that exists. */
    method RequestDeletion(confirmation: nat, existing: Option<DeletionIntent>,
            env: Env) returns (r: Outcome<DeletionIntent>)
      modifies this`files, this`fuel
      ensures Reported(View(), r) == EnsureIntent(old(View()), metadata, confirmation, existing, env)
    {
      if existing.Some? {
        return Success(existing.value);
      }
      if !env.opens {
        return Failure(Provider);
      }
      if !keyExists {
        return Failure(Precondition);
      }
      if env.fault == Some(BeforeIntent) {
        return Failure(Injected);
      }
      var intent := NewIntent(metadata, confirmation, env);
      var published := PublishJson(IntentArtifact, RequestedDoc(intent));
      if published.Failure? {
        return Failure(published.error);
      }
      if env.fault == Some(AfterIntent) {
        return Failure(Injected);
      }
      return Success(intent);
    }

    method DeleteAndProveAbsent(env: Env) returns (r: Outcome<()>)
      modifies this`keyExists, this`deletions, this`fuel
      ensures Reported(View(), r) == EnsureAbsent(old(View()), env)
    {
      if !env.opens {
        return Failure(Provider);
      }
      if keyExists {
        r := DeleteMatchingKey(env);
        if r.Failure? {
          return;
        }
        if env.fault == Some(AfterDelete) {
          return Failure(Injected);
        }
      }
      if keyExists {
        return Failure(Provider);
      }
      if env.fault == Some(AfterAbsence) {
        return Failure(Injected);
      }
      return Success(());
    }

    method WriteDeletionRecord(intent: DeletionIntent, env: Env) returns (r: Outcome<()>)
      modifies this`files, this`fuel
      ensures Reported(View(), r) == WriteRecord(old(View()), metadata, intent, env)
    {
      var record := DeletionRecord(SCHEMA_VERSION, metadata, intent.operationId, intent.requestedAt, env.now, true);
      if Pending(RecordArtifact) in files {
        var staged := RecordIn(files[Pending(RecordArtifact)]);
        if staged.None? {
          return Failure(State);
        }
        if !ValidRecord(staged.value, metadata, intent) {
          return Failure(Validation);
        }
        record := staged.value;
      }
      r := StageJson(RecordArtifact, DeletedDoc(record));
      if r.Failure? {
        return;
      }
      if env.fault == Some(AfterFinalStaging) {
        return Failure(Injected);
      }
      r := CommitJson(RecordArtifact, DeletedDoc(record));
      if r.Success? && env.fault == Some(AfterFinalPublication) {
        r := Failure(Injected);
      }
    }

    method RunDeletion(confirmation: nat, env: Env) returns (r: Outcome<()>)
      modifies this
      ensures Reported(View(), r) == Deletion.RunDeletion(old(View()), metadata, confirmation, env)
    {
      var existing := LoadDeletionIntent(confirmation);
      if existing.Failure? {
        return Failure(existing.error);
      }
      if Final(RecordArtifact) in files {
        if existing.value.None? {
          return Failure(State);
        }
        var record := RecordIn(files[Final(RecordArtifact)]);
        if record.None? {
          return Failure(State);
        }
        return if ValidRecord(record.value, metadata, existing.value.value) then Success(()) else Failure(Validation);
      }
      var intent := RequestDeletion(confirmation, existing.value, env);
      if intent.Failure? {
        return Failure(intent.error);
      }
      r := DeleteAndProveAbsent(env);
      if r.Failure? {
        return;
      }
      r := WriteDeletionRecord(intent.value, env);
    }
  }
}
