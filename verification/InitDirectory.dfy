/** The initialization commands as methods that change the journal and the state directory
    one file operation at a time, each proved to do what its specification function says. */
module InitDirectories {
  import opened Publication
  import opened Records
  import opened Initialization
  import opened StateDirectories
  import AuthorityState
  import Issuance
  import Validators

  function Reported<T>(s: Init, r: Outcome<T>): Ran<T> {
    match r
    case Success(value) => Going(s, value)
    case Failure(error) => Halted(s, error)
  }

  class InitDirectory {
    const lib: Lib
    const crypto: Crypto
    var place: Place
    var files: Files
    var audits: AuthorityState.Dir<nat>
    var signed: seq<nat>
    var fuel: nat
    var tear: Tear

    constructor (lib: Lib, crypto: Crypto, s: Init)
      ensures this.lib == lib && this.crypto == crypto && View() == s
    {
      this.lib, this.crypto := lib, crypto;
      place, files, audits, signed, fuel, tear := s.place, s.files, s.audits, s.signed, s.fuel, s.tear;
    }

    function View(): Init
      reads this
    {
      Init(place, files, audits, signed, fuel, tear)
    }

    // ---------- publications ----------

    method DurableJson(f: InitFile, doc: InitDoc) returns (r: Outcome<()>)
      modifies this`files, this`fuel
      ensures Reported(View(), r) == Durable(old(View()), f, doc)
    {
      var p := DurableBytes(files, f, Whole(doc), Empty, TornBlob(tear, Whole(doc)), fuel);
      files, fuel := p.dir, p.fuel;
      r := Ended(p.status);
    }

    method PublishExactOrValidate(f: InitFile, doc: InitDoc) returns (r: Outcome<()>)
      modifies this`files, this`fuel
      ensures Reported(View(), r) == DurableExact(old(View()), f, doc)
    {
      if Final(f) in files {
        return if files[Final(f)] == Whole(doc) then Success(()) else Failure(AuthorityState.StateError);
      }
      r := DurableJson(f, doc);
    }

    method FinalizePendingPublication(f: InitFile) returns (r: Outcome<()>)
      modifies this`files, this`fuel
      ensures Reported(View(), r) == Finalized(old(View()), f)
    {
      var p := FinalizePending(files, f, fuel);
      files, fuel := p.dir, p.fuel;
      r := Ended(p.status);
    }

    // ---------- validate_journal ----------

    method AdoptPendingGeneration(op: Id, n: nat) returns (r: Outcome<()>)
      modifies this`files, this`fuel
      ensures Reported(View(), r) == AdoptGeneration(op, old(View()), n)
    {
      if Pending(Gen(n)) !in files {
        return Success(());
      }
      var bytes := files[Pending(Gen(n))];
      if bytes == Empty {
        if fuel == 0 {
          return Failure(AuthorityState.Stopped);
        }
        files, fuel := files - {Pending(Gen(n))}, fuel - 1;
        return Success(());
      }
      match Parse<InitDoc>(bytes) {
        case Some(GenerationDoc(g)) =>
          if g.operation.id != op || g.sequence != n {
            return Failure(AuthorityState.StateError);
          }
          r := FinalizePendingPublication(Gen(n));
        case _ =>
          return Failure(AuthorityState.StateError);
      }
    }

    method AdoptPendingGenerations(op: Id) returns (r: Outcome<()>)
      modifies this`files, this`fuel
      ensures Reported(View(), r)
            == AdoptGenerations(op, old(View()), Validators.Sort(lib.list(StagedNumbers(old(files)))))
    {
      var order := Validators.Sort(lib.list(StagedNumbers(files)));
      ghost var start := View();
      for i := 0 to |order|
        invariant AdoptGenerations(op, start, order) == AdoptGenerations(op, View(), order[i..])
      {
        assert order[i..][0] == order[i] && order[i..][1..] == order[i + 1..];
        r := AdoptPendingGeneration(op, order[i]);
        if r.Failure? {
          return;
        }
      }
      return Success(());
    }

    /** Reads every generation, checking names, identity, hash chain and parameters. */
    method ReadJournal(op: Id) returns (r: Option<seq<Generation>>)
      ensures r == JournalOf(lib, crypto, op, files)
    {
      var order := Validators.Sort(lib.list(GenNumbers(files)));
      var generations: seq<Generation> := [];
      var prior: Option<Digest> := None;
      for index := 0 to |order|
        invariant |generations| == index
        invariant ReadGenerations(crypto, op, files, order, [], None)
            == ReadGenerations(crypto, op, files, order[index..], generations, prior)
      {
        assert order[index..][0] == order[index] && order[index..][1..] == order[index + 1..];
        if order[index] != index {
          return None;
        }
        match DocAt(files, Gen(index)) {
          case Some(GenerationDoc(g)) =>
            if !Continues(op, generations, prior, g) {
              return None;
            }
            generations := generations + [g];
            prior := Some(crypto.sha(files[Final(Gen(index))]));
          case _ =>
            return None;
        }
      }
      var legal := ValidateTransitions(generations);
      return if legal then Some(generations) else None;
    }

    method ValidateJournal(op: Id) returns (r: Outcome<seq<Generation>>)
      modifies this`files, this`fuel
      ensures Reported(View(), r) == Initialization.ValidateJournal(lib, crypto, op, old(View()))
    {
      if place != Active && place != InCompleted {
        return Failure(AuthorityState.Precondition);
      }
      var adopted := AdoptPendingGenerations(op);
      if adopted.Failure? {
        return Failure(adopted.error);
      }
      var generations := ReadJournal(op);
      return if generations.Some? then Success(generations.value) else Failure(AuthorityState.StateError);
    }

    // ---------- the root ----------

    method SignRoot(i: RootIntent, key: nat, env: Env) returns (r: Outcome<Root>)
      modifies this`signed, this`fuel
      ensures Reported(View(), r) == Initialization.SignRoot(crypto, old(View()), i, key, env)
    {
      if fuel == 0 {
        return Failure(AuthorityState.Stopped);
      }
      fuel := fuel - 1;
      match env.signer(i.tbs)
      case Declines => return Failure(AuthorityState.Provider);
      case SignsRoot(signature) =>
        signed := signed + [i.tbs];
        var root := Root(i.tbs, signature);
        return if RootHolds(crypto, i, key, root) then Success(root) else Failure(AuthorityState.Inconsistent);
    }

    method EnsureJournalRoot(i: RootIntent, key: nat, env: Env) returns (r: Outcome<Root>)
      modifies this`files, this`signed, this`fuel
      ensures Reported(View(), r) == Initialization.EnsureJournalRoot(crypto, old(View()), i, key, env)
    {
      if !IntentHolds(crypto, i.operation, key, i) {
        return Failure(AuthorityState.Inconsistent);
      }
      if Final(RootFile) in files {
        match files[Final(RootFile)] {
          case Whole(RootDoc(root)) =>
            return if RootHolds(crypto, i, key, root) then Success(root) else Failure(AuthorityState.Inconsistent);
          case _ =>
            return Failure(AuthorityState.Inconsistent);
        }
      }
      if Pending(RootFile) in files && files[Pending(RootFile)] != Empty {
        match files[Pending(RootFile)] {
          case Whole(RootDoc(root)) =>
            if !RootHolds(crypto, i, key, root) {
              return Failure(AuthorityState.Inconsistent);
            }
            var adopted := FinalizePendingPublication(RootFile);
            return if adopted.Success? then Success(root) else Failure(adopted.error);
          case _ =>
            return Failure(AuthorityState.Inconsistent);
        }
      }
      var made := SignRoot(i, key, env);
      if made.Failure? {
        return made;
      }
      var stored := DurableJson(RootFile, RootDoc(made.value));
      return if stored.Success? then made else Failure(stored.error);
    }

    method PublishInitTransaction(key: nat, b: Bundle) returns (r: Outcome<()>)
      modifies this`files, this`fuel
      ensures Reported(View(), r) == PublishAuthority(crypto, old(View()), key, b)
    {
      if !BundleHolds(crypto, Operation(b.operationId, b.authority.provider, b.authority.keyName, 0), key, b) {
        return Failure(AuthorityState.Inconsistent);
      }
      r := PublishExactOrValidate(PublishedRoot, RootDoc(b.root));
      if r.Failure? {
        return;
      }
      r := PublishExactOrValidate(AuthorityFile, AuthorityDoc(b.authority));
    }

    // ---------- audit and archive ----------

    method AppendAudit(record: Audit) returns (r: Outcome<()>)
      modifies this`audits, this`fuel
      ensures Reported(View(), r) == AppendInitAudit(lib, old(View()), record)
    {
      var next := Issuance.NextAudit(lib, audits, record);
      var blob := Whole(AuditDoc(next));
      var p := DurableBytes(audits, next.sequence, blob, Empty, TornBlob(tear, blob), fuel);
      audits, fuel := p.dir, p.fuel;
      r := Ended(p.status);
    }

    method CountInitializationRecords(a: Authority) returns (matches: Option<nat>)
      ensures matches == CountInitialized(audits, lib.list(AuthorityState.Finals(audits)), a)
    {
      var order := lib.list(AuthorityState.Finals(audits));
      var found := 0;
      for i := 0 to |order|
        invariant CountInitialized(audits, order, a) == Plus(found, CountInitialized(audits, order[i..], a))
      {
        assert order[i..][0] == order[i] && order[i..][1..] == order[i + 1..];
        if Final(order[i]) !in audits {
          return None;
        }
        match ParseAudit(audits[Final(order[i])]) {
          case None =>
            return None;
          case Some(record) =>
            if IsInitialization(record, a) {
              found := found + 1;
              if !AgreesWithAuthority(record, a) {
                return None;
              }
            }
        }
      }
      assert order[|order|..] == [];
      return Some(found);
    }

    method EnsureInitializationAudit(a: Authority) returns (r: Outcome<()>)
      modifies this`audits, this`fuel
      ensures Reported(View(), r) == EnsureInitAudit(lib, old(View()), a)
    {
      var matches := CountInitializationRecords(a);
      if matches.None? {
        return Failure(AuthorityState.StateError);
      }
      if matches.value > 1 {
        return Failure(AuthorityState.Inconsistent);
      }
      if matches.value == 1 {
        return Success(());
      }
      r := AppendAudit(InitializedRecord(a));
    }

    method ArchiveJournal(to: Place) returns (r: Outcome<()>)
      modifies this`place, this`fuel
      ensures Reported(View(), r) == Archive(old(View()), to)
    {
      if place == to {
        return Success(());
      }
      if fuel == 0 {
        return Failure(AuthorityState.Stopped);
      }
      place, fuel := to, fuel - 1;
      return Success(());
    }

    method FinishInitialization(a: Authority) returns (r: Outcome<()>)
      modifies this`audits, this`place, this`fuel
      ensures Reported(View(), r) == CloseInit(lib, old(View()), a)
    {
      r := EnsureInitializationAudit(a);
      if r.Failure? {
        return;
      }
      r := ArchiveJournal(InCompleted);
    }
  }

  function Plus(found: nat, more: Option<nat>): Option<nat> {
    match more case Some(n) => Some(found + n) case None => None
  }

  /** `validate_transitions`: every adjacent pair of phases is allowed. */
  method ValidateTransitions(generations: seq<Generation>) returns (ok: bool)
    ensures ok == ValidTransitions(generations)
  {
    if generations == [] || generations[0].phase != Phase.Prepared {
      return false;
    }
    for i := 0 to |generations| - 1
      invariant forall j :: 0 <= j < i ==> Follows(generations[j].phase, generations[j + 1].phase)
    {
      if !Follows(generations[i].phase, generations[i + 1].phase) {
        return false;
      }
    }
    return true;
  }

  // ---------- the journal writer ----------

  class JournalWriter {
    const directory: InitDirectory
    const operation: Operation
    var sequence: nat
    var prior: Option<Digest>

    constructor (directory: InitDirectory, operation: Operation, w: Writer)
      ensures this.directory == directory && this.operation == operation && At() == w
    {
      this.directory, this.operation := directory, operation;
      sequence, prior := w.sequence, w.prior;
    }

    function At(): Writer
      reads this
    {
      Writer(sequence, prior)
    }

    /** Writes the next generation; the writer moves on only when it is durable. */
    method Append(phase: Phase, evidence: Evidence, env: Env) returns (r: Outcome<()>)
      modifies this`sequence, this`prior, directory`files, directory`fuel
      ensures var out := Initialization.Append(directory.crypto, operation, old(directory.View()), old(At()), phase,
            evidence, env);
              && directory.View() == out.s && (r.Success? <==> out.Going?)
              && (r.Failure? ==> out == Halted(out.s, r.error))
              && At() == (if out.Going? then out.value else old(At()))
    {
      var generation := GenerationDoc(NextGeneration(operation, Writer(sequence, prior), phase, env.clock(sequence),
            evidence));
      r := directory.DurableJson(Gen(sequence), generation);
      if r.Success? {
        sequence, prior := sequence + 1, Some(directory.crypto.sha(Whole(generation)));
      }
    }
  }

  // ---------- fresh_init ----------

  method FreshStart(d: InitDirectory, w: JournalWriter, env: Env) returns (r: Outcome<()>)
    requires w.directory == d && w.At() == Writer(0, None)
    modifies w, d
    ensures var out := FirstTwo(d.crypto, w.operation, old(d.View()), env);
            && d.View() == out.s && (r.Success? <==> out.Going?) && (r.Failure? ==> out == Halted(out.s, r.error))
            && (out.Going? ==> w.At() == out.value)
  {
    r := w.Append(Phase.Prepared, NoEvidence, env);
    if r.Failure? {
      return;
    }
    if d.fuel == 0 {
      return Failure(AuthorityState.Stopped);
    }
    d.fuel := d.fuel - 1;
    r := w.Append(FinalizeStarted, NoEvidence, env);
  }

  method FinalizeNamedKey(d: InitDirectory, w: JournalWriter, key: nat, env: Env) returns (r: Outcome<()>)
    requires w.directory == d
    modifies w, d
    ensures var out := FinalizeKey(d.crypto, w.operation, key, old(d.View()), old(w.At()), env);
            && d.View() == out.s && (r.Success? <==> out.Going?) && (r.Failure? ==> out == Halted(out.s, r.error))
            && (out.Going? ==> w.At() == out.value)
  {
    if d.fuel == 0 {
      return Failure(AuthorityState.Stopped);
    }
    d.fuel := d.fuel - 1;
    if env.finalize != Succeeds {
      var phase := if env.finalize == Unexpected then FinalizeUnexpected else FinalizeFailed;
      r := w.Append(phase, Reopened(env.keyOpens), env);
      if r.Success? {
        r := Failure(AuthorityState.PendingInitialization);
      }
      return;
    }
    r := w.Append(FinalizeSucceeded, NoEvidence, env);
    if r.Failure? {
      return;
    }
    r := w.Append(KeyValidated, KeyDigest(d.crypto.digest(key)), env);
  }

  method FreshRootAndPublication(d: InitDirectory, w: JournalWriter, key: nat, env: Env) returns (r: Outcome<Bundle>)
    requires w.directory == d
    modifies w, d
    ensures var out := FreshRoot(d.crypto, w.operation, key, old(d.View()), old(w.At()), env);
            && d.View() == out.s && (r.Success? <==> out.Going?) && (r.Failure? ==> out == Halted(out.s, r.error))
            && (out.Going? ==> out.value == (w.At(), r.value))
  {
    var intent := CreateRootIntent(d.crypto, w.operation, key, env);
    var stored := d.DurableJson(SigningFile, SigningDoc(intent));
    if stored.Failure? {
      return Failure(stored.error);
    }
    stored := w.Append(RootSigningPrepared, NoEvidence, env);
    if stored.Failure? {
      return Failure(stored.error);
    }
    var root := d.EnsureJournalRoot(intent, key, env);
    if root.Failure? {
      return Failure(root.error);
    }
    var publication := CreatePublication(d.crypto, intent, root.value);
    stored := d.DurableJson(PublicationFile, PublicationDoc(publication));
    return if stored.Success? then Success(publication) else Failure(stored.error);
  }

  method FreshPublication(d: InitDirectory, w: JournalWriter, key: nat, b: Bundle, env: Env) returns (r: Outcome<()>)
    requires w.directory == d
    modifies w, d
    ensures Reported(d.View(), r) == FreshPublish(d.lib, d.crypto, w.operation, key, old(d.View()), old(w.At()), b, env)
  {
    r := w.Append(RootValidated, PublicationDigest(d.crypto.sha(Whole(PublicationDoc(b)))), env);
    if r.Failure? {
      return;
    }
    r := d.PublishInitTransaction(key, b);
    if r.Failure? {
      return;
    }
    r := w.Append(AuthorityPublished, NoEvidence, env);
    if r.Failure? {
      return;
    }
    r := w.Append(Completed, NoEvidence, env);
    if r.Failure? {
      return;
    }
    r := d.FinishInitialization(b.authority);
  }

  method FreshKeyThenRest(d: InitDirectory, w: JournalWriter, key: nat, env: Env) returns (r: Outcome<()>)
    requires w.directory == d
    modifies w, d
    ensures Reported(d.View(), r)
         == KeyThenRest(d.lib, d.crypto, w.operation, key, old(d.View()), old(w.At()), env)
  {
    r := FinalizeNamedKey(d, w, key, env);
    if r.Failure? {
      return;
    }
    var made := FreshRootAndPublication(d, w, key, env);
    if made.Failure? {
      return Failure(made.error);
    }
    r := FreshPublication(d, w, key, made.value, env);
  }

  method FreshInit(d: InitDirectory, op: Operation, key: nat, env: Env) returns (r: Outcome<()>)
    modifies d
    ensures Reported(d.View(), r) == Initialization.FreshInit(d.lib, d.crypto, op, key, old(d.View()), env)
  {
    var refusal := CheckFresh(d.View(), env);
    if refusal.Some? {
      return Failure(refusal.value);
    }
    if d.fuel == 0 {
      return Failure(AuthorityState.Stopped);
    }
    d.fuel, d.place := d.fuel - 1, Active;
    var w := new JournalWriter(d, op, Writer(0, None));
    r := FreshStart(d, w, env);
    if r.Failure? {
      return;
    }
    r := FreshKeyThenRest(d, w, key, env);
  }

  // ---------- reconcile ----------

  method ReconcileRootIntent(d: InitDirectory, op: Operation, key: nat, last: Phase,
          env: Env) returns (r: Outcome<RootIntent>)
    modifies d`files, d`fuel
    ensures Reported(d.View(), r) == ReconcileIntent(d.crypto, op, key, old(d.View()), last, env)
  {
    if Final(SigningFile) in d.files {
      match DocAt(d.files, SigningFile) {
        case Some(SigningDoc(i)) =>
          return if IntentHolds(d.crypto, op, key, i) then Success(i) else Failure(AuthorityState.Inconsistent);
        case _ =>
          return Failure(AuthorityState.StateError);
      }
    }
    if Pending(SigningFile) in d.files && d.files[Pending(SigningFile)] != Empty {
      match Parse<InitDoc>(d.files[Pending(SigningFile)]) {
        case Some(SigningDoc(i)) =>
          if !IntentHolds(d.crypto, op, key, i) {
            return Failure(AuthorityState.Inconsistent);
          }
          var adopted := d.FinalizePendingPublication(SigningFile);
          return if adopted.Success? then Success(i) else Failure(adopted.error);
        case _ =>
          return Failure(AuthorityState.StateError);
      }
    }
    if Pending(SigningFile) !in d.files && last != KeyValidated {
      return Failure(AuthorityState.StateError);
    }
    var made := CreateRootIntent(d.crypto, op, key, env);
    var stored := d.DurableJson(SigningFile, SigningDoc(made));
    if stored.Failure? {
      return Failure(stored.error);
    }
    return if IntentHolds(d.crypto, op, key, made) then Success(made) else Failure(AuthorityState.Inconsistent);
  }

  method ReconcileBundle(d: InitDirectory, op: Operation, key: nat, i: RootIntent,
          root: Root) returns (r: Outcome<Bundle>)
    modifies d`files, d`fuel
    ensures Reported(d.View(), r) == ReconcilePublication(d.crypto, op, key, old(d.View()), i, root)
  {
    if Final(PublicationFile) in d.files {
      match DocAt(d.files, PublicationFile) {
        case Some(PublicationDoc(b)) =>
          return if BundleHolds(d.crypto, op, key, b) then Success(b) else Failure(AuthorityState.Inconsistent);
        case _ =>
          return Failure(AuthorityState.StateError);
      }
    }
    if Pending(PublicationFile) in d.files && d.files[Pending(PublicationFile)] != Empty {
      match Parse<InitDoc>(d.files[Pending(PublicationFile)]) {
        case Some(PublicationDoc(b)) =>
          if !BundleHolds(d.crypto, op, key, b) {
            return Failure(AuthorityState.Inconsistent);
          }
          var adopted := d.FinalizePendingPublication(PublicationFile);
          return if adopted.Success? then Success(b) else Failure(adopted.error);
        case _ =>
          return Failure(AuthorityState.StateError);
      }
    }
    var made := CreatePublication(d.crypto, i, root);
    var stored := d.DurableJson(PublicationFile, PublicationDoc(made));
    if stored.Failure? {
      return Failure(stored.error);
    }
    return if BundleHolds(d.crypto, op, key, made) then Success(made) else Failure(AuthorityState.Inconsistent);
  }

  /** Appends a generation and reads the journal back. */
  method AppendAndRead(d: InitDirectory, w: JournalWriter, phase: Phase, evidence: Evidence, env: Env)
    returns (r: Outcome<seq<Generation>>)
    requires w.directory == d
    modifies w, d`files, d`fuel
    ensures var out := AppendThenRead(d.lib, d.crypto, w.operation, old(d.View()), old(w.At()), phase, evidence, env);
            && d.View() == out.s && (r.Success? <==> out.Going?) && (r.Failure? ==> out == Halted(out.s, r.error))
            && (out.Going? ==> out.value == (w.At(), r.value))
  {
    var appended := w.Append(phase, evidence, env);
    if appended.Failure? {
      return Failure(appended.error);
    }
    r := d.ValidateJournal(w.operation.id);
  }

  /** Appends a generation if it is due. */
  method AdvanceJournal(d: InitDirectory, w: JournalWriter, generations: seq<Generation>, before: Phase, phase: Phase,
                        evidence: Evidence, env: Env) returns (r: Outcome<seq<Generation>>)
    requires w.directory == d
    modifies w, d`files, d`fuel
    ensures var out := Advance(d.lib, d.crypto, w.operation, old(d.View()), old(w.At()), generations, before, phase,
          evidence, env);
            && d.View() == out.s && (r.Success? <==> out.Going?) && (r.Failure? ==> out == Halted(out.s, r.error))
            && (out.Going? ==> out.value == (w.At(), r.value))
  {
    if generations == [] || generations[|generations| - 1].phase != before {
      return Success(generations);
    }
    r := AppendAndRead(d, w, phase, evidence, env);
  }

  method ReconcileToPublication(d: InitDirectory, w: JournalWriter, key: nat, generations: seq<Generation>, env: Env)
    returns (r: Outcome<(seq<Generation>, Bundle)>)
    requires w.directory == d && generations != []
    modifies w, d
    ensures var out := ReconcileRoot(d.lib, d.crypto, w.operation, key, old(d.View()), old(w.At()), generations, env);
            && d.View() == out.s && (r.Success? <==> out.Going?) && (r.Failure? ==> out == Halted(out.s, r.error))
            && (out.Going? ==> out.value == (w.At(), r.value.0, r.value.1))
  {
    var intent := ReconcileRootIntent(d, w.operation, key, generations[|generations| - 1].phase, env);
    if intent.Failure? {
      return Failure(intent.error);
    }
    var now := AdvanceJournal(d, w, generations, KeyValidated, RootSigningPrepared, NoEvidence, env);
    if now.Failure? {
      return Failure(now.error);
    }
    var root := d.EnsureJournalRoot(intent.value, key, env);
    if root.Failure? {
      return Failure(root.error);
    }
    var publication := ReconcileBundle(d, w.operation, key, intent.value, root.value);
    return if publication.Success? then Success((now.value, publication.value)) else Failure(publication.error);
  }

  method ReconcilePublishedFiles(d: InitDirectory, w: JournalWriter, key: nat, generations: seq<Generation>, b: Bundle,
          env: Env)
    returns (r: Outcome<seq<Generation>>)
    requires w.directory == d
    modifies w, d
    ensures var out := PublishPart(d.lib, d.crypto, w.operation, key, old(d.View()), old(w.At()), generations, b, env);
            && d.View() == out.s && (r.Success? <==> out.Going?) && (r.Failure? ==> out == Halted(out.s, r.error))
            && (out.Going? ==> out.value == (w.At(), r.value))
  {
    var sha := if Final(PublicationFile) in d.files then d.crypto.sha(d.files[Final(PublicationFile)]) else 0;
    r := AdvanceJournal(d, w, generations, RootSigningPrepared, RootValidated, PublicationDigest(sha), env);
    if r.Failure? {
      return;
    }
    var published := d.PublishInitTransaction(key, b);
    if published.Failure? {
      return Failure(published.error);
    }
  }

  method ReconcileLastGenerations(d: InitDirectory, w: JournalWriter, generations: seq<Generation>, env: Env)
    returns (r: Outcome<seq<Generation>>)
    requires w.directory == d
    modifies w, d
    ensures Reported(d.View(), r)
          == LastPart(d.lib, d.crypto, w.operation, old(d.View()), old(w.At()), generations, env)
  {
    r := AdvanceJournal(d, w, generations, RootValidated, AuthorityPublished, NoEvidence, env);
    if r.Failure? {
      return;
    }
    r := AdvanceJournal(d, w, r.value, AuthorityPublished, Completed, NoEvidence, env);
  }

  method ReconcileClosing(d: InitDirectory, w: JournalWriter, generations: seq<Generation>, b: Bundle,
          env: Env) returns (r: Outcome<()>)
    requires w.directory == d
    modifies w, d
    ensures Reported(d.View(), r)
          == ClosingPart(d.lib, d.crypto, w.operation, old(d.View()), old(w.At()), generations, b, env)
  {
    var all := ReconcileLastGenerations(d, w, generations, env);
    if all.Failure? {
      return Failure(all.error);
    }
    if !EndsCompleted(all.value) {
      return Failure(AuthorityState.StateError);
    }
    r := d.FinishInitialization(b.authority);
  }

  method ReconcileFromPublication(d: InitDirectory, w: JournalWriter, key: nat, generations: seq<Generation>,
          b: Bundle, env: Env)
    returns (r: Outcome<()>)
    requires w.directory == d
    modifies w, d
    ensures Reported(d.View(), r) ==
            ReconcilePublish(d.lib, d.crypto, w.operation, key, old(d.View()), old(w.At()), generations, b, env)
  {
    var published := ReconcilePublishedFiles(d, w, key, generations, b, env);
    if published.Failure? {
      return Failure(published.error);
    }
    r := ReconcileClosing(d, w, published.value, b, env);
  }

  method Reconcile(d: InitDirectory, op: Id, key: nat, env: Env) returns (r: Outcome<()>)
    modifies d
    ensures Reported(d.View(), r) == Initialization.Reconcile(d.lib, d.crypto, op, key, old(d.View()), env)
  {
    var read := d.ValidateJournal(op);
    if read.Failure? {
      return Failure(read.error);
    }
    var generations := read.value;
    if !HasPhase(generations, FinalizeSucceeded) || generations == [] {
      return Failure(AuthorityState.Precondition);
    }
    if !env.keyOpens {
      return Failure(AuthorityState.Provider);
    }
    var w := new JournalWriter(d, generations[0].operation, Resume(d.crypto, d.files, generations));
    var made := ReconcileToPublication(d, w, key, generations, env);
    if made.Failure? {
      return Failure(made.error);
    }
    r := ReconcileFromPublication(d, w, key, made.value.0, made.value.1, env);
  }

  // ---------- abandon ----------

  method Abandon(d: InitDirectory, op: Id, env: Env) returns (r: Outcome<()>)
    modifies d
    ensures Reported(d.View(), r) == Initialization.Abandon(d.lib, d.crypto, op, old(d.View()), env)
  {
    var read := d.ValidateJournal(op);
    if read.Failure? {
      return Failure(read.error);
    }
    var generations := read.value;
    for i := 0 to |generations|
      invariant forall j :: 0 <= j < i ==> !ForbidsAbandonment(generations[j].phase)
    {
      if ForbidsAbandonment(generations[i].phase) {
        return Failure(AuthorityState.Precondition);
      }
    }
    if Final(AuthorityFile) in d.files || Final(PublishedRoot) in d.files {
      return Failure(AuthorityState.Precondition);
    }
    if !env.namespacesEmpty || AuthorityState.Finals(d.audits) != {} || d.place != Active || generations == [] {
      return Failure(AuthorityState.Precondition);
    }
    if !env.keyIsAbsent {
      return Failure(AuthorityState.Provider);
    }
    r := WriteAbandonment(d, generations[|generations| - 1].operation, Resume(d.crypto, d.files, generations), env);
  }

  method WriteAbandonment(d: InitDirectory, op: Operation, at: Writer, env: Env) returns (r: Outcome<()>)
    modifies d
    ensures Reported(d.View(), r) == AbandonJournal(d.lib, d.crypto, op, old(d.View()), at, env)
  {
    var w := new JournalWriter(d, op, at);
    r := w.Append(AbandonVerified, KeyAbsent, env);
    if r.Failure? {
      return;
    }
    r := w.Append(Abandoned, NoEvidence, env);
    if r.Failure? {
      return;
    }
    r := d.AppendAudit(AbandonedRecord(op.id, env.createdAt));
    if r.Failure? {
      return;
    }
    r := d.ArchiveJournal(InAbandoned);
  }
}
