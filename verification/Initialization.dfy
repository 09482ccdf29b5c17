/** Creating the authority: the hash-chained initialization journal and the commands that
    write it (`fresh_init`, `reconcile`, `abandon` in authority.rs). */
module Initialization {
  import opened Publication
  import opened Records
  import opened Serials
  import AuthorityState
  import Issuance
  import Validators

  // ---------- records ----------

  datatype Phase =
    | Prepared | FinalizeStarted | FinalizeSucceeded | KeyValidated | RootSigningPrepared | RootValidated
    | AuthorityPublished | Completed | FinalizeFailed | FinalizeUnexpected | AbandonVerified | Abandoned

  /** The operation's identifier and the parameters that may never change. */
  datatype Operation = Operation(id: Id, provider: nat, keyName: nat, rootDays: nat)

  datatype Evidence =
    | NoEvidence | KeyDigest(sha: Digest) | PublicationDigest(sha: Digest) | Reopened(ok: bool) | KeyAbsent

  datatype Generation = Generation(
    version: nat, operation: Operation, sequence: nat, phase: Phase, prior: Option<Digest>, utc: nat,
          evidence: Evidence)

  datatype Root = Root(tbs: nat, signature: nat)

  datatype RootIntent = RootIntent(
    version: nat, operation: Operation, serial: string, time: nat, publicKey: nat,
    publicKeySha: Digest, spkiSha: Digest, tbs: nat, tbsSha: Digest, authorityId: Id, createdAt: nat)

  datatype Authority = Authority(
    authorityId: Id, provider: nat, keyName: nat, publicKeySha: Digest, spkiSha: Digest, rootSha: Digest,
    rootSerial: string, notBefore: int, notAfter: int, operationId: Id, createdAt: nat)

  datatype Bundle = Bundle(version: nat, operationId: Id, root: Root, rootSha: Digest, authority: Authority)

  datatype InitDoc =
    | GenerationDoc(generation: Generation) | SigningDoc(intent: RootIntent) | RootDoc(root: Root)
    | PublicationDoc(bundle: Bundle) | AuthorityDoc(authority: Authority)

  type InitBlob = Contents<InitDoc>

  /** Files of the journal directory, then the two of the state directory. */
  datatype InitFile = Gen(n: nat) | SigningFile | RootFile | PublicationFile | PublishedRoot | AuthorityFile

  type Files = map<Name<InitFile>, InitBlob>

  /** What the model leaves open: certificate construction and verification, and hashing. */
  datatype Crypto = Crypto(
    tbs: (nat, seq<bv8>, nat, nat) -> nat,
    digest: nat -> Digest,
    spki: nat -> nat,
    verifies: (nat, Root) -> bool,
    sha: InitBlob -> Digest)

  const CLOCK_SKEW: nat := 300
  const DAY: nat := 86_400

  // ---------- state ----------

  datatype Place = Nowhere | Active | InCompleted | InAbandoned

  /** `signed` is history: the TBS of every root signature made. */
  datatype Init = Init(
    place: Place, files: Files, audits: AuthorityState.Dir<nat>, signed: seq<nat>, fuel: nat, tear: Tear)

  type Error = AuthorityState.Error

  datatype Ran<+T> = Going(s: Init, value: T) | Halted(s: Init, error: Error) {
    predicate IsFailure() { Halted? }
    function PropagateFailure<U>(): Ran<U> requires Halted? { Halted(s, error) }
    function Extract(): (Init, T) requires Going? { (s, value) }
  }

  datatype RootSigner = Declines | SignsRoot(signature: nat)
  datatype Finalize = Succeeds | Fails | Unexpected

  /** What one run of a command meets; `signer` is the key's answer to each TBS. */
  datatype Env = Env(
    random: Serial, time: nat, authorityId: Id, createdAt: nat, clock: nat -> nat, signer: nat -> RootSigner,
    keyOpens: bool, keyIsAbsent: bool, finalize: Finalize, namespacesEmpty: bool)

  function Conclude(s: Init, status: Status): Ran<()> {
    match status
    case Done => Going(s, ())
    case Refused => Halted(s, AuthorityState.StateError)
    case Interrupted => Halted(s, AuthorityState.Stopped)
  }

  function Spend(s: Init): Ran<()> {
    if s.fuel == 0 then Halted(s, AuthorityState.Stopped) else Going(s.(fuel := s.fuel - 1), ())
  }

  function Put(s: Init, p: Published<InitFile, InitBlob>): Ran<()> {
    Conclude(s.(files := p.dir, fuel := p.fuel), p.status)
  }

  function Durable(s: Init, f: InitFile, doc: InitDoc): Ran<()> {
    Put(s, Publish(s.files, f, Whole(doc), Empty, TornBlob(s.tear, Whole(doc)), s.fuel))
  }

  function DurableExact(s: Init, f: InitFile, doc: InitDoc): Ran<()> {
    Put(s, PublishExact(s.files, f, Whole(doc), Empty, TornBlob(s.tear, Whole(doc)), s.fuel))
  }

  function Finalized(s: Init, f: InitFile): Ran<()> {
    Put(s, Adopt(s.files, f, s.fuel))
  }

  function DocAt(files: Files, f: InitFile): Option<InitDoc> {
    if Final(f) in files then Parse(files[Final(f)]) else None
  }

  // ---------- the journal ----------

  /** The transitions `validate_transitions` allows. */
  predicate Follows(before: Phase, after: Phase) {
    match before
    case Prepared => after == FinalizeStarted || after == AbandonVerified
    case FinalizeStarted =>
      after == FinalizeSucceeded || after == FinalizeFailed || after == FinalizeUnexpected || after == AbandonVerified
    case FinalizeSucceeded => after == KeyValidated
    case KeyValidated => after == RootSigningPrepared
    case RootSigningPrepared => after == RootValidated
    case RootValidated => after == AuthorityPublished
    case AuthorityPublished => after == Completed
    case AbandonVerified => after == Abandoned
    case _ => false
  }

  predicate ValidTransitions(gens: seq<Generation>) {
    && gens != [] && gens[0].phase == Phase.Prepared
    && forall i :: 0 <= i < |gens| - 1 ==> Follows(gens[i].phase, gens[i + 1].phase)
  }

  function GenNumbers(files: Files): set<nat> {
    set name <- files.Keys | name.Final? && name.n.Gen? :: name.n.n
  }

  function StagedNumbers(files: Files): set<nat> {
    set name <- files.Keys | name.Pending? && name.n.Gen? :: name.n.n
  }

  /** One staged generation: removed when empty, adopted when it parses and belongs. */
  function AdoptGeneration(op: Id, s: Init, n: nat): Ran<()> {
    if Pending(Gen(n)) !in s.files then Going(s, ())
    else if s.files[Pending(Gen(n))] == Empty then
      if s.fuel == 0 then Halted(s, AuthorityState.Stopped)
      else Going(s.(files := s.files - {Pending(Gen(n))}, fuel := s.fuel - 1), ())
    else
      match Parse<InitDoc>(s.files[Pending(Gen(n))])
      case Some(GenerationDoc(g)) =>
        if g.operation.id == op && g.sequence == n then Finalized(s, Gen(n)) else Halted(s, AuthorityState.StateError)
      case _ => Halted(s, AuthorityState.StateError)
  }

  function AdoptGenerations(op: Id, s: Init, order: seq<nat>): Ran<()>
    decreases |order|
  {
    if order == [] then Going(s, ())
    else
      var (s1, _) :- AdoptGeneration(op, s, order[0]);
      AdoptGenerations(op, s1, order[1..])
  }

  predicate Continues(op: Id, gens: seq<Generation>, prior: Option<Digest>, g: Generation) {
    && g.version == SCHEMA_VERSION && g.operation.id == op && g.sequence == |gens| && g.prior == prior
    && (gens != [] ==> g.operation == gens[0].operation)
  }

  /** Reads the generations in order, checking names, identity, hash chain and parameters. */
  function ReadGenerations(c: Crypto, op: Id, files: Files, order: seq<nat>, gens: seq<Generation>,
          prior: Option<Digest>)
    : Option<seq<Generation>>
    decreases |order|
  {
    if order == [] then Some(gens)
    else if order[0] != |gens| then None
    else
      match DocAt(files, Gen(order[0]))
      case Some(GenerationDoc(g)) =>
        if Continues(op, gens, prior, g)
        then ReadGenerations(c, op, files, order[1..], gens + [g], Some(c.sha(files[Final(Gen(order[0]))])))
        else None
      case _ => None
  }

  function JournalOf(lib: Lib, c: Crypto, op: Id, files: Files): Option<seq<Generation>> {
    match ReadGenerations(c, op, files, Validators.Sort(lib.list(GenNumbers(files))), [], None)
    case Some(gens) => if ValidTransitions(gens) then Some(gens) else None
    case None => None
  }

  /** `validate_journal`. */
  function ValidateJournal(lib: Lib, c: Crypto, op: Id, s: Init): Ran<seq<Generation>> {
    if s.place != Active && s.place != InCompleted then Halted(s, AuthorityState.Precondition)
    else
      var (s1, _) :- AdoptGenerations(op, s, Validators.Sort(lib.list(StagedNumbers(s.files))));
      match JournalOf(lib, c, op, s1.files)
      case Some(gens) => Going(s1, gens)
      case None => Halted(s1, AuthorityState.StateError)
  }

  /** `JournalWriter`: the next sequence number and the digest of the generation before. */
  datatype Writer = Writer(sequence: nat, prior: Option<Digest>)

  function Resume(c: Crypto, files: Files, gens: seq<Generation>): (w: Writer)
    requires gens != []
  {
    var n := gens[|gens| - 1].sequence;
    Writer(n + 1, if Final(Gen(n)) in files then Some(c.sha(files[Final(Gen(n))])) else None)
  }

  function NextGeneration(op: Operation, w: Writer, phase: Phase, utc: nat, evidence: Evidence): Generation {
    Generation(SCHEMA_VERSION, op, w.sequence, phase, w.prior, utc, evidence)
  }

  function Append(c: Crypto, op: Operation, s: Init, w: Writer, phase: Phase, evidence: Evidence,
          env: Env): Ran<Writer> {
    var g := GenerationDoc(NextGeneration(op, w, phase, env.clock(w.sequence), evidence));
    var (s1, _) :- Durable(s, Gen(w.sequence), g);
    Going(s1, Writer(w.sequence + 1, Some(c.sha(Whole(g)))))
  }

  // ---------- the root transaction ----------

  function CreateRootIntent(c: Crypto, op: Operation, key: nat, env: Env): RootIntent {
    var serial := PositiveSerial(env.random);
    var tbs := c.tbs(key, serial, env.time, op.rootDays);
    RootIntent(SCHEMA_VERSION, op, SerialHex(serial), env.time, key, c.digest(key), c.digest(c.spki(key)),
               tbs, c.digest(tbs), env.authorityId, env.createdAt)
  }

  /** `root_backing_from_intent`: the intent must match the journal and the key, and the
      certificate rebuilt from it must be the one it records. */
  predicate IntentHolds(c: Crypto, op: Operation, key: nat, i: RootIntent) {
    && i.version == SCHEMA_VERSION && i.operation == op
    && i.publicKey == key && i.publicKeySha == c.digest(key) && i.spkiSha == c.digest(c.spki(key))
    && var serial := DecodeSerial(i.serial);
       && serial.Some?
       && i.tbs == c.tbs(key, serial.value, i.time, i.operation.rootDays)
       && i.tbsSha == c.digest(i.tbs)
  }

  predicate RootHolds(c: Crypto, i: RootIntent, key: nat, root: Root) {
    root.tbs == i.tbs && c.digest(root.tbs) == i.tbsSha && c.verifies(key, root)
  }

  function SignRoot(c: Crypto, s: Init, i: RootIntent, key: nat, env: Env): Ran<Root> {
    var (s1, _) :- Spend(s);
    match env.signer(i.tbs)
    case Declines => Halted(s1, AuthorityState.Provider)
    case SignsRoot(signature) =>
      var root := Root(i.tbs, signature);
      var s2 := s1.(signed := s1.signed + [i.tbs]);
      if RootHolds(c, i, key, root) then Going(s2, root) else Halted(s2, AuthorityState.Inconsistent)
  }

  /** `ensure_journal_root`: the journal's root, adopted or signed now. */
  function EnsureJournalRoot(c: Crypto, s: Init, i: RootIntent, key: nat, env: Env): Ran<Root> {
    if !IntentHolds(c, i.operation, key, i) then Halted(s, AuthorityState.Inconsistent)
    else if Final(RootFile) in s.files then
      match s.files[Final(RootFile)]
      case Whole(RootDoc(root)) => if RootHolds(c, i, key, root) then Going(s, root) else Halted(s,
            AuthorityState.Inconsistent)
      case _ => Halted(s, AuthorityState.Inconsistent)
    else if Pending(RootFile) in s.files && s.files[Pending(RootFile)] != Empty then
      match s.files[Pending(RootFile)]
      case Whole(RootDoc(root)) =>
        if RootHolds(c, i, key, root) then
          var (s1, _) :- Finalized(s, RootFile);
          Going(s1, root)
        else Halted(s, AuthorityState.Inconsistent)
      case _ => Halted(s, AuthorityState.Inconsistent)
    else
      var (s1, root) :- SignRoot(c, s, i, key, env);
      var (s2, _) :- Durable(s1, RootFile, RootDoc(root));
      Going(s2, root)
  }

  function AuthorityOf(c: Crypto, i: RootIntent, root: Root): Authority {
    Authority(i.authorityId, i.operation.provider, i.operation.keyName, i.publicKeySha, i.spkiSha,
              c.sha(Whole(RootDoc(root))), i.serial, i.time - CLOCK_SKEW, i.time + i.operation.rootDays * DAY,
              i.operation.id, i.createdAt)
  }

  function CreatePublication(c: Crypto, i: RootIntent, root: Root): Bundle {
    Bundle(SCHEMA_VERSION, i.operation.id, root, c.sha(Whole(RootDoc(root))), AuthorityOf(c, i, root))
  }

  /** `validate_init_publication`. */
  predicate BundleHolds(c: Crypto, op: Operation, key: nat, b: Bundle) {
    && b.version == SCHEMA_VERSION && b.operationId == op.id && b.authority.operationId == op.id
    && b.authority.provider == op.provider && b.authority.keyName == op.keyName
    && b.authority.rootSha == b.rootSha
    && b.authority.publicKeySha == c.digest(key) && b.authority.spkiSha == c.digest(c.spki(key))
    && c.sha(Whole(RootDoc(b.root))) == b.rootSha
    && c.verifies(key, b.root)
  }

  /** `publish_init_transaction`. */
  function PublishAuthority(c: Crypto, s: Init, key: nat, b: Bundle): Ran<()> {
    if !BundleHolds(c, Operation(b.operationId, b.authority.provider, b.authority.keyName, 0), key, b)
    then Halted(s, AuthorityState.Inconsistent)
    else
      var (s1, _) :- DurableExact(s, PublishedRoot, RootDoc(b.root));
      DurableExact(s1, AuthorityFile, AuthorityDoc(b.authority))
  }

  // ---------- the audit record and the archive ----------

  function InitializedRecord(a: Authority): Audit {
    Audit(SCHEMA_VERSION, 0, None, AuthorityInitialized, Some(a.authorityId), None, Some(a.operationId), None,
          true, PublishedAuthority, a.createdAt)
  }

  predicate IsInitialization(record: Audit, a: Authority) {
    record.kind == AuthorityInitialized && record.operationId == Some(a.operationId)
  }

  predicate AgreesWithAuthority(record: Audit, a: Authority) {
    && record.authorityId == Some(a.authorityId) && record.issuanceId == None && record.sourceIp == None
    && record.accepted && record.detail == PublishedAuthority && record.utc == a.createdAt
  }

  /** How many records announce this initialization; None if one is unreadable or conflicts. */
  function CountInitialized(audits: AuthorityState.Dir<nat>, order: seq<nat>, a: Authority): Option<nat> {
    if order == [] then Some(0)
    else if Final(order[0]) !in audits then None
    else
      match (ParseAudit(audits[Final(order[0])]), CountInitialized(audits, order[1..], a))
      case (Some(record), Some(more)) =>
        if !IsInitialization(record, a) then Some(more)
        else if AgreesWithAuthority(record, a) then Some(more + 1) else None
      case _ => None
  }

  function AppendInitAudit(lib: Lib, s: Init, record: Audit): Ran<()> {
    var next := Issuance.NextAudit(lib, s.audits, record);
    var blob := Whole(AuditDoc(next));
    var p := Publish(s.audits, next.sequence, blob, Empty, TornBlob(s.tear, blob), s.fuel);
    Conclude(s.(audits := p.dir, fuel := p.fuel), p.status)
  }

  function EnsureInitAudit(lib: Lib, s: Init, a: Authority): Ran<()> {
    match CountInitialized(s.audits, lib.list(AuthorityState.Finals(s.audits)), a)
    case None => Halted(s, AuthorityState.StateError)
    case Some(n) =>
      if n > 1 then Halted(s, AuthorityState.Inconsistent)
      else if n == 1 then Going(s, ())
      else AppendInitAudit(lib, s, InitializedRecord(a))
  }

  function Archive(s: Init, place: Place): Ran<()> {
    if s.place == place then Going(s, ())
    else if s.fuel == 0 then Halted(s, AuthorityState.Stopped)
    else Going(s.(place := place, fuel := s.fuel - 1), ())
  }

  function CloseInit(lib: Lib, s: Init, a: Authority): Ran<()> {
    var (s1, _) :- EnsureInitAudit(lib, s, a);
    Archive(s1, InCompleted)
  }

  // ---------- fresh_init ----------

  function CheckFresh(s: Init, env: Env): Option<Error> {
    if Final(AuthorityFile) in s.files || Final(PublishedRoot) in s.files then Some(AuthorityState.AlreadyInitialized)
    else if s.place == Active then Some(AuthorityState.PendingInitialization)
    else if !env.namespacesEmpty || AuthorityState.Finals(s.audits) != {}
          || s.place != Nowhere then Some(AuthorityState.Precondition)
    else if !env.keyIsAbsent then Some(AuthorityState.Provider)
    else None
  }

  /** The first two generations, with the staged key in between. */
  function FirstTwo(c: Crypto, op: Operation, s: Init, env: Env): Ran<Writer> {
    var (s1, w1) :- Append(c, op, s, Writer(0, None), Phase.Prepared, NoEvidence, env);
    var (s2, _) :- Spend(s1);
    Append(c, op, s2, w1, FinalizeStarted, NoEvidence, env)
  }

  /** Finalizes the key and records how that went. */
  function FinalizeKey(c: Crypto, op: Operation, key: nat, s: Init, w: Writer, env: Env): Ran<Writer> {
    var (s1, _) :- Spend(s);
    if env.finalize != Succeeds then
      var phase := if env.finalize == Unexpected then FinalizeUnexpected else FinalizeFailed;
      var (s2, _) :- Append(c, op, s1, w, phase, Reopened(env.keyOpens), env);
      Halted(s2, AuthorityState.PendingInitialization)
    else
      var (s2, w2) :- Append(c, op, s1, w, FinalizeSucceeded, NoEvidence, env);
      Append(c, op, s2, w2, KeyValidated, KeyDigest(c.digest(key)), env)
  }

  /** The signing intent and its generation. */
  function FreshIntent(c: Crypto, op: Operation, s: Init, w: Writer, i: RootIntent, env: Env): Ran<Writer> {
    var (s1, _) :- Durable(s, SigningFile, SigningDoc(i));
    Append(c, op, s1, w, RootSigningPrepared, NoEvidence, env)
  }

  /** The root and the publication record. */
  function RootBundle(c: Crypto, op: Operation, key: nat, s: Init, w: Writer, i: RootIntent, env: Env)
    : Ran<(Writer, Bundle)>
  {
    var (s1, root) :- EnsureJournalRoot(c, s, i, key, env);
    var b := CreatePublication(c, i, root);
    var (s2, _) :- Durable(s1, PublicationFile, PublicationDoc(b));
    Going(s2, (w, b))
  }

  function FreshRoot(c: Crypto, op: Operation, key: nat, s: Init, w: Writer, env: Env): Ran<(Writer, Bundle)> {
    var i := CreateRootIntent(c, op, key, env);
    var (s1, w1) :- FreshIntent(c, op, s, w, i, env);
    RootBundle(c, op, key, s1, w1, i, env)
  }

  /** The publication's generation and the two published files. */
  function FreshAuthority(c: Crypto, op: Operation, key: nat, s: Init, w: Writer, b: Bundle, env: Env): Ran<Writer> {
    var (s1, w1) :- Append(c, op, s, w, RootValidated, PublicationDigest(c.sha(Whole(PublicationDoc(b)))), env);
    var (s2, _) :- PublishAuthority(c, s1, key, b);
    Going(s2, w1)
  }

  function FreshLast(c: Crypto, op: Operation, s: Init, w: Writer, env: Env): Ran<Writer> {
    var (s1, w1) :- Append(c, op, s, w, AuthorityPublished, NoEvidence, env);
    Append(c, op, s1, w1, Completed, NoEvidence, env)
  }

  /** Everything after the publication record. */
  function FreshPublish(lib: Lib, c: Crypto, op: Operation, key: nat, s: Init, w: Writer, b: Bundle,
          env: Env): Ran<()> {
    var (s1, w1) :- FreshAuthority(c, op, key, s, w, b, env);
    var (s2, _) :- FreshLast(c, op, s1, w1, env);
    CloseInit(lib, s2, b.authority)
  }

  /** From the recorded key to the end. */
  function FromKey(lib: Lib, c: Crypto, op: Operation, key: nat, s: Init, w: Writer, env: Env): Ran<()> {
    var (s1, made) :- FreshRoot(c, op, key, s, w, env);
    FreshPublish(lib, c, op, key, s1, made.0, made.1, env)
  }

  function KeyThenRest(lib: Lib, c: Crypto, op: Operation, key: nat, s: Init, w: Writer, env: Env): Ran<()> {
    var (s1, w1) :- FinalizeKey(c, op, key, s, w, env);
    FromKey(lib, c, op, key, s1, w1, env)
  }

  /** From the opened journal to the end. */
  function FromOpened(lib: Lib, c: Crypto, op: Operation, key: nat, s: Init, env: Env): Ran<()> {
    var (s1, w1) :- FirstTwo(c, op, s, env);
    KeyThenRest(lib, c, op, key, s1, w1, env)
  }

  /** The journal directory has been created. */
  function Opened(s: Init): Init
    requires s.fuel > 0
  {
    s.(fuel := s.fuel - 1, place := Active)
  }

  function FreshInit(lib: Lib, c: Crypto, op: Operation, key: nat, s: Init, env: Env): Ran<()> {
    var refusal := CheckFresh(s, env);
    if refusal.Some? then Halted(s, refusal.value)
    else if s.fuel == 0 then Halted(s, AuthorityState.Stopped)
    else FromOpened(lib, c, op, key, Opened(s), env)
  }

  // ---------- reconcile ----------

  /** The signing intent: read, adopted, or made now. */
  function ReconcileIntent(c: Crypto, op: Operation, key: nat, s: Init, last: Phase, env: Env): Ran<RootIntent> {
    var made := CreateRootIntent(c, op, key, env);
    if Final(SigningFile) in s.files then
      match DocAt(s.files, SigningFile)
      case Some(SigningDoc(i)) => if IntentHolds(c, op, key, i) then Going(s, i) else Halted(s,
            AuthorityState.Inconsistent)
      case _ => Halted(s, AuthorityState.StateError)
    else if Pending(SigningFile) in s.files && s.files[Pending(SigningFile)] != Empty then
      match Parse<InitDoc>(s.files[Pending(SigningFile)])
      case Some(SigningDoc(i)) =>
        if IntentHolds(c, op, key, i) then
          var (s1, _) :- Finalized(s, SigningFile);
          Going(s1, i)
        else Halted(s, AuthorityState.Inconsistent)
      case _ => Halted(s, AuthorityState.StateError)
    else if Pending(SigningFile) !in s.files && last != KeyValidated then Halted(s, AuthorityState.StateError)
    else
      var (s1, _) :- Durable(s, SigningFile, SigningDoc(made));
      if IntentHolds(c, op, key, made) then Going(s1, made) else Halted(s1, AuthorityState.Inconsistent)
  }

  /** Appends a generation and reads the journal back. */
  function AppendThenRead(lib: Lib, c: Crypto, op: Operation, s: Init, w: Writer, phase: Phase, evidence: Evidence,
          env: Env)
    : Ran<(Writer, seq<Generation>)>
  {
    var (s1, w1) :- Append(c, op, s, w, phase, evidence, env);
    var (s2, gens) :- ValidateJournal(lib, c, op.id, s1);
    Going(s2, (w1, gens))
  }

  /** Appends the generation of `phase` if the journal stands just before it. */
  function Advance(lib: Lib, c: Crypto, op: Operation, s: Init, w: Writer, gens: seq<Generation>,
                   before: Phase, phase: Phase, evidence: Evidence, env: Env): Ran<(Writer, seq<Generation>)>
  {
    if gens != [] && gens[|gens| - 1].phase == before then AppendThenRead(lib, c, op, s, w, phase, evidence, env)
    else Going(s, (w, gens))
  }

  /** The publication record: read, adopted, or made now. */
  function ReconcilePublication(c: Crypto, op: Operation, key: nat, s: Init, i: RootIntent, root: Root): Ran<Bundle> {
    var made := CreatePublication(c, i, root);
    if Final(PublicationFile) in s.files then
      match DocAt(s.files, PublicationFile)
      case Some(PublicationDoc(b)) => if BundleHolds(c, op, key, b) then Going(s, b) else Halted(s,
            AuthorityState.Inconsistent)
      case _ => Halted(s, AuthorityState.StateError)
    else if Pending(PublicationFile) in s.files && s.files[Pending(PublicationFile)] != Empty then
      match Parse<InitDoc>(s.files[Pending(PublicationFile)])
      case Some(PublicationDoc(b)) =>
        if BundleHolds(c, op, key, b) then
          var (s1, _) :- Finalized(s, PublicationFile);
          Going(s1, b)
        else Halted(s, AuthorityState.Inconsistent)
      case _ => Halted(s, AuthorityState.StateError)
    else
      var (s1, _) :- Durable(s, PublicationFile, PublicationDoc(made));
      if BundleHolds(c, op, key, made) then Going(s1, made) else Halted(s1, AuthorityState.Inconsistent)
  }

  /** Signing intent and its generation. */
  function IntentPart(lib: Lib, c: Crypto, op: Operation, key: nat, s: Init, w: Writer, gens: seq<Generation>, env: Env)
    : Ran<(RootIntent, Writer, seq<Generation>)>
    requires gens != []
  {
    var (s1, i) :- ReconcileIntent(c, op, key, s, gens[|gens| - 1].phase, env);
    var (s2, now) :- Advance(lib, c, op, s1, w, gens, KeyValidated, RootSigningPrepared, NoEvidence, env);
    Going(s2, (i, now.0, now.1))
  }

  /** Root and publication record. */
  function RootPart(c: Crypto, op: Operation, key: nat, s: Init, i: RootIntent, env: Env): Ran<Bundle> {
    var (s1, root) :- EnsureJournalRoot(c, s, i, key, env);
    ReconcilePublication(c, op, key, s1, i, root)
  }

  /** Up to the publication record. */
  function ReconcileRoot(lib: Lib, c: Crypto, op: Operation, key: nat, s: Init, w: Writer, gens: seq<Generation>,
          env: Env)
    : Ran<(Writer, seq<Generation>, Bundle)>
    requires gens != []
  {
    var (s1, first) :- IntentPart(lib, c, op, key, s, w, gens, env);
    var (s2, b) :- RootPart(c, op, key, s1, first.0, env);
    Going(s2, (first.1, first.2, b))
  }

  /** The publication's generation and the two published files. */
  function PublishPart(lib: Lib, c: Crypto, op: Operation, key: nat, s: Init, w: Writer, gens: seq<Generation>,
          b: Bundle, env: Env)
    : Ran<(Writer, seq<Generation>)>
  {
    var sha := if Final(PublicationFile) in s.files then c.sha(s.files[Final(PublicationFile)]) else 0;
    var (s1, n1) :- Advance(lib, c, op, s, w, gens, RootSigningPrepared, RootValidated, PublicationDigest(sha), env);
    var (s2, _) :- PublishAuthority(c, s1, key, b);
    Going(s2, n1)
  }

  /** The last two generations. */
  function LastPart(lib: Lib, c: Crypto, op: Operation, s: Init, w: Writer, gens: seq<Generation>,
          env: Env): Ran<seq<Generation>> {
    var (s1, n1) :- Advance(lib, c, op, s, w, gens, RootValidated, AuthorityPublished, NoEvidence, env);
    var (s2, n2) :- Advance(lib, c, op, s1, n1.0, n1.1, AuthorityPublished, Completed, NoEvidence, env);
    Going(s2, n2.1)
  }

  predicate EndsCompleted(gens: seq<Generation>) {
    gens != [] && gens[|gens| - 1].phase == Completed
  }

  /** The last generations, the audit record and the archive. */
  function ClosingPart(lib: Lib, c: Crypto, op: Operation, s: Init, w: Writer, gens: seq<Generation>, b: Bundle,
          env: Env): Ran<()> {
    var (s1, all) :- LastPart(lib, c, op, s, w, gens, env);
    if EndsCompleted(all) then CloseInit(lib, s1, b.authority) else Halted(s1, AuthorityState.StateError)
  }

  /** After the publication record. */
  function ReconcilePublish(lib: Lib, c: Crypto, op: Operation, key: nat, s: Init, w: Writer, gens: seq<Generation>,
          b: Bundle, env: Env)
    : Ran<()>
  {
    var (s1, n1) :- PublishPart(lib, c, op, key, s, w, gens, b, env);
    ClosingPart(lib, c, op, s1, n1.0, n1.1, b, env)
  }

  predicate HasPhase(gens: seq<Generation>, phase: Phase) {
    exists i :: 0 <= i < |gens| && gens[i].phase == phase
  }

  /** Once the journal has been read. */
  function ReconcileRead(lib: Lib, c: Crypto, key: nat, s: Init, gens: seq<Generation>, env: Env): Ran<()> {
    if !HasPhase(gens, FinalizeSucceeded) || gens == [] then Halted(s, AuthorityState.Precondition)
    else if !env.keyOpens then Halted(s, AuthorityState.Provider)
    else
      var (s1, now) :- ReconcileRoot(lib, c, gens[0].operation, key, s, Resume(c, s.files, gens), gens, env);
      ReconcilePublish(lib, c, gens[0].operation, key, s1, now.0, now.1, now.2, env)
  }

  function Reconcile(lib: Lib, c: Crypto, op: Id, key: nat, s: Init, env: Env): Ran<()> {
    var (s1, gens) :- ValidateJournal(lib, c, op, s);
    ReconcileRead(lib, c, key, s1, gens, env)
  }

  // ---------- abandon ----------

  /** The phases whose presence forbids abandonment; RootSigningPrepared is not among them. */
  predicate ForbidsAbandonment(phase: Phase) {
    phase == FinalizeSucceeded || phase == FinalizeUnexpected || phase == KeyValidated || phase == RootValidated
    || phase == AuthorityPublished || phase == Completed || phase == AbandonVerified || phase == Abandoned
  }

  function AbandonedRecord(op: Id, utc: nat): Audit {
    Audit(SCHEMA_VERSION, 0, None, InitAbandoned, None, None, Some(op), None, true, ProvedAbsence, utc)
  }

  function AbandonJournal(lib: Lib, c: Crypto, op: Operation, s: Init, w: Writer, env: Env): Ran<()> {
    var (s1, w1) :- Append(c, op, s, w, AbandonVerified, KeyAbsent, env);
    var (s2, _) :- Append(c, op, s1, w1, Abandoned, NoEvidence, env);
    var (s3, _) :- AppendInitAudit(lib, s2, AbandonedRecord(op.id, env.createdAt));
    Archive(s3, InAbandoned)
  }

  /** Once the journal has been read. */
  function AbandonRead(lib: Lib, c: Crypto, op: Id, s: Init, gens: seq<Generation>, env: Env): Ran<()> {
    if exists i :: 0 <= i < |gens| && ForbidsAbandonment(gens[i].phase) then Halted(s, AuthorityState.Precondition)
    else if Final(AuthorityFile) in s.files
          || Final(PublishedRoot) in s.files then Halted(s, AuthorityState.Precondition)
    else if !env.namespacesEmpty || AuthorityState.Finals(s.audits) != {}
          || s.place != Active then Halted(s, AuthorityState.Precondition)
    else if gens == [] then Halted(s, AuthorityState.Precondition)
    else if !env.keyIsAbsent then Halted(s, AuthorityState.Provider)
    else AbandonJournal(lib, c, gens[|gens| - 1].operation, s, Resume(c, s.files, gens), env)
  }

  function Abandon(lib: Lib, c: Crypto, op: Id, s: Init, env: Env): Ran<()> {
    var (s1, gens) :- ValidateJournal(lib, c, op, s);
    AbandonRead(lib, c, op, s1, gens, env)
  }
}
