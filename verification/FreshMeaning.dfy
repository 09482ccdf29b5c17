/** What a first run that succeeds has made: every file, field by field, from its operation, its
    key and what it met. */
module FreshMeaning {
  import opened Publication
  import opened Records
  import opened Serials
  import opened Initialization
  import opened InitProgress
  import opened InitMeaning
  import AuthorityState
  import InitFresh
  import InitSteps
  import Issuance
  import ScanMeaning

  // ---------- what there is to be made ----------

  const SKEW: nat := 300
  const SECONDS_PER_DAY: nat := 86_400

  /** The intent, the root, its authority and the record of them. */
  datatype Making = Making(i: RootIntent, root: Root, authority: Authority, bundle: Bundle)

  /** The serial is the drawn one made positive; identifiers, times and parameters are those the
      run was given; the root is what the key answered; validity starts five minutes early. */
  predicate MadeFrom(c: Crypto, op: Operation, key: nat, env: Env, made: Making) {
    && made.i.version == 1 && made.i.operation == op && made.i.serial == SerialHex(PositiveSerial(env.random))
    && made.i.time == env.time && made.i.createdAt == env.createdAt && made.i.authorityId == env.authorityId
    && made.i.publicKey == key && made.i.publicKeySha == c.digest(key) && made.i.spkiSha == c.digest(c.spki(key))
    && made.i.tbs == c.tbs(key, PositiveSerial(env.random), env.time, op.rootDays)
    && made.i.tbsSha == c.digest(made.i.tbs)
    && made.authority.rootSerial == made.i.serial
    && env.signer(made.i.tbs) == SignsRoot(made.root.signature) && made.root.tbs == made.i.tbs
    && c.verifies(key, made.root)
    && made.authority.authorityId == env.authorityId && made.authority.createdAt == env.createdAt
    && made.authority.notBefore == env.time - SKEW
    && made.authority.notAfter == env.time + op.rootDays * SECONDS_PER_DAY
    && AuthorityIs(c, op, key, made.root, made.authority)
    && BundleIs(c, op, key, made.bundle) && made.bundle.root == made.root && made.bundle.authority == made.authority
  }

  predicate Holds(files: Files, f: InitFile, doc: InitDoc) {
    Final(f) in files && files[Final(f)] == Whole(doc)
  }

  function EvidenceFor(c: Crypto, key: nat, k: nat, bundle: Bundle): Evidence {
    if k == 3 then KeyDigest(c.digest(key))
    else if k == 5 then PublicationDigest(c.sha(Whole(PublicationDoc(bundle))))
    else NoEvidence
  }

  /** Generation `k` of a success, at the time its clock showed. */
  ghost predicate Recorded(c: Crypto, op: Operation, key: nat, env: Env, bundle: Bundle, files: Files, k: nat) {
    && PhaseAt(Succeeding, k).Some? && (k > 0 ==> Final(Gen(k - 1)) in files)
    && Holds(files, Gen(k), GenerationDoc(Generation(1, op, k, PhaseAt(Succeeding, k).value, PriorOf(c, files, k),
                                                     env.clock(k), EvidenceFor(c, key, k, bundle))))
  }

  /** The record of the log: its first, and the initialization's. */
  predicate Announced(audits: AuthorityState.Dir<nat>, op: Operation, env: Env) {
    && Final(0) in audits && audits[Final(0)].Whole? && audits[Final(0)].doc.AuditDoc?
    && var record := audits[Final(0)].doc.audit;
       && record.version == 1 && record.sequence == 0 && record.prior == None && record.kind == AuthorityInitialized
       && record.authorityId == Some(env.authorityId) && record.operationId == Some(op.id)
       && record.issuanceId == None && record.sourceIp == None && record.accepted
       && record.detail == PublishedAuthority && record.utc == env.createdAt
  }

  /** Everything that a first run leaves. */
  ghost predicate Made(c: Crypto, op: Operation, key: nat, env: Env, s: Init, made: Making) {
    && MadeFrom(c, op, key, env, made)
    && (forall k: nat :: k < 8 ==> Recorded(c, op, key, env, made.bundle, s.files, k))
    && Holds(s.files, SigningFile, SigningDoc(made.i)) && Holds(s.files, RootFile, RootDoc(made.root))
    && Holds(s.files, PublicationFile, PublicationDoc(made.bundle))
    && Holds(s.files, PublishedRoot, RootDoc(made.root)) && Holds(s.files, AuthorityFile, AuthorityDoc(made.authority))
    && Announced(s.audits, op, env) && s.place == InCompleted && s.signed == [made.i.tbs]
  }

  // ---------- the generations ----------

  lemma RecordedOn(c: Crypto, op: Operation, key: nat, env: Env, bundle: Bundle, a: Files, b: Files, k: nat)
    requires Kept(a, b) && Recorded(c, op, key, env, bundle, a, k)
    ensures Recorded(c, op, key, env, bundle, b, k)
  {
  }

  /** The first `k` generations are recorded and the writer stands after them. */
  ghost predicate UpTo(c: Crypto, op: Operation, key: nat, env: Env, bundle: Bundle, files: Files, w: Writer, k: nat) {
    InitSteps.WriterAt(c, files, w, k) && forall j: nat :: j < k ==> Recorded(c, op, key, env, bundle, files, j)
  }

  lemma UpToOn(c: Crypto, op: Operation, key: nat, env: Env, bundle: Bundle, a: Files, b: Files, w: Writer, k: nat)
    requires Kept(a, b) && UpTo(c, op, key, env, bundle, a, w, k)
    ensures UpTo(c, op, key, env, bundle, b, w, k)
  {
    forall j: nat | j < k ensures Recorded(c, op, key, env, bundle, b, j) {
      RecordedOn(c, op, key, env, bundle, a, b, j);
    }
  }

  /** Final files stay, no signature is made, and the root is left alone. */
  ghost predicate Same(a: Init, b: Init) {
    && Kept(a.files, b.files) && b.signed == a.signed && b.audits == a.audits
    && (Final(RootFile) in b.files ==> Final(RootFile) in a.files)
    && (Pending(RootFile) in b.files ==> Pending(RootFile) in a.files)
  }

  lemma DurableIsElsewhere(s: Init, f: InitFile, doc: InitDoc)
    requires f != RootFile
    ensures var out := Durable(s, f, doc);
            Same(s, out.s) && (out.Going? ==> Holds(out.s.files, f, doc))
  {
    DestinationIsAbsentOrExact(s.files, f, Whole(doc), Empty, TornBlob(s.tear, Whole(doc)), s.fuel);
  }

  lemma RecordsNext(c: Crypto, op: Operation, key: nat, env: Env, bundle: Bundle, s: Init, w: Writer, k: nat,
          phase: Phase)
    requires UpTo(c, op, key, env, bundle, s.files, w, k) && PhaseAt(Succeeding, k) == Some(phase)
    ensures var out := Append(c, op, s, w, phase, EvidenceFor(c, key, k, bundle), env);
            Same(s, out.s) && (out.Going? ==> UpTo(c, op, key, env, bundle, out.s.files, out.value, k + 1))
  {
    var evidence := EvidenceFor(c, key, k, bundle);
    var doc := GenerationDoc(NextGeneration(op, w, phase, env.clock(k), evidence));
    DurableIsElsewhere(s, Gen(k), doc);
    var out := Append(c, op, s, w, phase, evidence, env);
    if out.Going? {
      UpToOn(c, op, key, env, bundle, s.files, out.s.files, w, k);
      assert Recorded(c, op, key, env, bundle, out.s.files, k);
    }
  }

  lemma SameOn(a: Init, b: Init, d: Init)
    requires Same(a, b) && Same(b, d)
    ensures Same(a, d)
  {
  }

  lemma FirstTwoMade(c: Crypto, op: Operation, key: nat, env: Env, bundle: Bundle, s: Init)
    requires s.files == map[]
    ensures var out := FirstTwo(c, op, s, env);
            Same(s, out.s) && (out.Going? ==> UpTo(c, op, key, env, bundle, out.s.files, out.value, 2))
  {
    RecordsNext(c, op, key, env, bundle, s, Writer(0, None), 0, Phase.Prepared);
    var o1 := Append(c, op, s, Writer(0, None), Phase.Prepared, NoEvidence, env);
    if o1.Going? {
      var o2 := Spend(o1.s);
      if o2.Going? {
        RecordsNext(c, op, key, env, bundle, o2.s, o1.value, 1, FinalizeStarted);
      }
    }
  }

  lemma KeyMade(c: Crypto, op: Operation, key: nat, env: Env, bundle: Bundle, s: Init, w: Writer)
    requires UpTo(c, op, key, env, bundle, s.files, w, 2)
    ensures var out := FinalizeKey(c, op, key, s, w, env);
            out.Going? ==> Same(s, out.s) && UpTo(c, op, key, env, bundle, out.s.files, out.value, 4)
  {
    var o1 := Spend(s);
    if o1.Going? && env.finalize == Succeeds {
      RecordsNext(c, op, key, env, bundle, o1.s, w, 2, FinalizeSucceeded);
      var o2 := Append(c, op, o1.s, w, FinalizeSucceeded, NoEvidence, env);
      if o2.Going? {
        RecordsNext(c, op, key, env, bundle, o2.s, o2.value, 3, KeyValidated);
      }
    }
  }

  // ---------- the root ----------

  lemma IntentMade(c: Crypto, op: Operation, key: nat, env: Env, bundle: Bundle, s: Init, w: Writer, i: RootIntent)
    requires UpTo(c, op, key, env, bundle, s.files, w, 4)
    ensures var out := FreshIntent(c, op, s, w, i, env);
            && Same(s, out.s)
            && (out.Going? ==> UpTo(c, op, key, env, bundle, out.s.files, out.value, 5)
                               && Holds(out.s.files, SigningFile, SigningDoc(i)))
  {
    DurableIsElsewhere(s, SigningFile, SigningDoc(i));
    var o1 := Durable(s, SigningFile, SigningDoc(i));
    if o1.Going? {
      UpToOn(c, op, key, env, bundle, s.files, o1.s.files, w, 4);
      RecordsNext(c, op, key, env, bundle, o1.s, w, 4, RootSigningPrepared);
      SameOn(s, o1.s, Append(c, op, o1.s, w, RootSigningPrepared, NoEvidence, env).s);
    }
  }

  /** With no root on file or staged, the root is the key's answer to the intent. */
  lemma RootMade(c: Crypto, s: Init, i: RootIntent, key: nat, env: Env)
    requires Final(RootFile) !in s.files && Pending(RootFile) !in s.files
    ensures var out := EnsureJournalRoot(c, s, i, key, env);
            && Kept(s.files, out.s.files) && out.s.audits == s.audits
            && (out.Going? ==>
                  && env.signer(i.tbs) == SignsRoot(out.value.signature) && RootIs(c, key, i, out.value)
                  && out.s.signed == s.signed + [i.tbs] && Holds(out.s.files, RootFile, RootDoc(out.value)))
  {
    RootMeans(c, s, i, key, env);
  }

  lemma BundleMade(c: Crypto, op: Operation, key: nat, env: Env, s: Init, w: Writer, i: RootIntent)
    requires Final(RootFile) !in s.files && Pending(RootFile) !in s.files
    ensures var out := RootBundle(c, op, key, s, w, i, env);
            && Kept(s.files, out.s.files) && out.s.audits == s.audits
            && (out.Going? ==>
                  var b := out.value.1;
                  && out.value.0 == w && b == CreatePublication(c, i, b.root)
                  && env.signer(i.tbs) == SignsRoot(b.root.signature) && RootIs(c, key, i, b.root)
                  && out.s.signed == s.signed + [i.tbs] && Holds(out.s.files, RootFile, RootDoc(b.root))
                  && Holds(out.s.files, PublicationFile, PublicationDoc(b)))
  {
    RootMade(c, s, i, key, env);
    var o1 := EnsureJournalRoot(c, s, i, key, env);
    if o1.Going? {
      DurableIsElsewhere(o1.s, PublicationFile, PublicationDoc(CreatePublication(c, i, o1.value)));
    }
  }

  lemma BundleIsFor(c: Crypto, op: Operation, key: nat, env: Env, root: Root)
    ensures var i := CreateRootIntent(c, op, key, env);
            RootIs(c, key, i, root) && env.signer(i.tbs) == SignsRoot(root.signature) ==>
              var b := CreatePublication(c, i, root);
              MadeFrom(c, op, key, env, Making(i, root, b.authority, b))
  {
  }

  // ---------- publishing ----------

  lemma AuthorityMade(c: Crypto, op: Operation, key: nat, env: Env, s: Init, w: Writer, b: Bundle)
    requires UpTo(c, op, key, env, b, s.files, w, 5)
    ensures var out := FreshAuthority(c, op, key, s, w, b, env);
            && Kept(s.files, out.s.files) && out.s.signed == s.signed && out.s.audits == s.audits
            && (out.Going? ==> UpTo(c, op, key, env, b, out.s.files, out.value, 6)
                               && Holds(out.s.files, PublishedRoot, RootDoc(b.root))
                               && Holds(out.s.files, AuthorityFile, AuthorityDoc(b.authority)))
  {
    RecordsNext(c, op, key, env, b, s, w, 5, RootValidated);
    var o1 := Append(c, op, s, w, RootValidated, EvidenceFor(c, key, 5, b), env);
    if o1.Going? {
      PublishingMeans(c, o1.s, key, b);
      UpToOn(c, op, key, env, b, o1.s.files, PublishAuthority(c, o1.s, key, b).s.files, o1.value, 6);
    }
  }

  lemma LastMade(c: Crypto, op: Operation, key: nat, env: Env, s: Init, w: Writer, b: Bundle)
    requires UpTo(c, op, key, env, b, s.files, w, 6)
    ensures var out := FreshLast(c, op, s, w, env);
            Same(s, out.s) && (out.Going? ==> UpTo(c, op, key, env, b, out.s.files, out.value, 8))
  {
    RecordsNext(c, op, key, env, b, s, w, 6, AuthorityPublished);
    var o1 := Append(c, op, s, w, AuthorityPublished, NoEvidence, env);
    if o1.Going? {
      RecordsNext(c, op, key, env, b, o1.s, o1.value, 7, Completed);
      SameOn(s, o1.s, Append(c, op, o1.s, o1.value, Completed, NoEvidence, env).s);
    }
  }

  /** In an empty log the record is the first, and it announces the authority. */
  lemma FirstRecord(lib: Lib, s: Init, a: Authority)
    requires LibOk(lib) && s.audits == map[]
    ensures var out := CloseInit(lib, s, a);
            && out.s.files == s.files && out.s.signed == s.signed
            && (out.Going? ==> out.s.place == InCompleted && Final(0) in out.s.audits
                               && out.s.audits[Final(0)] == Whole(AuditDoc(InitializedRecord(a))))
  {
    assert AuthorityState.Finals(s.audits) == {};
    assert Enumerates(lib.list({}), {});
    if lib.list({}) != [] {
      ScanMeaning.HasElement(lib.list({}));
    }
    var record := InitializedRecord(a);
    assert Issuance.NextAudit(lib, s.audits, record) == record;
    DestinationIsAbsentOrExact(s.audits, 0, Whole(AuditDoc(record)), Empty, TornBlob(s.tear, Whole(AuditDoc(record))),
                               s.fuel);
  }

  /** What stands once the publication record is on file. */
  ghost predicate Half(c: Crypto, op: Operation, key: nat, env: Env, s: Init, w: Writer, made: Making) {
    && MadeFrom(c, op, key, env, made) && UpTo(c, op, key, env, made.bundle, s.files, w, 5)
    && Holds(s.files, SigningFile, SigningDoc(made.i)) && Holds(s.files, RootFile, RootDoc(made.root))
    && Holds(s.files, PublicationFile, PublicationDoc(made.bundle))
    && s.audits == map[] && s.signed == [made.i.tbs]
  }

  lemma RestMade(lib: Lib, c: Crypto, op: Operation, key: nat, env: Env, s: Init, w: Writer, made: Making)
    requires LibOk(lib) && Half(c, op, key, env, s, w, made)
    ensures var out := FreshPublish(lib, c, op, key, s, w, made.bundle, env);
            out.Going? ==> Made(c, op, key, env, out.s, made)
  {
    var b := made.bundle;
    AuthorityMade(c, op, key, env, s, w, b);
    var o1 := FreshAuthority(c, op, key, s, w, b, env);
    if o1.Going? {
      LastMade(c, op, key, env, o1.s, o1.value, b);
      var o2 := FreshLast(c, op, o1.s, o1.value, env);
      if o2.Going? {
        FirstRecord(lib, o2.s, b.authority);
      }
    }
  }

  lemma RootHalf(c: Crypto, op: Operation, key: nat, env: Env, bundle: Bundle, s: Init, w: Writer)
    requires UpTo(c, op, key, env, bundle, s.files, w, 4) && s.audits == map[] && s.signed == []
    requires Final(RootFile) !in s.files && Pending(RootFile) !in s.files
    ensures var out := FreshRoot(c, op, key, s, w, env);
            out.Going? && out.value.1 == bundle ==>
              Half(c, op, key, env, out.s, out.value.0,
                   Making(CreateRootIntent(c, op, key, env), bundle.root, bundle.authority, bundle))
  {
    var i := CreateRootIntent(c, op, key, env);
    IntentMade(c, op, key, env, bundle, s, w, i);
    var o1 := FreshIntent(c, op, s, w, i, env);
    if o1.Going? {
      BundleMade(c, op, key, env, o1.s, o1.value, i);
      var o2 := RootBundle(c, op, key, o1.s, o1.value, i, env);
      if o2.Going? {
        UpToOn(c, op, key, env, bundle, o1.s.files, o2.s.files, o1.value, 5);
        BundleIsFor(c, op, key, env, o2.value.1.root);
      }
    }
  }

  /** The bundle that the run makes, if it gets that far. */
  function Upcoming(c: Crypto, op: Operation, key: nat, env: Env): Bundle {
    var i := CreateRootIntent(c, op, key, env);
    CreatePublication(c, i, Root(i.tbs, match env.signer(i.tbs) case SignsRoot(signature) => signature
                                                                case Declines => 0))
  }

  lemma UpcomingComes(c: Crypto, op: Operation, key: nat, env: Env, bundle: Bundle, s: Init, w: Writer)
    requires UpTo(c, op, key, env, bundle, s.files, w, 4)
    requires Final(RootFile) !in s.files && Pending(RootFile) !in s.files
    ensures var out := FreshRoot(c, op, key, s, w, env);
            out.Going? ==> out.value.1 == Upcoming(c, op, key, env)
  {
    var i := CreateRootIntent(c, op, key, env);
    IntentMade(c, op, key, env, bundle, s, w, i);
    var o1 := FreshIntent(c, op, s, w, i, env);
    if o1.Going? {
      BundleMade(c, op, key, env, o1.s, o1.value, i);
    }
  }

  /** A first run in an empty directory that succeeds has made all of it. */
  lemma FreshMakes(lib: Lib, c: Crypto, op: Operation, key: nat, s: Init, env: Env)
    requires LibOk(lib) && InitFresh.Blank(s) && FreshInit(lib, c, op, key, s, env).Going?
    ensures exists made: Making :: Made(c, op, key, env, FreshInit(lib, c, op, key, s, env).s, made)
  {
    var bundle := Upcoming(c, op, key, env);
    FirstTwoMade(c, op, key, env, bundle, Opened(s));
    var o1 := FirstTwo(c, op, Opened(s), env);
    KeyMade(c, op, key, env, bundle, o1.s, o1.value);
    var o2 := FinalizeKey(c, op, key, o1.s, o1.value, env);
    RootHalf(c, op, key, env, bundle, o2.s, o2.value);
    UpcomingComes(c, op, key, env, bundle, o2.s, o2.value);
    var o3 := FreshRoot(c, op, key, o2.s, o2.value, env);
    RestMade(lib, c, op, key, env, o3.s, o3.value.0,
             Making(CreateRootIntent(c, op, key, env), bundle.root, bundle.authority, bundle));
  }
}
