/** What the initialization commands amount to in any state directory, whatever is in it: when
    they act at all, and what is on file once they have succeeded. */
module InitMeaning {
  import opened Publication
  import opened Records
  import opened Serials
  import opened Initialization
  import opened InitProgress
  import AuditChain
  import AuthorityState
  import InitSteps
  import Issuance
  import Validators

  // ---------- the journal ----------

  /** Generation `k` names its operation and number and carries the digest of the one before. */
  predicate GenerationIs(c: Crypto, op: Id, files: Files, gens: seq<Generation>, k: nat)
    requires k < |gens|
  {
    && DocAt(files, Gen(k)) == Some(GenerationDoc(gens[k]))
    && gens[k].version == 1 && gens[k].sequence == k
    && gens[k].operation.id == op && gens[k].operation == gens[0].operation
    && (k == 0 ==> gens[k].prior == None)
    && (k > 0 ==> Final(Gen(k - 1)) in files && gens[k].prior == Some(c.sha(files[Final(Gen(k - 1))])))
  }

  /** The journal of the operation holds exactly these generations, without a gap and in an order
      that the table of transitions allows. */
  ghost predicate JournalIs(c: Crypto, op: Id, files: Files, gens: seq<Generation>) {
    && gens != [] && gens[0].phase == Phase.Prepared
    && (forall k: nat :: Final(Gen(k)) in files <==> k < |gens|)
    && (forall k: nat :: k < |gens| ==> GenerationIs(c, op, files, gens, k))
    && (forall k :: 0 <= k < |gens| - 1 ==> Follows(gens[k].phase, gens[k + 1].phase))
  }

  predicate ReadSoFar(c: Crypto, op: Id, files: Files, gens: seq<Generation>, prior: Option<Digest>) {
    && (forall k: nat :: k < |gens| ==> GenerationIs(c, op, files, gens, k))
    && (gens == [] ==> prior == None)
    && (gens != [] ==> Final(Gen(|gens| - 1)) in files && prior == Some(c.sha(files[Final(Gen(|gens| - 1))])))
  }

  lemma ReadOneMore(c: Crypto, op: Id, files: Files, gens: seq<Generation>, prior: Option<Digest>, g: Generation)
    requires ReadSoFar(c, op, files, gens, prior) && DocAt(files, Gen(|gens|)) == Some(GenerationDoc(g))
    requires Continues(op, gens, prior, g)
    ensures ReadSoFar(c, op, files, gens + [g], Some(c.sha(files[Final(Gen(|gens|))])))
  {
    var more := gens + [g];
    forall k: nat | k < |more| ensures GenerationIs(c, op, files, more, k) {
      if k < |gens| {
        assert GenerationIs(c, op, files, gens, k) && more[k] == gens[k] && more[0] == gens[0];
      }
    }
  }

  lemma {:induction false} ReadsForward(c: Crypto, op: Id, files: Files, order: seq<nat>, gens: seq<Generation>,
          prior: Option<Digest>, all: seq<Generation>)
    requires ReadSoFar(c, op, files, gens, prior) && ReadGenerations(c, op, files, order, gens, prior) == Some(all)
    ensures |all| == |gens| + |order| && (forall i :: 0 <= i < |order| ==> order[i] == |gens| + i)
    ensures forall k: nat :: k < |all| ==> GenerationIs(c, op, files, all, k)
    decreases |order|
  {
    if order != [] {
      var g := DocAt(files, Gen(order[0])).value.generation;
      ReadOneMore(c, op, files, gens, prior, g);
      ReadsForward(c, op, files, order[1..], gens + [g], Some(c.sha(files[Final(Gen(order[0]))])), all);
      assert forall i :: 0 < i < |order| ==> order[i] == order[1..][i - 1];
    }
  }

  lemma {:induction false} ReadsBackward(c: Crypto, op: Id, files: Files, order: seq<nat>, n: nat,
          prior: Option<Digest>, all: seq<Generation>)
    requires (forall k: nat :: k < |all| ==> GenerationIs(c, op, files, all, k)) && n + |order| == |all|
    requires forall i :: 0 <= i < |order| ==> order[i] == n + i
    requires prior == if n == 0 then None else if Final(Gen(n - 1)) in files then Some(c.sha(files[Final(Gen(n - 1))]))
                      else None
    ensures ReadGenerations(c, op, files, order, all[..n], prior) == Some(all)
    decreases |order|
  {
    if order == [] {
      assert all[..n] == all;
    } else {
      assert order[0] == n && GenerationIs(c, op, files, all, n);
      assert all[..n] + [all[n]] == all[..n + 1];
      assert n > 0 ==> all[..n][0] == all[0];
      ReadsBackward(c, op, files, order[1..], n + 1, Some(c.sha(files[Final(Gen(n))])), all);
    }
  }

  lemma SortedIs(lib: Lib, files: Files)
    requires LibOk(lib)
    ensures var order := Validators.Sort(lib.list(GenNumbers(files)));
            Enumerates(order, GenNumbers(files)) && forall k: nat :: k in GenNumbers(files) <==> Final(Gen(k)) in files
  {
    InitSteps.NumbersAre(files);
    assert Enumerates(lib.list(GenNumbers(files)), GenNumbers(files));
    Validators.SortedEnumerates(lib.list(GenNumbers(files)), GenNumbers(files));
  }

  lemma UpTo(order: seq<nat>, entries: set<nat>, n: nat)
    requires Enumerates(order, entries) && |order| == n && (forall i :: 0 <= i < n ==> order[i] == i)
    ensures forall k: nat :: k in entries <==> k < n
  {
    forall k: nat ensures k in entries <==> k < n {
      assert k in entries <==> k in order;
      if k < n {
        assert order[k] == k && order[k] in order;
      }
    }
  }

  /** Reading the journal succeeds with these generations exactly when they are what it holds. */
  lemma JournalReadsExactly(lib: Lib, c: Crypto, op: Id, files: Files, gens: seq<Generation>)
    requires LibOk(lib)
    ensures JournalOf(lib, c, op, files) == Some(gens) <==> JournalIs(c, op, files, gens)
  {
    var order := Validators.Sort(lib.list(GenNumbers(files)));
    SortedIs(lib, files);
    if JournalOf(lib, c, op, files) == Some(gens) {
      ReadsForward(c, op, files, order, [], None, gens);
      UpTo(order, GenNumbers(files), |gens|);
    }
    if JournalIs(c, op, files, gens) {
      InitSteps.SortedNumbers(lib, GenNumbers(files), |gens|);
      assert Upward(order, 0, |gens|);
      ReadsBackward(c, op, files, order, 0, None, gens);
      assert gens[..0] == [];
    }
  }

  // ---------- what single steps leave ----------

  /** Final files stay; only files, fuel and signatures change. */
  ghost predicate Grows(s: Init, s': Init) {
    Kept(s.files, s'.files) && s' == s.(files := s'.files, fuel := s'.fuel, signed := s'.signed)
  }

  /** No file but `f` has become final. */
  ghost predicate OnlyNew(a: Files, b: Files, f: InitFile) {
    forall g: InitFile :: Final(g) in b && Final(g) !in a ==> g == f
  }

  ghost predicate SameJournal(a: Files, b: Files) {
    forall k: nat :: Final(Gen(k)) in b ==> Final(Gen(k)) in a
  }

  lemma JournalOn(c: Crypto, op: Id, a: Files, b: Files, gens: seq<Generation>)
    requires Kept(a, b) && SameJournal(a, b) && JournalIs(c, op, a, gens)
    ensures JournalIs(c, op, b, gens)
  {
    forall k: nat | k < |gens| ensures GenerationIs(c, op, b, gens, k) {
      assert GenerationIs(c, op, a, gens, k);
    }
  }

  lemma DurableMeans(s: Init, f: InitFile, doc: InitDoc)
    ensures var out := Durable(s, f, doc);
            && Grows(s, out.s) && OnlyNew(s.files, out.s.files, f) && out.s.signed == s.signed
            && (out.Going? ==> Final(f) in out.s.files && out.s.files[Final(f)] == Whole(doc))
  {
    DestinationIsAbsentOrExact(s.files, f, Whole(doc), Empty, TornBlob(s.tear, Whole(doc)), s.fuel);
  }

  lemma DurableExactMeans(s: Init, f: InitFile, doc: InitDoc)
    ensures var out := DurableExact(s, f, doc);
            && Grows(s, out.s) && OnlyNew(s.files, out.s.files, f) && out.s.signed == s.signed
            && (out.Going? ==> Final(f) in out.s.files && out.s.files[Final(f)] == Whole(doc))
  {
    if Final(f) !in s.files {
      DurableMeans(s, f, doc);
    }
  }

  lemma FinalizedMeans(s: Init, f: InitFile)
    ensures var out := Finalized(s, f);
            && Grows(s, out.s) && OnlyNew(s.files, out.s.files, f) && out.s.signed == s.signed
            && (out.Going? ==> Pending(f) in s.files && Final(f) in out.s.files
                               && out.s.files[Final(f)] == s.files[Pending(f)])
            && (Final(f) in out.s.files && Final(f) !in s.files ==> out.Going?)
  {
  }

  /** A generation that becomes final by adoption belongs to the operation and to its place. */
  ghost predicate Belongs(op: Id, a: Files, b: Files) {
    forall f: InitFile :: Final(f) in b && Final(f) !in a ==>
      f.Gen? && match DocAt(b, f)
                case Some(GenerationDoc(g)) => g.operation.id == op && g.sequence == f.n
                case _ => false
  }

  lemma AdoptionMeans(op: Id, s: Init, n: nat)
    ensures var out := AdoptGeneration(op, s, n);
            Grows(s, out.s) && Belongs(op, s.files, out.s.files) && out.s.signed == s.signed
  {
    FinalizedMeans(s, Gen(n));
  }

  lemma BelongsOn(op: Id, a: Files, b: Files, c: Files)
    requires Kept(a, b) && Kept(b, c) && Belongs(op, a, b) && Belongs(op, b, c)
    ensures Kept(a, c) && Belongs(op, a, c)
  {
    forall f: InitFile | Final(f) in c && Final(f) !in a && Final(f) in b ensures DocAt(c, f) == DocAt(b, f) {
    }
  }

  lemma {:induction false} AdoptionsMean(op: Id, s: Init, order: seq<nat>)
    ensures var out := AdoptGenerations(op, s, order);
            Grows(s, out.s) && Belongs(op, s.files, out.s.files) && out.s.signed == s.signed
    decreases |order|
  {
    if order != [] {
      AdoptionMeans(op, s, order[0]);
      var one := AdoptGeneration(op, s, order[0]);
      if one.Going? {
        AdoptionsMean(op, one.s, order[1..]);
        BelongsOn(op, s.files, one.s.files, AdoptGenerations(op, one.s, order[1..]).s.files);
      }
    }
  }

  /** Validating a journal adopts only generations that belong, and reads what it then holds. */
  lemma ValidationMeans(lib: Lib, c: Crypto, op: Id, s: Init)
    requires LibOk(lib)
    ensures var out := ValidateJournal(lib, c, op, s);
            && Grows(s, out.s) && Belongs(op, s.files, out.s.files) && out.s.signed == s.signed
            && (out.Going? ==>
                  JournalIs(c, op, out.s.files, out.value) && (s.place == Active || s.place == InCompleted))
  {
    AdoptionsMean(op, s, Validators.Sort(lib.list(StagedNumbers(s.files))));
    var out := ValidateJournal(lib, c, op, s);
    if out.Going? {
      JournalReadsExactly(lib, c, op, out.s.files, out.value);
    }
  }

  /** The generation that an append writes. */
  function Written(op: Operation, w: Writer, phase: Phase, evidence: Evidence, env: Env): Generation {
    Generation(1, op, w.sequence, phase, w.prior, env.clock(w.sequence), evidence)
  }

  lemma AppendMeans(c: Crypto, op: Operation, s: Init, w: Writer, phase: Phase, evidence: Evidence, env: Env)
    ensures var out := Append(c, op, s, w, phase, evidence, env);
            && Grows(s, out.s) && OnlyNew(s.files, out.s.files, Gen(w.sequence)) && out.s.signed == s.signed
            && (out.Going? ==>
                  && Final(Gen(w.sequence)) in out.s.files
                  && out.s.files[Final(Gen(w.sequence))] == Whole(GenerationDoc(Written(op, w, phase, evidence, env)))
                  && out.value == Writer(w.sequence + 1, Some(c.sha(out.s.files[Final(Gen(w.sequence))]))))
  {
    DurableMeans(s, Gen(w.sequence), GenerationDoc(NextGeneration(op, w, phase, env.clock(w.sequence), evidence)));
  }

  /** Only generations have become final. */
  ghost predicate OnlyGenerations(a: Files, b: Files) {
    forall g: InitFile :: Final(g) in b && Final(g) !in a ==> g.Gen?
  }

  lemma GrowsOn(a: Init, b: Init, d: Init)
    requires Grows(a, b) && Grows(b, d)
    ensures Grows(a, d)
  {
  }

  lemma AppendThenReadMeans(lib: Lib, c: Crypto, op: Operation, s: Init, w: Writer, phase: Phase, evidence: Evidence,
          env: Env)
    requires LibOk(lib)
    ensures var out := AppendThenRead(lib, c, op, s, w, phase, evidence, env);
            && Grows(s, out.s) && OnlyGenerations(s.files, out.s.files) && out.s.signed == s.signed
            && (out.Going? ==>
                  && JournalIs(c, op.id, out.s.files, out.value.1) && Final(Gen(w.sequence)) in out.s.files
                  && out.s.files[Final(Gen(w.sequence))] == Whole(GenerationDoc(Written(op, w, phase, evidence, env))))
  {
    AppendMeans(c, op, s, w, phase, evidence, env);
    var o1 := Append(c, op, s, w, phase, evidence, env);
    if o1.Going? {
      ValidationMeans(lib, c, op.id, o1.s);
      GrowsOn(s, o1.s, ValidateJournal(lib, c, op.id, o1.s).s);
    }
  }

  lemma AdvanceMeans(lib: Lib, c: Crypto, op: Operation, s: Init, w: Writer, gens: seq<Generation>, before: Phase,
          phase: Phase, evidence: Evidence, env: Env)
    requires LibOk(lib) && JournalIs(c, op.id, s.files, gens)
    ensures var out := Advance(lib, c, op, s, w, gens, before, phase, evidence, env);
            && Grows(s, out.s) && OnlyGenerations(s.files, out.s.files) && out.s.signed == s.signed
            && (out.Going? ==> JournalIs(c, op.id, out.s.files, out.value.1))
            && (out.Going? && gens[|gens| - 1].phase == before ==>
                  && Final(Gen(w.sequence)) in out.s.files
                  && out.s.files[Final(Gen(w.sequence))] == Whole(GenerationDoc(Written(op, w, phase, evidence, env))))
            && (gens[|gens| - 1].phase != before ==> out == Going(s, (w, gens)))
  {
    if gens[|gens| - 1].phase == before {
      AppendThenReadMeans(lib, c, op, s, w, phase, evidence, env);
    }
  }

  // ---------- the root transaction ----------

  /** The signing intent is for this operation and key, and its TBS is the one for them. */
  ghost predicate IntentIs(c: Crypto, op: Operation, key: nat, i: RootIntent) {
    && i.version == 1 && i.operation == op
    && i.publicKey == key && i.publicKeySha == c.digest(key) && i.spkiSha == c.digest(c.spki(key))
    && i.tbsSha == c.digest(i.tbs)
    && exists serial: Serial :: i.serial == SerialHex(serial) && i.tbs == c.tbs(key, serial, i.time, op.rootDays)
  }

  lemma IntentHoldsExactly(c: Crypto, op: Operation, key: nat, i: RootIntent)
    ensures IntentHolds(c, op, key, i) <==> IntentIs(c, op, key, i)
  {
    if DecodeSerial(i.serial).Some? {
      SerialRoundTrip(DecodeSerial(i.serial).value, i.serial);
    }
    forall serial: Serial | i.serial == SerialHex(serial) ensures DecodeSerial(i.serial) == Some(serial) {
      SerialRoundTrip(serial, i.serial);
    }
  }

  lemma ReconciledIntentMeans(c: Crypto, op: Operation, key: nat, s: Init, last: Phase, env: Env)
    ensures var out := ReconcileIntent(c, op, key, s, last, env);
            && Grows(s, out.s) && OnlyNew(s.files, out.s.files, SigningFile) && out.s.signed == s.signed
            && (out.Going? ==> DocAt(out.s.files, SigningFile) == Some(SigningDoc(out.value))
                               && IntentIs(c, op, key, out.value))
            && (Final(SigningFile) in out.s.files && Final(SigningFile) !in s.files ==>
                  Pending(SigningFile) in s.files || last == KeyValidated)
  {
    FinalizedMeans(s, SigningFile);
    DurableMeans(s, SigningFile, SigningDoc(CreateRootIntent(c, op, key, env)));
    var out := ReconcileIntent(c, op, key, s, last, env);
    if out.Going? {
      IntentHoldsExactly(c, op, key, out.value);
    }
  }

  /** The root is over the intent's TBS and verifies under the key. */
  predicate RootIs(c: Crypto, key: nat, i: RootIntent, root: Root) {
    root.tbs == i.tbs && c.verifies(key, root)
  }

  lemma SigningMeans(c: Crypto, s: Init, i: RootIntent, key: nat, env: Env)
    ensures var out := SignRoot(c, s, i, key, env);
            && out.s == s.(fuel := out.s.fuel, signed := out.s.signed)
            && (out.Going? ==> RootIs(c, key, i, out.value))
            && (out.s.signed == s.signed || out.s.signed == s.signed + [i.tbs])
            && (out.s.signed != s.signed ==> env.signer(i.tbs).SignsRoot?)
  {
  }

  lemma RootMeans(c: Crypto, s: Init, i: RootIntent, key: nat, env: Env)
    ensures var out := EnsureJournalRoot(c, s, i, key, env);
            && Grows(s, out.s) && OnlyNew(s.files, out.s.files, RootFile)
            && (out.Going? ==>
                  && Final(RootFile) in out.s.files && out.s.files[Final(RootFile)] == Whole(RootDoc(out.value))
                  && RootIs(c, key, i, out.value))
            && (Final(RootFile) in out.s.files && Final(RootFile) !in s.files ==> out.Going?)
            && (out.s.signed != s.signed ==> out.s.signed == s.signed + [i.tbs] && Final(RootFile) !in s.files)
            && (out.s != s ==> IntentIs(c, i.operation, key, i))
  {
    IntentHoldsExactly(c, i.operation, key, i);
    FinalizedMeans(s, RootFile);
    SigningMeans(c, s, i, key, env);
    var signed := SignRoot(c, s, i, key, env);
    if signed.Going? {
      DurableMeans(signed.s, RootFile, RootDoc(signed.value));
    }
  }

  /** The publication record and the authority it announces are for this operation and key. */
  predicate BundleIs(c: Crypto, op: Operation, key: nat, b: Bundle) {
    && b.version == 1 && b.operationId == op.id
    && AuthorityIs(c, op, key, b.root, b.authority)
    && b.rootSha == c.sha(Whole(RootDoc(b.root))) && c.verifies(key, b.root)
  }

  predicate AuthorityIs(c: Crypto, op: Operation, key: nat, root: Root, a: Authority) {
    && a.operationId == op.id && a.provider == op.provider && a.keyName == op.keyName
    && a.publicKeySha == c.digest(key) && a.spkiSha == c.digest(c.spki(key))
    && a.rootSha == c.sha(Whole(RootDoc(root)))
  }

  lemma BundleHoldsExactly(c: Crypto, op: Operation, key: nat, b: Bundle)
    ensures BundleHolds(c, op, key, b) <==> BundleIs(c, op, key, b)
  {
  }

  lemma ReconciledPublicationMeans(c: Crypto, op: Operation, key: nat, s: Init, i: RootIntent, root: Root)
    ensures var out := ReconcilePublication(c, op, key, s, i, root);
            && Grows(s, out.s) && OnlyNew(s.files, out.s.files, PublicationFile) && out.s.signed == s.signed
            && (out.Going? ==> DocAt(out.s.files, PublicationFile) == Some(PublicationDoc(out.value))
                               && BundleIs(c, op, key, out.value))
  {
    FinalizedMeans(s, PublicationFile);
    DurableMeans(s, PublicationFile, PublicationDoc(CreatePublication(c, i, root)));
    var out := ReconcilePublication(c, op, key, s, i, root);
    if out.Going? {
      BundleHoldsExactly(c, op, key, out.value);
    }
  }

  /** Only the root and the authority record have been published. */
  ghost predicate OnlyPublished(a: Files, b: Files) {
    forall g: InitFile :: Final(g) in b && Final(g) !in a ==> g == PublishedRoot || g == AuthorityFile
  }

  lemma PublishingMeans(c: Crypto, s: Init, key: nat, b: Bundle)
    ensures var out := PublishAuthority(c, s, key, b);
            && Grows(s, out.s) && OnlyPublished(s.files, out.s.files) && out.s.signed == s.signed
            && (out.Going? ==>
                  && Final(PublishedRoot) in out.s.files && out.s.files[Final(PublishedRoot)] == Whole(RootDoc(b.root))
                  && Final(AuthorityFile) in out.s.files
                  && out.s.files[Final(AuthorityFile)] == Whole(AuthorityDoc(b.authority)))
            && (out.s.files != s.files ==>
                  BundleIs(c, Operation(b.operationId, b.authority.provider, b.authority.keyName, 0), key, b))
            && (Final(AuthorityFile) in out.s.files && Final(AuthorityFile) !in s.files ==>
                  Final(PublishedRoot) in out.s.files && out.s.files[Final(PublishedRoot)] == Whole(RootDoc(b.root)))
  {
    BundleHoldsExactly(c, Operation(b.operationId, b.authority.provider, b.authority.keyName, 0), key, b);
    DurableExactMeans(s, PublishedRoot, RootDoc(b.root));
    var o1 := DurableExact(s, PublishedRoot, RootDoc(b.root));
    if o1.Going? {
      DurableExactMeans(o1.s, AuthorityFile, AuthorityDoc(b.authority));
    }
  }

  // ---------- the audit record ----------

  /** The record announces this initialization; and it does so in full. */
  predicate Names(record: Audit, a: Authority) {
    record.kind == AuthorityInitialized && record.operationId == Some(a.operationId)
  }

  predicate Announces(record: Audit, a: Authority) {
    && Names(record, a) && record.authorityId == Some(a.authorityId) && record.issuanceId == None
    && record.sourceIp == None && record.accepted && record.detail == PublishedAuthority && record.utc == a.createdAt
  }

  ghost predicate NamedAt(audits: AuthorityState.Dir<nat>, n: nat, a: Authority) {
    Final(n) in audits && ParseAudit(audits[Final(n)]).Some? && Names(ParseAudit(audits[Final(n)]).value, a)
  }

  /** One record in the log names the initialization, and it announces it. */
  ghost predicate AnnouncedOnce(audits: AuthorityState.Dir<nat>, a: Authority) {
    && (exists n: nat :: NamedAt(audits, n, a))
    && (forall n: nat, m: nat :: NamedAt(audits, n, a) && NamedAt(audits, m, a) ==> n == m)
    && (forall n: nat :: NamedAt(audits, n, a) ==> Announces(ParseAudit(audits[Final(n)]).value, a))
  }

  lemma {:induction false} CountMeans(audits: AuthorityState.Dir<nat>, order: seq<nat>, a: Authority)
    requires CountInitialized(audits, order, a).Some?
    requires forall i, j :: 0 <= i < j < |order| ==> order[i] != order[j]
    ensures forall n <- order :: NamedAt(audits, n, a) ==> Announces(ParseAudit(audits[Final(n)]).value, a)
    ensures var k := CountInitialized(audits, order, a).value;
            && (k == 0 ==> forall n <- order :: !NamedAt(audits, n, a))
            && (k == 1 ==> exists n: nat :: n in order && NamedAt(audits, n, a)
                                          && forall m <- order :: NamedAt(audits, m, a) ==> m == n)
  {
    if order != [] {
      CountMeans(audits, order[1..], a);
      assert order == [order[0]] + order[1..];
      var more := CountInitialized(audits, order[1..], a).value;
      if NamedAt(audits, order[0], a) && more == 0 {
        assert order[0] in order && forall m <- order :: NamedAt(audits, m, a) ==> m == order[0];
      }
    }
  }

  lemma AnnouncementMeans(lib: Lib, s: Init, a: Authority)
    requires LibOk(lib)
    ensures var out := EnsureInitAudit(lib, s, a);
            && out.s == s.(audits := out.s.audits, fuel := out.s.fuel)
            && (out.Going? ==> AnnouncedOnce(out.s.audits, a))
  {
    AuditChain.FinalsAre(s.audits);
    var order := lib.list(AuthorityState.Finals(s.audits));
    assert Enumerates(order, AuthorityState.Finals(s.audits));
    var out := EnsureInitAudit(lib, s, a);
    if out.Going? {
      CountMeans(s.audits, order, a);
      forall n: nat | NamedAt(s.audits, n, a) ensures n in order {
        assert n in AuthorityState.Finals(s.audits);
      }
      if CountInitialized(s.audits, order, a) == Some(0) {
        AppendedIsAnnounced(lib, s, a);
      }
    }
  }

  lemma AppendedIsAnnounced(lib: Lib, s: Init, a: Authority)
    requires AppendInitAudit(lib, s, InitializedRecord(a)).Going? && forall n: nat :: !NamedAt(s.audits, n, a)
    ensures AnnouncedOnce(AppendInitAudit(lib, s, InitializedRecord(a)).s.audits, a)
  {
    var next := Issuance.NextAudit(lib, s.audits, InitializedRecord(a));
    var blob := Whole(AuditDoc(next));
    DestinationIsAbsentOrExact(s.audits, next.sequence, blob, Empty, TornBlob(s.tear, blob), s.fuel);
    var now := AppendInitAudit(lib, s, InitializedRecord(a)).s.audits;
    assert now == (s.audits - {Pending(next.sequence)})[Final(next.sequence) := blob];
    assert NamedAt(now, next.sequence, a);
    forall n: nat | NamedAt(now, n, a) ensures n == next.sequence {
      assert n != next.sequence ==> NamedAt(s.audits, n, a);
    }
  }

  // ---------- reconcile ----------

  /** Everything that an established authority has on file, archived and announced. */
  ghost predicate EstablishedAs(c: Crypto, op: Id, key: nat, s: Init, gens: seq<Generation>, i: RootIntent, root: Root,
          b: Bundle) {
    && JournalIs(c, op, s.files, gens) && gens[|gens| - 1].phase == Completed
    && DocAt(s.files, SigningFile) == Some(SigningDoc(i)) && IntentIs(c, gens[0].operation, key, i)
    && Final(RootFile) in s.files && s.files[Final(RootFile)] == Whole(RootDoc(root)) && RootIs(c, key, i, root)
    && DocAt(s.files, PublicationFile) == Some(PublicationDoc(b)) && BundleIs(c, gens[0].operation, key, b)
    && Final(PublishedRoot) in s.files && s.files[Final(PublishedRoot)] == Whole(RootDoc(b.root))
    && Final(AuthorityFile) in s.files && s.files[Final(AuthorityFile)] == Whole(AuthorityDoc(b.authority))
    && s.place == InCompleted && AnnouncedOnce(s.audits, b.authority)
  }

  ghost predicate Established(c: Crypto, op: Id, key: nat, s: Init) {
    exists gens: seq<Generation>, i: RootIntent, root: Root, b: Bundle :: EstablishedAs(c, op, key, s, gens, i, root, b)
  }

  lemma IntentPartMeans(lib: Lib, c: Crypto, op: Operation, key: nat, s: Init, w: Writer, gens: seq<Generation>,
          env: Env)
    requires LibOk(lib) && JournalIs(c, op.id, s.files, gens)
    ensures var out := IntentPart(lib, c, op, key, s, w, gens, env);
            && Grows(s, out.s)
            && (out.Going? ==> && JournalIs(c, op.id, out.s.files, out.value.2)
                               && DocAt(out.s.files, SigningFile) == Some(SigningDoc(out.value.0))
                               && IntentIs(c, op, key, out.value.0))
  {
    ReconciledIntentMeans(c, op, key, s, gens[|gens| - 1].phase, env);
    var o1 := ReconcileIntent(c, op, key, s, gens[|gens| - 1].phase, env);
    if o1.Going? {
      JournalOn(c, op.id, s.files, o1.s.files, gens);
      AdvanceMeans(lib, c, op, o1.s, w, gens, KeyValidated, RootSigningPrepared, NoEvidence, env);
      GrowsOn(s, o1.s, IntentPart(lib, c, op, key, s, w, gens, env).s);
    }
  }

  lemma RootPartMeans(c: Crypto, op: Operation, key: nat, s: Init, i: RootIntent, env: Env)
    ensures var out := RootPart(c, op, key, s, i, env);
            && Grows(s, out.s) && SameJournal(s.files, out.s.files)
            && (out.Going? ==> && Final(RootFile) in out.s.files && out.s.files[Final(RootFile)].Whole?
                               && out.s.files[Final(RootFile)].doc.RootDoc?
                               && RootIs(c, key, i, out.s.files[Final(RootFile)].doc.root)
                               && DocAt(out.s.files, PublicationFile) == Some(PublicationDoc(out.value))
                               && BundleIs(c, op, key, out.value))
  {
    RootMeans(c, s, i, key, env);
    var o1 := EnsureJournalRoot(c, s, i, key, env);
    if o1.Going? {
      ReconciledPublicationMeans(c, op, key, o1.s, i, o1.value);
      GrowsOn(s, o1.s, RootPart(c, op, key, s, i, env).s);
    }
  }

  /** What stands once the publication record is on file. */
  ghost predicate Rooted(c: Crypto, op: Operation, key: nat, files: Files, i: RootIntent, root: Root, b: Bundle) {
    && DocAt(files, SigningFile) == Some(SigningDoc(i)) && IntentIs(c, op, key, i)
    && Final(RootFile) in files && files[Final(RootFile)] == Whole(RootDoc(root)) && RootIs(c, key, i, root)
    && DocAt(files, PublicationFile) == Some(PublicationDoc(b)) && BundleIs(c, op, key, b)
  }

  lemma RootedOn(c: Crypto, op: Operation, key: nat, a: Files, b: Files, i: RootIntent, root: Root, bundle: Bundle)
    requires Kept(a, b) && Rooted(c, op, key, a, i, root, bundle)
    ensures Rooted(c, op, key, b, i, root, bundle)
  {
  }

  lemma ReconciledRootMeans(lib: Lib, c: Crypto, op: Operation, key: nat, s: Init, w: Writer, gens: seq<Generation>,
          env: Env)
    requires LibOk(lib) && JournalIs(c, op.id, s.files, gens)
    ensures var out := ReconcileRoot(lib, c, op, key, s, w, gens, env);
            && Grows(s, out.s)
            && (out.Going? ==>
                  && JournalIs(c, op.id, out.s.files, out.value.1)
                  && exists i: RootIntent, root: Root :: Rooted(c, op, key, out.s.files, i, root, out.value.2))
  {
    IntentPartMeans(lib, c, op, key, s, w, gens, env);
    var o1 := IntentPart(lib, c, op, key, s, w, gens, env);
    if o1.Going? {
      RootPartMeans(c, op, key, o1.s, o1.value.0, env);
      var o2 := RootPart(c, op, key, o1.s, o1.value.0, env);
      GrowsOn(s, o1.s, o2.s);
      if o2.Going? {
        JournalOn(c, op.id, o1.s.files, o2.s.files, o1.value.2);
        assert Rooted(c, op, key, o2.s.files, o1.value.0, o2.s.files[Final(RootFile)].doc.root, o2.value);
      }
    }
  }

  lemma PublishPartMeans(lib: Lib, c: Crypto, op: Operation, key: nat, s: Init, w: Writer, gens: seq<Generation>,
          b: Bundle, env: Env)
    requires LibOk(lib) && JournalIs(c, op.id, s.files, gens)
    ensures var out := PublishPart(lib, c, op, key, s, w, gens, b, env);
            && Grows(s, out.s)
            && (out.Going? ==> && JournalIs(c, op.id, out.s.files, out.value.1)
                               && Final(PublishedRoot) in out.s.files
                               && out.s.files[Final(PublishedRoot)] == Whole(RootDoc(b.root))
                               && Final(AuthorityFile) in out.s.files
                               && out.s.files[Final(AuthorityFile)] == Whole(AuthorityDoc(b.authority)))
  {
    var sha := if Final(PublicationFile) in s.files then c.sha(s.files[Final(PublicationFile)]) else 0;
    AdvanceMeans(lib, c, op, s, w, gens, RootSigningPrepared, RootValidated, PublicationDigest(sha), env);
    var o1 := Advance(lib, c, op, s, w, gens, RootSigningPrepared, RootValidated, PublicationDigest(sha), env);
    if o1.Going? {
      PublishingMeans(c, o1.s, key, b);
      var o2 := PublishAuthority(c, o1.s, key, b);
      GrowsOn(s, o1.s, o2.s);
      JournalOn(c, op.id, o1.s.files, o2.s.files, o1.value.1);
    }
  }

  lemma LastPartMeans(lib: Lib, c: Crypto, op: Operation, s: Init, w: Writer, gens: seq<Generation>, env: Env)
    requires LibOk(lib) && JournalIs(c, op.id, s.files, gens)
    ensures var out := LastPart(lib, c, op, s, w, gens, env);
            && Grows(s, out.s)
            && (out.Going? ==> JournalIs(c, op.id, out.s.files, out.value))
  {
    AdvanceMeans(lib, c, op, s, w, gens, RootValidated, AuthorityPublished, NoEvidence, env);
    var o1 := Advance(lib, c, op, s, w, gens, RootValidated, AuthorityPublished, NoEvidence, env);
    if o1.Going? {
      AdvanceMeans(lib, c, op, o1.s, o1.value.0, o1.value.1, AuthorityPublished, Completed, NoEvidence, env);
      GrowsOn(s, o1.s, LastPart(lib, c, op, s, w, gens, env).s);
    }
  }

  lemma ClosingMeans(lib: Lib, s: Init, a: Authority)
    requires LibOk(lib)
    ensures var out := CloseInit(lib, s, a);
            && out.s.files == s.files && out.s.signed == s.signed
            && (out.Going? ==> out.s.place == InCompleted && AnnouncedOnce(out.s.audits, a))
            && (out.s.place != s.place ==> AnnouncedOnce(out.s.audits, a))
  {
    AnnouncementMeans(lib, s, a);
  }

  lemma ClosingPartMeans(lib: Lib, c: Crypto, op: Operation, s: Init, w: Writer, gens: seq<Generation>, b: Bundle,
          env: Env)
    requires LibOk(lib) && JournalIs(c, op.id, s.files, gens)
    ensures var out := ClosingPart(lib, c, op, s, w, gens, b, env);
            && Kept(s.files, out.s.files)
            && (out.Going? ==> && out.s.place == InCompleted && AnnouncedOnce(out.s.audits, b.authority)
                               && exists all: seq<Generation> :: JournalIs(c, op.id, out.s.files, all)
                                                                && all[|all| - 1].phase == Completed)
  {
    LastPartMeans(lib, c, op, s, w, gens, env);
    var o1 := LastPart(lib, c, op, s, w, gens, env);
    if o1.Going? {
      ClosingMeans(lib, o1.s, b.authority);
    }
  }

  lemma EstablishedFrom(c: Crypto, op: Operation, key: nat, s: Init, all: seq<Generation>, i: RootIntent, root: Root,
          b: Bundle)
    requires JournalIs(c, op.id, s.files, all) && all[|all| - 1].phase == Completed && all[0].operation == op
    requires Rooted(c, op, key, s.files, i, root, b)
    requires Final(PublishedRoot) in s.files && s.files[Final(PublishedRoot)] == Whole(RootDoc(b.root))
    requires Final(AuthorityFile) in s.files && s.files[Final(AuthorityFile)] == Whole(AuthorityDoc(b.authority))
    requires s.place == InCompleted && AnnouncedOnce(s.audits, b.authority)
    ensures Established(c, op.id, key, s)
  {
    assert EstablishedAs(c, op.id, key, s, all, i, root, b);
  }

  lemma SameOperation(c: Crypto, op: Id, a: Files, b: Files, gens: seq<Generation>, all: seq<Generation>)
    requires Kept(a, b) && JournalIs(c, op, a, gens) && JournalIs(c, op, b, all)
    ensures all[0].operation == gens[0].operation
  {
    assert GenerationIs(c, op, a, gens, 0) && GenerationIs(c, op, b, all, 0);
  }

  lemma AfterRootMeans(lib: Lib, c: Crypto, op: Operation, key: nat, s: Init, w: Writer, gens: seq<Generation>,
          i: RootIntent, root: Root, b: Bundle, env: Env)
    requires LibOk(lib) && JournalIs(c, op.id, s.files, gens) && gens[0].operation == op
    requires Rooted(c, op, key, s.files, i, root, b)
    ensures var out := ReconcilePublish(lib, c, op, key, s, w, gens, b, env);
            Kept(s.files, out.s.files) && (out.Going? ==> Established(c, op.id, key, out.s))
  {
    PublishPartMeans(lib, c, op, key, s, w, gens, b, env);
    var o1 := PublishPart(lib, c, op, key, s, w, gens, b, env);
    if o1.Going? {
      ClosingPartMeans(lib, c, op, o1.s, o1.value.0, o1.value.1, b, env);
      var out := ClosingPart(lib, c, op, o1.s, o1.value.0, o1.value.1, b, env);
      if out.Going? {
        var all: seq<Generation> :| JournalIs(c, op.id, out.s.files, all) && all[|all| - 1].phase == Completed;
        RootedOn(c, op, key, s.files, out.s.files, i, root, b);
        SameOperation(c, op.id, s.files, out.s.files, gens, all);
        EstablishedFrom(c, op, key, out.s, all, i, root, b);
      }
    }
  }

  lemma ReadMeans(lib: Lib, c: Crypto, op: Id, key: nat, s: Init, gens: seq<Generation>, env: Env)
    requires LibOk(lib) && JournalIs(c, op, s.files, gens)
    ensures var out := ReconcileRead(lib, c, key, s, gens, env);
            && Kept(s.files, out.s.files)
            && (out.Going? ==> Established(c, op, key, out.s))
            && (out.Going? || out.s != s ==>
                  env.keyOpens && exists k :: 0 <= k < |gens| && gens[k].phase == FinalizeSucceeded)
  {
    if HasPhase(gens, FinalizeSucceeded) && env.keyOpens {
      assert GenerationIs(c, op, s.files, gens, 0);
      var operation, w := gens[0].operation, Resume(c, s.files, gens);
      ReconciledRootMeans(lib, c, operation, key, s, w, gens, env);
      var o1 := ReconcileRoot(lib, c, operation, key, s, w, gens, env);
      if o1.Going? {
        var i: RootIntent, root: Root :| Rooted(c, operation, key, o1.s.files, i, root, o1.value.2);
        SameOperation(c, op, s.files, o1.s.files, gens, o1.value.1);
        AfterRootMeans(lib, c, operation, key, o1.s, o1.value.0, o1.value.1, i, root, o1.value.2, env);
      }
    }
  }

  /** The journal says that the key was finalized. */
  ghost predicate FinalizedOnRecord(c: Crypto, op: Id, files: Files) {
    exists gens: seq<Generation>, k: nat :: JournalIs(c, op, files, gens) && k < |gens|
                                              && gens[k].phase == FinalizeSucceeded
  }

  lemma ReconcileActs(lib: Lib, c: Crypto, op: Id, key: nat, s: Init, env: Env)
    requires LibOk(lib)
    ensures var o1, out := ValidateJournal(lib, c, op, s), Reconcile(lib, c, op, key, s, env);
            && Kept(s.files, out.s.files)
            && (out.Going? ==> Established(c, op, key, out.s))
            && (out.Going? || out.s != o1.s ==>
                  && env.keyOpens && o1.Going?
                  && exists k :: 0 <= k < |o1.value| && o1.value[k].phase == FinalizeSucceeded)
  {
    ValidationMeans(lib, c, op, s);
    var o1 := ValidateJournal(lib, c, op, s);
    if o1.Going? {
      ReadMeans(lib, c, op, key, o1.s, o1.value, env);
    }
  }

  /** From any state: no final file changes or goes; success means that the authority is
      established in full; and unless the key opens, and the journal that has been validated
      records that it was finalized, nothing happens beyond that validation. */
  lemma ReconcileMeans(lib: Lib, c: Crypto, op: Id, key: nat, s: Init, env: Env)
    requires LibOk(lib)
    ensures var read, out := ValidateJournal(lib, c, op, s).s, Reconcile(lib, c, op, key, s, env);
            && Kept(s.files, out.s.files)
            && (out.Going? ==> Established(c, op, key, out.s))
            && (out.Going? || out.s != read ==> env.keyOpens && FinalizedOnRecord(c, op, read.files))
            && Grows(s, read) && Belongs(op, s.files, read.files)
  {
    ReconcileActs(lib, c, op, key, s, env);
    ValidationMeans(lib, c, op, s);
    var o1, out := ValidateJournal(lib, c, op, s), Reconcile(lib, c, op, key, s, env);
    if out.Going? || out.s != o1.s {
      var k :| 0 <= k < |o1.value| && o1.value[k].phase == FinalizeSucceeded;
      assert JournalIs(c, op, o1.s.files, o1.value);
    }
  }

  // ---------- fresh_init ----------

  /** A first run changes something only in a directory without a trace of an authority, in which
      nothing has been logged, for a key that does not exist; and otherwise says why not. */
  lemma FreshActsOnlyWhen(lib: Lib, c: Crypto, op: Operation, key: nat, s: Init, env: Env)
    requires LibOk(lib)
    ensures var out := FreshInit(lib, c, op, key, s, env);
            var published := Final(AuthorityFile) in s.files || Final(PublishedRoot) in s.files;
            && (out.Going? || out.s != s ==>
                  && !published && s.place == Nowhere && env.namespacesEmpty && env.keyIsAbsent
                  && (forall n: nat :: Final(n) !in s.audits))
            && (published ==> out == Halted(s, AuthorityState.AlreadyInitialized))
            && (!published && s.place == Active ==> out == Halted(s, AuthorityState.PendingInitialization))
            && (!published && s.place == Nowhere && env.namespacesEmpty && !env.keyIsAbsent
                  && (forall n: nat :: Final(n) !in s.audits) ==>
                out == Halted(s, AuthorityState.Provider))
  {
    AuditChain.FinalsAre(s.audits);
    if forall n: nat :: Final(n) !in s.audits {
      assert AuthorityState.Finals(s.audits) == {};
    }
  }

  // ---------- abandon ----------

  /** The phases after which an initialization may be given up. */
  predicate MayBeGivenUp(phase: Phase) {
    phase == Phase.Prepared || phase == FinalizeStarted || phase == FinalizeFailed || phase == RootSigningPrepared
  }

  lemma ForbidsExactly(phase: Phase)
    ensures ForbidsAbandonment(phase) <==> !MayBeGivenUp(phase)
  {
  }

  lemma AbandonedAuditMeans(lib: Lib, s: Init, record: Audit)
    ensures var out := AppendInitAudit(lib, s, record);
            && out.s == s.(audits := out.s.audits, fuel := out.s.fuel)
            && (out.Going? ==> var n := |AuthorityState.Finals(s.audits)|;
                               Final(n) in out.s.audits && out.s.audits[Final(n)].Whole?
                               && out.s.audits[Final(n)].doc == AuditDoc(Issuance.NextAudit(lib, s.audits, record)))
  {
    var next := Issuance.NextAudit(lib, s.audits, record);
    DestinationIsAbsentOrExact(s.audits, next.sequence, Whole(AuditDoc(next)), Empty,
                               TornBlob(s.tear, Whole(AuditDoc(next))), s.fuel);
  }

  /** The last generations and the record of an abandonment. */
  ghost predicate GivenUp(lib: Lib, op: Operation, a: Init, s: Init, w: Writer, env: Env) {
    && Final(Gen(w.sequence)) in s.files && Final(Gen(w.sequence + 1)) in s.files
    && s.files[Final(Gen(w.sequence))] == Whole(GenerationDoc(Written(op, w, AbandonVerified, KeyAbsent, env)))
    && DocAt(s.files, Gen(w.sequence + 1)).Some? && DocAt(s.files, Gen(w.sequence + 1)).value.GenerationDoc?
    && DocAt(s.files, Gen(w.sequence + 1)).value.generation.phase == Abandoned
    && DocAt(s.files, Gen(w.sequence + 1)).value.generation.operation == op
    && s.place == InAbandoned
    && var n := |AuthorityState.Finals(a.audits)|;
       && Final(n) in s.audits && ParseAudit(s.audits[Final(n)]).Some?
       && var record := ParseAudit(s.audits[Final(n)]).value;
          && record.kind == InitAbandoned && record.operationId == Some(op.id) && record.utc == env.createdAt
          && record.accepted && record.detail == ProvedAbsence && record.sequence == n
          && record.issuanceId == None && record.authorityId == None
  }

  lemma AbandonJournalMeans(lib: Lib, c: Crypto, op: Operation, s: Init, w: Writer, env: Env)
    ensures var out := AbandonJournal(lib, c, op, s, w, env);
            && Kept(s.files, out.s.files) && out.s.signed == s.signed && OnlyGenerations(s.files, out.s.files)
            && (out.Going? ==> GivenUp(lib, op, s, out.s, w, env))
            && (out.s.place != s.place ==> out.Going?)
  {
    AppendMeans(c, op, s, w, AbandonVerified, KeyAbsent, env);
    var o1 := Append(c, op, s, w, AbandonVerified, KeyAbsent, env);
    if o1.Going? {
      AppendMeans(c, op, o1.s, o1.value, Abandoned, NoEvidence, env);
      var o2 := Append(c, op, o1.s, o1.value, Abandoned, NoEvidence, env);
      GrowsOn(s, o1.s, o2.s);
      if o2.Going? {
        AbandonedAuditMeans(lib, o2.s, AbandonedRecord(op.id, env.createdAt));
      }
    }
  }

  /** From any state: nothing happens beyond validating the journal unless the key is absent, the
      directory otherwise empty, nothing published, and no phase on record forbids it; and
      success means that the abandonment is in the journal and in the log, and archived. */
  lemma AbandonMeans(lib: Lib, c: Crypto, op: Id, s: Init, env: Env)
    requires LibOk(lib)
    ensures var read, out := ValidateJournal(lib, c, op, s), Abandon(lib, c, op, s, env);
            && Kept(s.files, out.s.files) && out.s.signed == s.signed
            && (out.Going? || out.s != read.s ==>
                  && read.Going? && env.keyIsAbsent && env.namespacesEmpty && s.place == Active
                  && (forall k :: 0 <= k < |read.value| ==> MayBeGivenUp(read.value[k].phase))
                  && Final(AuthorityFile) !in read.s.files && Final(PublishedRoot) !in read.s.files
                  && (forall n: nat :: Final(n) !in s.audits))
            && (out.Going? ==> GivenUp(lib, read.value[|read.value| - 1].operation, read.s, out.s,
                                       Resume(c, read.s.files, read.value), env))
  {
    ValidationMeans(lib, c, op, s);
    var read := ValidateJournal(lib, c, op, s);
    if read.Going? {
      AuditChain.FinalsAre(s.audits);
      forall k | 0 <= k < |read.value|
        ensures ForbidsAbandonment(read.value[k].phase) <==> !MayBeGivenUp(read.value[k].phase)
      {
        ForbidsExactly(read.value[k].phase);
      }
      AbandonJournalMeans(lib, c, read.value[|read.value| - 1].operation, read.s, Resume(c, read.s.files, read.value),
                          env);
    }
  }
}
