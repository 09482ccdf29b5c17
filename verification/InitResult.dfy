/** What initialization promises over whole runs: it converges, every root signature is over
    the same bytes, and it ends with one archived journal and one audit record. */
module InitResult {
  import opened Publication
  import opened Records
  import opened Initialization
  import opened InitProgress
  import opened InitSteps
  import opened InitRoot
  import opened InitConvergence
  import AuditChain
  import AuthorityState
  import Finish
  import Issuance
  import ScanMeaning
  import Wreckage

  // ---------- the audit record ----------

  function NoAudits(): AuthorityState.Dir<nat> { map[] }

  function FirstAudit(lib: Lib, a: Authority): Audit {
    Issuance.NextAudit(lib, NoAudits(), InitializedRecord(a))
  }

  function RecordedAudits(lib: Lib, a: Authority): AuthorityState.Dir<nat> {
    map[Final(0) := Whole(AuditDoc(FirstAudit(lib, a)))]
  }

  predicate AuditProgress(lib: Lib, audits: AuthorityState.Dir<nat>, a: Authority) {
    Finish.Progress(NoAudits(), audits, 0, AuditDoc(FirstAudit(lib, a)))
  }

  lemma CountsRecorded(lib: Lib, a: Authority)
    requires LibOk(lib)
    ensures CountInitialized(RecordedAudits(lib, a), lib.list(AuthorityState.Finals(RecordedAudits(lib, a))), a)
          == Some(1)
  {
    var audits := RecordedAudits(lib, a);
    AuditChain.FinalsAre(audits);
    assert AuthorityState.Finals(audits) == {0};
    Wreckage.OneListed(lib, 0);
    assert [0][1..] == [];
    assert CountInitialized(audits, [], a) == Some(0);
  }

  lemma NothingCounted(lib: Lib, audits: AuthorityState.Dir<nat>, a: Authority)
    requires LibOk(lib) && forall n: nat :: Final(n) !in audits
    ensures CountInitialized(audits, lib.list(AuthorityState.Finals(audits)), a) == Some(0)
    ensures Issuance.NextAudit(lib, audits, InitializedRecord(a)) == FirstAudit(lib, a)
    ensures FirstAudit(lib, a).sequence == 0
  {
    AuditChain.FinalsAre(audits);
    assert AuthorityState.Finals(audits) == {};
    assert AuthorityState.Finals(NoAudits()) == {};
    ScanMeaning.NothingListed(lib);
  }

  lemma AuditStep(lib: Lib, s: Init, a: Authority)
    requires LibOk(lib) && AuditProgress(lib, s.audits, a)
    ensures var out := EnsureInitAudit(lib, s, a);
            && out.s == s.(audits := out.s.audits, fuel := out.s.fuel)
            && AuditProgress(lib, out.s.audits, a)
            && (out.Going? ==> out.s.audits == RecordedAudits(lib, a))
            && (s.audits == RecordedAudits(lib, a) ==> out == Going(s, ()))
            && (s.fuel >= PUBLICATION_STEPS ==>
                  out.s.fuel >= s.fuel - PUBLICATION_STEPS && (out.Going? <==> !Finish.TornAt(s.audits, 0)))
            && (s.tear == NoBytes && !Finish.TornAt(s.audits, 0) ==> !Finish.TornAt(out.s.audits, 0))
  {
    assert NoAudits()[Final(0) := Whole(AuditDoc(FirstAudit(lib, a)))] == RecordedAudits(lib, a);
    if s.audits == RecordedAudits(lib, a) {
      CountsRecorded(lib, a);
    } else {
      NothingCounted(lib, s.audits, a);
      Finish.PublishShape(NoAudits(), s.audits, 0, AuditDoc(FirstAudit(lib, a)), s.tear, s.fuel);
    }
  }

  // ---------- the state of a successful initialization ----------

  /** Every root signature made is over the TBS of the durable signing intent. */
  ghost predicate SignedSame(s: Init) {
    forall t <- s.signed :: IntentAt(s.files).Some? && t == IntentAt(s.files).value.tbs
  }

  ghost predicate Recording(lib: Lib, s: Init, m: nat) {
    if m < ALL then s.place == Active && s.audits == NoAudits()
    else
      && BundleAt(s.files).Some?
      && AuditProgress(lib, s.audits, BundleAt(s.files).value.authority)
      && (s.place == Active
            || (s.place == InCompleted && s.audits == RecordedAudits(lib, BundleAt(s.files).value.authority)))
  }

  /** `s` is m publications into the initialization `op`. */
  ghost predicate Stands(lib: Lib, c: Crypto, op: Operation, key: nat, s: Init, m: nat) {
    && Progress(c, op, key, Succeeding, s.files, m) && SignedSame(s) && Recording(lib, s, m)
  }

  lemma StandsOn(lib: Lib, c: Crypto, op: Operation, key: nat, s: Init, m: nat, s': Init, n: nat)
    requires Stands(lib, c, op, key, s, m) && Moves(c, op, key, s, m, s', n)
    ensures Stands(lib, c, op, key, s', n)
  {
    if n == ALL {
      BundleIsMade(c, op, key, s'.files, n);
    }
    forall t <- s'.signed ensures IntentAt(s'.files).Some? && t == IntentAt(s'.files).value.tbs {
      if t in s.signed {
        assert IntentAt(s.files).Some?;
      }
    }
  }

  ghost predicate StandsSomewhere(lib: Lib, c: Crypto, op: Operation, key: nat, s: Init) {
    exists m: nat :: Stands(lib, c, op, key, s, m)
  }

  /** No staging file is torn. */
  ghost predicate Clear(s: Init) {
    Unblocked(s.files) && !Finish.TornAt(s.audits, 0)
  }

  /** From `s` on to `s'`: files stay, and runs whose cut-short writes leave nothing tear nothing. */
  ghost predicate Onward(lib: Lib, c: Crypto, op: Operation, key: nat, s: Init, m: nat, s': Init, n: nat) {
    && m <= n && Stands(lib, c, op, key, s', n) && Kept(s.files, s'.files) && s'.tear == s.tear
    && (s.tear == NoBytes && Clear(s) ==> Clear(s'))
    && (!Clear(s) ==> !Clear(s'))
  }

  ghost predicate Reaches(lib: Lib, c: Crypto, op: Operation, key: nat, s: Init, m: nat, s': Init) {
    exists n: nat :: Onward(lib, c, op, key, s, m, s', n)
  }

  lemma MovesReach(lib: Lib, c: Crypto, op: Operation, key: nat, s: Init, m: nat, s': Init, n: nat)
    requires Stands(lib, c, op, key, s, m) && Moves(c, op, key, s, m, s', n)
    ensures Onward(lib, c, op, key, s, m, s', n)
  {
    StandsOn(lib, c, op, key, s, m, s', n);
  }

  lemma OnwardThen(lib: Lib, c: Crypto, op: Operation, key: nat, a: Init, l: nat, b: Init, m: nat, d: Init)
    requires Onward(lib, c, op, key, a, l, b, m) && Reaches(lib, c, op, key, b, m, d)
    ensures Reaches(lib, c, op, key, a, l, d)
  {
    var n: nat :| Onward(lib, c, op, key, b, m, d, n);
    assert Onward(lib, c, op, key, a, l, d, n);
  }

  /** Completed: archived, with the root the journal holds, its authority and one audit record. */
  ghost predicate Initialized(lib: Lib, c: Crypto, op: Operation, key: nat, s: Init) {
    && Stands(lib, c, op, key, s, ALL) && s.place == InCompleted
    && IntentAt(s.files).Some? && RootAt(s.files).Some?
    && RootHolds(c, IntentAt(s.files).value, key, RootAt(s.files).value)
    && Final(PublishedRoot) in s.files && s.files[Final(PublishedRoot)] == Whole(RootDoc(RootAt(s.files).value))
    && Final(AuthorityFile) in s.files
    && s.files[Final(AuthorityFile)]
          == Whole(AuthorityDoc(AuthorityOf(c, IntentAt(s.files).value, RootAt(s.files).value)))
    && s.audits == RecordedAudits(lib, AuthorityOf(c, IntentAt(s.files).value, RootAt(s.files).value))
  }

  lemma PublishedFiles(c: Crypto, op: Operation, key: nat, files: Files)
    requires Progress(c, op, key, Succeeding, files, ALL)
    ensures IntentAt(files).Some? && RootAt(files).Some? && BundleAt(files).Some?
    ensures RootHolds(c, IntentAt(files).value, key, RootAt(files).value)
    ensures BundleAt(files).value.authority == AuthorityOf(c, IntentAt(files).value, RootAt(files).value)
    ensures Final(PublishedRoot) in files && files[Final(PublishedRoot)] == Whole(RootDoc(RootAt(files).value))
    ensures Final(AuthorityFile) in files
    ensures files[Final(AuthorityFile)] == Whole(AuthorityDoc(BundleAt(files).value.authority))
  {
    SignedFilesHold(c, op, key, files, ALL);
    BundleIsMade(c, op, key, files, ALL);
    assert Good(c, op, key, Succeeding, files, PublishedRoot);
    assert Good(c, op, key, Succeeding, files, AuthorityFile);
  }

  lemma CloseStep(lib: Lib, c: Crypto, op: Operation, key: nat, s: Init)
    requires LibOk(lib) && Stands(lib, c, op, key, s, ALL)
    ensures var out := CloseInit(lib, s, BundleAt(s.files).value.authority);
            && Onward(lib, c, op, key, s, ALL, out.s, ALL)
            && (out.Going? ==> Initialized(lib, c, op, key, out.s))
            && (s.place == InCompleted ==> out == Going(s, ()))
            && (s.fuel >= PUBLICATION_STEPS + 1 ==> (out.Going? <==> !Finish.TornAt(s.audits, 0)))
  {
    PublishedFiles(c, op, key, s.files);
    AuditStep(lib, s, BundleAt(s.files).value.authority);
  }

  // ---------- reconcile ----------

  predicate KeyIsRecorded(files: Files) {
    Final(Gen(3)) in files || GenerationReadable(files, 3)
  }

  /** What an operator can see before running the command: the validated key is on record and
      no staging file is torn. */
  ghost predicate Reconcilable(s: Init) {
    KeyIsRecorded(s.files) && Unblocked(s.files) && !Finish.TornAt(s.audits, 0)
  }

  const RECONCILE_STEPS := 64

  lemma SomewhereOn(lib: Lib, c: Crypto, op: Operation, key: nat, s: Init, m: nat, s': Init)
    requires Stands(lib, c, op, key, s, m) && SomeProgress(c, op, key, s, m, s')
    ensures Reaches(lib, c, op, key, s, m, s')
  {
    var n: nat :| Moves(c, op, key, s, m, s', n);
    MovesReach(lib, c, op, key, s, m, s', n);
  }

  lemma CloseAfter(lib: Lib, c: Crypto, op: Operation, key: nat, s: Init, m: nat, s': Init, b: Bundle)
    requires LibOk(lib) && Stands(lib, c, op, key, s, m) && Moves(c, op, key, s, m, s', ALL)
    requires BundleAt(s.files) == Some(b)
    ensures var out := CloseInit(lib, s', b.authority);
            && Reaches(lib, c, op, key, s, m, out.s)
            && (out.Going? ==> Initialized(lib, c, op, key, out.s))
            && (s'.place == InCompleted ==> out == Going(s', ()))
            && (s'.fuel >= PUBLICATION_STEPS + 1 ==> (out.Going? <==> !Finish.TornAt(s.audits, 0)))
  {
    MovesReach(lib, c, op, key, s, m, s', ALL);
    CloseStep(lib, c, op, key, s');
    OnwardThen(lib, c, op, key, s, m, s', ALL, CloseInit(lib, s', b.authority).s);
  }

  lemma ClosingIs(lib: Lib, c: Crypto, op: Operation, s: Init, w: Writer, gens: seq<Generation>, b: Bundle, env: Env)
    ensures var last := LastPart(lib, c, op, s, w, gens, env);
            var out := ClosingPart(lib, c, op, s, w, gens, b, env);
            && (last.Halted? ==> out == Halted(last.s, last.error))
            && (last.Going? && |last.value| == 8 && last.value[7].phase == Completed ==>
                out == CloseInit(lib, last.s, b.authority))
  {
  }

  lemma ClosingStep(lib: Lib, c: Crypto, op: Operation, key: nat, s: Init, m: nat, w: Writer, gens: seq<Generation>,
          b: Bundle, env: Env)
    requires LibOk(lib) && Stands(lib, c, op, key, s, m) && m >= 11 && Reading(c, s.files, m, w, gens)
    requires BundleAt(s.files) == Some(b)
    ensures var out := ClosingPart(lib, c, op, s, w, gens, b, env);
            && Reaches(lib, c, op, key, s, m, out.s)
            && (out.Going? ==> Initialized(lib, c, op, key, out.s))
            && (m == ALL && s.place == InCompleted ==> out == Going(s, ()))
            && (s.fuel >= 3 * PUBLICATION_STEPS + 1 ==> (out.Going? <==> !Finish.TornAt(s.audits, 0)))
  {
    LastPartStep(lib, c, op, key, s, m, w, gens, env);
    ClosingIs(lib, c, op, s, w, gens, b, env);
    var o2 := LastPart(lib, c, op, s, w, gens, env);
    if o2.Halted? {
      SomewhereOn(lib, c, op, key, s, m, o2.s);
    } else {
      CloseAfter(lib, c, op, key, s, m, o2.s, b);
    }
  }

  lemma ReconcilePublishStep(lib: Lib, c: Crypto, op: Operation, key: nat, s: Init, m: nat, w: Writer,
          gens: seq<Generation>, b: Bundle, env: Env)
    requires LibOk(lib) && Stands(lib, c, op, key, s, m) && m >= 8 && Reading(c, s.files, m, w, gens)
    requires BundleAt(s.files) == Some(b)
    ensures var out := ReconcilePublish(lib, c, op, key, s, w, gens, b, env);
            && Reaches(lib, c, op, key, s, m, out.s)
            && (out.Going? ==> Initialized(lib, c, op, key, out.s))
            && (m == ALL && s.place == InCompleted ==> out == Going(s, ()))
            && (s.fuel >= 6 * PUBLICATION_STEPS + 1 ==>
                  (out.Going? <==>
                      !Blocks(s.files, PublishedRoot) && !Blocks(s.files, AuthorityFile)
                          && !Finish.TornAt(s.audits, 0)))
  {
    PublishPartStep(lib, c, op, key, s, m, w, gens, b, env);
    NoStagingAbove(c, op, key, s.files, m);
    var o1 := PublishPart(lib, c, op, key, s, w, gens, b, env);
    if o1.Halted? {
      SomewhereOn(lib, c, op, key, s, m, o1.s);
    } else {
      PublishedThenClosed(lib, c, op, key, s, m, o1.s, if m < 11 then 11 else m, o1.value.0, o1.value.1, b, env);
    }
  }

  lemma PublishedThenClosed(lib: Lib, c: Crypto, op: Operation, key: nat, s: Init, m: nat, s': Init, n: nat,
                            w: Writer, gens: seq<Generation>, b: Bundle, env: Env)
    requires LibOk(lib) && Stands(lib, c, op, key, s, m) && Moves(c, op, key, s, m, s', n) && n >= 11
    requires Reading(c, s'.files, n, w, gens) && BundleAt(s.files) == Some(b)
    ensures var out := ClosingPart(lib, c, op, s', w, gens, b, env);
            && Reaches(lib, c, op, key, s, m, out.s)
            && (out.Going? ==> Initialized(lib, c, op, key, out.s))
            && (n == ALL && s'.place == InCompleted ==> out == Going(s', ()))
            && (s'.fuel >= 3 * PUBLICATION_STEPS + 1 ==> (out.Going? <==> !Finish.TornAt(s.audits, 0)))
  {
    MovesReach(lib, c, op, key, s, m, s', n);
    ClosingStep(lib, c, op, key, s', n, w, gens, b, env);
    OnwardThen(lib, c, op, key, s, m, s', n, ClosingPart(lib, c, op, s', w, gens, b, env).s);
  }

  /** The whole run after the journal has been read. */
  lemma AfterReading(lib: Lib, c: Crypto, op: Operation, key: nat, s: Init, m: nat, gens: seq<Generation>, env: Env)
    requires LibOk(lib) && Stands(lib, c, op, key, s, m) && m >= 3 && NoStagedGeneration(s.files)
    requires gens == Generations(s.files, Count(Succeeding, m))
    ensures gens != []
    ensures var w := Resume(c, s.files, gens);
            var first := ReconcileRoot(lib, c, op, key, s, w, gens, env);
            var out := if first.Halted? then Halted(first.s, first.error)
                       else ReconcilePublish(lib, c, op, key, first.s, first.value.0, first.value.1, first.value.2,
                           env);
            && Reaches(lib, c, op, key, s, m, out.s)
            && (out.Going? ==> Initialized(lib, c, op, key, out.s) && m >= 4)
            && (m == ALL && s.place == InCompleted ==> out == Going(s, ()))
            && (s.fuel >= RECONCILE_STEPS - 1 ==>
                  && (out.Going? ==> Unblocked(s.files) && !Finish.TornAt(s.audits, 0))
                  && (m >= 4 && Willing(c, key, env.signer) && Unblocked(s.files) && !Finish.TornAt(s.audits, 0) ==>
                      out.Going?))
  {
    ResumedReads(c, op, key, s.files, m, gens);
    var w := Resume(c, s.files, gens);
    ReconcileRootStep(lib, c, op, key, s, m, w, gens, env);
    WhatBlocks(c, op, key, s.files, m);
    var first := ReconcileRoot(lib, c, op, key, s, w, gens, env);
    if first.Halted? {
      SomewhereOn(lib, c, op, key, s, m, first.s);
    } else {
      var n := if m < 8 then 8 else m;
      MovesReach(lib, c, op, key, s, m, first.s, n);
      ReconcilePublishStep(lib, c, op, key, first.s, n, first.value.0, first.value.1, first.value.2, env);
      OnwardThen(lib, c, op, key, s, m, first.s, n,
                 ReconcilePublish(lib, c, op, key, first.s, first.value.0, first.value.1, first.value.2, env).s);
    }
  }

  lemma ResumedReads(c: Crypto, op: Operation, key: nat, files: Files, m: nat, gens: seq<Generation>)
    requires Progress(c, op, key, Succeeding, files, m) && m > 0 && NoStagedGeneration(files)
    requires gens == Generations(files, Count(Succeeding, m))
    ensures gens != [] && Reading(c, files, m, Resume(c, files, gens), gens)
  {
    var n := Count(Succeeding, m);
    GenerationIsGood(c, op, key, Succeeding, files, m, n - 1);
    CountsGenerations(Succeeding, m, n - 1);
  }

  /** Without a staged generation, only these files can block. */
  lemma WhatBlocks(c: Crypto, op: Operation, key: nat, files: Files, m: nat)
    requires Progress(c, op, key, Succeeding, files, m) && NoStagedGeneration(files)
    ensures Unblocked(files) <==>
          !Blocks(files, SigningFile) && !Blocks(files, RootFile) && !Blocks(files, PublicationFile)
                                  && !Blocks(files, PublishedRoot) && !Blocks(files, AuthorityFile)
    ensures m < 8 ==> !Blocks(files, PublishedRoot) && !Blocks(files, AuthorityFile)
    ensures m >= 8 ==> !Blocks(files, SigningFile) && !Blocks(files, RootFile) && !Blocks(files, PublicationFile)
  {
    forall f: InitFile | Blocks(files, f) ensures !f.Gen? {
    }
    SigningIsNotStaged(c, op, key, files, m);
    NoStagingAbove(c, op, key, files, m);
  }

  lemma SettledKey(c: Crypto, op: Operation, key: nat, files: Files, m: nat)
    requires Progress(c, op, key, Succeeding, files, m)
    ensures Settled(Succeeding, files, m) >= 4 <==> KeyIsRecorded(files)
    ensures GenerationTorn(files, Count(Succeeding, m)) ==> !Unblocked(files)
  {
    CountsGenerations(Succeeding, m, 3);
    OnlyStagedGeneration(c, op, key, Succeeding, files, m);
    var k := Count(Succeeding, m);
    if GenerationTorn(files, k) {
      assert Blocks(files, Gen(k));
    }
    if GenerationReadable(files, k) {
      assert Rank(Succeeding, Gen(k)) == m;
    }
  }

  /** Reading the journal neither hides nor creates a torn file. */
  lemma ReadingKeepsTorn(lib: Lib, c: Crypto, op: Operation, key: nat, s: Init, m: nat)
    requires LibOk(lib) && Stands(lib, c, op, key, s, m) && ValidateJournal(lib, c, op.id, s).Going?
    ensures Unblocked(ValidateJournal(lib, c, op.id, s).s.files) <==> Unblocked(s.files)
  {
    var k := Count(Succeeding, m);
    AdoptionIsOne(lib, c, op, key, Succeeding, s, m);
    OneAdoption(c, op, key, Succeeding, s, m);
    OnlyStagedGeneration(c, op, key, Succeeding, s.files, m);
    var out := ValidateJournal(lib, c, op.id, s);
    assert out.s == AdoptGeneration(op.id, s, k).s;
    if Pending(Gen(k)) in s.files {
      forall f: InitFile | f != Gen(k) ensures Pending(f) !in s.files && Pending(f) !in out.s.files {
        if Pending(f) in s.files {
          RankIsUnique(Succeeding, f, Gen(k));
        }
      }
      assert !Blocks(s.files, Gen(k));
    }
  }

  lemma EarlyPhases(c: Crypto, op: Operation, key: nat, files: Files, m: nat)
    requires Progress(c, op, key, Succeeding, files, m) && m > 0
    ensures var gens := Generations(files, Count(Succeeding, m));
            && gens != [] && gens[0].operation == op
            && (HasPhase(gens, FinalizeSucceeded) <==> m >= 3)
  {
    var gens := Generations(files, Count(Succeeding, m));
    forall i | 0 <= i < |gens| ensures GenerationFits(c, op, Succeeding, files, i, gens[i]) {
      GenerationIsGood(c, op, key, Succeeding, files, m, i);
    }
    if m >= 3 {
      assert gens[2].phase == FinalizeSucceeded;
    }
  }

  lemma ReadingMoves(lib: Lib, c: Crypto, op: Operation, key: nat, s: Init, m: nat)
    requires LibOk(lib) && Stands(lib, c, op, key, s, m)
    ensures var out := ValidateJournal(lib, c, op.id, s);
            Moves(c, op, key, s, m, out.s, if out.Going? then Settled(Succeeding, s.files, m) else m)
  {
    ValidateShape(lib, c, op, key, Succeeding, s, m);
    assert ValidateJournal(lib, c, op.id, s).Halted? && Settled(Succeeding, s.files, m) == 0 ==> m == 0;
  }

  lemma ReadShape(lib: Lib, c: Crypto, op: Operation, key: nat, s: Init, m: nat, env: Env)
    requires LibOk(lib) && Stands(lib, c, op, key, s, m) && m > 0 && NoStagedGeneration(s.files)
    ensures var out := ReconcileRead(lib, c, key, s, Generations(s.files, Count(Succeeding, m)), env);
            && Reaches(lib, c, op, key, s, m, out.s)
            && (out.Going? ==> Initialized(lib, c, op, key, out.s) && m >= 4 && Clear(s))
            && (s.fuel >= RECONCILE_STEPS - 1 && m >= 4 && Clear(s) && env.keyOpens && Willing(c, key, env.signer) ==>
                out.Going?)
  {
    EarlyPhases(c, op, key, s.files, m);
    if m >= 3 {
      AfterReading(lib, c, op, key, s, m, Generations(s.files, Count(Succeeding, m)), env);
    }
    MovesReach(lib, c, op, key, s, m, s, m);
    var out := ReconcileRead(lib, c, key, s, Generations(s.files, Count(Succeeding, m)), env);
    if out.Going? {
      InitializedIsClear(lib, c, op, key, out.s);
    }
  }

  lemma InitializedIsClear(lib: Lib, c: Crypto, op: Operation, key: nat, s: Init)
    requires Initialized(lib, c, op, key, s)
    ensures Clear(s)
  {
  }

  lemma KeyStays(lib: Lib, c: Crypto, op: Operation, key: nat, s: Init, m: nat, s': Init)
    requires Stands(lib, c, op, key, s, m) && Reaches(lib, c, op, key, s, m, s') && m >= 4
    ensures KeyIsRecorded(s'.files)
  {
    assert Rank(Succeeding, Gen(3)) == 3;
    assert Final(Gen(3)) in s.files;
  }

  lemma ReconcileShape(lib: Lib, c: Crypto, op: Operation, key: nat, s: Init, m: nat, env: Env)
    requires LibOk(lib) && Stands(lib, c, op, key, s, m)
    ensures var out := Reconcile(lib, c, op.id, key, s, env);
            && Reaches(lib, c, op, key, s, m, out.s)
            && (out.Going? ==> Initialized(lib, c, op, key, out.s))
            && (KeyIsRecorded(s.files) ==> KeyIsRecorded(out.s.files))
            && (out.Going? ==> Reconcilable(s))
            && (s.fuel >= RECONCILE_STEPS && Reconcilable(s) && env.keyOpens && Willing(c, key, env.signer) ==>
                out.Going?)
  {
    ValidateShape(lib, c, op, key, Succeeding, s, m);
    ReadingMoves(lib, c, op, key, s, m);
    SettledKey(c, op, key, s.files, m);
    var o1 := ValidateJournal(lib, c, op.id, s);
    var n := if o1.Going? then Settled(Succeeding, s.files, m) else m;
    MovesReach(lib, c, op, key, s, m, o1.s, n);
    if o1.Going? {
      ReadingKeepsTorn(lib, c, op, key, s, m);
      ReadShape(lib, c, op, key, o1.s, n, env);
      var out := Reconcile(lib, c, op.id, key, s, env);
      if n >= 4 {
        KeyStays(lib, c, op, key, o1.s, n, out.s);
      }
      OnwardThen(lib, c, op, key, s, m, o1.s, n, out.s);
    }
  }

  /** Once complete, reconciling again changes nothing at all. */
  lemma ReconcileAgain(lib: Lib, c: Crypto, op: Operation, key: nat, s: Init, env: Env)
    requires LibOk(lib) && Initialized(lib, c, op, key, s) && env.keyOpens
    ensures Reconcile(lib, c, op.id, key, s, env) == Going(s, ())
  {
    ValidateShape(lib, c, op, key, Succeeding, s, ALL);
    OnlyStagedGeneration(c, op, key, Succeeding, s.files, ALL);
    EarlyPhases(c, op, key, s.files, ALL);
    AfterReading(lib, c, op, key, s, ALL, Generations(s.files, 8), env);
  }

  // ---------- whole runs ----------

  /** One reconcile, cut short after `fuel` file operations. */
  datatype Attempt = Attempt(env: Env, fuel: nat, tear: Tear)

  function Ready(s: Init, fuel: nat, tear: Tear): Init {
    s.(fuel := fuel, tear := tear)
  }

  function Reconciles(lib: Lib, c: Crypto, op: Id, key: nat, s: Init, runs: seq<Attempt>): Init
    decreases |runs|
  {
    if runs == [] then s
    else Reconciles(lib, c, op, key, Reconcile(lib, c, op, key, Ready(s, runs[0].fuel, runs[0].tear), runs[0].env).s,
          runs[1..])
  }

  lemma {:induction false} ReconcilesShape(lib: Lib, c: Crypto, op: Operation, key: nat, s: Init, runs: seq<Attempt>)
    requires LibOk(lib) && StandsSomewhere(lib, c, op, key, s)
    ensures var s' := Reconciles(lib, c, op.id, key, s, runs);
            && StandsSomewhere(lib, c, op, key, s') && Kept(s.files, s'.files)
            && (KeyIsRecorded(s.files) ==> KeyIsRecorded(s'.files))
            && (Clear(s) && (forall r <- runs :: r.tear == NoBytes) ==> Clear(s'))
    decreases |runs|
  {
    if runs != [] {
      var m: nat :| Stands(lib, c, op, key, s, m);
      var ready := Ready(s, runs[0].fuel, runs[0].tear);
      assert Stands(lib, c, op, key, ready, m);
      ReconcileShape(lib, c, op, key, ready, m, runs[0].env);
      var s1 := Reconcile(lib, c, op.id, key, ready, runs[0].env).s;
      var n: nat :| Onward(lib, c, op, key, ready, m, s1, n);
      ReconcilesShape(lib, c, op, key, s1, runs[1..]);
    }
  }

  /** Stop the initialization and any number of reconciles wherever you like: one full run
      then succeeds exactly when the key is on record and no staging file is torn, and
      success ends with the archived journal, the journal's own root and authority published,
      one audit record, and nothing left to do. */
  lemma ReconcileConverges(lib: Lib, c: Crypto, op: Operation, key: nat, s: Init, runs: seq<Attempt>, env: Env,
          fuel: nat, tear: Tear)
    requires LibOk(lib) && StandsSomewhere(lib, c, op, key, s) && fuel >= RECONCILE_STEPS
    requires env.keyOpens && Willing(c, key, env.signer)
    ensures var s' := Ready(Reconciles(lib, c, op.id, key, s, runs), fuel, tear);
            var out := Reconcile(lib, c, op.id, key, s', env);
            && (out.Going? <==> Reconcilable(s'))
            && (out.Going? ==>
                Initialized(lib, c, op, key, out.s) && Reconcile(lib, c, op.id, key, out.s, env) == Going(out.s, ()))
            && (KeyIsRecorded(s.files) && Clear(s) && (forall r <- runs :: r.tear == NoBytes) ==> out.Going?)
  {
    ReconcilesShape(lib, c, op, key, s, runs);
    var now := Reconciles(lib, c, op.id, key, s, runs);
    var m: nat :| Stands(lib, c, op, key, now, m);
    var s' := Ready(now, fuel, tear);
    assert Stands(lib, c, op, key, s', m);
    ReconcileShape(lib, c, op, key, s', m, env);
    var out := Reconcile(lib, c, op.id, key, s', env);
    if out.Going? {
      ReconcileAgain(lib, c, op, key, out.s, env);
    }
  }

  /** However often the initialization is stopped and reconciled, all root signatures ever
      made are over one and the same TBS, that of the durable signing intent. */
  lemma OneRootIsSigned(lib: Lib, c: Crypto, op: Operation, key: nat, s: Init, runs: seq<Attempt>)
    requires LibOk(lib) && StandsSomewhere(lib, c, op, key, s)
    ensures var s' := Reconciles(lib, c, op.id, key, s, runs);
            && (forall t <- s'.signed, u <- s'.signed :: t == u)
            && (forall t <- s'.signed :: IntentAt(s'.files).Some? && t == IntentAt(s'.files).value.tbs)
  {
    ReconcilesShape(lib, c, op, key, s, runs);
  }
}
