/** Starting an initialization: from an empty state directory, stopped anywhere. */
module InitFresh {
  import opened Publication
  import opened Records
  import opened Serials
  import opened Initialization
  import opened InitProgress
  import opened InitRoot
  import opened InitResult
  import AuthorityState
  import InitConvergence
  import InitSteps
  import ScanMeaning

  /** A state directory in which nothing has happened yet. */
  predicate Blank(s: Init) {
    s.place == Nowhere && s.files == map[] && s.audits == map[] && s.signed == []
  }

  /** The key's finalization failed, or its failure is being recorded. */
  ghost predicate KeyFailed(c: Crypto, op: Operation, key: nat, s: Init) {
    && s.place == Active && s.audits == map[] && s.signed == []
    && exists phase: Phase, m: nat :: m >= 2 && Progress(c, op, key, Failing(phase), s.files, m)
  }

  lemma NothingYet(c: Crypto, op: Operation, key: nat, files: Files)
    requires files == map[]
    ensures Progress(c, op, key, Succeeding, files, 0) && InitSteps.WriterAt(c, files, Writer(0, None), 0)
  {
  }

  /** What appending one generation promises, as a property of its outcome. */
  ghost predicate Appends(c: Crypto, op: Operation, key: nat, s: Init, m: nat, k: nat, out: Ran<Writer>) {
    && (out.Halted? ==> Moves(c, op, key, s, m, out.s, m))
    && (out.Going? ==> Moves(c, op, key, s, m, out.s, m + 1) && InitSteps.WriterAt(c, out.s.files, out.value, k + 1)
                       && (forall f: InitFile :: Pending(f) !in out.s.files))
    && (s.fuel >= PUBLICATION_STEPS ==> out.Going? && out.s.fuel >= s.fuel - PUBLICATION_STEPS)
  }

  lemma AppendMoves(c: Crypto, op: Operation, key: nat, s: Init, m: nat, w: Writer, k: nat, phase: Phase,
          evidence: Evidence, env: Env)
    requires Progress(c, op, key, Succeeding, s.files, m) && k < 8 && Rank(Succeeding, Gen(k)) == m
    requires InitSteps.WriterAt(c, s.files, w, k) && (forall f: InitFile :: Pending(f) !in s.files)
    requires PhaseAt(Succeeding, k) == Some(phase) && EvidenceFits(c, key, s.files, phase, evidence)
    ensures Appends(c, op, key, s, m, k, Append(c, op, s, w, phase, evidence, env))
  {
    InitSteps.AppendStep(c, op, key, Succeeding, s, m, w, k, phase, evidence, env);
    AppendingIs(c, op, key, s, m, k, Append(c, op, s, w, phase, evidence, env));
  }

  lemma AppendingIs(c: Crypto, op: Operation, key: nat, s: Init, m: nat, k: nat, out: Ran<Writer>)
    requires Progress(c, op, key, Succeeding, s.files, m) && (forall f: InitFile :: Pending(f) !in s.files)
    requires out.s == s.(files := out.s.files, fuel := out.s.fuel) && InitProgress.Kept(s.files, out.s.files)
    requires s.tear == NoBytes && Unblocked(s.files) ==> Unblocked(out.s.files)
    requires out.Halted? ==> Progress(c, op, key, Succeeding, out.s.files, m)
    requires out.Going? ==>
               && Progress(c, op, key, Succeeding, out.s.files, m + 1)
               && InitSteps.WriterAt(c, out.s.files, out.value, k + 1)
               && (forall f: InitFile :: Pending(f) !in out.s.files)
    requires s.fuel >= PUBLICATION_STEPS ==> out.Going? && out.s.fuel >= s.fuel - PUBLICATION_STEPS
    ensures Appends(c, op, key, s, m, k, out)
  {
  }

  lemma SpendMoves(c: Crypto, op: Operation, key: nat, s: Init, m: nat)
    requires Progress(c, op, key, Succeeding, s.files, m)
    ensures Moves(c, op, key, s, m, Spend(s).s, m)
    ensures s.fuel > 0 ==> Spend(s) == Going(s.(fuel := s.fuel - 1), ())
  {
  }

  // ---------- the key ----------

  lemma FirstTwoStep(c: Crypto, op: Operation, key: nat, s: Init, env: Env)
    requires s.files == map[]
    ensures var out := FirstTwo(c, op, s, env);
            && (out.Halted? ==> SomeProgress(c, op, key, s, 0, out.s))
            && (out.Going? ==> Moves(c, op, key, s, 0, out.s, 2) && InitSteps.WriterAt(c, out.s.files, out.value, 2)
                               && (forall f: InitFile :: Pending(f) !in out.s.files))
            && (s.fuel >= 2 * PUBLICATION_STEPS + 1 ==> out.Going? && out.s.fuel >= s.fuel - 2 * PUBLICATION_STEPS - 1)
  {
    NothingYet(c, op, key, s.files);
    AppendMoves(c, op, key, s, 0, Writer(0, None), 0, Phase.Prepared, NoEvidence, env);
    var o1 := Append(c, op, s, Writer(0, None), Phase.Prepared, NoEvidence, env);
    if o1.Going? {
      SpendMoves(c, op, key, o1.s, 1);
      var o2 := Spend(o1.s);
      MovesOn(c, op, key, s, 0, o1.s, 1, o2.s, 1);
      if o2.Going? {
        AppendMoves(c, op, key, o2.s, 1, o1.value, 1, FinalizeStarted, NoEvidence, env);
        var o3 := Append(c, op, o2.s, o1.value, FinalizeStarted, NoEvidence, env);
        MovesOn(c, op, key, s, 0, o2.s, 1, o3.s, if o3.Going? then 2 else 1);
      }
    }
  }

  lemma FailureStep(c: Crypto, op: Operation, key: nat, s: Init, w: Writer, phase: Phase, evidence: Evidence, env: Env)
    requires Progress(c, op, key, Succeeding, s.files, 2) && (forall f: InitFile :: Pending(f) !in s.files)
    requires InitSteps.WriterAt(c, s.files, w, 2) && (phase == FinalizeFailed || phase == FinalizeUnexpected)
    requires s.place == Active && s.audits == map[] && s.signed == [] && evidence.Reopened?
    ensures var out := Append(c, op, s, w, phase, evidence, env);
            && KeyFailed(c, op, key, out.s)
            && (out.Going? ==> Progress(c, op, key, Failing(phase), out.s.files, 3))
  {
    ChangeTrack(c, op, key, s.files, 2, Succeeding, Failing(phase));
    InitSteps.AppendStep(c, op, key, Failing(phase), s, 2, w, 2, phase, evidence, env);
  }

  lemma FinalizeStep(c: Crypto, op: Operation, key: nat, s: Init, w: Writer, env: Env)
    requires Progress(c, op, key, Succeeding, s.files, 2) && (forall f: InitFile :: Pending(f) !in s.files)
    requires InitSteps.WriterAt(c, s.files, w, 2) && s.place == Active && s.audits == map[] && s.signed == []
    ensures var out := FinalizeKey(c, op, key, s, w, env);
            && (out.Halted? ==> SomeProgress(c, op, key, s, 2, out.s) || KeyFailed(c, op, key, out.s))
            && (out.Going? ==> Moves(c, op, key, s, 2, out.s, 4) && InitSteps.WriterAt(c, out.s.files, out.value, 4)
                               && (forall f: InitFile :: Pending(f) !in out.s.files))
            && (out.Going? ==> env.finalize == Succeeds)
            && (env.finalize == Succeeds && s.fuel >= 2 * PUBLICATION_STEPS + 1 ==>
                  out.Going? && out.s.fuel >= s.fuel - 2 * PUBLICATION_STEPS - 1)
  {
    SpendMoves(c, op, key, s, 2);
    var o1 := Spend(s);
    if o1.Going? {
      if env.finalize != Succeeds {
        var phase := if env.finalize == Unexpected then FinalizeUnexpected else FinalizeFailed;
        FailureStep(c, op, key, o1.s, w, phase, Reopened(env.keyOpens), env);
      } else {
        TwoGenerations(c, op, key, o1.s, 2, w, 2, FinalizeSucceeded, NoEvidence, KeyValidated,
            KeyDigest(c.digest(key)), env);
        var o3 := AppendTwo(c, op, o1.s, w, FinalizeSucceeded, NoEvidence, KeyValidated, KeyDigest(c.digest(key)), env);
        if o3.Going? {
          MovesOn(c, op, key, s, 2, o1.s, 2, o3.s, 4);
        } else {
          InitConvergence.SomeMoveOn(c, op, key, s, 2, o1.s, 2, o3.s);
        }
      }
    }
  }

  /** Two generations in a row. */
  function AppendTwo(c: Crypto, op: Operation, s: Init, w: Writer, p: Phase, first: Evidence, q: Phase,
          second: Evidence, env: Env): Ran<Writer>
  {
    var (s1, w1) :- Append(c, op, s, w, p, first, env);
    Append(c, op, s1, w1, q, second, env)
  }

  lemma AppendsTwice(c: Crypto, op: Operation, key: nat, s: Init, m: nat, k: nat, first: Ran<Writer>,
          second: Ran<Writer>)
    requires Appends(c, op, key, s, m, k, first)
    requires if first.Going? then Appends(c, op, key, first.s, m + 1, k + 1, second) else second == first
    ensures second.Halted? ==> SomeProgress(c, op, key, s, m, second.s)
    ensures second.Going? ==>
          Moves(c, op, key, s, m, second.s, m + 2) && InitSteps.WriterAt(c, second.s.files, second.value, k + 2)
                              && (forall f: InitFile :: Pending(f) !in second.s.files)
    ensures s.fuel >= 2 * PUBLICATION_STEPS ==> second.Going? && second.s.fuel >= s.fuel - 2 * PUBLICATION_STEPS
  {
    if first.Going? {
      MovesOn(c, op, key, s, m, first.s, m + 1, second.s, if second.Going? then m + 2 else m + 1);
    }
  }

  lemma TwoGenerations(c: Crypto, op: Operation, key: nat, s: Init, m: nat, w: Writer, k: nat, p: Phase,
          first: Evidence, q: Phase, second: Evidence, env: Env)
    requires Progress(c, op, key, Succeeding, s.files, m) && k < 7 && Rank(Succeeding, Gen(k)) == m
    requires Rank(Succeeding, Gen(k + 1)) == m + 1
    requires (forall f: InitFile :: Pending(f) !in s.files) && InitSteps.WriterAt(c, s.files, w, k)
    requires PhaseAt(Succeeding, k) == Some(p) && EvidenceFits(c, key, s.files, p, first)
    requires PhaseAt(Succeeding, k + 1) == Some(q) && EvidenceFits(c, key, s.files, q, second)
    ensures var out := AppendTwo(c, op, s, w, p, first, q, second, env);
            && (out.Halted? ==> SomeProgress(c, op, key, s, m, out.s))
            && (out.Going? ==>
                Moves(c, op, key, s, m, out.s, m + 2) && InitSteps.WriterAt(c, out.s.files, out.value, k + 2)
                               && (forall f: InitFile :: Pending(f) !in out.s.files))
            && (s.fuel >= 2 * PUBLICATION_STEPS ==> out.Going? && out.s.fuel >= s.fuel - 2 * PUBLICATION_STEPS)
  {
    AppendMoves(c, op, key, s, m, w, k, p, first, env);
    var o1 := Append(c, op, s, w, p, first, env);
    if o1.Going? {
      EvidenceOn(c, key, s.files, o1.s.files, q, second);
      AppendMoves(c, op, key, o1.s, m + 1, o1.value, k + 1, q, second, env);
    }
    AppendsTwice(c, op, key, s, m, k, o1, AppendTwo(c, op, s, w, p, first, q, second, env));
  }

  lemma EvidenceOn(c: Crypto, key: nat, a: Files, b: Files, phase: Phase, evidence: Evidence)
    requires InitProgress.Kept(a, b) && EvidenceFits(c, key, a, phase, evidence)
    ensures EvidenceFits(c, key, b, phase, evidence)
  {
  }

  // ---------- the root ----------

  lemma FreshIntentStep(c: Crypto, op: Operation, key: nat, s: Init, w: Writer, i: RootIntent, env: Env)
    requires Progress(c, op, key, Succeeding, s.files, 4) && (forall f: InitFile :: Pending(f) !in s.files)
    requires InitSteps.WriterAt(c, s.files, w, 4) && IntentHolds(c, op, key, i)
    ensures var out := FreshIntent(c, op, s, w, i, env);
            && (out.Halted? ==> SomeProgress(c, op, key, s, 4, out.s))
            && (out.Going? ==> Moves(c, op, key, s, 4, out.s, 6) && InitSteps.WriterAt(c, out.s.files, out.value, 5)
                               && IntentAt(out.s.files) == Some(i)
                               && (forall f: InitFile :: Pending(f) !in out.s.files))
            && (s.fuel >= 2 * PUBLICATION_STEPS ==> out.Going? && out.s.fuel >= s.fuel - 2 * PUBLICATION_STEPS)
  {
    PublishSigning(c, op, key, s, i);
    var o1 := Durable(s, SigningFile, SigningDoc(i));
    if o1.Going? {
      InitConvergence.WriterStays(c, s.files, o1.s.files, w, 4);
      AppendMoves(c, op, key, o1.s, 5, w, 4, RootSigningPrepared, NoEvidence, env);
      var o2 := Append(c, op, o1.s, w, RootSigningPrepared, NoEvidence, env);
      MovesOn(c, op, key, s, 4, o1.s, 5, o2.s, if o2.Going? then 6 else 5);
    }
  }

  /** The TBS of the root that a first run makes. */
  function FreshTbs(c: Crypto, op: Operation, key: nat, env: Env): nat {
    c.tbs(key, PositiveSerial(env.random), env.time, op.rootDays)
  }

  /** The key can be finalized and signs the root. */
  predicate KeyObliges(c: Crypto, op: Operation, key: nat, env: Env) {
    env.finalize == Succeeds && SignsFor(c, key, env.signer, FreshTbs(c, op, key, env))
  }

  lemma FreshRootStep(c: Crypto, op: Operation, key: nat, s: Init, w: Writer, env: Env)
    requires Progress(c, op, key, Succeeding, s.files, 4) && (forall f: InitFile :: Pending(f) !in s.files)
    requires InitSteps.WriterAt(c, s.files, w, 4)
    ensures var out := FreshRoot(c, op, key, s, w, env);
            && (out.Halted? ==> SomeProgress(c, op, key, s, 4, out.s))
            && (out.Going? ==> Moves(c, op, key, s, 4, out.s, 8) && InitSteps.WriterAt(c, out.s.files, out.value.0, 5)
                               && WholeBundle(out.s.files, out.value.1)
                               && (forall f: InitFile :: Pending(f) !in out.s.files))
            && (out.Going? ==> SignsFor(c, key, env.signer, FreshTbs(c, op, key, env)))
            && (SignsFor(c, key, env.signer, FreshTbs(c, op, key, env)) && s.fuel >= 4 * PUBLICATION_STEPS + 1 ==>
                  out.Going? && out.s.fuel >= s.fuel - 4 * PUBLICATION_STEPS - 1)
  {
    var i := CreateRootIntent(c, op, key, env);
    CreatedIntentHolds(c, op, key, env);
    FreshIntentStep(c, op, key, s, w, i, env);
    var o1 := FreshIntent(c, op, s, w, i, env);
    if o1.Going? {
      RootThenBundle(c, op, key, o1.s, o1.value, i, env);
      var out := RootBundle(c, op, key, o1.s, o1.value, i, env);
      if out.Going? {
        MovesOn(c, op, key, s, 4, o1.s, 6, out.s, 8);
      } else {
        InitConvergence.SomeMoveOn(c, op, key, s, 4, o1.s, 6, out.s);
      }
    }
  }

  lemma RootThenBundle(c: Crypto, op: Operation, key: nat, s: Init, w: Writer, i: RootIntent, env: Env)
    requires Progress(c, op, key, Succeeding, s.files, 6) && (forall f: InitFile :: Pending(f) !in s.files)
    requires InitSteps.WriterAt(c, s.files, w, 5) && IntentAt(s.files) == Some(i)
    ensures var out := RootBundle(c, op, key, s, w, i, env);
            && (out.Halted? ==> SomeProgress(c, op, key, s, 6, out.s))
            && (out.Going? ==> Moves(c, op, key, s, 6, out.s, 8) && InitSteps.WriterAt(c, out.s.files, out.value.0, 5)
                               && WholeBundle(out.s.files, out.value.1)
                               && (forall f: InitFile :: Pending(f) !in out.s.files))
            && (out.Going? ==> SignsFor(c, key, env.signer, i.tbs))
            && (SignsFor(c, key, env.signer, i.tbs) && s.fuel >= 2 * PUBLICATION_STEPS + 1 ==>
                  out.Going? && out.s.fuel >= s.fuel - 2 * PUBLICATION_STEPS - 1)
  {
    RootStep(c, op, key, s, 6, i, env);
    var o1 := EnsureJournalRoot(c, s, i, key, env);
    if o1.Going? {
      SignedFilesHold(c, op, key, o1.s.files, 7);
      assert IntentAt(o1.s.files) == Some(i);
      var b := CreatePublication(c, i, o1.value);
      PublishBundle(c, op, key, o1.s, b);
      var o2 := Durable(o1.s, PublicationFile, PublicationDoc(b));
      MovesOn(c, op, key, s, 6, o1.s, 7, o2.s, if o2.Going? then 8 else 7);
      InitConvergence.WriterStays(c, s.files, o2.s.files, w, 5);
    }
  }

  // ---------- publishing ----------

  lemma FreshAuthorityStep(c: Crypto, op: Operation, key: nat, s: Init, w: Writer, b: Bundle, env: Env)
    requires Progress(c, op, key, Succeeding, s.files, 8) && (forall f: InitFile :: Pending(f) !in s.files)
    requires InitSteps.WriterAt(c, s.files, w, 5) && WholeBundle(s.files, b)
    ensures var out := FreshAuthority(c, op, key, s, w, b, env);
            && (out.Halted? ==> SomeProgress(c, op, key, s, 8, out.s))
            && (out.Going? ==> Moves(c, op, key, s, 8, out.s, 11) && InitSteps.WriterAt(c, out.s.files, out.value, 6)
                               && (forall f: InitFile :: Pending(f) !in out.s.files))
            && (s.fuel >= 3 * PUBLICATION_STEPS ==> out.Going? && out.s.fuel >= s.fuel - 3 * PUBLICATION_STEPS)
  {
    var evidence := PublicationDigest(c.sha(Whole(PublicationDoc(b))));
    AppendMoves(c, op, key, s, 8, w, 5, RootValidated, evidence, env);
    var o1 := Append(c, op, s, w, RootValidated, evidence, env);
    if o1.Going? {
      AuthorityStep(c, op, key, o1.s, 9, b);
      var o2 := PublishAuthority(c, o1.s, key, b);
      if o2.Going? {
        MovesOn(c, op, key, s, 8, o1.s, 9, o2.s, 11);
        InitConvergence.WriterStays(c, o1.s.files, o2.s.files, o1.value, 6);
      } else {
        InitConvergence.SomeMoveOn(c, op, key, s, 8, o1.s, 9, o2.s);
      }
    }
  }

  lemma FreshLastStep(c: Crypto, op: Operation, key: nat, s: Init, w: Writer, env: Env)
    requires Progress(c, op, key, Succeeding, s.files, 11) && (forall f: InitFile :: Pending(f) !in s.files)
    requires InitSteps.WriterAt(c, s.files, w, 6)
    ensures var out := FreshLast(c, op, s, w, env);
            && (out.Halted? ==> SomeProgress(c, op, key, s, 11, out.s))
            && (out.Going? ==> Moves(c, op, key, s, 11, out.s, ALL))
            && (s.fuel >= 2 * PUBLICATION_STEPS ==> out.Going? && out.s.fuel >= s.fuel - 2 * PUBLICATION_STEPS)
  {
    TwoGenerations(c, op, key, s, 11, w, 6, AuthorityPublished, NoEvidence, Completed, NoEvidence, env);
    assert FreshLast(c, op, s, w, env)
          == AppendTwo(c, op, s, w, AuthorityPublished, NoEvidence, Completed, NoEvidence, env);
  }

  /** The last two generations, the audit record and the archive. */
  function FreshEnd(lib: Lib, c: Crypto, op: Operation, s: Init, w: Writer, b: Bundle, env: Env): Ran<()> {
    var (s1, _) :- FreshLast(c, op, s, w, env);
    CloseInit(lib, s1, b.authority)
  }

  lemma FreshEndStep(lib: Lib, c: Crypto, op: Operation, key: nat, s: Init, w: Writer, b: Bundle, env: Env)
    requires LibOk(lib) && Stands(lib, c, op, key, s, 11) && (forall f: InitFile :: Pending(f) !in s.files)
    requires InitSteps.WriterAt(c, s.files, w, 6) && BundleAt(s.files) == Some(b)
    ensures var out := FreshEnd(lib, c, op, s, w, b, env);
            && Reaches(lib, c, op, key, s, 11, out.s)
            && (out.Going? ==> Initialized(lib, c, op, key, out.s))
            && (s.fuel >= 3 * PUBLICATION_STEPS + 1 ==> out.Going?)
  {
    FreshLastStep(c, op, key, s, w, env);
    var o1 := FreshLast(c, op, s, w, env);
    if o1.Halted? {
      SomewhereOn(lib, c, op, key, s, 11, o1.s);
    } else {
      CloseAfter(lib, c, op, key, s, 11, o1.s, b);
    }
  }

  lemma FreshPublishStep(lib: Lib, c: Crypto, op: Operation, key: nat, s: Init, w: Writer, b: Bundle, env: Env)
    requires LibOk(lib) && Stands(lib, c, op, key, s, 8) && (forall f: InitFile :: Pending(f) !in s.files)
    requires InitSteps.WriterAt(c, s.files, w, 5) && WholeBundle(s.files, b)
    ensures var out := FreshPublish(lib, c, op, key, s, w, b, env);
            && Reaches(lib, c, op, key, s, 8, out.s)
            && (out.Going? ==> Initialized(lib, c, op, key, out.s))
            && (s.fuel >= 6 * PUBLICATION_STEPS + 1 ==> out.Going?)
  {
    FreshAuthorityStep(c, op, key, s, w, b, env);
    var o1 := FreshAuthority(c, op, key, s, w, b, env);
    if o1.Halted? {
      SomewhereOn(lib, c, op, key, s, 8, o1.s);
    } else {
      MovesReach(lib, c, op, key, s, 8, o1.s, 11);
      FreshEndStep(lib, c, op, key, o1.s, o1.value, b, env);
      OnwardThen(lib, c, op, key, s, 8, o1.s, 11, FreshEnd(lib, c, op, o1.s, o1.value, b, env).s);
    }
  }

  lemma OpenedStands(lib: Lib, c: Crypto, op: Operation, key: nat, s: Init)
    requires s.place == Active && s.files == map[] && s.audits == map[] && s.signed == []
    ensures Stands(lib, c, op, key, s, 0)
  {
    NothingYet(c, op, key, s.files);
  }

  lemma FromKeyStep(lib: Lib, c: Crypto, op: Operation, key: nat, s: Init, w: Writer, env: Env)
    requires LibOk(lib) && Stands(lib, c, op, key, s, 4) && (forall f: InitFile :: Pending(f) !in s.files)
    requires InitSteps.WriterAt(c, s.files, w, 4)
    ensures var out := FromKey(lib, c, op, key, s, w, env);
            && Reaches(lib, c, op, key, s, 4, out.s)
            && (out.Going? ==> Initialized(lib, c, op, key, out.s))
            && (out.Going? ==> SignsFor(c, key, env.signer, FreshTbs(c, op, key, env)))
            && (SignsFor(c, key, env.signer, FreshTbs(c, op, key, env)) && s.fuel >= 10 * PUBLICATION_STEPS + 2 ==>
                out.Going?)
  {
    FreshRootStep(c, op, key, s, w, env);
    var o1 := FreshRoot(c, op, key, s, w, env);
    if o1.Halted? {
      SomewhereOn(lib, c, op, key, s, 4, o1.s);
    } else {
      MovesReach(lib, c, op, key, s, 4, o1.s, 8);
      FreshPublishStep(lib, c, op, key, o1.s, o1.value.0, o1.value.1, env);
      OnwardThen(lib, c, op, key, s, 4, o1.s, 8, FromKey(lib, c, op, key, s, w, env).s);
    }
  }

  lemma UnsignedBefore(lib: Lib, c: Crypto, op: Operation, key: nat, s: Init, m: nat)
    requires Stands(lib, c, op, key, s, m) && m <= 4
    ensures s.signed == []
  {
    assert Rank(Succeeding, SigningFile) == 4;
    if s.signed != [] {
      ScanMeaning.HasElement(s.signed);
    }
  }

  lemma KeyThenRestStep(lib: Lib, c: Crypto, op: Operation, key: nat, s: Init, w: Writer, env: Env)
    requires LibOk(lib) && Stands(lib, c, op, key, s, 2) && (forall f: InitFile :: Pending(f) !in s.files)
    requires InitSteps.WriterAt(c, s.files, w, 2)
    ensures var out := KeyThenRest(lib, c, op, key, s, w, env);
            && (Reaches(lib, c, op, key, s, 2, out.s) || KeyFailed(c, op, key, out.s))
            && (out.Going? ==> Initialized(lib, c, op, key, out.s))
            && (out.Going? ==> KeyObliges(c, op, key, env))
            && (KeyObliges(c, op, key, env) && s.fuel >= 12 * PUBLICATION_STEPS + 3 ==>
                out.Going?)
  {
    UnsignedBefore(lib, c, op, key, s, 2);
    FinalizeStep(c, op, key, s, w, env);
    var o1 := FinalizeKey(c, op, key, s, w, env);
    if o1.Going? {
      MovesReach(lib, c, op, key, s, 2, o1.s, 4);
      FromKeyStep(lib, c, op, key, o1.s, o1.value, env);
      OnwardThen(lib, c, op, key, s, 2, o1.s, 4, KeyThenRest(lib, c, op, key, s, w, env).s);
    } else if SomeProgress(c, op, key, s, 2, o1.s) {
      SomewhereOn(lib, c, op, key, s, 2, o1.s);
    }
  }

  lemma FromOpenedStep(lib: Lib, c: Crypto, op: Operation, key: nat, s: Init, env: Env)
    requires LibOk(lib) && s.place == Active && s.files == map[] && s.audits == map[] && s.signed == []
    ensures var out := FromOpened(lib, c, op, key, s, env);
            && (Reaches(lib, c, op, key, s, 0, out.s) || KeyFailed(c, op, key, out.s))
            && (out.Going? ==> Initialized(lib, c, op, key, out.s))
            && (out.Going? ==> KeyObliges(c, op, key, env))
            && (KeyObliges(c, op, key, env) && s.fuel >= RECONCILE_STEPS - 1 ==> out.Going?)
  {
    OpenedStands(lib, c, op, key, s);
    FirstTwoStep(c, op, key, s, env);
    var o1 := FirstTwo(c, op, s, env);
    if o1.Halted? {
      SomewhereOn(lib, c, op, key, s, 0, o1.s);
    } else {
      MovesReach(lib, c, op, key, s, 0, o1.s, 2);
      KeyThenRestStep(lib, c, op, key, o1.s, o1.value, env);
      var out := FromOpened(lib, c, op, key, s, env);
      if Reaches(lib, c, op, key, o1.s, 2, out.s) {
        OnwardThen(lib, c, op, key, s, 0, o1.s, 2, out.s);
      }
    }
  }

  lemma FreshOpens(lib: Lib, c: Crypto, op: Operation, key: nat, s: Init, env: Env)
    ensures var out := FreshInit(lib, c, op, key, s, env);
            if CheckFresh(s, env).None? && s.fuel > 0 then out == FromOpened(lib, c, op, key, Opened(s), env)
            else out.Halted? && out.s == s
  {
  }

  /** Starting from an empty state directory and stopped anywhere, an initialization has left
      the directory empty, failed to finalize its key, or stands where reconciling can take
      over. Uninterrupted, it completes exactly when the directory holds nothing, no key of
      that name exists, and the key can be finalized and signs the root. */
  lemma FreshStops(lib: Lib, c: Crypto, op: Operation, key: nat, s: Init, env: Env)
    requires LibOk(lib) && Blank(s)
    ensures var out := FreshInit(lib, c, op, key, s, env);
            && (|| out.s == s
                || (StandsSomewhere(lib, c, op, key, out.s) && (s.tear == NoBytes ==> Clear(out.s)))
                || KeyFailed(c, op, key, out.s))
            && (out.Going? ==> Initialized(lib, c, op, key, out.s))
            && (out.Going? || out.s != s ==> env.namespacesEmpty && env.keyIsAbsent)
            && (out.Going? ==> KeyObliges(c, op, key, env))
            && (s.fuel >= RECONCILE_STEPS ==>
                  (out.Going? <==> env.namespacesEmpty && env.keyIsAbsent && KeyObliges(c, op, key, env)))
  {
    assert AuthorityState.Finals(s.audits) == {};
    FreshOpens(lib, c, op, key, s, env);
    if CheckFresh(s, env).None? && s.fuel > 0 {
      FromOpenedStep(lib, c, op, key, Opened(s), env);
    }
  }

  lemma FailedHasNoKey(c: Crypto, op: Operation, key: nat, s: Init)
    requires KeyFailed(c, op, key, s)
    ensures !KeyIsRecorded(s.files)
  {
    var phase: Phase, m: nat :| m >= 2 && Progress(c, op, key, Failing(phase), s.files, m);
    assert Rank(Failing(phase), Gen(3)) == 3;
  }

  /** The whole story: start in an empty state directory and stop anywhere, then reconcile any
      number of times, stopping anywhere. If the validated key had been recorded, one full run
      succeeds exactly when no staging file is torn, ends with everything published, archived
      and audited once, leaves nothing to do, and never signed two different roots; and nothing
      is torn when cut-short writes leave empty or complete files. */
  lemma InitializationConverges(lib: Lib, c: Crypto, op: Operation, key: nat, blank: Init, first: Attempt,
          runs: seq<Attempt>, last: Attempt)
    requires LibOk(lib) && Blank(blank)
    requires last.fuel >= RECONCILE_STEPS && last.env.keyOpens && Willing(c, key, last.env.signer)
    requires KeyIsRecorded(FreshInit(lib, c, op, key, Ready(blank, first.fuel, first.tear), first.env).s.files)
    ensures var begun := FreshInit(lib, c, op, key, Ready(blank, first.fuel, first.tear), first.env).s;
            var stopped := Ready(Reconciles(lib, c, op.id, key, begun, runs), last.fuel, last.tear);
            var out := Reconcile(lib, c, op.id, key, stopped, last.env);
            && (out.Going? <==> Clear(stopped))
            && (out.Going? ==>
                Initialized(lib, c, op, key, out.s) && Reconcile(lib, c, op.id, key, out.s, last.env)
                    == Going(out.s, ()))
            && (forall t <- stopped.signed, u <- stopped.signed :: t == u)
            && (first.tear == NoBytes && (forall r <- runs :: r.tear == NoBytes) ==> out.Going?)
  {
    var ready := Ready(blank, first.fuel, first.tear);
    var begun := FreshInit(lib, c, op, key, ready, first.env).s;
    FreshStops(lib, c, op, key, ready, first.env);
    if KeyFailed(c, op, key, begun) {
      FailedHasNoKey(c, op, key, begun);
    }
    assert StandsSomewhere(lib, c, op, key, begun);
    ReconcilesShape(lib, c, op, key, begun, runs);
    ReconcileConverges(lib, c, op, key, begun, runs, last.env, last.fuel, last.tear);
    OneRootIsSigned(lib, c, op, key, begun, runs);
  }
}
