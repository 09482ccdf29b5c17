/** Reconciling an initialization: stop it as often as you like, one full run finishes it. */
module InitConvergence {
  import opened Publication
  import opened Records
  import opened Initialization
  import opened InitProgress
  import opened InitSteps
  import opened InitRoot

  // ---------- appending the generation that is due ----------

  /** The journal as a run sees it: what it has read and where its writer stands. */
  ghost predicate Reading(c: Crypto, files: Files, m: nat, w: Writer, gens: seq<Generation>) {
    && NoStagedGeneration(files)
    && gens == Generations(files, Count(Succeeding, m))
    && WriterAt(c, files, w, Count(Succeeding, m))
  }

  lemma LastPhase(c: Crypto, op: Operation, key: nat, files: Files, m: nat)
    requires Progress(c, op, key, Succeeding, files, m) && m > 0
    ensures var gens := Generations(files, Count(Succeeding, m));
            gens != [] && PhaseAt(Succeeding, Count(Succeeding, m) - 1) == Some(gens[|gens| - 1].phase)
  {
    GenerationIsGood(c, op, key, Succeeding, files, m, Count(Succeeding, m) - 1);
  }

  lemma SameGenerations(c: Crypto, op: Operation, key: nat, a: Files, b: Files, m: nat)
    requires Progress(c, op, key, Succeeding, a, m) && Kept(a, b)
    ensures Generations(b, Count(Succeeding, m)) == Generations(a, Count(Succeeding, m))
  {
    var n := Count(Succeeding, m);
    forall k: nat | k < n ensures GenerationAt(a, k) == GenerationAt(b, k) {
      CountsGenerations(Succeeding, m, k);
    }
  }

  lemma PhasesDiffer(i: nat, j: nat)
    requires i < 8 && j < 8 && PhaseAt(Succeeding, i) == PhaseAt(Succeeding, j)
    ensures i == j
  {
  }

  lemma WriterStays(c: Crypto, a: Files, b: Files, w: Writer, k: nat)
    requires Kept(a, b) && WriterAt(c, a, w, k)
    ensures WriterAt(c, b, w, k)
  {
  }

  lemma CountStep(k: nat)
    requires 4 <= k < 8
    ensures var m := Rank(Succeeding, Gen(k));
            m < ALL && Count(Succeeding, m) == k && Count(Succeeding, m + 1) == k + 1
  {
  }

  lemma ReadBack(lib: Lib, c: Crypto, op: Operation, key: nat, s: Init, m: nat)
    requires LibOk(lib) && Progress(c, op, key, Succeeding, s.files, m) && m > 0 && InPlace(s)
    requires NoStagedGeneration(s.files)
    ensures ValidateJournal(lib, c, op.id, s) == Going(s, Generations(s.files, Count(Succeeding, m)))
  {
    ValidateShape(lib, c, op, key, Succeeding, s, m);
  }

  lemma DueStep(lib: Lib, c: Crypto, op: Operation, key: nat, s: Init, m: nat, w: Writer, k: nat, phase: Phase,
          evidence: Evidence, env: Env)
    requires LibOk(lib) && Progress(c, op, key, Succeeding, s.files, m) && InPlace(s)
    requires 4 <= k < 8 && m == Rank(Succeeding, Gen(k)) && WriterAt(c, s.files, w, k) && NoStagedGeneration(s.files)
    requires PhaseAt(Succeeding, k) == Some(phase) && EvidenceFits(c, key, s.files, phase, evidence)
    ensures var out := AppendThenRead(lib, c, op, s, w, phase, evidence, env);
            && (out.Going? ==> && Moves(c, op, key, s, m, out.s, m + 1)
                               && Reading(c, out.s.files, m + 1, out.value.0, out.value.1)
                               && (forall f: InitFile :: Pending(f) !in out.s.files))
            && (out.Halted? ==> Moves(c, op, key, s, m, out.s, m))
            && (s.fuel >= PUBLICATION_STEPS ==> out.Going? && out.s.fuel >= s.fuel - PUBLICATION_STEPS)
  {
    CountStep(k);
    var o1 := Append(c, op, s, w, phase, evidence, env);
    AppendStep(c, op, key, Succeeding, s, m, w, k, phase, evidence, env);
    if o1.Going? {
      ReadBack(lib, c, op, key, o1.s, m + 1);
    }
  }

  /** Once the generation k is final, the journal no longer stands just before it. */
  lemma NotDue(c: Crypto, op: Operation, key: nat, files: Files, m: nat, gens: seq<Generation>, k: nat, before: Phase)
    requires Progress(c, op, key, Succeeding, files, m) && gens == Generations(files, Count(Succeeding, m))
    requires 4 <= k < 8 && Rank(Succeeding, Gen(k)) < m && PhaseAt(Succeeding, k - 1) == Some(before)
    ensures gens != [] && gens[|gens| - 1].phase != before
  {
    LastPhase(c, op, key, files, m);
    CountsGenerations(Succeeding, m, k);
    if gens[|gens| - 1].phase == before {
      PhasesDiffer(Count(Succeeding, m) - 1, k - 1);
    }
  }

  /** The generation k falls due when everything before it is published. */
  lemma AdvanceStep(lib: Lib, c: Crypto, op: Operation, key: nat, s: Init, m: nat, w: Writer, gens: seq<Generation>,
                    k: nat, before: Phase, phase: Phase, evidence: Evidence, env: Env)
    requires LibOk(lib) && Progress(c, op, key, Succeeding, s.files, m) && InPlace(s) && Reading(c, s.files, m, w, gens)
    requires 4 <= k < 8 && Rank(Succeeding, Gen(k)) <= m
    requires PhaseAt(Succeeding, k - 1) == Some(before) && PhaseAt(Succeeding, k) == Some(phase)
    requires EvidenceFits(c, key, s.files, phase, evidence)
    ensures var out := Advance(lib, c, op, s, w, gens, before, phase, evidence, env);
            var due := m == Rank(Succeeding, Gen(k));
            && (out.Going? ==> && Moves(c, op, key, s, m, out.s, if due then m + 1 else m)
                               && Reading(c, out.s.files, if due then m + 1 else m, out.value.0, out.value.1)
                               && (due ==> forall f: InitFile :: Pending(f) !in out.s.files))
            && (out.Halted? ==> Moves(c, op, key, s, m, out.s, m))
            && (due && s.fuel >= PUBLICATION_STEPS ==> out.Going? && out.s.fuel >= s.fuel - PUBLICATION_STEPS)
            && (!due ==> out == Going(s, (w, gens)))
  {
    LastPhase(c, op, key, s.files, m);
    CountStep(k);
    if m == Rank(Succeeding, Gen(k)) {
      DueStep(lib, c, op, key, s, m, w, k, phase, evidence, env);
    } else {
      NotDue(c, op, key, s.files, m, gens, k, before);
    }
  }

  // ---------- reconcile, in two halves ----------

  lemma ReadingOn(c: Crypto, op: Operation, key: nat, a: Init, m: nat, b: Init, n: nat, w: Writer,
          gens: seq<Generation>)
    requires Moves(c, op, key, a, m, b, n) && Reading(c, a.files, m, w, gens)
    requires Count(Succeeding, n) == Count(Succeeding, m) && NoStagedGeneration(b.files)
    ensures Reading(c, b.files, n, w, gens)
  {
    SameGenerations(c, op, key, a.files, b.files, m);
    WriterStays(c, a.files, b.files, w, Count(Succeeding, m));
  }

  // ---------- from the signing intent to the publication record ----------

  /** Recording the intent, once it is final. */
  lemma PreparedStep(lib: Lib, c: Crypto, op: Operation, key: nat, s: Init, m: nat, s1: Init, w: Writer,
          gens: seq<Generation>, env: Env)
    requires LibOk(lib) && m >= 4 && InPlace(s) && NoStagedGeneration(s1.files)
    requires Moves(c, op, key, s, m, s1, if m < 5 then 5 else m) && Reading(c, s.files, m, w, gens)
    ensures var o2 := Advance(lib, c, op, s1, w, gens, KeyValidated, RootSigningPrepared, NoEvidence, env);
            && (o2.Halted? ==> SomeProgress(c, op, key, s, m, o2.s))
            && (o2.Going? ==> && Moves(c, op, key, s, m, o2.s, if m < 6 then 6 else m)
                              && Reading(c, o2.s.files, if m < 6 then 6 else m, o2.value.0, o2.value.1)
                              && (m < 6 ==> forall f: InitFile :: Pending(f) !in o2.s.files))
            && (m < 6 && s1.fuel >= PUBLICATION_STEPS ==> o2.Going? && o2.s.fuel >= s1.fuel - PUBLICATION_STEPS)
            && (m >= 6 ==> o2 == Going(s1, (w, gens)))
            && Kept(s1.files, o2.s.files)
  {
    var n := if m < 5 then 5 else m;
    ReadingOn(c, op, key, s, m, s1, n, w, gens);
    AdvanceStep(lib, c, op, key, s1, n, w, gens, 4, KeyValidated, RootSigningPrepared, NoEvidence, env);
    var o2 := Advance(lib, c, op, s1, w, gens, KeyValidated, RootSigningPrepared, NoEvidence, env);
    MovesOn(c, op, key, s, m, s1, n, o2.s, if n == 5 && o2.Going? then 6 else n);
  }

  lemma MadeIntentStep(lib: Lib, c: Crypto, op: Operation, key: nat, s: Init, m: nat, w: Writer,
          gens: seq<Generation>, env: Env)
    requires Progress(c, op, key, Succeeding, s.files, m) && m >= 3 && Reading(c, s.files, m, w, gens)
    ensures gens != []
    ensures var out := ReconcileIntent(c, op, key, s, gens[|gens| - 1].phase, env);
            && (out.Halted? ==> SomeProgress(c, op, key, s, m, out.s))
            && (out.Going? ==> && m >= 4 && Moves(c, op, key, s, m, out.s, if m < 5 then 5 else m)
                               && IntentAt(out.s.files) == Some(out.value) && NoStagedGeneration(out.s.files))
            && (m >= 5 ==> out.Going? && out.s == s)
            && (m == 4 && s.fuel >= PUBLICATION_STEPS ==>
                  out.s.fuel >= s.fuel - PUBLICATION_STEPS && (out.Going? <==> !Blocks(s.files, SigningFile)))
  {
    LastPhase(c, op, key, s.files, m);
    IntentStep(c, op, key, s, m, gens[|gens| - 1].phase, env);
  }

  lemma SameIntent(a: Files, b: Files)
    requires Kept(a, b) && IntentAt(a).Some?
    ensures IntentAt(b) == IntentAt(a)
  {
  }

  lemma IntentPartStep(lib: Lib, c: Crypto, op: Operation, key: nat, s: Init, m: nat, w: Writer, gens: seq<Generation>,
          env: Env)
    requires LibOk(lib) && Progress(c, op, key, Succeeding, s.files, m) && m >= 3 && InPlace(s)
    requires Reading(c, s.files, m, w, gens)
    ensures gens != []
    ensures var out := IntentPart(lib, c, op, key, s, w, gens, env);
            && (out.Halted? ==> SomeProgress(c, op, key, s, m, out.s))
            && (out.Going? ==> && m >= 4 && Moves(c, op, key, s, m, out.s, if m < 6 then 6 else m)
                               && Reading(c, out.s.files, if m < 6 then 6 else m, out.value.1, out.value.2)
                               && IntentAt(out.s.files) == Some(out.value.0)
                               && (m < 6 ==> forall f: InitFile :: Pending(f) !in out.s.files))
            && (m >= 6 ==> out.Going? && out.s == s)
            && (4 <= m < 6 && s.fuel >= 2 * PUBLICATION_STEPS ==>
                  out.s.fuel >= s.fuel - 2 * PUBLICATION_STEPS && (out.Going? <==> !Blocks(s.files, SigningFile)))
  {
    MadeIntentStep(lib, c, op, key, s, m, w, gens, env);
    SigningIsNotStaged(c, op, key, s.files, m);
    var o1 := ReconcileIntent(c, op, key, s, gens[|gens| - 1].phase, env);
    if o1.Going? {
      PreparedStep(lib, c, op, key, s, m, o1.s, w, gens, env);
      var o2 := Advance(lib, c, op, o1.s, w, gens, KeyValidated, RootSigningPrepared, NoEvidence, env);
      SameIntent(o1.s.files, o2.s.files);
    }
  }

  lemma SigningIsNotStaged(c: Crypto, op: Operation, key: nat, files: Files, m: nat)
    requires Progress(c, op, key, Succeeding, files, m)
    ensures m != 4 ==> Pending(SigningFile) !in files
    ensures m != 6 ==> Pending(RootFile) !in files
    ensures m != 7 ==> Pending(PublicationFile) !in files
  {
    assert Rank(Succeeding, SigningFile) == 4 && Rank(Succeeding, RootFile) == 6 && Rank(Succeeding, PublicationFile)
          == 7;
  }

  lemma RootPartStep(c: Crypto, op: Operation, key: nat, s: Init, m: nat, i: RootIntent, env: Env)
    requires Progress(c, op, key, Succeeding, s.files, m) && m >= 6 && IntentAt(s.files) == Some(i)
    requires NoStagedGeneration(s.files)
    ensures var out := RootPart(c, op, key, s, i, env);
            && (out.Halted? ==> SomeProgress(c, op, key, s, m, out.s))
            && (out.Going? ==>
                && Moves(c, op, key, s, m, out.s, if m < 8 then 8 else m) && BundleAt(out.s.files) == Some(out.value)
                               && NoStagedGeneration(out.s.files)
                               && (m < 8 ==> forall f: InitFile :: Pending(f) !in out.s.files))
            && (m >= 8 ==> out.Going? && out.s == s)
            && (m < 8 && s.fuel >= 1 + 2 * PUBLICATION_STEPS ==>
                  && out.s.fuel >= s.fuel - 1 - 2 * PUBLICATION_STEPS
                  && (Blocks(s.files, RootFile) || Blocks(s.files, PublicationFile) ==> out.Halted?)
                  && (Willing(c, key, env.signer) && !Blocks(s.files, RootFile) && !Blocks(s.files, PublicationFile) ==>
                      out.Going?))
  {
    RootStep(c, op, key, s, m, i, env);
    SigningIsNotStaged(c, op, key, s.files, m);
    var o1 := EnsureJournalRoot(c, s, i, key, env);
    if o1.Going? {
      var n := if m < 7 then 7 else m;
      BundleStep(c, op, key, o1.s, n, i, o1.value);
      var o2 := ReconcilePublication(c, op, key, o1.s, i, o1.value);
      var n2 := if n == 7 && o2.Going? then 8 else n;
      MovesOn(c, op, key, s, m, o1.s, n, o2.s, n2);
    }
  }

  lemma ReconcileRootStep(lib: Lib, c: Crypto, op: Operation, key: nat, s: Init, m: nat, w: Writer,
          gens: seq<Generation>, env: Env)
    requires LibOk(lib) && Progress(c, op, key, Succeeding, s.files, m) && m >= 3 && InPlace(s)
    requires Reading(c, s.files, m, w, gens)
    ensures gens != []
    ensures var out := ReconcileRoot(lib, c, op, key, s, w, gens, env);
            && (out.Halted? ==> SomeProgress(c, op, key, s, m, out.s))
            && (out.Going? ==> && m >= 4 && Moves(c, op, key, s, m, out.s, if m < 8 then 8 else m)
                               && Reading(c, out.s.files, if m < 8 then 8 else m, out.value.0, out.value.1)
                               && BundleAt(out.s.files) == Some(out.value.2)
                               && (m < 8 ==> forall f: InitFile :: Pending(f) !in out.s.files))
            && (m >= 8 ==> out.Going? && out.s == s)
            && (4 <= m < 8 && s.fuel >= 1 + 4 * PUBLICATION_STEPS ==>
                  && out.s.fuel >= s.fuel - 1 - 4 * PUBLICATION_STEPS
                  && (Blocks(s.files, SigningFile) || Blocks(s.files, RootFile) || Blocks(s.files, PublicationFile) ==>
                      out.Halted?)
                  && (Willing(c, key, env.signer) && Unblocked(s.files) ==> out.Going?))
  {
    IntentPartStep(lib, c, op, key, s, m, w, gens, env);
    SigningIsNotStaged(c, op, key, s.files, m);
    var o1 := IntentPart(lib, c, op, key, s, w, gens, env);
    if o1.Going? {
      AfterIntentStep(c, op, key, s, m, o1.s, if m < 6 then 6 else m, o1.value.1, o1.value.2, o1.value.0, env);
    }
  }

  /** Root and publication record, once the intent is recorded. */
  lemma AfterIntentStep(c: Crypto, op: Operation, key: nat, s: Init, m: nat, s1: Init, n: nat, w: Writer,
          gens: seq<Generation>, i: RootIntent, env: Env)
    requires Moves(c, op, key, s, m, s1, n) && n >= 6 && Reading(c, s1.files, n, w, gens)
    requires IntentAt(s1.files) == Some(i)
    ensures var out := RootPart(c, op, key, s1, i, env);
            && (out.Halted? ==> SomeProgress(c, op, key, s, m, out.s))
            && (out.Going? ==> && Moves(c, op, key, s, m, out.s, if n < 8 then 8 else n)
                               && Reading(c, out.s.files, if n < 8 then 8 else n, w, gens)
                               && BundleAt(out.s.files) == Some(out.value)
                               && (n < 8 ==> forall f: InitFile :: Pending(f) !in out.s.files))
            && (n >= 8 ==> out.Going? && out.s == s1)
            && (n < 8 && s1.fuel >= 1 + 2 * PUBLICATION_STEPS ==>
                  && out.s.fuel >= s1.fuel - 1 - 2 * PUBLICATION_STEPS
                  && (Blocks(s1.files, RootFile) || Blocks(s1.files, PublicationFile) ==> out.Halted?)
                  && (Blocks(s1.files, RootFile) || Blocks(s1.files, PublicationFile) || out.Going?
                      || !Willing(c, key, env.signer)))
  {
    RootPartStep(c, op, key, s1, n, i, env);
    var out := RootPart(c, op, key, s1, i, env);
    if out.Going? {
      var n2 := if n < 8 then 8 else n;
      MovesOn(c, op, key, s, m, s1, n, out.s, n2);
      ReadingOn(c, op, key, s1, n, out.s, n2, w, gens);
    } else {
      SomeMoveOn(c, op, key, s, m, s1, n, out.s);
    }
  }

  lemma SomeMoveOn(c: Crypto, op: Operation, key: nat, a: Init, l: nat, b: Init, m: nat, d: Init)
    requires Moves(c, op, key, a, l, b, m) && SomeProgress(c, op, key, b, m, d)
    ensures SomeProgress(c, op, key, a, l, d)
  {
    var n: nat :| Moves(c, op, key, b, m, d, n);
    MovesOn(c, op, key, a, l, b, m, d, n);
  }

  // ---------- from the publication record to the last generation ----------

  lemma PublishPartStep(lib: Lib, c: Crypto, op: Operation, key: nat, s: Init, m: nat, w: Writer,
          gens: seq<Generation>, b: Bundle, env: Env)
    requires LibOk(lib) && Progress(c, op, key, Succeeding, s.files, m) && m >= 8 && InPlace(s)
    requires Reading(c, s.files, m, w, gens) && BundleAt(s.files) == Some(b)
    ensures var out := PublishPart(lib, c, op, key, s, w, gens, b, env);
            && (out.Halted? ==> SomeProgress(c, op, key, s, m, out.s))
            && (out.Going? ==> && Moves(c, op, key, s, m, out.s, if m < 11 then 11 else m)
                               && Reading(c, out.s.files, if m < 11 then 11 else m, out.value.0, out.value.1)
                               && (m < 11 ==> forall f: InitFile :: Pending(f) !in out.s.files))
            && (m >= 11 ==> out == Going(s, (w, gens)))
            && (m < 11 && s.fuel >= 3 * PUBLICATION_STEPS ==>
                  && out.s.fuel >= s.fuel - 3 * PUBLICATION_STEPS
                  && (out.Going? <==> !Blocks(s.files, PublishedRoot) && !Blocks(s.files, AuthorityFile)))
  {
    var sha := if Final(PublicationFile) in s.files then c.sha(s.files[Final(PublicationFile)]) else 0;
    NoStagingAbove(c, op, key, s.files, m);
    AdvanceStep(lib, c, op, key, s, m, w, gens, 5, RootSigningPrepared, RootValidated, PublicationDigest(sha), env);
    var o1 := Advance(lib, c, op, s, w, gens, RootSigningPrepared, RootValidated, PublicationDigest(sha), env);
    if o1.Going? {
      var n := if m == 8 then 9 else m;
      AuthorityStep(c, op, key, o1.s, n, b);
      var o2 := PublishAuthority(c, o1.s, key, b);
      if o2.Going? {
        var n2 := if n < 11 then 11 else n;
        MovesOn(c, op, key, s, m, o1.s, n, o2.s, n2);
        ReadingOn(c, op, key, o1.s, n, o2.s, n2, o1.value.0, o1.value.1);
      } else {
        SomeMoveOn(c, op, key, s, m, o1.s, n, o2.s);
      }
    }
  }

  lemma LastPartStep(lib: Lib, c: Crypto, op: Operation, key: nat, s: Init, m: nat, w: Writer, gens: seq<Generation>,
          env: Env)
    requires LibOk(lib) && Progress(c, op, key, Succeeding, s.files, m) && m >= 11 && InPlace(s)
    requires Reading(c, s.files, m, w, gens)
    ensures var out := LastPart(lib, c, op, s, w, gens, env);
            && (out.Halted? ==> SomeProgress(c, op, key, s, m, out.s))
            && (out.Going? ==> && Moves(c, op, key, s, m, out.s, ALL)
                               && out.value == Generations(out.s.files, 8) && out.value[7].phase == Completed)
            && (m == ALL ==> out.Going? && out.s == s)
            && (s.fuel >= 2 * PUBLICATION_STEPS ==> out.Going? && out.s.fuel >= s.fuel - 2 * PUBLICATION_STEPS)
  {
    AdvanceStep(lib, c, op, key, s, m, w, gens, 6, RootValidated, AuthorityPublished, NoEvidence, env);
    var o1 := Advance(lib, c, op, s, w, gens, RootValidated, AuthorityPublished, NoEvidence, env);
    if o1.Going? {
      var n := if m == 11 then 12 else m;
      LastGenerationStep(lib, c, op, key, s, m, o1.s, n, o1.value.0, o1.value.1, env);
    }
  }

  /** The last generation, from where the one before it has been written. */
  lemma LastGenerationStep(lib: Lib, c: Crypto, op: Operation, key: nat, s: Init, m: nat, s1: Init, n: nat, w: Writer,
          gens: seq<Generation>, env: Env)
    requires LibOk(lib) && InPlace(s1) && 12 <= n <= ALL
    requires Moves(c, op, key, s, m, s1, n) && Reading(c, s1.files, n, w, gens)
    ensures var out := Advance(lib, c, op, s1, w, gens, AuthorityPublished, Completed, NoEvidence, env);
            && (out.Halted? ==> SomeProgress(c, op, key, s, m, out.s))
            && (out.Going? ==> && Moves(c, op, key, s, m, out.s, ALL) && out.value.1 == Generations(out.s.files, 8)
                               && out.value.1[7].phase == Completed)
            && (n == ALL ==> out.Going? && out.s == s1)
            && (s1.fuel >= PUBLICATION_STEPS ==> out.Going? && out.s.fuel >= s1.fuel - PUBLICATION_STEPS)
  {
    AdvanceStep(lib, c, op, key, s1, n, w, gens, 7, AuthorityPublished, Completed, NoEvidence, env);
    var out := Advance(lib, c, op, s1, w, gens, AuthorityPublished, Completed, NoEvidence, env);
    if out.Going? {
      MovesOn(c, op, key, s, m, s1, n, out.s, ALL);
      LastPhase(c, op, key, out.s.files, ALL);
    } else {
      MovesOn(c, op, key, s, m, s1, n, out.s, n);
    }
  }
}
