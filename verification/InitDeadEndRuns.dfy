/** Runs that reach each dead end of an initialization, and the failed journal. */
module InitDeadEndRuns {
  import opened Publication
  import opened Records
  import opened Initialization
  import opened InitProgress
  import opened InitResult
  import opened InitFresh
  import opened InitJournals
  import AuthorityState
  import InitDeadEnds
  import InitSteps

  /** The key store and the directory let an initialization begin. */
  predicate MayBegin(env: Env) {
    env.namespacesEmpty && env.keyIsAbsent
  }

  function Begun(lib: Lib, c: Crypto, op: Operation, key: nat, blank: Init, env: Env, fuel: nat, tear: Tear): Init {
    PerformAll(lib, c, op, key, blank, [Turn(Begin, env, fuel, tear)])
  }

  lemma BegunIs(lib: Lib, c: Crypto, op: Operation, key: nat, blank: Init, env: Env, fuel: nat, tear: Tear)
    requires Blank(blank) && MayBegin(env) && fuel > 0
    ensures Begun(lib, c, op, key, blank, env, fuel, tear)
            == FromOpened(lib, c, op, key, Opened(Ready(blank, fuel, tear)), env).s
  {
    OneTurn(lib, c, op, key, blank, Turn(Begin, env, fuel, tear));
    FreshBegins(lib, c, op, key, Ready(blank, fuel, tear), env);
  }

  lemma OneTurn(lib: Lib, c: Crypto, op: Operation, key: nat, s: Init, turn: Turn)
    ensures PerformAll(lib, c, op, key, s, [turn]) == Perform(lib, c, op, key, s, turn).s
  {
    assert [turn][1..] == [];
  }

  lemma FreshBegins(lib: Lib, c: Crypto, op: Operation, key: nat, s: Init, env: Env)
    requires Blank(s) && MayBegin(env) && s.fuel > 0
    ensures FreshInit(lib, c, op, key, s, env) == FromOpened(lib, c, op, key, Opened(s), env)
  {
    assert AuthorityState.Finals(s.audits) == {};
    FreshOpens(lib, c, op, key, s, env);
  }

  /** Appending a generation whose name is free: done with three operations, nothing with none. */
  lemma AppendWrites(c: Crypto, op: Operation, s: Init, w: Writer, phase: Phase, evidence: Evidence, env: Env)
    requires Final(Gen(w.sequence)) !in s.files && Pending(Gen(w.sequence)) !in s.files
    ensures var out := Append(c, op, s, w, phase, evidence, env);
            var g := NextGeneration(op, w, phase, env.clock(w.sequence), evidence);
            && (s.fuel >= 3 ==>
                  && out.Going? && out.value.sequence == w.sequence + 1
                  && out.s == s.(files := s.files[Final(Gen(w.sequence)) := Whole(GenerationDoc(g))],
                      fuel := s.fuel - 3))
            && (s.fuel == 0 ==> out.Halted? && out.s == s)
            && (s.fuel == 1 ==>
                  && out.Halted?
                  && out.s.files == s.files[Pending(Gen(w.sequence)) := TornBlob(s.tear, Whole(GenerationDoc(g)))])
  {
    var blob := Whole(GenerationDoc(NextGeneration(op, w, phase, env.clock(w.sequence), evidence)));
    PublishAbsent(s.files, Gen(w.sequence), blob, Empty, TornBlob(s.tear, blob), s.fuel);
  }

  // ---------- stops of a first run ----------

  /** Stopped right after the journal directory was made: there is nothing to read. */
  lemma EmptyJournalIsDead(lib: Lib, c: Crypto, op: Operation, key: nat, blank: Init, env: Env, tear: Tear)
    requires Blank(blank) && MayBegin(env)
    ensures var s := Begun(lib, c, op, key, blank, env, 1, tear);
            s.place == Active && s.files == map[] && !InitDeadEnds.Finishable(s)
  {
    BegunIs(lib, c, op, key, blank, env, 1, tear);
    var start := Opened(Ready(blank, 1, tear));
    AppendWrites(c, op, start, Writer(0, None), Phase.Prepared, NoEvidence, env);
    assert forall k: nat :: PhaseOn(start.files, k).None?;
  }

  /** Stopped in the middle of writing the first generation. */
  lemma TornGenerationIsDead(lib: Lib, c: Crypto, op: Operation, key: nat, blank: Init, env: Env)
    requires Blank(blank) && MayBegin(env)
    ensures var s := Begun(lib, c, op, key, blank, env, 2, SomeBytes);
            s.place == Active && Blocks(s.files, Gen(0)) && !InitDeadEnds.Finishable(s)
  {
    BegunIs(lib, c, op, key, blank, env, 2, SomeBytes);
    AppendWrites(c, op, Opened(Ready(blank, 2, SomeBytes)), Writer(0, None), Phase.Prepared, NoEvidence, env);
  }

  /** The first two generations and the staged key, for a run with enough operations. */
  lemma TwoWritten(lib: Lib, c: Crypto, op: Operation, key: nat, s: Init, env: Env) returns (two: Init, w: Writer)
    requires s.files == map[] && s.fuel >= 7
    ensures FirstTwo(c, op, s, env) == Going(two, w) && w.sequence == 2
    ensures two == s.(files := two.files, fuel := s.fuel - 7)
    ensures Progress(c, op, key, Succeeding, two.files, 2) && InitSteps.WriterAt(c, two.files, w, 2)
    ensures forall f: InitFile :: Pending(f) !in two.files
  {
    NothingYet(c, op, key, s.files);
    AppendWrites(c, op, s, Writer(0, None), Phase.Prepared, NoEvidence, env);
    AppendMoves(c, op, key, s, 0, Writer(0, None), 0, Phase.Prepared, NoEvidence, env);
    var o1 := Append(c, op, s, Writer(0, None), Phase.Prepared, NoEvidence, env);
    var s2 := Spend(o1.s).s;
    AppendWrites(c, op, s2, o1.value, FinalizeStarted, NoEvidence, env);
    AppendMoves(c, op, key, s2, 1, o1.value, 1, FinalizeStarted, NoEvidence, env);
    var o2 := Append(c, op, s2, o1.value, FinalizeStarted, NoEvidence, env);
    two, w := o2.s, o2.value;
  }

  const TO_FINALIZED := 12

  /** Stopped between recording the finalized key and recording that it validates. Every
      initialization that succeeds passes through this state. */
  lemma FinalizedKeyIsDead(lib: Lib, c: Crypto, op: Operation, key: nat, blank: Init, env: Env, tear: Tear)
    requires Blank(blank) && MayBegin(env) && env.finalize == Succeeds
    ensures var s := Begun(lib, c, op, key, blank, env, TO_FINALIZED, tear);
            && s.place == Active && Clear(s) && !InitDeadEnds.Finishable(s)
            && Recorded(s.files, FinalizeSucceeded) && !Recorded(s.files, KeyValidated)
  {
    BegunIs(lib, c, op, key, blank, env, TO_FINALIZED, tear);
    var s := Begun(lib, c, op, key, blank, env, TO_FINALIZED, tear);
    StopsAtFinalized(lib, c, op, key, Opened(Ready(blank, TO_FINALIZED, tear)), env);
    FinalizedIsDead(c, op, key, s);
  }

  lemma FinalizedIsDead(c: Crypto, op: Operation, key: nat, s: Init)
    requires Progress(c, op, key, Succeeding, s.files, 3) && (forall f: InitFile :: Pending(f) !in s.files)
    requires s.place == Active && s.audits == map[]
    ensures Clear(s) && !InitDeadEnds.Finishable(s)
    ensures Recorded(s.files, FinalizeSucceeded) && !Recorded(s.files, KeyValidated)
  {
    InitDeadEnds.FinishableIs(c, op, key, Succeeding, s, 3);
    assert InitSteps.Settled(Succeeding, s.files, 3) == 3;
    RecordedMeans(c, op, key, Succeeding, s.files, 3, KeyValidated);
    assert Unblocked(s.files);
  }

  lemma StopsAtFinalized(lib: Lib, c: Crypto, op: Operation, key: nat, start: Init, env: Env)
    requires start.files == map[] && start.fuel == TO_FINALIZED - 1 && env.finalize == Succeeds
    ensures var s := FromOpened(lib, c, op, key, start, env).s;
            && s == start.(files := s.files, fuel := 0)
            && Progress(c, op, key, Succeeding, s.files, 3) && (forall f: InitFile :: Pending(f) !in s.files)
  {
    var two, w := TwoWritten(lib, c, op, key, start, env);
    var three := ThreeWritten(lib, c, op, key, two, w, env);
    assert FromOpened(lib, c, op, key, start, env).s == three;
  }

  lemma ThreeWritten(lib: Lib, c: Crypto, op: Operation, key: nat, two: Init, w: Writer, env: Env) returns (three: Init)
    requires Progress(c, op, key, Succeeding, two.files, 2) && InitSteps.WriterAt(c, two.files, w, 2)
    requires (forall f: InitFile :: Pending(f) !in two.files) && two.fuel == 4 && env.finalize == Succeeds
    ensures KeyThenRest(lib, c, op, key, two, w, env).s == three
    ensures three == two.(files := three.files, fuel := 0)
    ensures Progress(c, op, key, Succeeding, three.files, 3) && (forall f: InitFile :: Pending(f) !in three.files)
  {
    var spent := Spend(two).s;
    assert Rank(Succeeding, Gen(2)) == 2 && Rank(Succeeding, Gen(3)) == 3;
    AppendWrites(c, op, spent, w, FinalizeSucceeded, NoEvidence, env);
    AppendMoves(c, op, key, spent, 2, w, 2, FinalizeSucceeded, NoEvidence, env);
    var o3 := Append(c, op, spent, w, FinalizeSucceeded, NoEvidence, env);
    AppendWrites(c, op, o3.s, o3.value, KeyValidated, KeyDigest(c.digest(key)), env);
    three := o3.s;
    assert FinalizeKey(c, op, key, two, w, env).s == three && FinalizeKey(c, op, key, two, w, env).Halted?;
  }

  lemma FailureWritten(lib: Lib, c: Crypto, op: Operation, key: nat, blank: Init, env: Env, tear: Tear)
    requires Blank(blank) && MayBegin(env) && env.finalize != Succeeds
    ensures var s := Begun(lib, c, op, key, blank, env, TO_FINALIZED, tear);
            && s.place == Active && s.audits == map[] && Clear(s)
            && Progress(c, op, key, Failing(if env.finalize == Unexpected then FinalizeUnexpected else FinalizeFailed),
                s.files, 3)
            && (forall f: InitFile :: Pending(f) !in s.files)
  {
    BegunIs(lib, c, op, key, blank, env, TO_FINALIZED, tear);
    var start := Opened(Ready(blank, TO_FINALIZED, tear));
    var two, w := TwoWritten(lib, c, op, key, start, env);
    var spent := Spend(two).s;
    var phase := if env.finalize == Unexpected then FinalizeUnexpected else FinalizeFailed;
    AppendWrites(c, op, spent, w, phase, Reopened(env.keyOpens), env);
    FailureStep(c, op, key, spent, w, phase, Reopened(env.keyOpens), env);
    assert Begun(lib, c, op, key, blank, env, TO_FINALIZED, tear)
          == Append(c, op, spent, w, phase, Reopened(env.keyOpens), env).s;
  }

  /** The key store answered with the unexpected status. */
  lemma UnexpectedStatusIsDead(lib: Lib, c: Crypto, op: Operation, key: nat, blank: Init, env: Env, tear: Tear)
    requires Blank(blank) && MayBegin(env) && env.finalize == Unexpected
    ensures var s := Begun(lib, c, op, key, blank, env, TO_FINALIZED, tear);
            s.place == Active && Clear(s) && Recorded(s.files, FinalizeUnexpected) && !InitDeadEnds.Finishable(s)
  {
    FailureWritten(lib, c, op, key, blank, env, tear);
    var s := Begun(lib, c, op, key, blank, env, TO_FINALIZED, tear);
    PhasesOnRecord(c, op, key, Failing(FinalizeUnexpected), s.files, 3, 2);
  }

  /** A recorded failure can be given up; see `AbandonAfterFailure` for what that leaves. */
  lemma FailureIsFinishable(lib: Lib, c: Crypto, op: Operation, key: nat, blank: Init, env: Env, tear: Tear)
    requires Blank(blank) && MayBegin(env) && env.finalize == Fails
    ensures var s := Begun(lib, c, op, key, blank, env, TO_FINALIZED, tear);
            s.place == Active && Recorded(s.files, FinalizeFailed) && InitDeadEnds.Finishable(s)
  {
    FailureWritten(lib, c, op, key, blank, env, tear);
    var s := Begun(lib, c, op, key, blank, env, TO_FINALIZED, tear);
    InitDeadEnds.FinishableIs(c, op, key, Failing(FinalizeFailed), s, 3);
    assert InitSteps.Settled(Failing(FinalizeFailed), s.files, 3) == 3;
  }

  // ---------- abandonments cut short ----------

  /** An abandonment that is stopped after its first generation. */
  lemma CutShort(lib: Lib, c: Crypto, op: Operation, key: nat, track: Track, s: Init, n: nat, env: Env)
    requires LibOk(lib) && Progress(c, op, key, track, s.files, n) && Allows(track, n)
    requires (forall f: InitFile :: Pending(f) !in s.files) && s.fuel == 3
    requires s.place == Active && s.audits == map[] && MayBegin(env)
    ensures var out := Abandon(lib, c, op.id, s, env);
            out.s.place == Active && Recorded(out.s.files, AbandonVerified)
  {
    InitSteps.ValidateShape(lib, c, op, key, track, s, n);
    AllowsExactly(track, n);
    AllowedIsRead(lib, c, op, key, track, s, n, env);
    ResumesAt(c, op, key, track, s.files, n);
    assert Rank(track, Gen(n)) >= n;
    var w := Resume(c, s.files, Generations(s.files, n));
    AppendWrites(c, op, s, w, AbandonVerified, KeyAbsent, env);
    var o1 := Append(c, op, s, w, AbandonVerified, KeyAbsent, env);
    assert Rank(track, Gen(n + 1)) >= n;
    AppendWrites(c, op, o1.s, o1.value, Abandoned, NoEvidence, env);
    assert PhaseOn(o1.s.files, n) == Some(AbandonVerified);
  }

  /** Given up while Prepared, and stopped after the first record of the abandonment. */
  lemma BegunAbandonmentIsDead(lib: Lib, c: Crypto, op: Operation, key: nat, blank: Init, env: Env, tear: Tear)
    requires LibOk(lib) && Blank(blank) && MayBegin(env)
    ensures var s := PerformAll(lib, c, op, key, blank, [Turn(Begin, env, 4, tear), Turn(GiveUp, env, 3, tear)]);
            s.place == Active && Recorded(s.files, AbandonVerified) && !InitDeadEnds.Finishable(s)
  {
    BegunIs(lib, c, op, key, blank, env, 4, tear);
    var start := Opened(Ready(blank, 4, tear));
    NothingYet(c, op, key, start.files);
    AppendWrites(c, op, start, Writer(0, None), Phase.Prepared, NoEvidence, env);
    AppendMoves(c, op, key, start, 0, Writer(0, None), 0, Phase.Prepared, NoEvidence, env);
    var s := Begun(lib, c, op, key, blank, env, 4, tear);
    assert s == Append(c, op, start, Writer(0, None), Phase.Prepared, NoEvidence, env).s;
    AllowsExactly(Succeeding, 1);
    CutShort(lib, c, op, key, Succeeding, Ready(s, 3, tear), 1, env);
    InTurn(lib, c, op, key, blank, Turn(Begin, env, 4, tear), Turn(GiveUp, env, 3, tear));
  }

  /** Given up after a recorded failure, and stopped after the first record. */
  lemma BegunAbandonmentOfFailureIsDead(lib: Lib, c: Crypto, op: Operation, key: nat, blank: Init, env: Env, tear: Tear)
    requires LibOk(lib) && Blank(blank) && MayBegin(env) && env.finalize == Fails
    ensures var s := PerformAll(lib, c, op, key, blank,
          [Turn(Begin, env, TO_FINALIZED, tear), Turn(GiveUp, env, 3, tear)]);
            s.place == Active && Recorded(s.files, AbandonVerified) && !InitDeadEnds.Finishable(s)
  {
    FailureWritten(lib, c, op, key, blank, env, tear);
    var s := Begun(lib, c, op, key, blank, env, TO_FINALIZED, tear);
    AllowsExactly(Failing(FinalizeFailed), 3);
    CutShort(lib, c, op, key, Failing(FinalizeFailed), Ready(s, 3, tear), 3, env);
    InTurn(lib, c, op, key, blank, Turn(Begin, env, TO_FINALIZED, tear), Turn(GiveUp, env, 3, tear));
  }

  lemma InTurn(lib: Lib, c: Crypto, op: Operation, key: nat, s: Init, first: Turn, second: Turn)
    ensures PerformAll(lib, c, op, key, s, [first, second])
            == Perform(lib, c, op, key, PerformAll(lib, c, op, key, s, [first]), second).s
  {
    assert [first, second][1..] == [second] && [second][1..] == [] && [first][1..] == [];
    var one := Perform(lib, c, op, key, s, first).s;
    assert PerformAll(lib, c, op, key, one, [second])
          == PerformAll(lib, c, op, key, Perform(lib, c, op, key, one, second).s, []);
  }
}
