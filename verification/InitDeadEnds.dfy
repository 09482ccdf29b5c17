/** Which initializations can still be finished or given up, exactly; what becomes of the
    others; and the abandonment that breaks its own journal. */
module InitDeadEnds {
  import opened Publication
  import opened Records
  import opened Initialization
  import opened InitProgress
  import opened InitSteps
  import opened InitResult
  import opened InitJournals
  import InitConvergence
  import InitFresh
  import InitRoot

  // ---------- the condition ----------

  /** What an operator can see in the journal: nothing is torn, it has begun, a finalized key
      has been validated, and neither an unexpected status nor an abandonment is on record. */
  ghost predicate Finishable(s: Init) {
    && Clear(s)
    && Recorded(s.files, Phase.Prepared)
    && (Recorded(s.files, FinalizeSucceeded) ==> Recorded(s.files, KeyValidated))
    && !Recorded(s.files, FinalizeUnexpected) && !Recorded(s.files, AbandonVerified)
  }

  /** The same, by how far the journal has come. */
  predicate Hopeful(track: Track, n: nat) {
    && n > 0
    && match track
       case Succeeding => n != 3
       case Failing(phase) => phase == FinalizeUnexpected ==> n <= 2
       case Abandoning(at) => n <= at
  }

  /** Which phases the first generations of a track hold. */
  predicate HasAmong(track: Track, n: nat, phase: Phase) {
    match track
    case Succeeding => exists k: nat :: k < 8 && k < Count(track, n) && PhaseAt(track, k) == Some(phase)
    case _ => exists k: nat :: k < 5 && k < n && PhaseAt(track, k) == Some(phase)
  }

  lemma HopefulMeans(track: Track, n: nat)
    requires TrackOk(track) && n <= Items(track)
    ensures Hopeful(track, n) <==>
              && HasAmong(track, n, Phase.Prepared)
              && (HasAmong(track, n, FinalizeSucceeded) ==> HasAmong(track, n, KeyValidated))
              && !HasAmong(track, n, FinalizeUnexpected) && !HasAmong(track, n, AbandonVerified)
    ensures HasAmong(track, n, FinalizeSucceeded) <==> track == Succeeding && n >= 3
    ensures HasAmong(track, n, FinalizeFailed) <==>
          (track == Failing(FinalizeFailed) || track == Abandoning(3)) && n >= 3
  {
    assert n > 0 ==> PhaseAt(track, 0) == Some(Phase.Prepared);
    match track
    case Succeeding =>
      assert n >= 3 ==> PhaseAt(track, 2) == Some(FinalizeSucceeded);
      assert n >= 4 ==> PhaseAt(track, 3) == Some(KeyValidated);
    case Failing(phase) => assert n >= 3 ==> PhaseAt(track, 2) == Some(phase);
    case Abandoning(at) =>
      assert n > at ==> PhaseAt(track, at) == Some(AbandonVerified);
      assert at == 3 && n >= 3 ==> PhaseAt(track, 2) == Some(FinalizeFailed);
  }

  lemma RecordedAmong(c: Crypto, op: Operation, key: nat, track: Track, files: Files, m: nat, phase: Phase)
    requires Progress(c, op, key, track, files, m)
    ensures Recorded(files, phase) <==> HasAmong(track, Settled(track, files, m), phase)
  {
    RecordedMeans(c, op, key, track, files, m, phase);
    StandingIs(c, op, key, track, files, m);
  }

  lemma FinishableIs(c: Crypto, op: Operation, key: nat, track: Track, s: Init, m: nat)
    requires Progress(c, op, key, track, s.files, m)
    ensures Finishable(s) <==> Clear(s) && Hopeful(track, Settled(track, s.files, m))
    ensures Recorded(s.files, FinalizeSucceeded) <==> track == Succeeding && Settled(track, s.files, m) >= 3
    ensures Recorded(s.files, FinalizeFailed) <==>
            (track == Failing(FinalizeFailed) || track == Abandoning(3)) && Settled(track, s.files, m) >= 3
  {
    StandingIs(c, op, key, track, s.files, m);
    HopefulMeans(track, Settled(track, s.files, m));
    RecordedAmong(c, op, key, track, s.files, m, Phase.Prepared);
    RecordedAmong(c, op, key, track, s.files, m, FinalizeSucceeded);
    RecordedAmong(c, op, key, track, s.files, m, KeyValidated);
    RecordedAmong(c, op, key, track, s.files, m, FinalizeUnexpected);
    RecordedAmong(c, op, key, track, s.files, m, FinalizeFailed);
    RecordedAmong(c, op, key, track, s.files, m, AbandonVerified);
  }

  lemma HopefulIs(track: Track, n: nat)
    requires TrackOk(track) && n <= Items(track)
    ensures Hopeful(track, n) <==> Allows(track, n) || (track == Succeeding && n >= 4)
    ensures Allows(track, n) ==> !(track == Succeeding && n >= 3)
  {
    AllowsExactly(track, n);
  }

  // ---------- reading ----------

  /** A state of a run, on any track. */
  ghost predicate Tracked(lib: Lib, c: Crypto, op: Operation, key: nat, track: Track, s: Init, m: nat) {
    if track == Succeeding then Stands(lib, c, op, key, s, m) else Aside(c, op, key, track, s, m)
  }

  lemma ReadingKeepsFinishable(lib: Lib, c: Crypto, op: Operation, key: nat, track: Track, s: Init, m: nat)
    requires LibOk(lib) && Progress(c, op, key, track, s.files, m) && InPlace(s)
    ensures var read := ValidateJournal(lib, c, op.id, s).s;
            (Finishable(read) <==> Finishable(s)) && read.place == s.place
  {
    ValidateShape(lib, c, op, key, track, s, m);
    var read, n := ValidateJournal(lib, c, op.id, s).s, Settled(track, s.files, m);
    FinishableIs(c, op, key, track, s, m);
    if read.files != s.files {
      FinishableIs(c, op, key, track, read, n);
      assert Settled(track, read.files, n) == n;
    } else {
      FinishableIs(c, op, key, track, read, m);
    }
  }

  lemma TooEarlyToReconcile(lib: Lib, c: Crypto, op: Operation, key: nat, s: Init, m: nat, env: Env)
    requires LibOk(lib) && Stands(lib, c, op, key, s, m) && Settled(Succeeding, s.files, m) <= 3
    ensures var out := Reconcile(lib, c, op.id, key, s, env);
            out.Halted? && out.s == ValidateJournal(lib, c, op.id, s).s
  {
    ValidateShape(lib, c, op, key, Succeeding, s, m);
    ReadingMoves(lib, c, op, key, s, m);
    var first := ValidateJournal(lib, c, op.id, s);
    if first.Going? {
      var n := Settled(Succeeding, s.files, m);
      EarlyPhases(c, op, key, first.s.files, n);
      if n == 3 {
        InitConvergence.LastPhase(c, op, key, first.s.files, n);
        InitRoot.IntentStep(c, op, key, first.s, n, first.value[|first.value| - 1].phase, env);
      }
    }
  }

  // ---------- each command on each state ----------

  lemma ReconcileStanding(lib: Lib, c: Crypto, op: Operation, key: nat, s: Init, m: nat, env: Env)
    requires LibOk(lib) && Stands(lib, c, op, key, s, m) && s.place == Active
    ensures var out := Reconcile(lib, c, op.id, key, s, env);
            && (out.Going? ==> Finishable(s) && Settled(Succeeding, s.files, m) >= 4)
            && (s.fuel >= RECONCILE_STEPS && Finishable(s) && Settled(Succeeding, s.files, m) >= 4
                  && env.keyOpens && InitRoot.Willing(c, key, env.signer)
                ==> out.Going?)
            && (!Finishable(s) ==> !Finishable(out.s) && out.s.place == Active)
  {
    FinishableIs(c, op, key, Succeeding, s, m);
    SettledKey(c, op, key, s.files, m);
    ReconcileShape(lib, c, op, key, s, m, env);
    var out := Reconcile(lib, c, op.id, key, s, env);
    var n: nat :| Onward(lib, c, op, key, s, m, out.s, n);
    if !Clear(s) {
      assert !Clear(out.s);
    } else if !Finishable(s) {
      TooEarlyToReconcile(lib, c, op, key, s, m, env);
      ReadingKeepsFinishable(lib, c, op, key, Succeeding, s, m);
    }
  }

  lemma ReconcileTracked(lib: Lib, c: Crypto, op: Operation, key: nat, track: Track, s: Init, m: nat, env: Env)
    requires LibOk(lib) && Tracked(lib, c, op, key, track, s, m) && s.place == Active
    ensures var out := Reconcile(lib, c, op.id, key, s, env);
            && (out.Going? ==> Finishable(s) && Recorded(s.files, FinalizeSucceeded))
            && (s.fuel >= RECONCILE_STEPS && Finishable(s) && Recorded(s.files, FinalizeSucceeded)
                  && env.keyOpens && InitRoot.Willing(c, key, env.signer)
                ==> out.Going?)
            && (!Finishable(s) ==> !Finishable(out.s) && out.s.place == Active)
  {
    FinishableIs(c, op, key, track, s, m);
    if track == Succeeding {
      ReconcileStanding(lib, c, op, key, s, m, env);
    } else {
      ReconcileReadsOnly(lib, c, op, key, track, s, m, env);
      ReadingKeepsFinishable(lib, c, op, key, track, s, m);
    }
  }

  /** A journal that can be read and allows abandonment has nothing torn. */
  lemma AllowedIsClear(lib: Lib, c: Crypto, op: Operation, key: nat, track: Track, s: Init, m: nat)
    requires LibOk(lib) && Progress(c, op, key, track, s.files, m) && InPlace(s) && s.audits == map[]
    requires Allows(track, Settled(track, s.files, m))
    ensures Clear(s) <==> !GenerationTorn(s.files, Count(track, m))
  {
    var k := Count(track, m);
    AllowsExactly(track, Settled(track, s.files, m));
    assert m <= 3 && Rank(track, Gen(k)) == m;
    if !Unblocked(s.files) {
      BlocksTheNext(c, op, key, track, s.files, m, Gen(k));
    }
    if GenerationTorn(s.files, k) {
      assert Blocks(s.files, Gen(k));
    }
  }

  lemma AuditsAwait(lib: Lib, c: Crypto, op: Operation, key: nat, track: Track, s: Init, m: nat)
    requires Tracked(lib, c, op, key, track, s, m) && Allows(track, Settled(track, s.files, m))
    ensures s.audits == map[]
  {
    if track == Succeeding {
      NotYetAudited(lib, c, op, key, s, m);
    } else {
      NotYetAuditedAside(c, op, key, track, s, m);
    }
  }

  lemma AbandonTracked(lib: Lib, c: Crypto, op: Operation, key: nat, track: Track, s: Init, m: nat, env: Env)
    requires LibOk(lib) && Tracked(lib, c, op, key, track, s, m) && s.place == Active
    ensures var out := Abandon(lib, c, op.id, s, env);
            && (out.Going? ==> Finishable(s) && !Recorded(s.files, FinalizeSucceeded) && Vacant(s, env)
                               && Allows(track, Settled(track, s.files, m))
                               && Abandons(c, op, key, Settled(track, s.files, m), out))
            && (s.fuel >= ABANDON_STEPS && Finishable(s) && !Recorded(s.files, FinalizeSucceeded) && Vacant(s, env) ==>
                out.Going?)
            && (!Finishable(s) ==> !Finishable(out.s) && out.s.place == Active)
            && (!Vacant(s, env) ==> out.s == ValidateJournal(lib, c, op.id, s).s)
  {
    var n := Settled(track, s.files, m);
    FinishableIs(c, op, key, track, s, m);
    StandingIs(c, op, key, track, s.files, m);
    HopefulIs(track, n);
    ValidateShape(lib, c, op, key, track, s, m);
    if Allows(track, n) {
      AuditsAwait(lib, c, op, key, track, s, m);
      AllowedIsClear(lib, c, op, key, track, s, m);
    }
    AbandonShape(lib, c, op, key, track, s, m, env);
    ReadingKeepsFinishable(lib, c, op, key, track, s, m);
  }

  // ---------- the theorems ----------

  lemma TrackOf(lib: Lib, c: Crypto, op: Operation, key: nat, s: Init) returns (track: Track, m: nat)
    requires Reachable(lib, c, op, key, s) && s.place == Active
    ensures Tracked(lib, c, op, key, track, s, m)
  {
    if StandsSomewhere(lib, c, op, key, s) {
      track := Succeeding;
      m :| Stands(lib, c, op, key, s, m);
    } else {
      track, m :| Aside(c, op, key, track, s, m);
    }
  }

  /** After any run of the commands, stopped anywhere, an active initialization can be finished
      by a full `reconcile` or given up by a full `abandon` if and only if it is finishable;
      the first when the key was finalized, the second when it was not. */
  lemma EndsExactlyWhen(lib: Lib, c: Crypto, op: Operation, key: nat, blank: Init, turns: seq<Turn>,
                        present: Env, absent: Env, fuel: nat, tear: Tear)
    requires LibOk(lib) && InitFresh.Blank(blank) && fuel >= RECONCILE_STEPS
    requires present.keyOpens && InitRoot.Willing(c, key, present.signer)
    requires absent.namespacesEmpty && absent.keyIsAbsent
    ensures var s := PerformAll(lib, c, op, key, blank, turns);
            var finish := Perform(lib, c, op, key, s, Turn(Continue, present, fuel, tear));
            var giveUp := Perform(lib, c, op, key, s, Turn(GiveUp, absent, fuel, tear));
            s.place == Active ==>
              && (finish.Going? || giveUp.Going? <==> Finishable(s))
              && (finish.Going? <==> Finishable(s) && Recorded(s.files, FinalizeSucceeded))
              && (giveUp.Going? <==> Finishable(s) && !Recorded(s.files, FinalizeSucceeded))
  {
    RunsStayReachable(lib, c, op, key, blank, turns);
    var s := PerformAll(lib, c, op, key, blank, turns);
    if s.place == Active {
      var ready := Ready(s, fuel, tear);
      RefreshedIsReachable(lib, c, op, key, s, fuel, tear);
      var track, m := TrackOf(lib, c, op, key, ready);
      ReconcileTracked(lib, c, op, key, track, ready, m, present);
      AbandonTracked(lib, c, op, key, track, ready, m, absent);
      assert Finishable(ready) == Finishable(s);
    }
  }

  lemma DeadEndStays(lib: Lib, c: Crypto, op: Operation, key: nat, s: Init, turn: Turn)
    requires LibOk(lib) && Reachable(lib, c, op, key, s) && s.place == Active && !Finishable(s)
    ensures var out := Perform(lib, c, op, key, s, turn);
            out.Halted? && out.s.place == Active && !Finishable(out.s)
  {
    var ready := Ready(s, turn.fuel, turn.tear);
    assert Finishable(ready) == Finishable(s);
    RefreshedIsReachable(lib, c, op, key, s, turn.fuel, turn.tear);
    var track, m := TrackOf(lib, c, op, key, ready);
    match turn.command {
      case Begin => BeginStep(lib, c, op, key, ready, turn.env);
      case Continue => ReconcileTracked(lib, c, op, key, track, ready, m, turn.env);
      case GiveUp => AbandonTracked(lib, c, op, key, track, ready, m, turn.env);
    }
  }

  lemma {:induction false} DeadEndsStay(lib: Lib, c: Crypto, op: Operation, key: nat, s: Init, turns: seq<Turn>)
    requires LibOk(lib) && Reachable(lib, c, op, key, s) && s.place == Active && !Finishable(s)
    ensures var now := PerformAll(lib, c, op, key, s, turns);
            Reachable(lib, c, op, key, now) && now.place == Active && !Finishable(now)
    decreases |turns|
  {
    if turns != [] {
      DeadEndStays(lib, c, op, key, s, turns[0]);
      PerformStaysReachable(lib, c, op, key, s, turns[0]);
      DeadEndsStay(lib, c, op, key, Perform(lib, c, op, key, s, turns[0]).s, turns[1..]);
    }
  }

  /** An initialization that is not finishable stays so: whatever is tried, whatever the key
      store answers, no command ever succeeds and the journal stays active. */
  lemma DeadEndForGood(lib: Lib, c: Crypto, op: Operation, key: nat, blank: Init, before: seq<Turn>, after: seq<Turn>,
          turn: Turn)
    requires LibOk(lib) && InitFresh.Blank(blank)
    requires PerformAll(lib, c, op, key, blank, before).place == Active
    requires !Finishable(PerformAll(lib, c, op, key, blank, before))
    ensures var now := PerformAll(lib, c, op, key, PerformAll(lib, c, op, key, blank, before), after);
            now.place == Active && !Finishable(now) && Perform(lib, c, op, key, now, turn).Halted?
  {
    RunsStayReachable(lib, c, op, key, blank, before);
    var s := PerformAll(lib, c, op, key, blank, before);
    DeadEndsStay(lib, c, op, key, s, after);
    DeadEndStays(lib, c, op, key, PerformAll(lib, c, op, key, s, after), turn);
  }

  // ---------- abandoning after a recorded failure ----------

  lemma AbandonedJournal(lib: Lib, c: Crypto, op: Operation, key: nat, track: Track, s: Init, m: nat, out: Ran<()>)
    requires LibOk(lib) && Tracked(lib, c, op, key, track, s, m) && out.Going?
    requires Allows(track, Settled(track, s.files, m)) && Abandons(c, op, key, Settled(track, s.files, m), out)
    ensures out.s.place == InAbandoned
    ensures JournalOf(lib, c, op.id, out.s.files).None? <==> Recorded(s.files, FinalizeFailed)
  {
    var n := Settled(track, s.files, m);
    FinishableIs(c, op, key, track, s, m);
    StandingIs(c, op, key, track, s.files, m);
    AllowsExactly(track, n);
    JournalReads(lib, c, op, key, Abandoning(n), out.s.files, n + 2);
  }

  lemma ReadJournal(lib: Lib, c: Crypto, op: Operation, key: nat, track: Track, s: Init, m: nat)
    requires LibOk(lib) && Progress(c, op, key, track, s.files, m) && s.place == Active && s.fuel > 0
    requires Finishable(s)
    ensures JournalOf(lib, c, op.id, ValidateJournal(lib, c, op.id, s).s.files).Some?
  {
    FinishableIs(c, op, key, track, s, m);
    ValidateShape(lib, c, op, key, track, s, m);
    if GenerationTorn(s.files, Count(track, m)) {
      assert Blocks(s.files, Gen(Count(track, m)));
    }
  }

  /** Giving up an initialization archives its journal, which the journal's own validator then
      rejects exactly when a failure of the key's finalization was on record. */
  lemma AbandonBreaksTheJournalExactlyWhen(lib: Lib, c: Crypto, op: Operation, key: nat, blank: Init, turns: seq<Turn>,
          turn: Turn)
    requires LibOk(lib) && InitFresh.Blank(blank) && turn.command == GiveUp
    ensures var s := PerformAll(lib, c, op, key, blank, turns);
            var out := Perform(lib, c, op, key, s, turn);
            s.place == Active && out.Going? ==>
              && out.s.place == InAbandoned
              && (JournalOf(lib, c, op.id, out.s.files).None? <==> Recorded(s.files, FinalizeFailed))
  {
    RunsStayReachable(lib, c, op, key, blank, turns);
    var s := PerformAll(lib, c, op, key, blank, turns);
    if s.place == Active {
      var ready := Ready(s, turn.fuel, turn.tear);
      RefreshedIsReachable(lib, c, op, key, s, turn.fuel, turn.tear);
      var track, m := TrackOf(lib, c, op, key, ready);
      AbandonTracked(lib, c, op, key, track, ready, m, turn.env);
      var out := Perform(lib, c, op, key, s, turn);
      if out.Going? {
        AbandonedJournal(lib, c, op, key, track, ready, m, out);
      }
    }
  }

  /** With a failure on record and nothing torn, a full `abandon` breaks the journal exactly
      when the state directory is empty and the key absent; otherwise it leaves it valid. */
  lemma AbandonAfterFailure(lib: Lib, c: Crypto, op: Operation, key: nat, blank: Init, turns: seq<Turn>, env: Env,
          fuel: nat, tear: Tear)
    requires LibOk(lib) && InitFresh.Blank(blank) && fuel >= ABANDON_STEPS
    requires PerformAll(lib, c, op, key, blank, turns).place == Active
    requires Finishable(PerformAll(lib, c, op, key, blank, turns))
    requires Recorded(PerformAll(lib, c, op, key, blank, turns).files, FinalizeFailed)
    ensures var s := PerformAll(lib, c, op, key, blank, turns);
            var out := Perform(lib, c, op, key, s, Turn(GiveUp, env, fuel, tear));
            && (out.Going? <==> env.namespacesEmpty && env.keyIsAbsent)
            && (JournalOf(lib, c, op.id, out.s.files).None? <==> env.namespacesEmpty && env.keyIsAbsent)
  {
    RunsStayReachable(lib, c, op, key, blank, turns);
    var s := PerformAll(lib, c, op, key, blank, turns);
    var ready := Ready(s, fuel, tear);
    assert Finishable(ready) == Finishable(s);
    RefreshedIsReachable(lib, c, op, key, s, fuel, tear);
    var track, m := TrackOf(lib, c, op, key, ready);
    FinishableIs(c, op, key, track, ready, m);
    AbandonTracked(lib, c, op, key, track, ready, m, env);
    var out := Abandon(lib, c, op.id, ready, env);
    if Vacant(ready, env) {
      AbandonedJournal(lib, c, op, key, track, ready, m, out);
    } else {
      ReadJournal(lib, c, op, key, track, ready, m);
    }
  }
}
