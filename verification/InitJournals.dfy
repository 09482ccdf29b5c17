/** Which journals the three commands can leave, and which initializations never end. */
module InitJournals {
  import opened Publication
  import opened Records
  import opened Initialization
  import opened InitProgress
  import opened InitSteps
  import opened InitResult
  import AuthorityState
  import InitFresh
  import Issuance

  // ---------- the phases on record ----------

  function PhaseIn(doc: Option<InitDoc>): Option<Phase> {
    match doc case Some(GenerationDoc(g)) => Some(g.phase) case _ => None
  }

  /** The phase of generation k: written, or staged so that reading the journal adopts it. */
  function PhaseOn(files: Files, k: nat): Option<Phase> {
    if Final(Gen(k)) in files then PhaseIn(DocAt(files, Gen(k)))
    else if Pending(Gen(k)) in files then PhaseIn(Parse(files[Pending(Gen(k))]))
    else None
  }

  ghost predicate Recorded(files: Files, phase: Phase) {
    exists k: nat :: PhaseOn(files, k) == Some(phase)
  }

  /** How many generations are on record. */
  function Standing(track: Track, files: Files, m: nat): nat {
    Count(track, Settled(track, files, m))
  }

  lemma StandingIs(c: Crypto, op: Operation, key: nat, track: Track, files: Files, m: nat)
    requires Progress(c, op, key, track, files, m)
    ensures Standing(track, files, m) == Count(track, m) + (if GenerationReadable(files, Count(track, m)) then 1 else 0)
    ensures Settled(track, files, m) <= Items(track)
  {
    if GenerationReadable(files, Count(track, m)) {
      assert Rank(track, Gen(Count(track, m))) == m;
    }
  }

  lemma WrittenPhase(c: Crypto, op: Operation, key: nat, track: Track, files: Files, m: nat, k: nat)
    requires Progress(c, op, key, track, files, m) && k < Count(track, m)
    ensures PhaseAt(track, k).Some? && PhaseOn(files, k) == PhaseAt(track, k)
  {
    CountsGenerations(track, m, k);
    GenerationIsGood(c, op, key, track, files, m, k);
  }

  lemma StagedPhase(c: Crypto, op: Operation, key: nat, track: Track, files: Files, m: nat, k: nat)
    requires Progress(c, op, key, track, files, m) && k >= Count(track, m) && Final(Gen(k)) !in files
    ensures if k == Count(track, m) && GenerationReadable(files, k)
            then PhaseAt(track, k).Some? && PhaseOn(files, k) == PhaseAt(track, k)
            else PhaseOn(files, k).None?
  {
    OnlyStagedGeneration(c, op, key, track, files, m);
    assert StagedGood(c, op, key, track, files, Gen(k));
  }

  lemma PhasesOnRecord(c: Crypto, op: Operation, key: nat, track: Track, files: Files, m: nat, k: nat)
    requires Progress(c, op, key, track, files, m)
    ensures PhaseOn(files, k) == if k < Standing(track, files, m) then PhaseAt(track, k) else None
    ensures k < Standing(track, files, m) ==> PhaseAt(track, k).Some?
  {
    StandingIs(c, op, key, track, files, m);
    CountsGenerations(track, m, k);
    if k < Count(track, m) {
      WrittenPhase(c, op, key, track, files, m, k);
    } else {
      StagedPhase(c, op, key, track, files, m, k);
    }
  }

  lemma RecordedMeans(c: Crypto, op: Operation, key: nat, track: Track, files: Files, m: nat, phase: Phase)
    requires Progress(c, op, key, track, files, m)
    ensures Recorded(files, phase) <==>
          exists k: nat :: k < Standing(track, files, m) && PhaseAt(track, k) == Some(phase)
  {
    forall k: nat ensures PhaseOn(files, k) == if k < Standing(track, files, m) then PhaseAt(track, k) else None {
      PhasesOnRecord(c, op, key, track, files, m, k);
    }
  }

  lemma PhaseOfGeneration(c: Crypto, op: Operation, key: nat, track: Track, files: Files, m: nat, i: nat)
    requires Progress(c, op, key, track, files, m) && i < Count(track, m)
    ensures PhaseAt(track, i) == Some(Generations(files, Count(track, m))[i].phase)
    ensures Generations(files, Count(track, m))[i].operation == op
  {
    GenerationIsGood(c, op, key, track, files, m, i);
  }

  // ---------- the states the commands reach ----------

  /** The journal has failed at the key or turned to abandonment. */
  ghost predicate Aside(c: Crypto, op: Operation, key: nat, track: Track, s: Init, m: nat) {
    && track != Succeeding && Progress(c, op, key, track, s.files, m)
    && (s.place == Active || s.place == InAbandoned)
    && (track.Failing? || m < Items(track) ==> s.audits == map[])
  }

  ghost predicate OffTrack(c: Crypto, op: Operation, key: nat, s: Init) {
    exists track: Track, m: nat :: Aside(c, op, key, track, s, m)
  }

  /** Empty, on the way to success, or off that way. */
  ghost predicate Reachable(lib: Lib, c: Crypto, op: Operation, key: nat, s: Init) {
    InitFresh.Blank(s) || StandsSomewhere(lib, c, op, key, s) || OffTrack(c, op, key, s)
  }

  // ---------- abandoning ----------

  /** The first n generations forbid no abandonment. */
  predicate Allows(track: Track, n: nat) {
    && n > 0 && Legal(track, n)
    && forall i: nat :: i < Count(track, n) && PhaseAt(track, i).Some? ==> !ForbidsAbandonment(PhaseAt(track, i).value)
  }

  /** The phases that forbid abandonment are exactly those past the start of finalization,
      except a recorded failure. */
  lemma AllowsExactly(track: Track, n: nat)
    requires TrackOk(track) && n <= Items(track)
    ensures Allows(track, n) <==>
            match track
            case Succeeding => 1 <= n <= 2
            case Failing(phase) => 1 <= n <= (if phase == FinalizeFailed then 3 else 2)
            case Abandoning(at) => 1 <= n <= at
    ensures Allows(track, n) ==> n <= 3 && Count(track, n) == n
                                 && forall k: nat :: k < n ==> PhaseAt(track, k) == PhaseAt(Abandoning(n), k)
  {
    match track
    case Succeeding => assert n > 2 ==> PhaseAt(track, 2) == Some(FinalizeSucceeded);
    case Failing(phase) => assert n > 2 ==> PhaseAt(track, 2) == Some(phase);
    case Abandoning(at) => assert n > at ==> PhaseAt(track, at) == Some(AbandonVerified);
  }

  /** An unstaged journal that allows it can turn to abandonment. */
  lemma TurnsToAbandonment(c: Crypto, op: Operation, key: nat, track: Track, files: Files, n: nat)
    requires Progress(c, op, key, track, files, n) && NoStagedGeneration(files) && Allows(track, n)
    ensures 1 <= n <= 3 && Progress(c, op, key, Abandoning(n), files, n) && (forall f: InitFile :: Pending(f) !in files)
  {
    AllowsExactly(track, n);
    forall f: InitFile | Pending(f) in files ensures f.Gen? {
    }
    ChangeTrack(c, op, key, files, n, track, Abandoning(n));
  }

  /** The two generations of an abandonment. */
  function GivingUp(c: Crypto, op: Operation, s: Init, w: Writer, env: Env): Ran<Writer> {
    var (s1, w1) :- Append(c, op, s, w, AbandonVerified, KeyAbsent, env);
    Append(c, op, s1, w1, Abandoned, NoEvidence, env)
  }

  lemma GivingUpStep(c: Crypto, op: Operation, key: nat, s: Init, n: nat, w: Writer, env: Env)
    requires 1 <= n <= 3 && Progress(c, op, key, Abandoning(n), s.files, n)
    requires (forall f: InitFile :: Pending(f) !in s.files)
    requires WriterAt(c, s.files, w, n)
    ensures var out := GivingUp(c, op, s, w, env);
            && out.s == s.(files := out.s.files, fuel := out.s.fuel)
            && (out.Halted? ==> exists m: nat :: n <= m < n + 2 && Progress(c, op, key, Abandoning(n), out.s.files, m))
            && (out.Going? ==> Progress(c, op, key, Abandoning(n), out.s.files, n + 2))
            && (s.fuel >= 2 * PUBLICATION_STEPS ==> out.Going? && out.s.fuel >= s.fuel - 2 * PUBLICATION_STEPS)
  {
    AppendStep(c, op, key, Abandoning(n), s, n, w, n, AbandonVerified, KeyAbsent, env);
    var o1 := Append(c, op, s, w, AbandonVerified, KeyAbsent, env);
    if o1.Going? {
      AppendStep(c, op, key, Abandoning(n), o1.s, n + 1, o1.value, n + 1, Abandoned, NoEvidence, env);
    }
  }

  lemma AbandonJournalIs(lib: Lib, c: Crypto, op: Operation, s: Init, w: Writer, env: Env)
    requires s.audits == map[] && s.place == Active
    ensures var first := GivingUp(c, op, s, w, env);
            var out := AbandonJournal(lib, c, op, s, w, env);
            && (first.Halted? ==> out == Halted(first.s, first.error))
            && (first.Going? ==>
                && out.s.files == first.s.files && (out.s.place == Active || out.s.place == InAbandoned)
                                 && (out.Going? ==> out.s.place == InAbandoned)
                                 && (first.s.fuel >= PUBLICATION_STEPS + 1 ==> out.Going?))
  {
    var first := GivingUp(c, op, s, w, env);
    if first.Going? {
      var next := Issuance.NextAudit(lib, first.s.audits, AbandonedRecord(op.id, env.createdAt));
      var blob := Whole(AuditDoc(next));
      assert first.s.audits == map[] && first.s.place == Active;
      PublishAbsent(first.s.audits, next.sequence, blob, Empty, TornBlob(first.s.tear, blob), first.s.fuel);
    }
  }

  const ABANDON_STEPS := 16

  lemma AbandonJournalStep(lib: Lib, c: Crypto, op: Operation, key: nat, s: Init, n: nat, w: Writer, env: Env)
    requires 1 <= n <= 3 && Progress(c, op, key, Abandoning(n), s.files, n)
    requires (forall f: InitFile :: Pending(f) !in s.files)
    requires WriterAt(c, s.files, w, n) && s.audits == map[] && s.place == Active
    ensures var out := AbandonJournal(lib, c, op, s, w, env);
            && (exists m: nat :: m >= n && Aside(c, op, key, Abandoning(n), out.s, m))
            && (out.Going? ==> out.s.place == InAbandoned && Progress(c, op, key, Abandoning(n), out.s.files, n + 2))
            && (s.fuel >= ABANDON_STEPS - 1 ==> out.Going?)
  {
    GivingUpStep(c, op, key, s, n, w, env);
    AbandonJournalIs(lib, c, op, s, w, env);
    var first, out := GivingUp(c, op, s, w, env), AbandonJournal(lib, c, op, s, w, env);
    if first.Halted? {
      var m: nat :| n <= m < n + 2 && Progress(c, op, key, Abandoning(n), first.s.files, m);
      assert Aside(c, op, key, Abandoning(n), out.s, m);
    } else {
      assert Aside(c, op, key, Abandoning(n), out.s, n + 2);
    }
  }

  lemma ResumesAt(c: Crypto, op: Operation, key: nat, track: Track, files: Files, n: nat)
    requires Progress(c, op, key, track, files, n) && 0 < n <= 3
    ensures Count(track, n) == n
    ensures var gens := Generations(files, n);
            gens != [] && gens[|gens| - 1].operation == op && WriterAt(c, files, Resume(c, files, gens), n)
  {
    GenerationIsGood(c, op, key, track, files, n, n - 1);
    CountsGenerations(track, n, n - 1);
  }

  /** What stands in the way of abandonment besides the journal itself. */
  predicate Vacant(s: Init, env: Env) {
    env.namespacesEmpty && env.keyIsAbsent && s.place == Active
  }

  /** Where abandonment is forbidden, a phase on record forbids it. */
  lemma SomePhaseForbids(track: Track, n: nat) returns (i: nat)
    requires TrackOk(track) && 0 < n <= Items(track) && !Allows(track, n)
    ensures i < Count(track, n) && PhaseAt(track, i).Some? && ForbidsAbandonment(PhaseAt(track, i).value)
  {
    if !Legal(track, n) {
      i := 3;
    } else {
      i :| i < Count(track, n) && PhaseAt(track, i).Some? && ForbidsAbandonment(PhaseAt(track, i).value);
    }
  }

  lemma PhasesForbid(c: Crypto, op: Operation, key: nat, track: Track, files: Files, n: nat)
    requires Progress(c, op, key, track, files, n) && n > 0 && !Allows(track, n)
    ensures var gens := Generations(files, Count(track, n));
            exists i :: 0 <= i < |gens| && ForbidsAbandonment(gens[i].phase)
  {
    var gens := Generations(files, Count(track, n));
    assert |gens| == Count(track, n);
    var i := SomePhaseForbids(track, n);
    PhaseOfGeneration(c, op, key, track, files, n, i);
    assert 0 <= i < |gens| && ForbidsAbandonment(gens[i].phase);
  }

  lemma PhasesPermit(c: Crypto, op: Operation, key: nat, track: Track, files: Files, n: nat)
    requires Progress(c, op, key, track, files, n) && Allows(track, n)
    ensures var gens := Generations(files, Count(track, n));
            forall i :: 0 <= i < |gens| ==> !ForbidsAbandonment(gens[i].phase)
  {
    var gens := Generations(files, Count(track, n));
    assert |gens| == Count(track, n);
    forall i: nat | i < |gens| ensures !ForbidsAbandonment(gens[i].phase) {
      PhaseOfGeneration(c, op, key, track, files, n, i);
      assert PhaseAt(track, i).Some?;
    }
  }

  lemma PhasesAllow(c: Crypto, op: Operation, key: nat, track: Track, files: Files, n: nat)
    requires Progress(c, op, key, track, files, n) && n > 0
    ensures var gens := Generations(files, Count(track, n));
            (exists i :: 0 <= i < |gens| && ForbidsAbandonment(gens[i].phase)) <==> !Allows(track, n)
  {
    if Allows(track, n) {
      PhasesPermit(c, op, key, track, files, n);
    } else {
      PhasesForbid(c, op, key, track, files, n);
    }
  }

  /** The table allows exactly the steps from one record to the next of a success, of a failed
      finalization and of an abandonment, except an abandonment of a failed finalization. */
  lemma FollowsExactly(before: Phase, after: Phase)
    ensures Follows(before, after) <==>
              exists track: Track, k: nat ::
                TrackOk(track) && Legal(track, k + 2) && PhaseAt(track, k) == Some(before)
                && PhaseAt(track, k + 1) == Some(after)
  {
    if Follows(before, after) {
      var track, k := StepOf(before, after);
    }
  }

  /** A track that takes the step, and where. */
  lemma StepOf(before: Phase, after: Phase) returns (track: Track, k: nat)
    requires Follows(before, after)
    ensures TrackOk(track) && Legal(track, k + 2)
    ensures PhaseAt(track, k) == Some(before) && PhaseAt(track, k + 1) == Some(after)
  {
    match before
    case Prepared => track, k := if after == AbandonVerified then Abandoning(1) else Succeeding, 0;
    case FinalizeStarted =>
      track, k := if after == AbandonVerified then Abandoning(2)
                  else if after == FinalizeSucceeded then Succeeding else Failing(after), 1;
    case FinalizeSucceeded => track, k := Succeeding, 2;
    case KeyValidated => track, k := Succeeding, 3;
    case RootSigningPrepared => track, k := Succeeding, 4;
    case RootValidated => track, k := Succeeding, 5;
    case AuthorityPublished => track, k := Succeeding, 6;
    case AbandonVerified => track, k := Abandoning(1), 1;
  }

  lemma NothingPublished(c: Crypto, op: Operation, key: nat, track: Track, files: Files, n: nat)
    requires Progress(c, op, key, track, files, n) && n <= 3
    ensures Final(AuthorityFile) !in files && Final(PublishedRoot) !in files
  {
    assert Rank(track, AuthorityFile) > 3 && Rank(track, PublishedRoot) > 3;
  }

  lemma AbandonReadIs(lib: Lib, c: Crypto, op: Id, s: Init, gens: seq<Generation>, env: Env)
    requires gens != [] && Final(AuthorityFile) !in s.files && Final(PublishedRoot) !in s.files
    requires s.place == Active ==> AuthorityState.Finals(s.audits) == {}
    requires forall i :: 0 <= i < |gens| ==> !ForbidsAbandonment(gens[i].phase)
    ensures var out := AbandonRead(lib, c, op, s, gens, env);
            out == if Vacant(s, env)
                   then AbandonJournal(lib, c, gens[|gens| - 1].operation, s, Resume(c, s.files, gens), env)
                   else Halted(s, out.error)
  {
  }

  lemma AbandonReadRefuses(lib: Lib, c: Crypto, op: Id, s: Init, gens: seq<Generation>, env: Env)
    requires exists i :: 0 <= i < |gens| && ForbidsAbandonment(gens[i].phase)
    ensures AbandonRead(lib, c, op, s, gens, env) == Halted(s, AuthorityState.Precondition)
  {
  }

  lemma AllowedIsRead(lib: Lib, c: Crypto, op: Operation, key: nat, track: Track, s: Init, n: nat, env: Env)
    requires Progress(c, op, key, track, s.files, n) && Allows(track, n)
    requires s.place == Active ==> s.audits == map[]
    ensures Count(track, n) == n && Generations(s.files, n) != []
    ensures var gens := Generations(s.files, n);
            var out := AbandonRead(lib, c, op.id, s, gens, env);
            out == if Vacant(s, env) then AbandonJournal(lib, c, op, s, Resume(c, s.files, gens), env)
                   else Halted(s, out.error)
  {
    AllowsExactly(track, n);
    ResumesAt(c, op, key, track, s.files, n);
    PhasesAllow(c, op, key, track, s.files, n);
    NothingPublished(c, op, key, track, s.files, n);
    assert s.place == Active ==> AuthorityState.Finals(s.audits) == {};
    AbandonReadIs(lib, c, op.id, s, Generations(s.files, n), env);
  }

  lemma ForbiddenIsRefused(lib: Lib, c: Crypto, op: Operation, key: nat, track: Track, s: Init, n: nat, env: Env)
    requires Progress(c, op, key, track, s.files, n) && n > 0 && !Allows(track, n)
    ensures AbandonRead(lib, c, op.id, s, Generations(s.files, Count(track, n)), env)
          == Halted(s, AuthorityState.Precondition)
  {
    PhasesAllow(c, op, key, track, s.files, n);
    AbandonReadRefuses(lib, c, op.id, s, Generations(s.files, Count(track, n)), env);
  }

  /** What abandoning does, for every amount of fuel. */
  ghost predicate Abandons(c: Crypto, op: Operation, key: nat, n: nat, out: Ran<()>) {
    && (exists m: nat :: m >= n && Aside(c, op, key, Abandoning(n), out.s, m))
    && (out.Going? ==> out.s.place == InAbandoned && Progress(c, op, key, Abandoning(n), out.s.files, n + 2))
  }

  lemma AbandonGoes(lib: Lib, c: Crypto, op: Operation, key: nat, track: Track, s: Init, n: nat, env: Env)
    requires Progress(c, op, key, track, s.files, n) && NoStagedGeneration(s.files) && Allows(track, n)
    requires s.audits == map[] && s.place == Active
    ensures Count(track, n) == n && Generations(s.files, n) != []
    ensures var out := AbandonJournal(lib, c, op, s, Resume(c, s.files, Generations(s.files, n)), env);
            Abandons(c, op, key, n, out) && (s.fuel >= ABANDON_STEPS - 1 ==> out.Going?)
  {
    AllowsExactly(track, n);
    ResumesAt(c, op, key, track, s.files, n);
    TurnsToAbandonment(c, op, key, track, s.files, n);
    AbandonJournalStep(lib, c, op, key, s, n, Resume(c, s.files, Generations(s.files, n)), env);
  }

  lemma AbandonShape(lib: Lib, c: Crypto, op: Operation, key: nat, track: Track, s: Init, m: nat, env: Env)
    requires LibOk(lib) && Progress(c, op, key, track, s.files, m) && InPlace(s)
    requires Allows(track, Settled(track, s.files, m)) && s.place == Active ==> s.audits == map[]
    ensures var read := ValidateJournal(lib, c, op.id, s);
            var n, out := Settled(track, s.files, m), Abandon(lib, c, op.id, s, env);
            if read.Going? && Allows(track, n) && Vacant(s, env)
            then Abandons(c, op, key, n, out) && (s.fuel >= ABANDON_STEPS ==> out.Going?)
            else out.Halted? && out.s == read.s
  {
    ValidateShape(lib, c, op, key, track, s, m);
    var read, n := ValidateJournal(lib, c, op.id, s), Settled(track, s.files, m);
    if read.Going? {
      if !Allows(track, n) {
        ForbiddenIsRefused(lib, c, op, key, track, read.s, n, env);
      } else {
        AllowedIsRead(lib, c, op, key, track, read.s, n, env);
        if Vacant(s, env) {
          AbandonGoes(lib, c, op, key, track, read.s, n, env);
        }
      }
    }
  }

  // ---------- reconciling off the way to success ----------

  lemma NeverFinalized(c: Crypto, op: Operation, key: nat, track: Track, files: Files, n: nat)
    requires Progress(c, op, key, track, files, n) && track != Succeeding
    ensures !HasPhase(Generations(files, Count(track, n)), FinalizeSucceeded)
  {
    var gens := Generations(files, Count(track, n));
    forall i | 0 <= i < |gens| ensures gens[i].phase != FinalizeSucceeded {
      PhaseOfGeneration(c, op, key, track, files, n, i);
    }
  }

  lemma ReconcileReadsOnly(lib: Lib, c: Crypto, op: Operation, key: nat, track: Track, s: Init, m: nat, env: Env)
    requires LibOk(lib) && Progress(c, op, key, track, s.files, m) && InPlace(s) && track != Succeeding
    ensures var out := Reconcile(lib, c, op.id, key, s, env);
            out.Halted? && out.s == ValidateJournal(lib, c, op.id, s).s
  {
    ValidateShape(lib, c, op, key, track, s, m);
    var read := ValidateJournal(lib, c, op.id, s);
    if read.Going? {
      NeverFinalized(c, op, key, track, read.s.files, Settled(track, s.files, m));
    }
  }

  /** Reading the journal leaves it as far as it was. */
  lemma ReadingStaysAside(lib: Lib, c: Crypto, op: Operation, key: nat, track: Track, s: Init, m: nat)
    requires LibOk(lib) && Aside(c, op, key, track, s, m) && InPlace(s)
    ensures OffTrack(c, op, key, ValidateJournal(lib, c, op.id, s).s)
  {
    ValidateShape(lib, c, op, key, track, s, m);
    var read, n := ValidateJournal(lib, c, op.id, s).s, Settled(track, s.files, m);
    if read.files == s.files {
      assert Aside(c, op, key, track, read, m);
    } else {
      assert Aside(c, op, key, track, read, n);
    }
  }

  lemma ReadingStaysStanding(lib: Lib, c: Crypto, op: Operation, key: nat, s: Init, m: nat)
    requires LibOk(lib) && Stands(lib, c, op, key, s, m)
    ensures StandsSomewhere(lib, c, op, key, ValidateJournal(lib, c, op.id, s).s)
  {
    ReadingMoves(lib, c, op, key, s, m);
    var read := ValidateJournal(lib, c, op.id, s);
    StandsOn(lib, c, op, key, s, m, read.s, if read.Going? then Settled(Succeeding, s.files, m) else m);
  }

  // ---------- every run of the commands ----------

  datatype Command = Begin | Continue | GiveUp
  datatype Turn = Turn(command: Command, env: Env, fuel: nat, tear: Tear)

  function Perform(lib: Lib, c: Crypto, op: Operation, key: nat, s: Init, turn: Turn): Ran<()> {
    var ready := Ready(s, turn.fuel, turn.tear);
    match turn.command
    case Begin => FreshInit(lib, c, op, key, ready, turn.env)
    case Continue => Reconcile(lib, c, op.id, key, ready, turn.env)
    case GiveUp => Abandon(lib, c, op.id, ready, turn.env)
  }

  function PerformAll(lib: Lib, c: Crypto, op: Operation, key: nat, s: Init, turns: seq<Turn>): Init
    decreases |turns|
  {
    if turns == [] then s else PerformAll(lib, c, op, key, Perform(lib, c, op, key, s, turns[0]).s, turns[1..])
  }

  lemma RefreshedIsReachable(lib: Lib, c: Crypto, op: Operation, key: nat, s: Init, fuel: nat, tear: Tear)
    requires Reachable(lib, c, op, key, s)
    ensures Reachable(lib, c, op, key, Ready(s, fuel, tear))
  {
    if StandsSomewhere(lib, c, op, key, s) {
      var m: nat :| Stands(lib, c, op, key, s, m);
      assert Stands(lib, c, op, key, Ready(s, fuel, tear), m);
    } else if OffTrack(c, op, key, s) {
      var track: Track, m: nat :| Aside(c, op, key, track, s, m);
      assert Aside(c, op, key, track, Ready(s, fuel, tear), m);
    }
  }

  lemma FailedIsAside(c: Crypto, op: Operation, key: nat, s: Init)
    requires InitFresh.KeyFailed(c, op, key, s)
    ensures OffTrack(c, op, key, s)
  {
    var phase: Phase, m: nat :| m >= 2 && Progress(c, op, key, Failing(phase), s.files, m);
    assert Aside(c, op, key, Failing(phase), s, m);
  }

  lemma BeginStep(lib: Lib, c: Crypto, op: Operation, key: nat, s: Init, env: Env)
    requires LibOk(lib) && Reachable(lib, c, op, key, s)
    ensures Reachable(lib, c, op, key, FreshInit(lib, c, op, key, s, env).s)
    ensures s.place == Active ==>
          FreshInit(lib, c, op, key, s, env).Halted? && FreshInit(lib, c, op, key, s, env).s == s
  {
    if InitFresh.Blank(s) {
      InitFresh.FreshStops(lib, c, op, key, s, env);
      var out := FreshInit(lib, c, op, key, s, env);
      if InitFresh.KeyFailed(c, op, key, out.s) {
        FailedIsAside(c, op, key, out.s);
      }
    } else {
      assert s.place != Nowhere;
      assert CheckFresh(s, env).Some?;
    }
  }

  lemma ResumeStep(lib: Lib, c: Crypto, op: Operation, key: nat, s: Init, env: Env)
    requires LibOk(lib) && Reachable(lib, c, op, key, s)
    ensures Reachable(lib, c, op, key, Reconcile(lib, c, op.id, key, s, env).s)
  {
    if InPlace(s) {
      if StandsSomewhere(lib, c, op, key, s) {
        var m: nat :| Stands(lib, c, op, key, s, m);
        ReconcileShape(lib, c, op, key, s, m, env);
        var n: nat :| Onward(lib, c, op, key, s, m, Reconcile(lib, c, op.id, key, s, env).s, n);
      } else {
        var track: Track, m: nat :| Aside(c, op, key, track, s, m);
        ReconcileReadsOnly(lib, c, op, key, track, s, m, env);
        ReadingStaysAside(lib, c, op, key, track, s, m);
      }
    }
  }

  /** Before its last publication a successful initialization has recorded nothing yet. */
  lemma NotYetAudited(lib: Lib, c: Crypto, op: Operation, key: nat, s: Init, m: nat)
    requires Stands(lib, c, op, key, s, m) && Allows(Succeeding, Settled(Succeeding, s.files, m))
    ensures s.audits == map[]
  {
    assert m <= Settled(Succeeding, s.files, m);
    if GenerationReadable(s.files, Count(Succeeding, m)) {
      assert Rank(Succeeding, Gen(Count(Succeeding, m))) == m;
    }
    AllowsExactly(Succeeding, Settled(Succeeding, s.files, m));
  }

  lemma NotYetAuditedAside(c: Crypto, op: Operation, key: nat, track: Track, s: Init, m: nat)
    requires Aside(c, op, key, track, s, m) && Allows(track, Settled(track, s.files, m))
    ensures s.audits == map[]
  {
    if GenerationReadable(s.files, Count(track, m)) {
      assert Rank(track, Gen(Count(track, m))) == m;
    }
    AllowsExactly(track, Settled(track, s.files, m));
  }

  lemma AbandonStep(lib: Lib, c: Crypto, op: Operation, key: nat, s: Init, env: Env)
    requires LibOk(lib) && Reachable(lib, c, op, key, s)
    ensures Reachable(lib, c, op, key, Abandon(lib, c, op.id, s, env).s)
  {
    if InPlace(s) {
      if StandsSomewhere(lib, c, op, key, s) {
        var m: nat :| Stands(lib, c, op, key, s, m);
        if Allows(Succeeding, Settled(Succeeding, s.files, m)) {
          NotYetAudited(lib, c, op, key, s, m);
        }
        AbandonShape(lib, c, op, key, Succeeding, s, m, env);
        ReadingStaysStanding(lib, c, op, key, s, m);
      } else {
        var track: Track, m: nat :| Aside(c, op, key, track, s, m);
        if Allows(track, Settled(track, s.files, m)) {
          NotYetAuditedAside(c, op, key, track, s, m);
        }
        AbandonShape(lib, c, op, key, track, s, m, env);
        ReadingStaysAside(lib, c, op, key, track, s, m);
      }
    }
  }

  lemma PerformStaysReachable(lib: Lib, c: Crypto, op: Operation, key: nat, s: Init, turn: Turn)
    requires LibOk(lib) && Reachable(lib, c, op, key, s)
    ensures Reachable(lib, c, op, key, Perform(lib, c, op, key, s, turn).s)
  {
    var ready := Ready(s, turn.fuel, turn.tear);
    RefreshedIsReachable(lib, c, op, key, s, turn.fuel, turn.tear);
    match turn.command {
      case Begin => BeginStep(lib, c, op, key, ready, turn.env);
      case Continue => ResumeStep(lib, c, op, key, ready, turn.env);
      case GiveUp => AbandonStep(lib, c, op, key, ready, turn.env);
    }
  }

  lemma {:induction false} RunsStayReachable(lib: Lib, c: Crypto, op: Operation, key: nat, s: Init, turns: seq<Turn>)
    requires LibOk(lib) && Reachable(lib, c, op, key, s)
    ensures Reachable(lib, c, op, key, PerformAll(lib, c, op, key, s, turns))
    decreases |turns|
  {
    if turns != [] {
      PerformStaysReachable(lib, c, op, key, s, turns[0]);
      RunsStayReachable(lib, c, op, key, Perform(lib, c, op, key, s, turns[0]).s, turns[1..]);
    }
  }

  // ---------- what every such journal is like ----------

  /** A phase of the success path and the files it vouches for. */
  ghost predicate PhasesVouch(files: Files, gens: seq<Generation>) {
    && (HasPhase(gens, RootSigningPrepared) ==> Final(SigningFile) in files)
    && (HasPhase(gens, RootValidated) ==> Final(RootFile) in files && Final(PublicationFile) in files)
    && (HasPhase(gens, AuthorityPublished) ==> Final(PublishedRoot) in files && Final(AuthorityFile) in files)
  }

  lemma PhaseFixesTrack(track: Track, i: nat, k: nat)
    requires TrackOk(track) && 2 <= k < 8 && PhaseAt(track, i) == PhaseAt(Succeeding, k)
    ensures track == Succeeding && i == k
  {
  }

  /** A phase of the success path is recorded only once everything before it is in place. */
  lemma RecordedPhase(c: Crypto, op: Operation, key: nat, track: Track, files: Files, m: nat, k: nat)
    requires Progress(c, op, key, track, files, m) && 2 <= k < 8
    requires HasPhase(Generations(files, Count(track, m)), PhaseAt(Succeeding, k).value)
    ensures track == Succeeding && m > Rank(Succeeding, Gen(k))
  {
    var i := PhaseIndex(c, op, key, track, files, m, PhaseAt(Succeeding, k).value);
    PhaseFixesTrack(track, i, k);
    CountsGenerations(track, m, k);
  }

  lemma PhaseIndex(c: Crypto, op: Operation, key: nat, track: Track, files: Files, m: nat, phase: Phase)
    returns (i: nat)
    requires Progress(c, op, key, track, files, m) && HasPhase(Generations(files, Count(track, m)), phase)
    ensures i < Count(track, m) && PhaseAt(track, i) == Some(phase)
  {
    var gens := Generations(files, Count(track, m));
    i :| i < |gens| && gens[i].phase == phase;
    PhaseOfGeneration(c, op, key, track, files, m, i);
  }

  lemma PhasesAreVouched(c: Crypto, op: Operation, key: nat, track: Track, files: Files, m: nat)
    requires Progress(c, op, key, track, files, m)
    ensures PhasesVouch(files, Generations(files, Count(track, m)))
  {
    var gens := Generations(files, Count(track, m));
    assert Rank(Succeeding, SigningFile) == 4 && Rank(Succeeding, RootFile) == 6 && Rank(Succeeding, PublicationFile)
          == 7;
    assert Rank(Succeeding, PublishedRoot) == 9 && Rank(Succeeding, AuthorityFile) == 10;
    if HasPhase(gens, RootSigningPrepared) {
      RecordedPhase(c, op, key, track, files, m, 4);
    }
    if HasPhase(gens, RootValidated) {
      RecordedPhase(c, op, key, track, files, m, 5);
    }
    if HasPhase(gens, AuthorityPublished) {
      RecordedPhase(c, op, key, track, files, m, 6);
    }
  }

  lemma NeverBoth(c: Crypto, op: Operation, key: nat, track: Track, files: Files, m: nat)
    requires Progress(c, op, key, track, files, m)
    ensures var gens := Generations(files, Count(track, m));
            HasPhase(gens, FinalizeSucceeded) ==> !HasPhase(gens, AbandonVerified)
  {
    var gens := Generations(files, Count(track, m));
    if HasPhase(gens, FinalizeSucceeded) {
      RecordedPhase(c, op, key, track, files, m, 2);
      SuccessNeverAbandons(c, op, key, files, m);
    }
  }

  lemma SuccessNeverAbandons(c: Crypto, op: Operation, key: nat, files: Files, m: nat)
    requires Progress(c, op, key, Succeeding, files, m)
    ensures !HasPhase(Generations(files, Count(Succeeding, m)), AbandonVerified)
  {
    var gens := Generations(files, Count(Succeeding, m));
    forall i | 0 <= i < |gens| ensures gens[i].phase != AbandonVerified {
      PhaseOfGeneration(c, op, key, Succeeding, files, m, i);
    }
  }

  /** The journal has been abandoned after a failure of the key's finalization. */
  predicate AbandonedAfterFailure(files: Files) {
    && Final(Gen(2)) in files && PhaseOn(files, 2) == Some(FinalizeFailed)
    && Final(Gen(3)) in files && PhaseOn(files, 3) == Some(AbandonVerified)
  }

  /** Whatever the run, the journal it leaves is one that `validate_journal` accepts exactly
      when it was not abandoned after a recorded failure; an accepted one has at most eight
      generations, never both a finalized key and a verified abandonment, and each phase past
      the key vouches for the files it stands for. */
  lemma JournalsStayValid(lib: Lib, c: Crypto, op: Operation, key: nat, blank: Init, turns: seq<Turn>)
    requires LibOk(lib) && InitFresh.Blank(blank)
    ensures var files := PerformAll(lib, c, op, key, blank, turns).files;
            Final(Gen(0)) in files ==>
              && (JournalOf(lib, c, op.id, files).Some? <==> !AbandonedAfterFailure(files))
              && (JournalOf(lib, c, op.id, files).Some? ==>
                    var gens := JournalOf(lib, c, op.id, files).value;
                    && |gens| <= 8 && PhasesVouch(files, gens)
                    && !(HasPhase(gens, FinalizeSucceeded) && HasPhase(gens, AbandonVerified)))
  {
    RunsStayReachable(lib, c, op, key, blank, turns);
    var s := PerformAll(lib, c, op, key, blank, turns);
    if Final(Gen(0)) in s.files {
      var track, m := ProgressOf(lib, c, op, key, s);
      ValidInProgress(lib, c, op, key, track, s.files, m);
    }
  }

  lemma IllegalMeans(c: Crypto, op: Operation, key: nat, track: Track, files: Files, m: nat)
    requires Progress(c, op, key, track, files, m)
    ensures AbandonedAfterFailure(files) <==> !Legal(track, m)
  {
    CountsGenerations(track, m, 2);
    CountsGenerations(track, m, 3);
    PhasesOnRecord(c, op, key, track, files, m, 2);
    PhasesOnRecord(c, op, key, track, files, m, 3);
  }

  lemma ValidInProgress(lib: Lib, c: Crypto, op: Operation, key: nat, track: Track, files: Files, m: nat)
    requires LibOk(lib) && Progress(c, op, key, track, files, m) && Final(Gen(0)) in files
    ensures JournalOf(lib, c, op.id, files).Some? <==> !AbandonedAfterFailure(files)
    ensures JournalOf(lib, c, op.id, files).Some? ==>
              var gens := JournalOf(lib, c, op.id, files).value;
              && |gens| <= 8 && PhasesVouch(files, gens)
              && !(HasPhase(gens, FinalizeSucceeded) && HasPhase(gens, AbandonVerified))
  {
    assert m > 0;
    JournalReads(lib, c, op, key, track, files, m);
    IllegalMeans(c, op, key, track, files, m);
    PhasesAreVouched(c, op, key, track, files, m);
    NeverBoth(c, op, key, track, files, m);
  }

  lemma ProgressOf(lib: Lib, c: Crypto, op: Operation, key: nat, s: Init) returns (track: Track, m: nat)
    requires Reachable(lib, c, op, key, s) && !InitFresh.Blank(s)
    ensures Progress(c, op, key, track, s.files, m)
  {
    if StandsSomewhere(lib, c, op, key, s) {
      track := Succeeding;
      m :| Stands(lib, c, op, key, s, m);
    } else {
      track, m :| Aside(c, op, key, track, s, m);
    }
  }
}
