/** What the deletion protocol promises over any number of runs, each stopped by a fault, by
    the key store, or between any two file operations. */
module DeletionRuns {
  import opened Publication
  import opened Records
  import opened Deletion
  import ClientFiles

  function IntentOf(s: Client): Option<DeletionIntent> {
    if Final(IntentArtifact) in s.files then IntentIn(s.files[Final(IntentArtifact)]) else None
  }

  predicate IntentSound(m: Metadata, s: Client) {
    && (Final(IntentArtifact) in s.files ==>
          && s.files[Final(IntentArtifact)].Whole? && IntentOf(s).Some? && ValidIntent(IntentOf(s).value, m, m.keyName)
          && Pending(IntentArtifact) !in s.files)
    && (Pending(IntentArtifact) in s.files ==>
          match s.files[Pending(IntentArtifact)]
          case Empty => true
          case Torn(doc, _) => doc.RequestedDoc? && ValidIntent(doc.intent, m, m.keyName)
          case Whole(doc) => doc.RequestedDoc? && ValidIntent(doc.intent, m, m.keyName))
  }

  predicate RecordDocSound(m: Metadata, s: Client, doc: DeletionDoc) {
    doc.DeletedDoc? && IntentOf(s).Some? && ValidRecord(doc.record, m, IntentOf(s).value)
  }

  predicate RecordSound(m: Metadata, s: Client) {
    && (Final(RecordArtifact) in s.files ==>
          && !s.keyExists && Pending(RecordArtifact) !in s.files
          && s.files[Final(RecordArtifact)].Whole? && RecordDocSound(m, s, s.files[Final(RecordArtifact)].doc))
    && (Pending(RecordArtifact) in s.files ==>
          && !s.keyExists && IntentOf(s).Some?
          && match s.files[Pending(RecordArtifact)]
             case Empty => true
             case Torn(doc, _) => RecordDocSound(m, s, doc)
             case Whole(doc) => RecordDocSound(m, s, doc))
  }

  /** The key is gone only under a durable intent, a record exists only for an absent key and
      carries the intent's operation, and the key was deleted at most once. */
  predicate Consistent(m: Metadata, s: Client) {
    && IntentSound(m, s) && RecordSound(m, s)
    && (!s.keyExists ==> Final(IntentArtifact) in s.files)
    && s.deletions == (if s.keyExists then 0 else 1)
  }

  /** No final file changes or goes, and a deleted key stays deleted. */
  predicate Forward(s: Client, s': Client) {
    && (forall a: Artifact <- {IntentArtifact, RecordArtifact} ::
          Final(a) in s.files ==> Final(a) in s'.files && s'.files[Final(a)] == s.files[Final(a)])
    && (!s.keyExists ==> !s'.keyExists) && s'.tear == s.tear
  }

  /** Nothing half-written: what faults between file operations leave. */
  predicate Tidy(s: Client) {
    Pending(IntentArtifact) !in s.files
          && (Pending(RecordArtifact) in s.files ==> s.files[Pending(RecordArtifact)].Whole?)
  }

  const DELETION_STEPS := 16

  // ---------- the intent ----------

  lemma PublishIntent(m: Metadata, s: Client, i: DeletionIntent)
    requires Consistent(m, s) && Final(IntentArtifact) !in s.files && ValidIntent(i, m, m.keyName)
    ensures var out := PublishInto(s, IntentArtifact, RequestedDoc(i));
            && Consistent(m, out.s) && Forward(s, out.s) && out.s.keyExists == s.keyExists
            && (out.Ok? ==> IntentOf(out.s) == Some(i) && Final(IntentArtifact) in out.s.files)
            && (s.fuel >= PUBLICATION_STEPS ==>
                  && out.s.fuel >= s.fuel - PUBLICATION_STEPS
                  && (out.Ok? <==> StagedIntentFits(s, i))
                  && (Tidy(s) ==> Tidy(out.s)))
  {
    var blob := Whole(RequestedDoc(i));
    ClientFiles.ArtifactIsExactPublication(s.files, IntentArtifact, blob, Empty, TornBlob(s.tear, blob), s.fuel);
    DestinationIsAbsentOrExact(s.files, IntentArtifact, blob, Empty, TornBlob(s.tear, blob), s.fuel);
    assert Pending(RecordArtifact) !in s.files;
  }

  predicate StagedIntentFits(s: Client, i: DeletionIntent) {
    Pending(IntentArtifact) in s.files ==>
      s.files[Pending(IntentArtifact)] == Empty || s.files[Pending(IntentArtifact)] == Whole(RequestedDoc(i))
  }

  lemma EnsureIntentStep(m: Metadata, s: Client, env: Env)
    requires Consistent(m, s)
    ensures var out := EnsureIntent(s, m, m.keyName, IntentOf(s), env);
            && Consistent(m, out.s) && Forward(s, out.s) && out.s.keyExists == s.keyExists
            && (out.Ok? ==>
                IntentOf(out.s) == Some(out.value) && ValidIntent(out.value, m, m.keyName)
                    && Final(IntentArtifact) in out.s.files)
            && (s.fuel >= DELETION_STEPS ==>
                  && out.s.fuel >= s.fuel - PUBLICATION_STEPS
                  && (Tidy(s) ==> Tidy(out.s))
                  && (env.opens && env.fault.None? ==>
                        (out.Ok? <==> Final(IntentArtifact) in s.files || StagedIntentFits(s,
                            NewIntent(m, m.keyName, env)))))
            && (Final(IntentArtifact) in s.files ==> out.s == s)
            && (Pending(RecordArtifact) in s.files ==> out.s == s)
  {
    if Final(IntentArtifact) !in s.files {
      PublishIntent(m, s, NewIntent(m, m.keyName, env));
    }
  }

  // ---------- the key ----------

  lemma EnsureAbsentStep(m: Metadata, s: Client, env: Env)
    requires Consistent(m, s) && Final(IntentArtifact) in s.files
    ensures var out := EnsureAbsent(s, env);
            && Consistent(m, out.s) && Forward(s, out.s) && out.s.files == s.files
            && (out.Ok? ==> !out.s.keyExists)
            && (s.fuel >= 1 ==> out.s.fuel >= s.fuel - 1)
            && (s.fuel >= 1 && env.opens && env.deletes && env.reports && env.fault.None? ==> out.Ok?)
  {
  }

  // ---------- the record ----------

  predicate StagedRecordFits(s: Client) {
    Pending(RecordArtifact) in s.files ==> s.files[Pending(RecordArtifact)].Whole?
  }

  lemma ChooseRecordStep(m: Metadata, s: Client, i: DeletionIntent, env: Env)
    requires Consistent(m, s) && IntentOf(s) == Some(i)
    ensures var out := ChooseRecord(s, m, i, env);
            && out.s == s
            && (out.Ok? ==> ValidRecord(out.value, m, i))
            && (StagedRecordFits(s) ==>
                out.Ok? && (Pending(RecordArtifact) in s.files ==>
                    s.files[Pending(RecordArtifact)] == Whole(DeletedDoc(out.value))))
            && (Pending(RecordArtifact) in s.files && s.files[Pending(RecordArtifact)] == Empty ==> out.Err?)
  {
  }

  lemma StageRecord(m: Metadata, s: Client, i: DeletionIntent, r: DeletionRecord)
    requires Consistent(m, s) && IntentOf(s) == Some(i) && !s.keyExists && ValidRecord(r, m, i)
    requires Final(RecordArtifact) !in s.files
    requires Pending(RecordArtifact) in s.files ==> s.files[Pending(RecordArtifact)] != Empty
    ensures var out := StageArtifact(s, RecordArtifact, DeletedDoc(r));
            && Consistent(m, out.s) && Forward(s, out.s) && IntentOf(out.s) == Some(i) && !out.s.keyExists
            && Final(RecordArtifact) !in out.s.files
            && (out.Ok? ==>
                Pending(RecordArtifact) in out.s.files && out.s.files[Pending(RecordArtifact)] == Whole(DeletedDoc(r)))
            && (s.fuel >= 2 ==>
                  && out.s.fuel >= s.fuel - 2 && (Tidy(s) ==> Tidy(out.s))
                  && (out.Ok? <==>
                      (Pending(RecordArtifact) in s.files ==>
                          s.files[Pending(RecordArtifact)] == Whole(DeletedDoc(r)))))
  {
  }

  lemma CommitRecord(m: Metadata, s: Client, i: DeletionIntent, r: DeletionRecord)
    requires Consistent(m, s) && IntentOf(s) == Some(i) && !s.keyExists && ValidRecord(r, m, i)
    requires Final(RecordArtifact) !in s.files
    requires Pending(RecordArtifact) in s.files && s.files[Pending(RecordArtifact)] == Whole(DeletedDoc(r))
    ensures var out := CommitArtifact(s, RecordArtifact, DeletedDoc(r));
            && Consistent(m, out.s) && Forward(s, out.s) && (Tidy(s) ==> Tidy(out.s))
            && (out.Ok? ==> Final(RecordArtifact) in out.s.files)
            && (s.fuel >= 1 ==> out.Ok?)
  {
  }

  lemma WriteRecordStep(m: Metadata, s: Client, i: DeletionIntent, env: Env)
    requires Consistent(m, s) && IntentOf(s) == Some(i) && !s.keyExists && Final(RecordArtifact) !in s.files
    ensures var out := WriteRecord(s, m, i, env);
            && Consistent(m, out.s) && Forward(s, out.s)
            && (out.Ok? ==> Final(RecordArtifact) in out.s.files)
            && (s.fuel >= 4 ==>
                  && (Tidy(s) ==> Tidy(out.s))
                  && (out.Ok? ==> StagedRecordFits(s))
                  && (env.fault.None? && StagedRecordFits(s) ==> out.Ok?))
  {
    ChooseRecordStep(m, s, i, env);
    var o1 := ChooseRecord(s, m, i, env);
    if o1.Ok? {
      StageRecord(m, s, i, o1.value);
      var o2 := StageArtifact(s, RecordArtifact, DeletedDoc(o1.value));
      if o2.Ok? {
        CommitRecord(m, o2.s, i, o1.value);
      }
    }
  }

  // ---------- one run ----------

  /** What an operator can see: the record is there, or nothing half-written is in its way.
      A complete staged intent counts as half-written, since a new run draws a new operation. */
  predicate Completable(m: Metadata, s: Client, env: Env) {
    || Final(RecordArtifact) in s.files
    || (Final(IntentArtifact) in s.files && StagedRecordFits(s))
    || (Final(IntentArtifact) !in s.files && StagedIntentFits(s, NewIntent(m, m.keyName, env)))
  }

  lemma ForwardOn(a: Client, b: Client, c: Client)
    requires Forward(a, b) && Forward(b, c)
    ensures Forward(a, c)
  {
  }

  lemma FinishStep(m: Metadata, s: Client, env: Env)
    requires Consistent(m, s) && Final(RecordArtifact) !in s.files
    ensures var out := Finish(s, m, m.keyName, IntentOf(s), env);
            && Consistent(m, out.s) && Forward(s, out.s)
            && (out.Ok? ==> Final(RecordArtifact) in out.s.files)
            && (s.fuel >= DELETION_STEPS ==>
                  && (Tidy(s) ==> Tidy(out.s))
                  && (env.opens && env.deletes && env.reports && env.fault.None? ==>
                      (out.Ok? <==> Completable(m, s, env))))
  {
    EnsureIntentStep(m, s, env);
    var o1 := EnsureIntent(s, m, m.keyName, IntentOf(s), env);
    if o1.Ok? {
      NoRecordYet(m, s, o1.s, env);
      EnsureAbsentStep(m, o1.s, env);
      var o2 := EnsureAbsent(o1.s, env);
      ForwardOn(s, o1.s, o2.s);
      if o2.Ok? {
        WriteRecordStep(m, o2.s, o1.value, env);
        ForwardOn(s, o2.s, WriteRecord(o2.s, m, o1.value, env).s);
      }
    }
  }

  lemma NoRecordYet(m: Metadata, s: Client, s': Client, env: Env)
    requires Consistent(m, s) && Final(RecordArtifact) !in s.files
    requires EnsureIntent(s, m, m.keyName, IntentOf(s), env).s == s'
    ensures Final(RecordArtifact) !in s'.files
    ensures Pending(RecordArtifact) in s'.files <==> Pending(RecordArtifact) in s.files
    ensures Pending(RecordArtifact) in s.files ==> s'.files == s.files
  {
    if Final(IntentArtifact) !in s.files {
      var blob := Whole(RequestedDoc(NewIntent(m, m.keyName, env)));
      ClientFiles.ArtifactIsExactPublication(s.files, IntentArtifact, blob, Empty, TornBlob(s.tear, blob), s.fuel);
      DestinationIsAbsentOrExact(s.files, IntentArtifact, blob, Empty, TornBlob(s.tear, blob), s.fuel);
    }
  }

  lemma RunStep(m: Metadata, s: Client, env: Env)
    requires Consistent(m, s)
    ensures var out := DeleteKey(s, m, m.keyName, env);
            && Consistent(m, out.s) && Forward(s, out.s)
            && (out.Ok? ==> Final(RecordArtifact) in out.s.files)
            && (s.fuel >= DELETION_STEPS ==>
                  && (Tidy(s) ==> Tidy(out.s))
                  && (env.opens && env.deletes && env.reports && env.fault.None? ==>
                      (out.Ok? <==> Completable(m, s, env))))
  {
    assert LoadIntent(s, m, m.keyName) == Ok(s, IntentOf(s));
    if Final(RecordArtifact) !in s.files {
      FinishStep(m, s, env);
    }
  }

  // ---------- any number of runs ----------

  /** One giving of the command, with the confirmation typed. */
  datatype Attempt = Attempt(confirmation: nat, env: Env, fuel: nat, tear: Tear)

  function Ready(s: Client, a: Attempt): Client {
    s.(fuel := a.fuel, tear := a.tear)
  }

  function Give(m: Metadata, s: Client, a: Attempt): Did<()> {
    DeleteKey(Ready(s, a), m, a.confirmation, a.env)
  }

  function Runs(m: Metadata, s: Client, attempts: seq<Attempt>): Client
    decreases |attempts|
  {
    if attempts == [] then s
    else Runs(m, Give(m, s, attempts[0]).s, attempts[1..])
  }

  function Rank(status: Standing): nat {
    match status
    case NotRequested => 0
    case PendingRecovery => 1
    case Completed => 2
  }

  lemma StatusIs(m: Metadata, s: Client)
    requires Consistent(m, s)
    ensures DeletionStatus(s, m) ==
            Ok(s, if Final(RecordArtifact) in s.files then Completed
                  else if Final(IntentArtifact) in s.files then PendingRecovery else NotRequested)
  {
  }

  /** The confirmation names the key. */
  predicate Confirmed(m: Metadata, a: Attempt) { a.confirmation == m.keyName }

  /** Without the right confirmation the command is refused before it looks at anything. */
  lemma UnconfirmedIsRefused(m: Metadata, s: Client, a: Attempt)
    ensures !Confirmed(m, a) ==> Give(m, s, a) == Err(Ready(s, a), Precondition)
  {
  }

  lemma GivenStep(m: Metadata, s: Client, a: Attempt)
    requires Consistent(m, s)
    ensures var out := Give(m, s, a);
            && Consistent(m, out.s) && Forward(Ready(s, a), out.s)
            && (a.fuel >= DELETION_STEPS && Tidy(s) ==> Tidy(out.s))
  {
    if Confirmed(m, a) {
      RunStep(m, Ready(s, a), a.env);
    }
  }

  /** The attempts that name the key. */
  function ConfirmedOnly(m: Metadata, attempts: seq<Attempt>): seq<Attempt>
    decreases |attempts|
  {
    if attempts == [] then []
    else (if Confirmed(m, attempts[0]) then [attempts[0]] else []) + ConfirmedOnly(m, attempts[1..])
  }

  lemma {:induction false} FuelIsReset(m: Metadata, s: Client, attempts: seq<Attempt>, fuel: nat, tear: Tear)
    requires attempts != []
    ensures Runs(m, s.(fuel := fuel, tear := tear), attempts) == Runs(m, s, attempts)
  {
    assert Ready(s.(fuel := fuel, tear := tear), attempts[0]) == Ready(s, attempts[0]);
  }

  /** Only attempts that name the key do anything: leaving the others out of a run changes no
      file, neither the key nor the number of deletions; and each of the others is refused. */
  lemma {:induction false} OnlyConfirmedAct(m: Metadata, s: Client, attempts: seq<Attempt>)
    ensures var s', t := Runs(m, s, attempts), Runs(m, s, ConfirmedOnly(m, attempts));
            s'.files == t.files && s'.keyExists == t.keyExists && s'.deletions == t.deletions
    ensures forall i :: 0 <= i < |attempts| && !Confirmed(m, attempts[i]) ==>
              var before := Runs(m, s, attempts[..i]);
              Give(m, before, attempts[i]) == Err(Ready(before, attempts[i]), Precondition)
    decreases |attempts|
  {
    if attempts != [] {
      var next := Give(m, s, attempts[0]).s;
      OnlyConfirmedAct(m, next, attempts[1..]);
      var rest := ConfirmedOnly(m, attempts[1..]);
      if Confirmed(m, attempts[0]) {
        assert ConfirmedOnly(m, attempts) == [attempts[0]] + rest && ([attempts[0]] + rest)[1..] == rest;
      } else {
        UnconfirmedIsRefused(m, s, attempts[0]);
        assert ConfirmedOnly(m, attempts) == [] + rest == rest;
        if rest != [] {
          FuelIsReset(m, s, rest, attempts[0].fuel, attempts[0].tear);
        }
      }
      forall i | 0 <= i < |attempts| && !Confirmed(m, attempts[i])
        ensures var before := Runs(m, s, attempts[..i]);
                Give(m, before, attempts[i]) == Err(Ready(before, attempts[i]), Precondition)
      {
        UnconfirmedIsRefused(m, Runs(m, s, attempts[..i]), attempts[i]);
      }
    }
  }

  lemma {:induction false} RunsAreConsistent(m: Metadata, s: Client, attempts: seq<Attempt>)
    requires Consistent(m, s)
    ensures var s' := Runs(m, s, attempts);
            && Consistent(m, s') && Forward(s.(tear := s'.tear), s')
            && (Tidy(s) && (forall a <- attempts :: a.fuel >= DELETION_STEPS) ==> Tidy(s'))
    decreases |attempts|
  {
    if attempts != [] {
      GivenStep(m, s, attempts[0]);
      RunsAreConsistent(m, Give(m, s, attempts[0]).s, attempts[1..]);
    }
  }

  /** The state before the command is first given. */
  predicate Untouched(s: Client) {
    s.files == map[] && s.keyExists && s.deletions == 0
  }

  /** Over any runs from the untouched state: the key is gone only under a durable intent, the
      record means it is gone and names the intent's operation, and it was deleted at most once. */
  lemma DeletionIsSafe(m: Metadata, s: Client, attempts: seq<Attempt>)
    requires Untouched(s)
    ensures var s' := Runs(m, s, attempts);
            && s'.deletions <= 1 && (s'.deletions == 1 <==> !s'.keyExists)
            && (!s'.keyExists ==>
                Final(IntentArtifact) in s'.files && IntentOf(s').Some?
                    && ValidIntent(IntentOf(s').value, m, m.keyName))
            && (Final(RecordArtifact) in s'.files ==>
                  && !s'.keyExists && RecordIn(s'.files[Final(RecordArtifact)]).Some?
                  && RecordIn(s'.files[Final(RecordArtifact)]).value.operationId == IntentOf(s').value.operationId)
  {
    RunsAreConsistent(m, s, attempts);
  }

  /** Further runs never change the intent's operation, never take the status back, and never
      change a record. */
  lemma StatusOnlyAdvances(m: Metadata, s: Client, attempts: seq<Attempt>)
    requires Consistent(m, s)
    ensures var s' := Runs(m, s, attempts);
            && DeletionStatus(s, m).Ok? && DeletionStatus(s', m).Ok?
            && Rank(DeletionStatus(s, m).value) <= Rank(DeletionStatus(s', m).value)
            && (IntentOf(s).Some? ==> IntentOf(s') == IntentOf(s))
            && (Final(RecordArtifact) in s.files ==>
                Final(RecordArtifact) in s'.files && s'.files[Final(RecordArtifact)] == s.files[Final(RecordArtifact)])
  {
    RunsAreConsistent(m, s, attempts);
    StatusIs(m, s);
    StatusIs(m, Runs(m, s, attempts));
  }

  /** After any runs, one fault-free run completes exactly when nothing half-written is in its
      way; faults at the six boundaries alone never leave anything half-written. */
  lemma OneCleanRunCompletes(m: Metadata, s: Client, attempts: seq<Attempt>, last: Attempt)
    requires Untouched(s) && last.fuel >= DELETION_STEPS
    requires last.env.opens && last.env.deletes && last.env.reports && last.env.fault.None?
    ensures var stopped := Ready(Runs(m, s, attempts), last);
            var out := Give(m, stopped, last);
            && (out.Ok? <==> Confirmed(m, last) && Completable(m, stopped, last.env))
            && (out.Ok? ==> DeletionStatus(out.s, m) == Ok(out.s, Completed))
            && (Confirmed(m, last) && (forall a <- attempts :: a.fuel >= DELETION_STEPS) ==> out.Ok?)
  {
    RunsAreConsistent(m, s, attempts);
    var stopped := Ready(Runs(m, s, attempts), last);
    assert Ready(stopped, last) == stopped;
    UnconfirmedIsRefused(m, stopped, last);
    RunStep(m, stopped, last.env);
    StatusIs(m, DeleteKey(stopped, m, m.keyName, last.env).s);
  }

  // ---------- what is never recovered ----------

  /** A record is staged but not in full, or an intent is staged with something in it. */
  predicate Stalled(s: Client) {
    && Final(RecordArtifact) !in s.files
    && (|| (Pending(RecordArtifact) in s.files && !s.files[Pending(RecordArtifact)].Whole?)
        || (Pending(IntentArtifact) in s.files && s.files[Pending(IntentArtifact)] != Empty))
  }

  /** The run draws another operation than that of an intent staged in full. */
  predicate DrawsAnother(s: Client, env: Env) {
    Pending(IntentArtifact) in s.files ==>
      match s.files[Pending(IntentArtifact)]
      case Whole(RequestedDoc(i)) => env.operationId != i.operationId
      case _ => true
  }

  lemma StalledIs(m: Metadata, s: Client, env: Env)
    requires Consistent(m, s) && DrawsAnother(s, env)
    ensures Stalled(s) <==> !Completable(m, s, env)
  {
  }

  lemma StagedIntentIsRefused(m: Metadata, s: Client, env: Env)
    requires Consistent(m, s) && Final(RecordArtifact) !in s.files && DrawsAnother(s, env)
    requires Pending(IntentArtifact) in s.files && s.files[Pending(IntentArtifact)] != Empty
    ensures var out := DeleteKey(s, m, m.keyName, env); out.Err? && out.s == s
  {
    var blob := Whole(RequestedDoc(NewIntent(m, m.keyName, env)));
    ClientFiles.ArtifactIsExactPublication(s.files, IntentArtifact, blob, Empty, TornBlob(s.tear, blob), s.fuel);
    assert Final(IntentArtifact) !in s.files;
  }

  lemma StagedRecordIsRefused(m: Metadata, s: Client, env: Env)
    requires Consistent(m, s) && Final(RecordArtifact) !in s.files
    requires Pending(RecordArtifact) in s.files && !s.files[Pending(RecordArtifact)].Whole?
    ensures var out := DeleteKey(s, m, m.keyName, env); out.Err? && out.s == s
  {
    assert LoadIntent(s, m, m.keyName) == Ok(s, IntentOf(s));
    var i := IntentOf(s).value;
    assert EnsureAbsent(s, env).s == s;
    assert WriteRecord(s, m, i, env).Err? && WriteRecord(s, m, i, env).s == s;
  }

  lemma StalledStep(m: Metadata, s: Client, a: Attempt)
    requires Consistent(m, s) && Stalled(s) && DrawsAnother(s, a.env)
    ensures var out := Give(m, s, a); out.Err? && out.s == Ready(s, a)
  {
    UnconfirmedIsRefused(m, s, a);
    if Pending(IntentArtifact) in s.files && s.files[Pending(IntentArtifact)] != Empty {
      StagedIntentIsRefused(m, Ready(s, a), a.env);
    } else {
      StagedRecordIsRefused(m, Ready(s, a), a.env);
    }
  }

  lemma {:induction false} StalledStays(m: Metadata, s: Client, attempts: seq<Attempt>)
    requires Consistent(m, s) && Stalled(s) && (forall a <- attempts :: DrawsAnother(s, a.env))
    ensures var s' := Runs(m, s, attempts); s' == s.(fuel := s'.fuel, tear := s'.tear)
    decreases |attempts|
  {
    if attempts != [] {
      assert attempts[0] in attempts;
      StalledStep(m, s, attempts[0]);
      assert forall a <- attempts[1..] :: a in attempts;
      StalledStays(m, Ready(s, attempts[0]), attempts[1..]);
    }
  }

  /** Let no run draw the operation of an intent staged in full. Then a state is stalled exactly
      when a fault-free run would not complete; and once it is, every run is refused and changes
      nothing, after any number of others. */
  lemma StalledForGood(m: Metadata, s: Client, attempts: seq<Attempt>, last: Attempt)
    requires Consistent(m, s) && (forall a <- attempts + [last] :: DrawsAnother(s, a.env))
    ensures Stalled(s) <==> !Completable(m, s, last.env)
    ensures var ready := Ready(Runs(m, s, attempts), last);
            var out := Give(m, ready, last);
            Stalled(s) ==> out.Err? && out.s == ready && ready == Ready(s, last)
  {
    var all := attempts + [last];
    assert last in all && forall a <- attempts :: a in all;
    StalledIs(m, s, last.env);
    if Stalled(s) {
      StalledStays(m, s, attempts);
      StalledStep(m, s, last);
    }
  }

  // ---------- what success and failure of one run mean, in any state ----------

  /** The intent on file is for this key, and the record for the intent. */
  predicate Recorded(m: Metadata, s: Client) {
    && Final(IntentArtifact) in s.files && Final(RecordArtifact) in s.files
    && match (IntentIn(s.files[Final(IntentArtifact)]), RecordIn(s.files[Final(RecordArtifact)]))
       case (Some(i), Some(r)) =>
         && i.version == 1 && i.identity == m && i.confirmation == m.keyName
         && r.version == 1 && r.identity == m && r.operationId == i.operationId && r.requestedAt == i.requestedAt
         && r.verifiedAbsent
       case _ => false
  }

  predicate RequestedFor(m: Metadata, s: Client) {
    Final(IntentArtifact) in s.files && match IntentIn(s.files[Final(IntentArtifact)])
                                        case Some(i) => i.version == 1 && i.identity == m && i.confirmation == m.keyName
                                        case None => false
  }

  lemma PublishedIs(s: Client, a: Artifact, doc: DeletionDoc)
    requires PublishInto(s, a, doc).Ok?
    ensures var c := PublishInto(s, a, doc).s;
            && c == s.(files := c.files, fuel := c.fuel) && Final(a) in c.files && c.files[Final(a)] == Whole(doc)
            && forall b: Name<Artifact> :: b != Final(a) && b != Pending(a) ==>
                 (b in c.files <==> b in s.files) && (b in s.files ==> c.files[b] == s.files[b])
  {
  }

  lemma WrittenIs(s: Client, m: Metadata, i: DeletionIntent, env: Env)
    requires WriteRecord(s, m, i, env).Ok?
    ensures var c := WriteRecord(s, m, i, env).s;
            && c == s.(files := c.files, fuel := c.fuel) && Final(RecordArtifact) in c.files
            && RecordIn(c.files[Final(RecordArtifact)]).Some?
            && ValidRecord(RecordIn(c.files[Final(RecordArtifact)]).value, m, i)
            && (Final(IntentArtifact) in s.files ==>
                  Final(IntentArtifact) in c.files && c.files[Final(IntentArtifact)] == s.files[Final(IntentArtifact)])
            && (Pending(RecordArtifact) !in s.files && Final(RecordArtifact) !in s.files ==>
                  RecordIn(c.files[Final(RecordArtifact)]).value.deletedAt == env.now)
  {
    var r := ChooseRecord(s, m, i, env).value;
    var o2 := StageArtifact(s, RecordArtifact, DeletedDoc(r));
    assert o2.s.files == s.files || o2.s.files == s.files[Pending(RecordArtifact) := Whole(DeletedDoc(r))]
        || o2.s.files == (s.files - {Pending(RecordArtifact)})[Pending(RecordArtifact) := Whole(DeletedDoc(r))];
  }

  lemma RequestedIs(m: Metadata, s: Client, existing: Option<DeletionIntent>, env: Env)
    requires EnsureIntent(s, m, m.keyName, existing, env).Ok?
    requires existing.Some? ==>
               && ValidIntent(existing.value, m, m.keyName) && Final(IntentArtifact) in s.files
               && IntentIn(s.files[Final(IntentArtifact)]) == existing
    ensures var out := EnsureIntent(s, m, m.keyName, existing, env);
            && out.s == s.(files := out.s.files, fuel := out.s.fuel)
            && RequestedFor(m, out.s) && IntentIn(out.s.files[Final(IntentArtifact)]) == Some(out.value)
            && (existing.None? ==> s.keyExists && out.value.operationId == env.operationId
                                   && out.value.requestedAt == env.now)
            && (existing.Some? ==> out.s == s)
  {
    if existing.None? {
      PublishedIs(s, IntentArtifact, RequestedDoc(NewIntent(m, m.keyName, env)));
    }
  }

  lemma LoadedIs(m: Metadata, s: Client)
    ensures var out := LoadIntent(s, m, m.keyName);
            && out.s == s
            && (out.Ok? && out.value.Some? ==>
                  && RequestedFor(m, s) && IntentIn(s.files[Final(IntentArtifact)]) == out.value
                  && ValidIntent(out.value.value, m, m.keyName))
            && (out.Ok? && out.value.None? ==> Final(IntentArtifact) !in s.files)
            && (Final(IntentArtifact) in s.files && !RequestedFor(m, s) ==> out.Err?)
  {
  }

  lemma AbsentIs(s: Client, env: Env)
    ensures var out := EnsureAbsent(s, env);
            && out.s == s.(keyExists := out.s.keyExists, deletions := out.s.deletions, fuel := out.s.fuel)
            && (out.Ok? ==> !out.s.keyExists && env.opens)
            && (!env.opens ==> out == Err(s, Provider))
            && (out.s.deletions == s.deletions || out.s.deletions == s.deletions + 1)
            && (out.s.deletions != s.deletions || out.s.keyExists != s.keyExists ==>
                  s.keyExists && !out.s.keyExists && env.deletes && out.s.deletions == s.deletions + 1)
            && (s.keyExists && !env.reports ==> out.Err?)
  {
  }

  /** From any state: success means that the confirmation names the key, that intent and record
      are on file for it and fit each other, and that the key is gone, unless the record was
      there before; nothing is deleted or written without the confirmation, nor deleted without
      an intent for this key on file. */
  lemma SuccessMeans(m: Metadata, s: Client, confirmation: nat, env: Env)
    ensures var out := DeleteKey(s, m, confirmation, env);
            && (out.Ok? ==> && confirmation == m.keyName && Recorded(m, out.s)
                            && (Final(RecordArtifact) in s.files || !out.s.keyExists)
                            && (Final(RecordArtifact) in s.files ==> out.s == s))
            && (out.s.files != s.files || out.s.keyExists != s.keyExists || out.s.deletions != s.deletions ==>
                  && confirmation == m.keyName && env.opens && Final(RecordArtifact) !in s.files)
            && (out.s.keyExists != s.keyExists || out.s.deletions != s.deletions ==>
                  s.keyExists && !out.s.keyExists && out.s.deletions == s.deletions + 1 && RequestedFor(m, out.s))
  {
    if confirmation == m.keyName {
      LoadedIs(m, s);
      var load := LoadIntent(s, m, confirmation);
      if load.Ok? && Final(RecordArtifact) !in s.files {
        FinishMeans(m, s, load.value, env);
      }
    }
  }

  lemma FinishMeans(m: Metadata, s: Client, existing: Option<DeletionIntent>, env: Env)
    requires Final(RecordArtifact) !in s.files
    requires existing.Some? ==>
               && ValidIntent(existing.value, m, m.keyName) && RequestedFor(m, s)
               && IntentIn(s.files[Final(IntentArtifact)]) == existing
    ensures var out := Finish(s, m, m.keyName, existing, env);
            && (out.Ok? ==> Recorded(m, out.s) && !out.s.keyExists)
            && (out.s.files != s.files || out.s.keyExists != s.keyExists || out.s.deletions != s.deletions ==>
                  env.opens)
            && (out.s.keyExists != s.keyExists || out.s.deletions != s.deletions ==>
                  s.keyExists && !out.s.keyExists && out.s.deletions == s.deletions + 1 && RequestedFor(m, out.s))
  {
    var o1 := EnsureIntent(s, m, m.keyName, existing, env);
    if o1.Ok? {
      RequestedIs(m, s, existing, env);
      AbsentIs(o1.s, env);
      var o2 := EnsureAbsent(o1.s, env);
      if o2.Ok? {
        WritingLeaves(o2.s, m, o1.value, env);
        if WriteRecord(o2.s, m, o1.value, env).Ok? {
          WrittenIs(o2.s, m, o1.value, env);
        }
      }
    }
  }

  lemma WritingLeaves(s: Client, m: Metadata, i: DeletionIntent, env: Env)
    ensures var c := WriteRecord(s, m, i, env).s;
            && c == s.(files := c.files, fuel := c.fuel)
            && (Final(IntentArtifact) in s.files ==>
                  Final(IntentArtifact) in c.files && c.files[Final(IntentArtifact)] == s.files[Final(IntentArtifact)])
  {
  }

  /** A key that is not there is not asked to be deleted. */
  lemma AbsentKeyIsRefused(m: Metadata, s: Client, env: Env)
    requires s.files == map[] && !s.keyExists
    ensures DeleteKey(s, m, m.keyName, env) == Err(s, if env.opens then Precondition else Provider)
  {
  }

  /** What a run that meets one of the six faults, and nothing else, leaves of an untouched key. */
  lemma FaultLeaves(m: Metadata, s: Client, env: Env, fault: Fault)
    requires Untouched(s) && s.fuel >= DELETION_STEPS
    requires env.opens && env.deletes && env.reports && env.fault == Some(fault)
    ensures var out := DeleteKey(s, m, m.keyName, env);
            && out.Err? && out.error == Injected
            && (Final(IntentArtifact) in out.s.files <==> fault != BeforeIntent)
            && (out.s.keyExists <==> fault == BeforeIntent || fault == AfterIntent)
            && (Pending(RecordArtifact) in out.s.files <==> fault == AfterFinalStaging)
            && (Final(RecordArtifact) in out.s.files <==> fault == AfterFinalPublication)
            && Pending(IntentArtifact) !in out.s.files
  {
  }

  /** The status, in any state: it changes nothing, and each answer has its own files behind it. */
  lemma StatusMeans(m: Metadata, s: Client)
    ensures var out := DeletionStatus(s, m);
            && out.s == s
            && (out == Ok(s, Completed) <==> Recorded(m, s))
            && (out == Ok(s, PendingRecovery) <==> RequestedFor(m, s) && Final(RecordArtifact) !in s.files)
            && (out == Ok(s, NotRequested) <==> Final(IntentArtifact) !in s.files && Final(RecordArtifact) !in s.files)
  {
  }
}
