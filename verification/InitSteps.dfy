/** Each step of an initialization command moves the progress on, or leaves it where it was. */
module InitSteps {
  import opened Publication
  import opened Records
  import opened Initialization
  import opened InitProgress
  import Validators

  // ---------- validate_journal ----------

  lemma {:induction false} NumbersBelow(s: set<nat>, n: nat)
    requires forall k: nat :: k in s <==> k < n
    ensures |s| == n
  {
    if n == 0 {
      assert s == {};
    } else {
      NumbersBelow(s - {n - 1}, n - 1);
    }
  }

  lemma SortedNumbers(lib: Lib, s: set<nat>, n: nat)
    requires LibOk(lib) && forall k: nat :: k in s <==> k < n
    ensures Upward(Validators.Sort(lib.list(s)), 0, n)
  {
    assert Enumerates(lib.list(s), s);
    var order := Validators.Sort(lib.list(s));
    Validators.SortedEnumerates(lib.list(s), s);
    Validators.EnumerationSize(order, s);
    NumbersBelow(s, n);
    forall j | 0 <= j < |order| ensures order[j] == j {
      Validators.AscendingBelowCount(order, j);
    }
  }

  lemma NumbersAre(files: Files)
    ensures forall k: nat :: k in GenNumbers(files) <==> Final(Gen(k)) in files
    ensures forall k: nat :: k in StagedNumbers(files) <==> Pending(Gen(k)) in files
  {
    forall k: nat | Final(Gen(k)) in files ensures k in GenNumbers(files) {
      assert Final(Gen(k)) in files.Keys;
    }
    forall k: nat | Pending(Gen(k)) in files ensures k in StagedNumbers(files) {
      assert Pending(Gen(k)) in files.Keys;
    }
  }

  /** A journal with at least one generation is accepted and read as it is, unless it has been
      abandoned after a failure. */
  lemma JournalReads(lib: Lib, c: Crypto, op: Operation, key: nat, track: Track, files: Files, m: nat)
    requires LibOk(lib) && Progress(c, op, key, track, files, m)
    ensures JournalOf(lib, c, op.id, files)
            == if m == 0 || !Legal(track, m) then None else Some(Generations(files, Count(track, m)))
  {
    var n := Count(track, m);
    NumbersAre(files);
    forall k: nat ensures k in GenNumbers(files) <==> k < n {
      CountsGenerations(track, m, k);
    }
    SortedNumbers(lib, GenNumbers(files), n);
    ReadsThem(c, op, key, track, files, m, Validators.Sort(lib.list(GenNumbers(files))), 0);
    if !Legal(track, m) {
      TransitionsAreNot(c, op, key, track, files, m);
    } else if m > 0 {
      TransitionsAreValid(c, op, key, track, files, m);
    }
  }

  lemma StagedGenerationIsNext(track: Track, m: nat, k: nat)
    requires TrackOk(track) && m < Items(track) && Rank(track, Gen(k)) == m
    ensures k == Count(track, m)
  {
  }

  ghost predicate NoStagedGeneration(files: Files) {
    forall k: nat :: Pending(Gen(k)) !in files
  }

  /** The staged generation, if any, parses; then it counts as written. */
  predicate GenerationReadable(files: Files, k: nat) {
    Pending(Gen(k)) in files && Parse(files[Pending(Gen(k))]).Some?
  }

  predicate GenerationTorn(files: Files, k: nat) {
    Pending(Gen(k)) in files && files[Pending(Gen(k))] != Empty && Parse(files[Pending(Gen(k))]).None?
  }

  /** Progress once a readable staged generation has been adopted. */
  function Settled(track: Track, files: Files, m: nat): nat {
    if GenerationReadable(files, Count(track, m)) then m + 1 else m
  }

  lemma OnlyStagedGeneration(c: Crypto, op: Operation, key: nat, track: Track, files: Files, m: nat)
    requires Progress(c, op, key, track, files, m)
    ensures forall j: nat :: Pending(Gen(j)) in files ==> j == Count(track, m)
  {
    forall j: nat | Pending(Gen(j)) in files ensures j == Count(track, m) {
      StagedGenerationIsNext(track, m, j);
    }
  }

  lemma EmptyIsRemoved(c: Crypto, op: Operation, key: nat, track: Track, files: Files, m: nat)
    requires var k := Count(track, m);
             Progress(c, op, key, track, files, m) && Pending(Gen(k)) in files && files[Pending(Gen(k))] == Empty
    ensures var now := files - {Pending(Gen(Count(track, m)))};
            Progress(c, op, key, track, now, m) && (forall g: InitFile :: Pending(g) !in now) && Kept(files, now)
  {
    var k := Count(track, m);
    OnlyStagedGeneration(c, op, key, track, files, m);
    assert Rank(track, Gen(k)) == m;
    forall g: InitFile | g != Gen(k) ensures Pending(g) !in files - {Pending(Gen(k))} {
      if Pending(g) in files {
        RankIsUnique(track, g, Gen(k));
      }
    }
    Restaged(c, op, key, track, files, m, Gen(k), files - {Pending(Gen(k))});
  }

  lemma ReadableIsAdopted(c: Crypto, op: Operation, key: nat, track: Track, files: Files, m: nat, fuel: nat)
    requires Progress(c, op, key, track, files, m) && GenerationReadable(files, Count(track, m)) && fuel > 0
    ensures var k := Count(track, m);
            var r := Adopt(files, Gen(k), fuel);
            && r.status == Done && r.fuel == fuel - 1 && Kept(files, r.dir)
            && Progress(c, op, key, track, r.dir, m + 1) && (forall g: InitFile :: Pending(g) !in r.dir)
  {
    var k := Count(track, m);
    assert Rank(track, Gen(k)) == m;
    ItemAdopted(c, op, key, track, files, m, Gen(k), fuel);
    NothingStagedAfter(track, files, m, Gen(k), files[Pending(Gen(k))]);
  }

  lemma ReadableBelongs(c: Crypto, op: Operation, key: nat, track: Track, files: Files, m: nat)
    requires Progress(c, op, key, track, files, m) && GenerationReadable(files, Count(track, m))
    ensures var k := Count(track, m);
            var doc := Parse(files[Pending(Gen(k))]).value;
            doc.GenerationDoc? && doc.generation.operation == op && doc.generation.sequence == k
  {
    assert StagedGood(c, op, key, track, files, Gen(Count(track, m)));
  }

  lemma OneAdoption(c: Crypto, op: Operation, key: nat, track: Track, s: Init, m: nat)
    requires Progress(c, op, key, track, s.files, m)
    ensures var k := Count(track, m);
            var out := AdoptGeneration(op.id, s, k);
            && out.s == s.(files := out.s.files, fuel := out.s.fuel) && Kept(s.files, out.s.files)
            && (out.Halted? ==> Progress(c, op, key, track, out.s.files, m))
            && (out.Going? ==>
                Progress(c, op, key, track, out.s.files, Settled(track, s.files, m)) && NoStagedGeneration(out.s.files))
            && (s.fuel >= 1 ==> out.s.fuel >= s.fuel - 1 && (out.Going? <==> !GenerationTorn(s.files, k)))
            && (Pending(Gen(k)) !in s.files ==> out == Going(s, ()))
            && (out.Halted? ==> out.s.files == s.files)
            && (out.s.files == s.files || forall g: InitFile :: Pending(g) !in out.s.files)
            && (!Unblocked(s.files) ==> out.s == s)
            && (GenerationTorn(s.files, k) ==> out.Halted?)
  {
    var k := Count(track, m);
    if !Unblocked(s.files) && Pending(Gen(k)) in s.files {
      BlocksTheNext(c, op, key, track, s.files, m, Gen(k));
    }
    OnlyStagedGeneration(c, op, key, track, s.files, m);
    if Pending(Gen(k)) in s.files {
      if s.files[Pending(Gen(k))] == Empty {
        EmptyIsRemoved(c, op, key, track, s.files, m);
      } else if GenerationReadable(s.files, k) {
        ReadableBelongs(c, op, key, track, s.files, m);
        if s.fuel > 0 {
          ReadableIsAdopted(c, op, key, track, s.files, m, s.fuel);
        }
      }
    }
  }

  lemma AdoptionIsOne(lib: Lib, c: Crypto, op: Operation, key: nat, track: Track, s: Init, m: nat)
    requires LibOk(lib) && Progress(c, op, key, track, s.files, m)
    ensures AdoptGenerations(op.id, s, Validators.Sort(lib.list(StagedNumbers(s.files))))
          == AdoptGeneration(op.id, s, Count(track, m))
  {
    var k := Count(track, m);
    NumbersAre(s.files);
    forall j: nat | Pending(Gen(j)) in s.files ensures j == k {
      StagedGenerationIsNext(track, m, j);
    }
    var listed := lib.list(StagedNumbers(s.files));
    assert Enumerates(listed, StagedNumbers(s.files));
    if Pending(Gen(k)) in s.files {
      assert StagedNumbers(s.files) == {k};
      Validators.EnumerationSize(listed, {k});
      assert listed[0] in listed;
      assert listed == [k];
      SortOne(k);
      var one := AdoptGeneration(op.id, s, k);
      assert [k][1..] == [];
      assert one.Going? ==> AdoptGenerations(op.id, one.s, []) == Going(one.s, ());
    } else {
      assert StagedNumbers(s.files) == {};
      Validators.EnumerationSize(listed, {});
    }
  }

  lemma SortOne(k: nat)
    ensures Validators.Sort([k]) == [k]
  {
    assert [k][1..] == [];
    assert Validators.Sort([]) == [];
  }

  ghost predicate InPlace(s: Init) {
    s.place == Active || s.place == InCompleted
  }

  /** What validating the journal does, for every amount of fuel. */
  lemma ValidateShape(lib: Lib, c: Crypto, op: Operation, key: nat, track: Track, s: Init, m: nat)
    requires LibOk(lib) && Progress(c, op, key, track, s.files, m) && InPlace(s)
    ensures var out := ValidateJournal(lib, c, op.id, s);
            var n := Settled(track, s.files, m);
            && out.s == s.(files := out.s.files, fuel := out.s.fuel) && Kept(s.files, out.s.files)
            && (out.Going? ==> && n > 0 && Legal(track, n)
                               && Progress(c, op, key, track, out.s.files, n) && NoStagedGeneration(out.s.files)
                               && out.value == Generations(out.s.files, Count(track, n)))
            && (s.fuel >= 1 ==>
                out.s.fuel >= s.fuel - 1
                    && (out.Going? <==> n > 0 && Legal(track, n) && !GenerationTorn(s.files, Count(track, m))))
            && (Pending(Gen(Count(track, m))) !in s.files ==> out.s == s && (out.Going? <==> m > 0 && Legal(track, m)))
            && (out.Halted? && n > 0 && Legal(track, n) ==> out.s.files == s.files)
            && (out.s.files == s.files
                || (Progress(c, op, key, track, out.s.files, n) && forall g: InitFile :: Pending(g) !in out.s.files))
            && (!Unblocked(s.files) ==> out.s == s)
            && (GenerationTorn(s.files, Count(track, m)) ==> out.Halted?)
  {
    AdoptionIsOne(lib, c, op, key, track, s, m);
    OneAdoption(c, op, key, track, s, m);
    var one := AdoptGeneration(op.id, s, Count(track, m));
    if one.Going? {
      JournalReads(lib, c, op, key, track, one.s.files, Settled(track, s.files, m));
    }
  }

  // ---------- appending a generation ----------

  /** The writer stands after the k generations written so far. */
  predicate WriterAt(c: Crypto, files: Files, w: Writer, k: nat) {
    w.sequence == k && w.prior == PriorOf(c, files, k) && (k > 0 ==> Final(Gen(k - 1)) in files)
  }

  lemma AppendStep(c: Crypto, op: Operation, key: nat, track: Track, s: Init, m: nat, w: Writer, k: nat, phase: Phase,
          evidence: Evidence, env: Env)
    requires Progress(c, op, key, track, s.files, m) && Rank(track, Gen(k)) == m < Items(track)
    requires WriterAt(c, s.files, w, k) && PhaseAt(track, k) == Some(phase)
    requires EvidenceFits(c, key, s.files, phase, evidence)
    ensures var out := Append(c, op, s, w, phase, evidence, env);
            && out.s == s.(files := out.s.files, fuel := out.s.fuel) && Kept(s.files, out.s.files)
            && (s.tear == NoBytes && Unblocked(s.files) ==> Unblocked(out.s.files))
            && (out.Halted? ==> Progress(c, op, key, track, out.s.files, m))
            && (out.Going? ==>
                Progress(c, op, key, track, out.s.files, m + 1) && WriterAt(c, out.s.files, out.value, k + 1)
                               && (forall f: InitFile :: Pending(f) !in out.s.files))
            && (s.fuel >= PUBLICATION_STEPS && Pending(Gen(k)) !in s.files ==>
                out.Going? && out.s.fuel >= s.fuel - PUBLICATION_STEPS)
            && (!Unblocked(s.files) ==> out.Halted? && out.s == s)
  {
    var doc := GenerationDoc(NextGeneration(op, w, phase, env.clock(w.sequence), evidence));
    ItemPublished(c, op, key, track, s.files, m, Gen(k), doc, s.tear, s.fuel);
    var out := Append(c, op, s, w, phase, evidence, env);
    if out.Going? {
      NothingStagedAfter(track, s.files, m, Gen(k), Whole(doc));
    }
  }
}
