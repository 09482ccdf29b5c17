/** How far an initialization has come. Its publications have one order; at every moment a
    prefix of them is final, the next one may be staged, and nothing else exists. */
module InitProgress {
  import opened Publication
  import opened Records
  import opened Initialization

  /** The ways the journal can continue. An abandonment begins as generation 1 or 2, or as
      generation 3 when a failure of the key's finalization is on record. */
  datatype Track = Succeeding | Failing(phase: Phase) | Abandoning(at: nat)

  predicate TrackOk(track: Track) {
    match track
    case Succeeding => true
    case Failing(phase) => phase == FinalizeFailed || phase == FinalizeUnexpected
    case Abandoning(at) => 1 <= at <= 3
  }

  function PhaseAt(track: Track, k: nat): Option<Phase> {
    if k == 0 then Some(Phase.Prepared)
    else
      match track
      case Succeeding =>
        (match k
         case 1 => Some(FinalizeStarted)
         case 2 => Some(FinalizeSucceeded)
         case 3 => Some(KeyValidated)
         case 4 => Some(RootSigningPrepared)
         case 5 => Some(RootValidated)
         case 6 => Some(AuthorityPublished)
         case 7 => Some(Completed)
         case _ => None)
      case Failing(phase) => if k == 1 then Some(FinalizeStarted) else if k == 2 then Some(phase) else None
      case Abandoning(at) =>
        if k < at then Some(if k == 1 then FinalizeStarted else FinalizeFailed)
        else if k == at then Some(AbandonVerified)
        else if k == at + 1 then Some(Abandoned) else None
  }

  /** Whether the first n generations of a track follow the table of transitions: after a
      failure, no abandonment does. */
  predicate Legal(track: Track, n: nat) {
    !(track == Abandoning(3) && n > 3)
  }

  const ALL := 13

  /** The number of publications of a track. */
  function Items(track: Track): nat {
    match track
    case Succeeding => ALL
    case Failing(_) => 3
    case Abandoning(at) => at + 2
  }

  /** The position of a file among the publications. */
  function Rank(track: Track, f: InitFile): nat {
    match f
    case Gen(k) => if track != Succeeding || k <= 3 then k else if k == 4 then 5 else if k == 5 then 8
                   else if k == 6 then 11 else if k == 7 then 12 else ALL + k
    case SigningFile => if track == Succeeding then 4 else 99
    case RootFile => if track == Succeeding then 6 else 99
    case PublicationFile => if track == Succeeding then 7 else 99
    case PublishedRoot => if track == Succeeding then 9 else 99
    case AuthorityFile => if track == Succeeding then 10 else 99
  }

  /** How many of the first m publications are generations. */
  function Count(track: Track, m: nat): nat {
    if track != Succeeding || m <= 4 then m else if m == 5 then 4 else if m <= 8 then 5
    else if m <= 11 then 6 else if m == 12 then 7 else 8
  }

  lemma CountsGenerations(track: Track, m: nat, k: nat)
    requires m <= Items(track)
    ensures Rank(track, Gen(k)) < m <==> k < Count(track, m)
  {
  }

  // ---------- what each file holds ----------

  /** Files whose staged bytes are compared or parsed exactly, never as almost complete JSON. */
  predicate IsExact(f: InitFile) {
    f == RootFile || f == PublishedRoot || f == AuthorityFile
  }

  function IntentAt(files: Files): Option<RootIntent> {
    match DocAt(files, SigningFile) case Some(SigningDoc(i)) => Some(i) case _ => None
  }

  function RootAt(files: Files): Option<Root> {
    match DocAt(files, RootFile) case Some(RootDoc(root)) => Some(root) case _ => None
  }

  function BundleAt(files: Files): Option<Bundle> {
    match DocAt(files, PublicationFile) case Some(PublicationDoc(b)) => Some(b) case _ => None
  }

  function PriorOf(c: Crypto, files: Files, k: nat): Option<Digest> {
    if k > 0 && Final(Gen(k - 1)) in files then Some(c.sha(files[Final(Gen(k - 1))])) else None
  }

  predicate GenerationFits(c: Crypto, op: Operation, track: Track, files: Files, k: nat, g: Generation) {
    && g.version == SCHEMA_VERSION && g.operation == op && g.sequence == k
    && PhaseAt(track, k) == Some(g.phase)
    && (k > 0 ==> Final(Gen(k - 1)) in files)
    && g.prior == PriorOf(c, files, k)
  }

  /** What a generation of this phase has to show. */
  predicate EvidenceFits(c: Crypto, key: nat, files: Files, phase: Phase, evidence: Evidence) {
    match phase
    case KeyValidated => evidence == KeyDigest(c.digest(key))
    case RootValidated =>
      Final(PublicationFile) in files && evidence == PublicationDigest(c.sha(files[Final(PublicationFile)]))
    case FinalizeFailed => evidence.Reopened?
    case FinalizeUnexpected => evidence.Reopened?
    case AbandonVerified => evidence == KeyAbsent
    case _ => evidence == NoEvidence
  }

  /** `doc` is what the publication of `f` is meant to hold, given the files before it. */
  predicate Suits(c: Crypto, op: Operation, key: nat, track: Track, files: Files, f: InitFile, doc: InitDoc) {
    match (f, doc)
    case (Gen(k), GenerationDoc(g)) =>
      GenerationFits(c, op, track, files, k, g) && EvidenceFits(c, key, files, g.phase, g.evidence)
    case (SigningFile, SigningDoc(i)) => IntentHolds(c, op, key, i)
    case (RootFile, RootDoc(root)) => IntentAt(files).Some? && RootHolds(c, IntentAt(files).value, key, root)
    case (PublicationFile, PublicationDoc(b)) =>
      IntentAt(files).Some? && RootAt(files).Some? && b
            == CreatePublication(c, IntentAt(files).value, RootAt(files).value)
    case (PublishedRoot, RootDoc(root)) => RootAt(files) == Some(root)
    case (AuthorityFile, AuthorityDoc(a)) => BundleAt(files).Some? && a == BundleAt(files).value.authority
    case _ => false
  }

  predicate Good(c: Crypto, op: Operation, key: nat, track: Track, files: Files, f: InitFile) {
    && DocAt(files, f).Some?
    && (IsExact(f) ==> files[Final(f)].Whole?)
    && Suits(c, op, key, track, files, f, DocAt(files, f).value)
  }

  predicate StagedGood(c: Crypto, op: Operation, key: nat, track: Track, files: Files, f: InitFile) {
    Pending(f) in files ==>
      match files[Pending(f)]
      case Empty => true
      case Torn(doc, _) => Suits(c, op, key, track, files, f, doc)
      case Whole(doc) => Suits(c, op, key, track, files, f, doc)
  }

  ghost predicate Progress(c: Crypto, op: Operation, key: nat, track: Track, files: Files, m: nat) {
    && TrackOk(track) && m <= Items(track)
    && (forall f: InitFile :: Final(f) in files <==> Rank(track, f) < m)
    && (forall f: InitFile :: Final(f) in files ==> Good(c, op, key, track, files, f))
    && (forall f: InitFile :: Pending(f) in files ==> m < Items(track) && Rank(track, f) == m)
    && (forall f: InitFile :: StagedGood(c, op, key, track, files, f))
  }

  /** A staged file that cannot be adopted or completed. */
  predicate Blocks(files: Files, f: InitFile) {
    && Pending(f) in files && files[Pending(f)].Torn?
    && (IsExact(f) || !files[Pending(f)].parses)
  }

  ghost predicate Unblocked(files: Files) {
    forall f: InitFile :: !Blocks(files, f)
  }

  // ---------- one publication more ----------

  /** Every final file of `a` is in `b` with the same contents. */
  ghost predicate Kept(a: Files, b: Files) {
    forall f: InitFile :: Final(f) in a ==> Final(f) in b && b[Final(f)] == a[Final(f)]
  }

  lemma SuitsOn(c: Crypto, op: Operation, key: nat, track: Track, a: Files, b: Files, f: InitFile, doc: InitDoc)
    requires Kept(a, b) && Suits(c, op, key, track, a, f, doc)
    ensures Suits(c, op, key, track, b, f, doc)
  {
  }

  lemma RankIsUnique(track: Track, f: InitFile, g: InitFile)
    requires TrackOk(track) && Rank(track, f) == Rank(track, g) < Items(track)
    ensures f == g
  {
  }

  lemma NothingStagedAfter(track: Track, files: Files, m: nat, f: InitFile, blob: InitBlob)
    requires TrackOk(track) && Rank(track, f) == m < Items(track)
    requires forall g: InitFile :: Pending(g) in files ==> Rank(track, g) == m
    ensures forall g: InitFile :: Pending(g) !in (files - {Pending(f)})[Final(f) := blob]
  {
    forall g: InitFile | Pending(g) in files ensures g == f {
      RankIsUnique(track, f, g);
    }
  }

  /** Replacing the staging of the current item. */
  lemma Restaged(c: Crypto, op: Operation, key: nat, track: Track, files: Files, m: nat, f: InitFile, now: Files)
    requires Progress(c, op, key, track, files, m) && Rank(track, f) == m < Items(track)
    requires forall g: InitFile :: (Final(g) in now <==> Final(g) in files) && (Final(g) in files ==>
          now[Final(g)] == files[Final(g)])
    requires forall g: InitFile :: g != f ==> Pending(g) !in now
    requires StagedGood(c, op, key, track, files, f)
    requires Pending(f) in now ==>
               match now[Pending(f)]
               case Empty => true
               case Torn(doc, _) => Suits(c, op, key, track, files, f, doc)
               case Whole(doc) => Suits(c, op, key, track, files, f, doc)
    ensures Progress(c, op, key, track, now, m)
  {
    forall g: InitFile | Final(g) in now ensures Good(c, op, key, track, now, g) {
      assert Good(c, op, key, track, files, g);
      SuitsOn(c, op, key, track, files, now, g, DocAt(files, g).value);
    }
    if Pending(f) in now && now[Pending(f)] != Empty {
      SuitsOn(c, op, key, track, files, now, f,
            if now[Pending(f)].Torn? then now[Pending(f)].of else now[Pending(f)].doc);
    }
  }

  lemma OneMoreFinal(track: Track, files: Files, m: nat, f: InitFile, blob: InitBlob)
    requires TrackOk(track) && Rank(track, f) == m < Items(track)
    requires forall g: InitFile :: Final(g) in files <==> Rank(track, g) < m
    requires forall g: InitFile :: Pending(g) in files ==> Rank(track, g) == m
    ensures var now := (files - {Pending(f)})[Final(f) := blob];
            && Kept(files, now)
            && (forall g: InitFile :: Final(g) in now <==> Rank(track, g) < m + 1)
            && (forall g: InitFile :: Pending(g) !in now)
  {
    var now := (files - {Pending(f)})[Final(f) := blob];
    forall g: InitFile ensures Final(g) in now <==> Rank(track, g) < m + 1 {
      if Rank(track, g) == m {
        RankIsUnique(track, f, g);
      }
    }
    forall g: InitFile ensures Pending(g) !in now {
      if Pending(g) in files {
        RankIsUnique(track, f, g);
      }
    }
  }

  /** The current item becomes final. */
  lemma Advanced(c: Crypto, op: Operation, key: nat, track: Track, files: Files, m: nat, f: InitFile, blob: InitBlob)
    requires Progress(c, op, key, track, files, m) && Rank(track, f) == m < Items(track)
    requires Parse(blob).Some? && (IsExact(f) ==> blob.Whole?) && Suits(c, op, key, track, files, f, Parse(blob).value)
    ensures Progress(c, op, key, track, (files - {Pending(f)})[Final(f) := blob], m + 1)
    ensures Kept(files, (files - {Pending(f)})[Final(f) := blob])
  {
    var now := (files - {Pending(f)})[Final(f) := blob];
    OneMoreFinal(track, files, m, f, blob);
    forall g: InitFile | Final(g) in now ensures Good(c, op, key, track, now, g) {
      if g == f {
        SuitsOn(c, op, key, track, files, now, f, Parse(blob).value);
      } else {
        GoodOn(c, op, key, track, files, now, g);
      }
    }
  }

  lemma GoodOn(c: Crypto, op: Operation, key: nat, track: Track, a: Files, b: Files, g: InitFile)
    requires Kept(a, b) && Final(g) in a && Good(c, op, key, track, a, g)
    ensures Good(c, op, key, track, b, g)
  {
    SuitsOn(c, op, key, track, a, b, g, DocAt(a, g).value);
  }

  /** Only the current item is ever staged, so only it can block. */
  lemma OnlyStaged(c: Crypto, op: Operation, key: nat, track: Track, files: Files, m: nat, f: InitFile, g: InitFile)
    requires Progress(c, op, key, track, files, m) && Pending(f) in files && Rank(track, g) == m
    ensures f == g
  {
    RankIsUnique(track, f, g);
  }

  lemma BlocksTheNext(c: Crypto, op: Operation, key: nat, track: Track, files: Files, m: nat, f: InitFile)
    requires Progress(c, op, key, track, files, m) && Rank(track, f) == m && !Unblocked(files)
    ensures Blocks(files, f)
  {
    var g: InitFile :| Blocks(files, g);
    OnlyStaged(c, op, key, track, files, m, g, f);
  }

  predicate StagingFits(files: Files, f: InitFile, doc: InitDoc) {
    Pending(f) in files ==> files[Pending(f)] == Empty || files[Pending(f)] == Whole(doc)
  }

  /** A publication that stopped, or was refused, leaves the progress as it was. */
  lemma ItemStopped(c: Crypto, op: Operation, key: nat, track: Track, files: Files, m: nat, f: InitFile, doc: InitDoc,
          tear: Tear, fuel: nat)
    requires Progress(c, op, key, track, files, m) && Rank(track, f) == m < Items(track)
    requires Suits(c, op, key, track, files, f, doc) && Final(f) !in files
    requires Publish(files, f, Whole(doc), Empty, TornBlob(tear, Whole(doc)), fuel).status != Done
    ensures var r := Publish(files, f, Whole(doc), Empty, TornBlob(tear, Whole(doc)), fuel);
            Progress(c, op, key, track, r.dir, m) && (tear == NoBytes && Unblocked(files) ==> Unblocked(r.dir))
  {
    var blob, torn := Whole(doc), TornBlob(tear, Whole(doc));
    var r := Publish(files, f, blob, Empty, torn, fuel);
    DestinationIsAbsentOrExact(files, f, blob, Empty, torn, fuel);
    forall g: InitFile ensures g != f ==> Pending(g) !in r.dir {
      if Pending(g) in files {
        RankIsUnique(track, f, g);
      }
    }
    StagedContents(files, f, blob, torn, fuel);
    Restaged(c, op, key, track, files, m, f, r.dir);
    assert Blocks(r.dir, f) && tear == NoBytes ==> Blocks(files, f);
  }

  /** Publishing the current item, for every amount of fuel. */
  lemma ItemPublished(c: Crypto, op: Operation, key: nat, track: Track, files: Files, m: nat, f: InitFile,
          doc: InitDoc, tear: Tear, fuel: nat)
    requires Progress(c, op, key, track, files, m) && Rank(track, f) == m < Items(track)
    requires Suits(c, op, key, track, files, f, doc)
    ensures var r := Publish(files, f, Whole(doc), Empty, TornBlob(tear, Whole(doc)), fuel);
            && (r.status == Done ==> Progress(c, op, key, track, r.dir, m + 1)
                                     && r.dir == (files - {Pending(f)})[Final(f) := Whole(doc)])
            && (r.status != Done ==> Progress(c, op, key, track, r.dir, m))
            && Kept(files, r.dir)
            && (fuel >= PUBLICATION_STEPS ==>
                  r.fuel >= fuel - PUBLICATION_STEPS && (r.status == Done <==> StagingFits(files, f, doc)))
            && (tear == NoBytes && Unblocked(files) ==> Unblocked(r.dir))
            && (!Unblocked(files) ==> r == Published(files, fuel, Refused))
  {
    var blob, torn := Whole(doc), TornBlob(tear, Whole(doc));
    var r := Publish(files, f, blob, Empty, torn, fuel);
    DestinationIsAbsentOrExact(files, f, blob, Empty, torn, fuel);
    assert Final(f) !in files;
    PublishSucceeds(files, f, blob, torn, fuel);
    if !Unblocked(files) {
      BlocksTheNext(c, op, key, track, files, m, f);
    }
    if r.status == Done {
      Advanced(c, op, key, track, files, m, f, blob);
      NothingStagedAfter(track, files, m, f, blob);
    } else {
      ItemStopped(c, op, key, track, files, m, f, doc, tear, fuel);
    }
  }

  lemma PublishSucceeds(files: Files, f: InitFile, blob: InitBlob, torn: InitBlob, fuel: nat)
    requires Final(f) !in files
    ensures var r := Publish(files, f, blob, Empty, torn, fuel);
            fuel >= PUBLICATION_STEPS ==>
              && r.fuel >= fuel - PUBLICATION_STEPS
              && (r.status == Done <==>
                  (Pending(f) in files ==> files[Pending(f)] == Empty || files[Pending(f)] == blob))
  {
  }

  lemma StagedContents(files: Files, f: InitFile, blob: InitBlob, torn: InitBlob, fuel: nat)
    requires Final(f) !in files
    ensures var r := Publish(files, f, blob, Empty, torn, fuel);
            r.status != Done && Pending(f) in r.dir ==>
              r.dir[Pending(f)] == torn || r.dir[Pending(f)] == blob
                  || (Pending(f) in files && r.dir[Pending(f)] == files[Pending(f)])
  {
  }

  /** Adopting the staging of the current item as it stands. */
  lemma ItemAdopted(c: Crypto, op: Operation, key: nat, track: Track, files: Files, m: nat, f: InitFile, fuel: nat)
    requires Progress(c, op, key, track, files, m) && Rank(track, f) == m < Items(track)
    requires Pending(f) in files && Parse(files[Pending(f)]).Some? && (IsExact(f) ==> files[Pending(f)].Whole?)
    ensures Suits(c, op, key, track, files, f, Parse(files[Pending(f)]).value)
    ensures var r := Adopt(files, f, fuel);
            && (fuel == 0 ==> r == Published(files, 0, Interrupted))
            && (fuel > 0 ==> r == Published((files - {Pending(f)})[Final(f) := files[Pending(f)]], fuel - 1, Done)
                             && Progress(c, op, key, track, r.dir, m + 1) && Kept(files, r.dir)
                             && (forall g: InitFile :: Pending(g) !in r.dir))
  {
    assert StagedGood(c, op, key, track, files, f);
    assert Final(f) !in files;
    Advanced(c, op, key, track, files, m, f, files[Pending(f)]);
    NothingStagedAfter(track, files, m, f, files[Pending(f)]);
  }

  // ---------- reading the journal ----------

  function GenerationAt(files: Files, k: nat): Generation {
    match DocAt(files, Gen(k))
    case Some(GenerationDoc(g)) => g
    case _ => Generation(0, Operation(0, 0, 0, 0), k, Phase.Prepared, None, 0, NoEvidence)
  }

  /** The first n generations. */
  function Generations(files: Files, n: nat): (gens: seq<Generation>)
    ensures |gens| == n
    ensures forall k: nat :: k < n ==> gens[k] == GenerationAt(files, k)
  {
    if n == 0 then [] else Generations(files, n - 1) + [GenerationAt(files, n - 1)]
  }

  lemma GenerationIsGood(c: Crypto, op: Operation, key: nat, track: Track, files: Files, m: nat, k: nat)
    requires Progress(c, op, key, track, files, m) && k < Count(track, m)
    ensures DocAt(files, Gen(k)) == Some(GenerationDoc(GenerationAt(files, k)))
    ensures GenerationFits(c, op, track, files, k, GenerationAt(files, k))
  {
    CountsGenerations(track, m, k);
    assert Good(c, op, key, track, files, Gen(k));
  }

  ghost predicate Upward(order: seq<nat>, i: nat, n: nat) {
    |order| == n - i && forall j :: 0 <= j < |order| ==> order[j] == i + j
  }

  lemma {:induction false} ReadsThem(c: Crypto, op: Operation, key: nat, track: Track, files: Files, m: nat,
          order: seq<nat>, i: nat)
    requires Progress(c, op, key, track, files, m) && i <= Count(track, m) && Upward(order, i, Count(track, m))
    ensures ReadGenerations(c, op.id, files, order, Generations(files, i), PriorOf(c, files, i))
          == Some(Generations(files, Count(track, m)))
    decreases |order|
  {
    if order != [] {
      GenerationIsGood(c, op, key, track, files, m, i);
      if i > 0 {
        GenerationIsGood(c, op, key, track, files, m, 0);
      }
      assert Continues(op.id, Generations(files, i), PriorOf(c, files, i), GenerationAt(files, i));
      assert Generations(files, i) + [GenerationAt(files, i)] == Generations(files, i + 1);
      CountsGenerations(track, m, i);
      ReadsThem(c, op, key, track, files, m, order[1..], i + 1);
    }
  }

  lemma TrackFollows(track: Track, k: nat)
    requires TrackOk(track) && PhaseAt(track, k).Some? && PhaseAt(track, k + 1).Some? && Legal(track, k + 2)
    ensures Follows(PhaseAt(track, k).value, PhaseAt(track, k + 1).value)
  {
  }

  lemma NextFollows(c: Crypto, op: Operation, key: nat, track: Track, files: Files, m: nat, i: nat)
    requires Progress(c, op, key, track, files, m) && Legal(track, m) && i + 1 < Count(track, m)
    ensures var gens := Generations(files, Count(track, m)); Follows(gens[i].phase, gens[i + 1].phase)
  {
    GenerationIsGood(c, op, key, track, files, m, i);
    GenerationIsGood(c, op, key, track, files, m, i + 1);
    TrackFollows(track, i);
  }

  lemma TransitionsAreValid(c: Crypto, op: Operation, key: nat, track: Track, files: Files, m: nat)
    requires Progress(c, op, key, track, files, m) && m > 0 && Legal(track, m)
    ensures ValidTransitions(Generations(files, Count(track, m)))
  {
    var n := Count(track, m);
    var gens := Generations(files, n);
    GenerationIsGood(c, op, key, track, files, m, 0);
    forall i | 0 <= i < n - 1 ensures Follows(gens[i].phase, gens[i + 1].phase) {
      NextFollows(c, op, key, track, files, m, i);
    }
  }

  lemma TransitionsAreNot(c: Crypto, op: Operation, key: nat, track: Track, files: Files, m: nat)
    requires Progress(c, op, key, track, files, m) && !Legal(track, m)
    ensures !ValidTransitions(Generations(files, Count(track, m)))
  {
    var gens := Generations(files, Count(track, m));
    GenerationIsGood(c, op, key, track, files, m, 2);
    GenerationIsGood(c, op, key, track, files, m, 3);
    assert !Follows(gens[2].phase, gens[2 + 1].phase);
  }

  // ---------- changing track ----------

  lemma GoodOnTrack(c: Crypto, op: Operation, key: nat, files: Files, before: Track, after: Track, k: nat)
    requires Good(c, op, key, before, files, Gen(k)) && PhaseAt(before, k) == PhaseAt(after, k)
    ensures Good(c, op, key, after, files, Gen(k))
  {
  }

  /** While nothing is staged and the tracks have had the same phases, the journal is as far on
      one as on the other. */
  lemma ChangeTrack(c: Crypto, op: Operation, key: nat, files: Files, n: nat, before: Track, after: Track)
    requires Progress(c, op, key, before, files, n) && n <= 3 && n <= Items(after) && TrackOk(after)
    requires (forall f: InitFile :: Pending(f) !in files)
    requires forall k: nat :: k < n ==> PhaseAt(before, k) == PhaseAt(after, k)
    ensures Progress(c, op, key, after, files, n)
  {
    forall f: InitFile ensures Final(f) in files <==> Rank(after, f) < n {
      EarlyRanks(before, after, f, n);
    }
    forall f: InitFile | Final(f) in files ensures Good(c, op, key, after, files, f) {
      EarlyRanks(before, after, f, n);
      assert Good(c, op, key, before, files, f);
      GoodOnTrack(c, op, key, files, before, after, f.n);
    }
  }

  /** The first three publications are generations on every track. */
  lemma EarlyRanks(before: Track, after: Track, f: InitFile, n: nat)
    requires n <= 3
    ensures Rank(before, f) < n <==> Rank(after, f) < n
    ensures Rank(before, f) < n ==> f.Gen? && f.n < n
  {
  }
}
