/** The steps of a successful initialization, from the signing intent to the archive. Each
    lemma covers every amount of fuel: a step that is cut short leaves the progress it
    found, and with enough fuel a step fails only at a torn staging file. */
module InitRoot {
  import opened Publication
  import opened Records
  import opened Initialization
  import opened InitProgress
  import AuthorityState
  import InitSteps
  import Serials

  /** Only files and fuel change, signatures are over the TBS of the signing intent, and a
      run whose writes leave nothing when cut short leaves nothing torn. */
  ghost predicate Moves(c: Crypto, op: Operation, key: nat, s: Init, m: nat, s': Init, n: nat) {
    && Progress(c, op, key, Succeeding, s.files, m)
    && Progress(c, op, key, Succeeding, s'.files, n)
    && m <= n && Kept(s.files, s'.files)
    && s' == s.(files := s'.files, fuel := s'.fuel, signed := s'.signed)
    && (s.tear == NoBytes && Unblocked(s.files) ==> Unblocked(s'.files))
    && (!Unblocked(s.files) ==> s'.files == s.files)
    && (forall t <- s'.signed :: t in s.signed || (IntentAt(s'.files).Some? && t == IntentAt(s'.files).value.tbs))
  }

  ghost predicate SomeProgress(c: Crypto, op: Operation, key: nat, s: Init, m: nat, s': Init) {
    exists n: nat :: Moves(c, op, key, s, m, s', n)
  }

  lemma MovesOn(c: Crypto, op: Operation, key: nat, a: Init, l: nat, b: Init, m: nat, d: Init, n: nat)
    requires Moves(c, op, key, a, l, b, m) && Moves(c, op, key, b, m, d, n)
    ensures Moves(c, op, key, a, l, d, n)
  {
  }

  // ---------- the signing intent ----------

  /** The intent made by a run is one that every later run accepts: its text decodes to the
      serial it was made from, so the certificate is rebuilt bit for bit. */
  lemma CreatedIntentHolds(c: Crypto, op: Operation, key: nat, env: Env)
    ensures IntentHolds(c, op, key, CreateRootIntent(c, op, key, env))
  {
    var serial := Serials.PositiveSerial(env.random);
    Serials.SerialRoundTrip(serial, Serials.SerialHex(serial));
  }

  lemma PublishSigning(c: Crypto, op: Operation, key: nat, s: Init, i: RootIntent)
    requires Progress(c, op, key, Succeeding, s.files, 4) && IntentHolds(c, op, key, i)
    ensures var out := Durable(s, SigningFile, SigningDoc(i));
            && Moves(c, op, key, s, 4, out.s, if out.Going? then 5 else 4)
            && (out.Going? ==> IntentAt(out.s.files) == Some(i) && (forall f: InitFile :: Pending(f) !in out.s.files))
            && (s.fuel >= PUBLICATION_STEPS ==>
                  out.s.fuel >= s.fuel - PUBLICATION_STEPS
                      && (out.Going? <==> StagingFits(s.files, SigningFile, SigningDoc(i))))
  {
    ItemPublished(c, op, key, Succeeding, s.files, 4, SigningFile, SigningDoc(i), s.tear, s.fuel);
    NothingStagedAfter(Succeeding, s.files, 4, SigningFile, Whole(SigningDoc(i)));
  }

  lemma AdoptSigning(c: Crypto, op: Operation, key: nat, s: Init)
    requires Progress(c, op, key, Succeeding, s.files, 4)
    requires Pending(SigningFile) in s.files && Parse(s.files[Pending(SigningFile)]).Some?
    ensures var doc := Parse(s.files[Pending(SigningFile)]).value;
            && doc.SigningDoc? && IntentHolds(c, op, key, doc.intent)
            && var out := Finalized(s, SigningFile);
               && Moves(c, op, key, s, 4, out.s, if out.Going? then 5 else 4)
               && (out.Going? ==>
                   IntentAt(out.s.files) == Some(doc.intent) && (forall f: InitFile :: Pending(f) !in out.s.files))
               && (s.fuel > 0 ==> out.Going? && out.s.fuel == s.fuel - 1)
  {
    ItemAdopted(c, op, key, Succeeding, s.files, 4, SigningFile, s.fuel);
    NothingStagedAfter(Succeeding, s.files, 4, SigningFile, s.files[Pending(SigningFile)]);
  }

  lemma IntentStep(c: Crypto, op: Operation, key: nat, s: Init, m: nat, last: Phase, env: Env)
    requires Progress(c, op, key, Succeeding, s.files, m) && m >= 3
    requires PhaseAt(Succeeding, Count(Succeeding, m) - 1) == Some(last)
    ensures var out := ReconcileIntent(c, op, key, s, last, env);
            var n := if m < 5 && out.Going? then 5 else m;
            && Moves(c, op, key, s, m, out.s, n)
            && (out.Going? ==> IntentAt(out.s.files) == Some(out.value))
            && (m >= 5 ==> out.Going? && out.s == s)
            && (out.Going? && m == 4 ==> (forall f: InitFile :: Pending(f) !in out.s.files))
            && (m == 3 && InitSteps.NoStagedGeneration(s.files) ==> out == Halted(s, AuthorityState.StateError))
            && (out.Going? ==> m >= 4)
            && (m == 4 && s.fuel >= PUBLICATION_STEPS ==>
                  out.s.fuel >= s.fuel - PUBLICATION_STEPS && (out.Going? <==> !Blocks(s.files, SigningFile)))
  {
    CreatedIntentHolds(c, op, key, env);
    if m >= 5 {
      assert Good(c, op, key, Succeeding, s.files, SigningFile);
    } else {
      assert Final(SigningFile) !in s.files;
      if m == 4 {
        if Pending(SigningFile) in s.files && Parse(s.files[Pending(SigningFile)]).Some? {
          AdoptSigning(c, op, key, s);
        } else {
          PublishSigning(c, op, key, s, CreateRootIntent(c, op, key, env));
        }
      } else {
        assert Rank(Succeeding, SigningFile) == 4;
        assert Pending(SigningFile) !in s.files;
      }
    }
  }

  // ---------- the root ----------

  /** The key signs this TBS, and the signature verifies over it. */
  predicate SignsFor(c: Crypto, key: nat, signer: nat -> RootSigner, tbs: nat) {
    signer(tbs).SignsRoot? && c.verifies(key, Root(tbs, signer(tbs).signature))
  }

  /** The key signs whatever it is asked to. */
  ghost predicate Willing(c: Crypto, key: nat, signer: nat -> RootSigner) {
    forall tbs: nat :: SignsFor(c, key, signer, tbs)
  }

  lemma SignStep(c: Crypto, s: Init, i: RootIntent, key: nat, env: Env)
    requires c.digest(i.tbs) == i.tbsSha
    ensures var out := SignRoot(c, s, i, key, env);
            && out.s == s.(fuel := out.s.fuel, signed := out.s.signed)
            && (forall t <- out.s.signed :: t in s.signed || t == i.tbs)
            && (out.Going? ==> RootHolds(c, i, key, out.value))
            && (out.Going? ==> SignsFor(c, key, env.signer, i.tbs))
            && (s.fuel > 0 ==> out.s.fuel == s.fuel - 1 && (SignsFor(c, key, env.signer, i.tbs) ==> out.Going?))
  {
  }

  lemma PublishRoot(c: Crypto, op: Operation, key: nat, s: Init, root: Root)
    requires Progress(c, op, key, Succeeding, s.files, 6)
    requires IntentAt(s.files).Some? && RootHolds(c, IntentAt(s.files).value, key, root)
    ensures var out := Durable(s, RootFile, RootDoc(root));
            && Moves(c, op, key, s, 6, out.s, if out.Going? then 7 else 6)
            && (out.Going? ==> RootAt(out.s.files) == Some(root) && (forall f: InitFile :: Pending(f) !in out.s.files))
            && (s.fuel >= PUBLICATION_STEPS ==>
                  out.s.fuel >= s.fuel - PUBLICATION_STEPS
                      && (out.Going? <==> StagingFits(s.files, RootFile, RootDoc(root))))
  {
    ItemPublished(c, op, key, Succeeding, s.files, 6, RootFile, RootDoc(root), s.tear, s.fuel);
    NothingStagedAfter(Succeeding, s.files, 6, RootFile, Whole(RootDoc(root)));
  }

  lemma AdoptRoot(c: Crypto, op: Operation, key: nat, s: Init)
    requires Progress(c, op, key, Succeeding, s.files, 6)
    requires Pending(RootFile) in s.files && s.files[Pending(RootFile)].Whole?
    ensures var doc := s.files[Pending(RootFile)].doc;
            && doc.RootDoc? && IntentAt(s.files).Some? && RootHolds(c, IntentAt(s.files).value, key, doc.root)
            && var out := Finalized(s, RootFile);
               && Moves(c, op, key, s, 6, out.s, if out.Going? then 7 else 6)
               && (out.Going? ==>
                   RootAt(out.s.files) == Some(doc.root) && (forall f: InitFile :: Pending(f) !in out.s.files))
               && (s.fuel > 0 ==> out.Going? && out.s.fuel == s.fuel - 1)
  {
    ItemAdopted(c, op, key, Succeeding, s.files, 6, RootFile, s.fuel);
    NothingStagedAfter(Succeeding, s.files, 6, RootFile, s.files[Pending(RootFile)]);
  }

  lemma SignAndPublish(c: Crypto, op: Operation, key: nat, s: Init, i: RootIntent, env: Env)
    requires Progress(c, op, key, Succeeding, s.files, 6) && IntentAt(s.files) == Some(i) && IntentHolds(c, op, key, i)
    requires Pending(RootFile) !in s.files || s.files[Pending(RootFile)] == Empty
    ensures var signing := SignRoot(c, s, i, key, env);
            var out := if signing.Halted? then Halted(signing.s, signing.error) else Durable(signing.s, RootFile,
                RootDoc(signing.value));
            && Moves(c, op, key, s, 6, out.s, if out.Going? then 7 else 6)
            && (out.Going? ==>
                RootAt(out.s.files) == Some(signing.value) && (forall f: InitFile :: Pending(f) !in out.s.files))
            && (s.fuel >= 1 + PUBLICATION_STEPS ==>
                  out.s.fuel >= s.fuel - 1 - PUBLICATION_STEPS
                      && (SignsFor(c, key, env.signer, i.tbs) ==> out.Going?))
            && (out.Going? ==> SignsFor(c, key, env.signer, i.tbs))
  {
    SignStep(c, s, i, key, env);
    var signing := SignRoot(c, s, i, key, env);
    if signing.Going? {
      PublishRoot(c, op, key, signing.s, signing.value);
    }
  }

  lemma RootStep(c: Crypto, op: Operation, key: nat, s: Init, m: nat, i: RootIntent, env: Env)
    requires Progress(c, op, key, Succeeding, s.files, m) && m >= 6 && IntentAt(s.files) == Some(i)
    ensures var out := EnsureJournalRoot(c, s, i, key, env);
            var n := if m < 7 && out.Going? then 7 else m;
            && Moves(c, op, key, s, m, out.s, n)
            && (out.Going? ==> RootAt(out.s.files) == Some(out.value))
            && (m >= 7 ==> out.Going? && out.s == s)
            && (out.Going? && m == 6 ==> (forall f: InitFile :: Pending(f) !in out.s.files))
            && (m == 6 && s.fuel >= 1 + PUBLICATION_STEPS ==>
                  && out.s.fuel >= s.fuel - 1 - PUBLICATION_STEPS
                  && (Blocks(s.files, RootFile) ==> out.Halted?)
                  && (SignsFor(c, key, env.signer, i.tbs) && !Blocks(s.files, RootFile) ==> out.Going?))
            && (m == 6 && out.Going? && Pending(RootFile) !in s.files ==> SignsFor(c, key, env.signer, i.tbs))
  {
    assert Good(c, op, key, Succeeding, s.files, SigningFile);
    assert i.operation == op && IntentHolds(c, op, key, i);
    if m >= 7 {
      assert Good(c, op, key, Succeeding, s.files, RootFile);
    } else {
      assert Final(RootFile) !in s.files;
      if Pending(RootFile) in s.files && s.files[Pending(RootFile)].Whole? {
        AdoptRoot(c, op, key, s);
      } else if Pending(RootFile) !in s.files || s.files[Pending(RootFile)] == Empty {
        SignAndPublish(c, op, key, s, i, env);
      }
    }
  }

  // ---------- the publication record ----------

  lemma MadeBundleHolds(c: Crypto, op: Operation, key: nat, i: RootIntent, root: Root)
    requires IntentHolds(c, op, key, i) && RootHolds(c, i, key, root)
    ensures BundleHolds(c, op, key, CreatePublication(c, i, root))
  {
  }

  predicate WholeBundle(files: Files, b: Bundle) {
    Final(PublicationFile) in files && files[Final(PublicationFile)] == Whole(PublicationDoc(b))
  }

  lemma PublishBundle(c: Crypto, op: Operation, key: nat, s: Init, b: Bundle)
    requires Progress(c, op, key, Succeeding, s.files, 7)
    requires Suits(c, op, key, Succeeding, s.files, PublicationFile, PublicationDoc(b))
    ensures var out := Durable(s, PublicationFile, PublicationDoc(b));
            && Moves(c, op, key, s, 7, out.s, if out.Going? then 8 else 7)
            && (out.Going? ==> BundleAt(out.s.files) == Some(b) && (forall f: InitFile :: Pending(f) !in out.s.files))
            && (out.Going? ==> WholeBundle(out.s.files, b))
            && (s.fuel >= PUBLICATION_STEPS ==>
                  out.s.fuel >= s.fuel - PUBLICATION_STEPS
                      && (out.Going? <==> StagingFits(s.files, PublicationFile, PublicationDoc(b))))
  {
    ItemPublished(c, op, key, Succeeding, s.files, 7, PublicationFile, PublicationDoc(b), s.tear, s.fuel);
    NothingStagedAfter(Succeeding, s.files, 7, PublicationFile, Whole(PublicationDoc(b)));
  }

  lemma AdoptBundle(c: Crypto, op: Operation, key: nat, s: Init)
    requires Progress(c, op, key, Succeeding, s.files, 7)
    requires Pending(PublicationFile) in s.files && Parse(s.files[Pending(PublicationFile)]).Some?
    ensures var doc := Parse(s.files[Pending(PublicationFile)]).value;
            && doc.PublicationDoc? && Suits(c, op, key, Succeeding, s.files, PublicationFile, doc)
            && var out := Finalized(s, PublicationFile);
               && Moves(c, op, key, s, 7, out.s, if out.Going? then 8 else 7)
               && (out.Going? ==>
                   BundleAt(out.s.files) == Some(doc.bundle) && (forall f: InitFile :: Pending(f) !in out.s.files))
               && (s.fuel > 0 ==> out.Going? && out.s.fuel == s.fuel - 1)
  {
    ItemAdopted(c, op, key, Succeeding, s.files, 7, PublicationFile, s.fuel);
    NothingStagedAfter(Succeeding, s.files, 7, PublicationFile, s.files[Pending(PublicationFile)]);
  }

  lemma SignedFilesHold(c: Crypto, op: Operation, key: nat, files: Files, m: nat)
    requires Progress(c, op, key, Succeeding, files, m) && m >= 7
    ensures IntentAt(files).Some? && IntentHolds(c, op, key, IntentAt(files).value)
    ensures RootAt(files).Some? && RootHolds(c, IntentAt(files).value, key, RootAt(files).value)
  {
    assert Good(c, op, key, Succeeding, files, SigningFile) && Good(c, op, key, Succeeding, files, RootFile);
  }

  lemma BundleIsMade(c: Crypto, op: Operation, key: nat, files: Files, m: nat)
    requires Progress(c, op, key, Succeeding, files, m) && m >= 8
    ensures IntentAt(files).Some? && RootAt(files).Some?
    ensures BundleAt(files) == Some(CreatePublication(c, IntentAt(files).value, RootAt(files).value))
    ensures BundleHolds(c, op, key, BundleAt(files).value)
  {
    assert Good(c, op, key, Succeeding, files, PublicationFile);
    SignedFilesHold(c, op, key, files, m);
    MadeBundleHolds(c, op, key, IntentAt(files).value, RootAt(files).value);
  }

  lemma BundleStep(c: Crypto, op: Operation, key: nat, s: Init, m: nat, i: RootIntent, root: Root)
    requires Progress(c, op, key, Succeeding, s.files, m) && m >= 7 && IntentAt(s.files) == Some(i)
    requires RootAt(s.files) == Some(root)
    ensures var out := ReconcilePublication(c, op, key, s, i, root);
            var n := if m < 8 && out.Going? then 8 else m;
            && Moves(c, op, key, s, m, out.s, n)
            && (out.Going? ==> BundleAt(out.s.files) == Some(out.value))
            && (m >= 8 ==> out.Going? && out.s == s)
            && (out.Going? && m == 7 ==> (forall f: InitFile :: Pending(f) !in out.s.files))
            && (m == 7 && s.fuel >= PUBLICATION_STEPS ==>
                  out.s.fuel >= s.fuel - PUBLICATION_STEPS && (out.Going? <==> !Blocks(s.files, PublicationFile)))
  {
    SignedFilesHold(c, op, key, s.files, m);
    MadeBundleHolds(c, op, key, i, root);
    if m >= 8 {
      BundleIsMade(c, op, key, s.files, m);
    } else {
      assert Final(PublicationFile) !in s.files;
      if Pending(PublicationFile) in s.files && Parse(s.files[Pending(PublicationFile)]).Some? {
        AdoptBundle(c, op, key, s);
      } else {
        PublishBundle(c, op, key, s, CreatePublication(c, i, root));
      }
    }
  }

  // ---------- root.der and authority.json ----------

  lemma ExactStep(c: Crypto, op: Operation, key: nat, s: Init, m: nat, f: InitFile, doc: InitDoc)
    requires Progress(c, op, key, Succeeding, s.files, m)
    requires f == PublishedRoot || f == AuthorityFile
    requires m >= Rank(Succeeding, f) && Suits(c, op, key, Succeeding, s.files, f, doc)
    ensures var out := DurableExact(s, f, doc);
            var r := Rank(Succeeding, f);
            && Moves(c, op, key, s, m, out.s, if m == r && out.Going? then r + 1 else m)
            && (m > r ==> out == Going(s, ()))
            && (out.Going? && m == r ==> (forall g: InitFile :: Pending(g) !in out.s.files))
            && (m == r && s.fuel >= PUBLICATION_STEPS ==>
                  out.s.fuel >= s.fuel - PUBLICATION_STEPS && (out.Going? <==> !Blocks(s.files, f)))
  {
    var r := Rank(Succeeding, f);
    if m > r {
      assert Good(c, op, key, Succeeding, s.files, f);
      assert s.files[Final(f)] == Whole(doc);
    } else {
      assert Final(f) !in s.files;
      assert StagedGood(c, op, key, Succeeding, s.files, f);
      ItemPublished(c, op, key, Succeeding, s.files, m, f, doc, s.tear, s.fuel);
      NothingStagedAfter(Succeeding, s.files, m, f, Whole(doc));
    }
  }

  lemma AuthorityStep(c: Crypto, op: Operation, key: nat, s: Init, m: nat, b: Bundle)
    requires Progress(c, op, key, Succeeding, s.files, m) && m >= 9 && BundleAt(s.files) == Some(b)
    ensures var out := PublishAuthority(c, s, key, b);
            && SomeProgress(c, op, key, s, m, out.s)
            && (out.Going? ==> Moves(c, op, key, s, m, out.s, if m < 11 then 11 else m))
            && (m >= 11 ==> out == Going(s, ()))
            && (out.Going? && m < 11 ==> (forall g: InitFile :: Pending(g) !in out.s.files))
            && (s.fuel >= 2 * PUBLICATION_STEPS ==>
                  && out.s.fuel >= s.fuel - 2 * PUBLICATION_STEPS
                  && (out.Going? <==> !Blocks(s.files, PublishedRoot) && !Blocks(s.files, AuthorityFile)))
  {
    BundleIsMade(c, op, key, s.files, m);
    var o1 := DurableExact(s, PublishedRoot, RootDoc(b.root));
    ExactStep(c, op, key, s, m, PublishedRoot, RootDoc(b.root));
    var n1 := if m == 9 && o1.Going? then 10 else m;
    assert Moves(c, op, key, s, m, o1.s, n1);
    NoStagingAbove(c, op, key, s.files, m);
    if o1.Going? {
      var o2 := DurableExact(o1.s, AuthorityFile, AuthorityDoc(b.authority));
      ExactStep(c, op, key, o1.s, n1, AuthorityFile, AuthorityDoc(b.authority));
      var n2 := if n1 == 10 && o2.Going? then 11 else n1;
      MovesOn(c, op, key, s, m, o1.s, n1, o2.s, n2);
      assert PublishAuthority(c, s, key, b) == o2;
      assert Moves(c, op, key, s, m, o2.s, n2);
    }
  }

  /** Only the current item can be staged. */
  lemma NoStagingAbove(c: Crypto, op: Operation, key: nat, files: Files, m: nat)
    requires Progress(c, op, key, Succeeding, files, m)
    ensures m != 9 ==> Pending(PublishedRoot) !in files
    ensures m != 10 ==> Pending(AuthorityFile) !in files
  {
    assert Rank(Succeeding, PublishedRoot) == 9 && Rank(Succeeding, AuthorityFile) == 10;
  }
}
