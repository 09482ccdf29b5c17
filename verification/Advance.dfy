/** Every issuing, scanning and copying operation only adds finalized files. */
module Advance {
  import opened Publication
  import opened Records
  import opened AuthorityState
  import opened Issuance
  import opened Scan

  /** Finalized entries of `d` are in `e` with the same contents. */
  ghost predicate Kept<N(!new)>(d: Dir<N>, e: Dir<N>) {
    forall n: N :: Final(n) in d ==> Final(n) in e && e[Final(n)] == d[Final(n)]
  }

  ghost predicate Grows(c: Ca, c': Ca) {
    && c'.initPending == c.initPending
    && c'.signed == c.signed && c'.replies == c.replies && c'.retired == c.retired
    && Kept(c.reservations, c'.reservations)
    && Kept(c.mappings, c'.mappings)
    && Kept(c.audits, c'.audits)
    && (forall id <- c.issuances.Keys :: id in c'.issuances && Kept(c.issuances[id], c'.issuances[id]))
  }

  /** An intent names the directory it lies in. */
  ghost predicate IntentsInPlace(c: Ca) {
    forall id: Id :: Has(c, id, IntentFile) ==>
      var parsed := ParseIntent(FileOf(c, id, IntentFile));
      parsed.Some? ==> parsed.value.issuanceId == id
  }

  /** The issuance the mapping names is complete, and its intent is for the mapping's request. */
  ghost predicate LeadsTo(c: Ca, key: Digest, m: Mapping) {
    && Has(c, m.issuanceId, CompleteFile) && Has(c, m.issuanceId, IntentFile)
    && var parsed := ParseIntent(FileOf(c, m.issuanceId, IntentFile));
       parsed.Some? && parsed.value.keyHash == key && parsed.value.requestHash == m.requestHash
  }

  /** A mapping leads to a completed issuance of its own request. */
  ghost predicate MappingsLead(c: Ca) {
    forall key: Digest :: Final(key) in c.mappings ==>
      var parsed := ParseMapping(c.mappings[Final(key)]);
      parsed.Some? ==> LeadsTo(c, key, parsed.value)
  }

  ghost predicate Sound(c: Ca) {
    IntentsInPlace(c) && MappingsLead(c)
  }

  ghost predicate Advances(c: Ca, c': Ca) {
    Grows(c, c') && (Sound(c) ==> Sound(c'))
  }

  lemma Chain(a: Ca, b: Ca, c: Ca)
    requires Advances(a, b) && Advances(b, c)
    ensures Advances(a, c)
  {
  }

  // ---------- elementary operations ----------

  lemma PublicationKeeps<N(!new)>(c: Ca, d: Dir<N>, n: N, blob: Blob)
    ensures Kept(d, PublishIn(c, d, n, blob).dir) && Kept(d, PublishExactIn(c, d, n, blob).dir)
    ensures forall m: N :: m != n ==>
              && (Final(m) in PublishIn(c, d, n, blob).dir <==> Final(m) in d)
              && (Final(m) in PublishExactIn(c, d, n, blob).dir <==> Final(m) in d)
    ensures Final(n) !in d && Final(n) in PublishIn(c, d, n, blob).dir ==>
          PublishIn(c, d, n, blob).dir[Final(n)] == blob
    ensures Final(n) !in d && Final(n) in PublishExactIn(c, d, n, blob).dir ==>
          PublishExactIn(c, d, n, blob).dir[Final(n)] == blob
    ensures PublishIn(c, d, n, blob).status == Done || PublishExactIn(c, d, n, blob).status == Done
            ==> Final(n) in PublishExactIn(c, d, n, blob).dir
    ensures PublishIn(c, d, n, blob).status == Done ==> Final(n) in PublishIn(c, d, n, blob).dir
  {
    DestinationIsAbsentOrExact(d, n, blob, Empty, TornBlob(c.tear, blob), c.fuel);
  }

  lemma AdoptionKeeps<N(!new)>(d: Dir<N>, n: N, fuel: nat)
    ensures Kept(d, Adopt(d, n, fuel).dir)
    ensures forall m: N :: m != n ==> (Final(m) in Adopt(d, n, fuel).dir <==> Final(m) in d)
    ensures Final(n) !in d && Final(n) in Adopt(d, n, fuel).dir ==>
          Pending(n) in d && Adopt(d, n, fuel).dir[Final(n)] == d[Pending(n)]
  {
  }

  /** Replacing one issuance directory by one that keeps its files. */
  lemma IssuanceAdvances(c: Ca, id: Id, d: Dir<File>, fuel: nat, status: Status)
    requires id in c.issuances && Kept(c.issuances[id], d)
    requires Final(IntentFile) in d && Final(IntentFile) !in c.issuances[id] && ParseIntent(d[Final(IntentFile)]).Some?
             ==> ParseIntent(d[Final(IntentFile)]).value.issuanceId == id
    ensures Advances(c, Settle(c.(issuances := c.issuances[id := d], fuel := fuel), status).ca)
  {
    var c' := c.(issuances := c.issuances[id := d], fuel := fuel);
    forall x: Id, f: File | Has(c, x, f)
      ensures Has(c', x, f) && FileOf(c', x, f) == FileOf(c, x, f)
    {
    }
  }

  lemma FileAdvances(c: Ca, id: Id, f: File, doc: Doc)
    requires id in c.issuances
    requires f == IntentFile ==> doc.IntentDoc? && doc.intent.issuanceId == id
    ensures Advances(c, PublishFile(c, id, f, doc).ca)
    ensures PublishFile(c, id, f, doc).Ok? ==> Has(PublishFile(c, id, f, doc).ca, id, f)
  {
    PublicationKeeps(c, c.issuances[id], f, Whole(doc));
    var p := PublishIn(c, c.issuances[id], f, Whole(doc));
    IssuanceAdvances(c, id, p.dir, p.fuel, p.status);
  }

  lemma FileExactAdvances(c: Ca, id: Id, f: File, doc: Doc)
    requires id in c.issuances && f != IntentFile
    ensures Advances(c, PublishFileExact(c, id, f, doc).ca)
    ensures PublishFileExact(c, id, f, doc).Ok? ==> Has(PublishFileExact(c, id, f, doc).ca, id, f)
  {
    PublicationKeeps(c, c.issuances[id], f, Whole(doc));
    var p := PublishExactIn(c, c.issuances[id], f, Whole(doc));
    IssuanceAdvances(c, id, p.dir, p.fuel, p.status);
  }

  lemma ReservationsAdvance(c: Ca, p: Published<Id, Blob>)
    requires Kept(c.reservations, p.dir)
    ensures Advances(c, WithReservations(c, p).ca)
  {
    var c' := WithReservations(c, p).ca;
    assert forall x: Id, f: File :: Has(c, x, f) <==> Has(c', x, f);
  }

  lemma AuditsAdvance(lib: Lib, c: Ca, record: Audit)
    ensures Advances(c, AppendAudit(lib, c, record).ca)
  {
    var next := NextAudit(lib, c.audits, record);
    PublicationKeeps(c, c.audits, next.sequence, Whole(AuditDoc(next)));
    var c' := AppendAudit(lib, c, record).ca;
    assert forall x: Id, f: File :: Has(c, x, f) <==> Has(c', x, f);
  }

  lemma MappingAdvances(c: Ca, m: Mapping)
    requires Sound(c) ==> LeadsTo(c, m.keyHash, m)
    ensures Advances(c, PublishMapping(c, m).ca)
  {
    PublicationKeeps(c, c.mappings, m.keyHash, Whole(MappingDoc(m)));
    var c' := PublishMapping(c, m).ca;
    assert forall x: Id, f: File :: Has(c, x, f) <==> Has(c', x, f);
    if Sound(c) {
      forall key: Digest | Final(key) in c'.mappings && ParseMapping(c'.mappings[Final(key)]).Some?
        ensures LeadsTo(c', key, ParseMapping(c'.mappings[Final(key)]).value)
      {
        if Final(key) in c.mappings {
          assert c'.mappings[Final(key)] == c.mappings[Final(key)];
        }
      }
    }
  }

  // ---------- recovery and the scan ----------

  lemma EnsureAuditAdvances(lib: Lib, c: Ca, commit: Commit)
    ensures Advances(c, EnsureIssuanceAudit(lib, c, commit).ca)
  {
    AuditsAdvance(lib, c, IssuedRecord(commit));
  }

  lemma RecoverCommitAdvances(lib: Lib, authority: Id, c: Ca, id: Id)
    ensures Advances(c, RecoverCommit(lib, authority, c, id).ca)
  {
    if id in c.issuances && Load(lib, authority, c.issuances[id]).Some? {
      var t := Load(lib, authority, c.issuances[id]).value;
      var o1 := PublishFileExact(c, id, CompleteFile, CompleteDoc(t.complete));
      FileExactAdvances(c, id, CompleteFile, CompleteDoc(t.complete));
      if o1.Ok? {
        assert Sound(c) ==> t.intent.issuanceId == id by { assert Has(c, id, IntentFile); }
        var o2 := PublishMapping(o1.ca, t.commit.mapping);
        assert Sound(o1.ca) ==> LeadsTo(o1.ca, t.commit.mapping.keyHash, t.commit.mapping) by {
          assert Has(o1.ca, id, IntentFile) && FileOf(o1.ca, id, IntentFile) == FileOf(c, id, IntentFile);
        }
        MappingAdvances(o1.ca, t.commit.mapping);
        Chain(c, o1.ca, o2.ca);
        if o2.Ok? {
          var o3 := EnsureIssuanceAudit(lib, o2.ca, t.commit);
          EnsureAuditAdvances(lib, o2.ca, t.commit);
          Chain(c, o2.ca, o3.ca);
          if o3.Ok? {
            FileExactAdvances(o3.ca, id, AuditMarkFile, AuditMarkDoc(t.commit.issuanceId));
            Chain(c, o3.ca, PublishMark(o3.ca, id, t.commit.issuanceId).ca);
          }
        }
      }
    }
  }

  lemma {:induction false} RecoverAllAdvances(lib: Lib, authority: Id, c: Ca, order: seq<Id>)
    ensures Advances(c, RecoverAll(lib, authority, c, order).ca)
    decreases |order|
  {
    if order != [] {
      RecoverCommitAdvances(lib, authority, c, order[0]);
      var one := RecoverOne(lib, authority, c, order[0]);
      if one.Ok? {
        RecoverAllAdvances(lib, authority, one.ca, order[1..]);
        Chain(c, one.ca, RecoverAll(lib, authority, one.ca, order[1..]).ca);
      }
    }
  }

  lemma {:induction false} AdoptIntentsAdvance(authority: Id, c: Ca, order: seq<Id>)
    ensures Advances(c, AdoptIntents(authority, c, order).ca)
    decreases |order|
  {
    if order != [] {
      var id := order[0];
      var one := AdoptIntent(authority, c, id);
      assert Advances(c, one.ca) by {
        if id in c.issuances {
          AdoptionKeeps(c.issuances[id], IntentFile, c.fuel);
          var p := Adopt(c.issuances[id], IntentFile, c.fuel);
          if one.ca != c {
            IssuanceAdvances(c, id, p.dir, p.fuel, p.status);
          }
        }
      }
      if one.Ok? {
        AdoptIntentsAdvance(authority, one.ca, order[1..]);
        Chain(c, one.ca, AdoptIntents(authority, one.ca, order[1..]).ca);
      }
    }
  }

  lemma {:induction false} AdoptReservationsAdvance(authority: Id, c: Ca, order: seq<Id>)
    ensures Advances(c, AdoptReservations(authority, c, order).ca)
    decreases |order|
  {
    if order != [] {
      var one := AdoptReservation(authority, c, order[0]);
      AdoptionKeeps(c.reservations, order[0], c.fuel);
      ReservationsAdvance(c, Adopt(c.reservations, order[0], c.fuel));
      if one.Ok? {
        AdoptReservationsAdvance(authority, one.ca, order[1..]);
        Chain(c, one.ca, AdoptReservations(authority, one.ca, order[1..]).ca);
      }
    }
  }

  lemma AdoptionsAdvance(lib: Lib, authority: Id, c: Ca)
    ensures Advances(c, RecoverStaging(lib, authority, c).ca)
  {
    var listed := lib.list(c.issuances.Keys);
    AdoptIntentsAdvance(authority, c, listed);
    var o1 := AdoptIntents(authority, c, listed);
    if o1.Ok? {
      var order := lib.list(Pendings(o1.ca.reservations));
      AdoptReservationsAdvance(authority, o1.ca, order);
      Chain(c, o1.ca, AdoptReservations(authority, o1.ca, order).ca);
    }
  }

  /** A scan, however it ends, never changes or removes a finalized file. */
  lemma FullScanAdvances(lib: Lib, authority: Id, c: Ca)
    ensures Advances(c, FullScan(lib, authority, c).ca)
  {
    AdoptionsAdvance(lib, authority, c);
    var o2 := RecoverStaging(lib, authority, c);
    if !c.initPending && o2.Ok? {
      var order := lib.list(o2.ca.issuances.Keys);
      RecoverAllAdvances(lib, authority, o2.ca, order);
      Chain(c, o2.ca, RecoverAll(lib, authority, o2.ca, order).ca);
    }
  }
}
