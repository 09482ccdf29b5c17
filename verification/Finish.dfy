/** A committed issuance: which partial states recovery finishes, and to what. */
module Finish {
  import opened Publication
  import opened Records
  import opened AuthorityState
  import opened Issuance
  import Advance
  import AuditChain
  import CleanState
  import Scan
  import ScanMeaning
  import WreckQuarantine

  /** The documents of one enrollment. */
  datatype Plan = Plan(intent: Intent, der: seq<bv8>, sourceIp: nat)

  function Certificate(p: Plan): Blob { Whole(CertificateDoc(p.der)) }
  function CommitOf(lib: Lib, p: Plan): Commit { CommitFor(lib, p.intent, Certificate(p), p.sourceIp) }
  function CompleteOf(lib: Lib, p: Plan): Complete { CompleteFor(lib, p.intent, Certificate(p)) }
  function RecordOf(lib: Lib, p: Plan): Record { RecordFor(lib, p.intent, Certificate(p)) }

  /** The issuance directory after each publication in turn. */
  function OneFile(p: Plan): Dir<File> {
    map[Final(IntentFile) := Whole(IntentDoc(p.intent))]
  }

  function TwoFiles(p: Plan): Dir<File> {
    OneFile(p)[Final(CertificateFile) := Certificate(p)]
  }

  function ThreeFiles(lib: Lib, p: Plan): Dir<File> {
    TwoFiles(p)[Final(RecordFile) := Whole(RecordDoc(RecordOf(lib, p)))]
  }

  function FourFiles(lib: Lib, p: Plan): Dir<File> {
    ThreeFiles(lib, p)[Final(CommitFile) := Whole(CommitDoc(CommitOf(lib, p)))]
  }

  function FiveFiles(lib: Lib, p: Plan): Dir<File> {
    FourFiles(lib, p)[Final(CompleteFile) := Whole(CompleteDoc(CompleteOf(lib, p)))]
  }

  function SixFiles(lib: Lib, p: Plan): Dir<File> {
    FiveFiles(lib, p)[Final(AuditMarkFile) := Whole(AuditMarkDoc(p.intent.issuanceId))]
  }

  // ---------- how far the post-commit publications have come ----------

  function MappingOf(lib: Lib, p: Plan): Mapping { CommitOf(lib, p).mapping }

  function Indexed(lib: Lib, mappings: Dir<Digest>, p: Plan): Dir<Digest> {
    mappings[Final(p.intent.keyHash) := Whole(MappingDoc(MappingOf(lib, p)))]
  }

  /** `now` is `before` with the publication of `doc` under `n` not begun, staged or done. */
  predicate Progress<N(==)>(before: Dir<N>, now: Dir<N>, n: N, doc: Doc) {
    || now == before
    || now == before[Final(n) := Whole(doc)]
    || (Pending(n) in now && StagedFor(now[Pending(n)], doc) && now == before[Pending(n) := now[Pending(n)]])
  }

  predicate TornAt<N(==)>(dir: Dir<N>, n: N) {
    Pending(n) in dir && dir[Pending(n)].Torn?
  }

  predicate MappingProgress(lib: Lib, before: Dir<Digest>, now: Dir<Digest>, p: Plan) {
    Progress(before, now, p.intent.keyHash, MappingDoc(MappingOf(lib, p)))
  }

  function NextOf(lib: Lib, audits: Dir<nat>, p: Plan): Audit {
    NextAudit(lib, audits, IssuedRecord(CommitOf(lib, p)))
  }

  function RecordedAudits(lib: Lib, audits: Dir<nat>, p: Plan): Dir<nat> {
    audits[Final(NextOf(lib, audits, p).sequence) := Whole(AuditDoc(NextOf(lib, audits, p)))]
  }

  predicate AuditProgress(lib: Lib, before: Dir<nat>, now: Dir<nat>, p: Plan) {
    Progress(before, now, NextOf(lib, before, p).sequence, AuditDoc(NextOf(lib, before, p)))
  }

  predicate DirProgress(lib: Lib, d: Dir<File>, p: Plan) {
    || Progress(FourFiles(lib, p), d, CompleteFile, CompleteDoc(CompleteOf(lib, p)))
    || Progress(FiveFiles(lib, p), d, AuditMarkFile, AuditMarkDoc(p.intent.issuanceId))
  }

  /** The audit marker, the last of the publications, is staged or final. */
  predicate MarkBegun(d: Dir<File>) {
    Pending(AuditMarkFile) in d || Final(AuditMarkFile) in d
  }

  /** `c` is the clean state `c0` plus a committed issuance part of whose publications are done. */
  ghost predicate Committed(lib: Lib, c0: Ca, c: Ca, p: Plan) {
    var id := p.intent.issuanceId;
    && c.initPending == c0.initPending && c.quarantines == c0.quarantines
    && id in c.issuances && c.issuances == c0.issuances[id := c.issuances[id]]
    && c.reservations == c0.reservations[Final(p.intent.serial) := Whole(ReservationDoc(ReservationFor(p.intent)))]
    && DirProgress(lib, c.issuances[id], p)
    && MappingProgress(lib, c0.mappings, c.mappings, p)
    && AuditProgress(lib, c0.audits, c.audits, p)
    && (MarkBegun(c.issuances[id]) ==>
          c.mappings == Indexed(lib, c0.mappings, p) && c.audits == RecordedAudits(lib, c0.audits, p))
  }

  /** One of the publications after the commit has a torn staging file. */
  ghost predicate TornAfterCommit(lib: Lib, c0: Ca, c: Ca, p: Plan) {
    || (p.intent.issuanceId in c.issuances
        && (TornAt(c.issuances[p.intent.issuanceId], CompleteFile)
            || TornAt(c.issuances[p.intent.issuanceId], AuditMarkFile)))
    || TornAt(c.mappings, p.intent.keyHash)
    || TornAt(c.audits, NextOf(lib, c0.audits, p).sequence)
  }

  /** The state a finished enrollment ends in. */
  function Finished(lib: Lib, c0: Ca, c: Ca, p: Plan): Ca {
    c.(issuances := c0.issuances[p.intent.issuanceId := SixFiles(lib, p)],
       reservations := c0.reservations[Final(p.intent.serial) := Whole(ReservationDoc(ReservationFor(p.intent)))],
       mappings := Indexed(lib, c0.mappings, p),
       audits := RecordedAudits(lib, c0.audits, p))
  }

  /** What the enrollment of a plan relies on. */
  ghost predicate Fits(authority: Id, c0: Ca, p: Plan) {
    && p.intent.authorityId == authority && p.intent.version == SCHEMA_VERSION
    && CleanState.Unused(c0, p.intent.issuanceId, p.intent.serial)
    && Final(p.intent.keyHash) !in c0.mappings
  }

  lemma LoadsAsPlanned(lib: Lib, authority: Id, d: Dir<File>, p: Plan)
    requires p.intent.authorityId == authority && DirProgress(lib, d, p)
    ensures Load(lib, authority, d)
          == Some(Transaction(p.intent, RecordOf(lib, p), CommitOf(lib, p), CompleteOf(lib, p)))
  {
    var four := FourFiles(lib, p);
    assert Final(IntentFile) in d && d[Final(IntentFile)] == four[Final(IntentFile)];
    assert Final(CertificateFile) in d && d[Final(CertificateFile)] == four[Final(CertificateFile)];
    assert Final(RecordFile) in d && d[Final(RecordFile)] == four[Final(RecordFile)];
    assert Final(CommitFile) in d && d[Final(CommitFile)] == four[Final(CommitFile)];
  }

  // ---------- each publication, for every amount of fuel ----------

  /** Publishing over a directory in which only the same publication was under way. */
  lemma PublishShape<N(!new)>(before: Dir<N>, now: Dir<N>, n: N, doc: Doc, tear: Tear, fuel: nat)
    requires Final(n) !in before && Pending(n) !in before && Progress(before, now, n, doc)
    ensures var r := PublishExact(now, n, Whole(doc), Empty, TornBlob(tear, Whole(doc)), fuel);
            && Progress(before, r.dir, n, doc)
            && (r.status == Done ==> r.dir == before[Final(n) := Whole(doc)])
            && (fuel >= PUBLICATION_STEPS ==>
                  r.fuel >= fuel - PUBLICATION_STEPS && (r.status == Done <==> !TornAt(now, n)))
  {
    var blob, torn := Whole(doc), TornBlob(tear, Whole(doc));
    if Final(n) !in now {
      DestinationIsAbsentOrExact(now, n, blob, Empty, torn, fuel);
      assert now - {Pending(n)} == before;
      assert before[Pending(n) := torn] == now[Pending(n) := torn];
      assert before[Pending(n) := blob] == now[Pending(n) := blob];
      assert before[Pending(n) := blob] - {Pending(n)} == before;
    }
  }

  lemma CompleteReplaced(lib: Lib, c0: Ca, c: Ca, p: Plan, e: Dir<File>, fuel: nat)
    requires Committed(lib, c0, c, p) && Progress(FourFiles(lib, p), e, CompleteFile, CompleteDoc(CompleteOf(lib, p)))
    ensures Committed(lib, c0, c.(issuances := c.issuances[p.intent.issuanceId := e], fuel := fuel), p)
    ensures !MarkBegun(e)
  {
    WreckQuarantine.UpdateTwice(c0.issuances, p.intent.issuanceId, c.issuances[p.intent.issuanceId], e);
  }

  lemma CompletePublished(lib: Lib, c: Ca, p: Plan)
    requires p.intent.issuanceId in c.issuances && Final(CompleteFile) !in c.issuances[p.intent.issuanceId]
    requires Progress(FourFiles(lib, p), c.issuances[p.intent.issuanceId], CompleteFile,
          CompleteDoc(CompleteOf(lib, p)))
    requires PublishFileExact(c, p.intent.issuanceId, CompleteFile, CompleteDoc(CompleteOf(lib, p))).Ok?
    ensures !TornAt(c.issuances[p.intent.issuanceId], CompleteFile)
  {
  }

  /** Unless COMPLETE itself is torn, publishing it leaves nothing else torn or mended. */
  lemma CompleteTears(lib: Lib, c0: Ca, c: Ca, p: Plan, d: Dir<File>, e: Dir<File>, fuel: nat)
    requires p.intent.issuanceId in c.issuances && c.issuances[p.intent.issuanceId] == d
    requires Progress(FourFiles(lib, p), d, CompleteFile, CompleteDoc(CompleteOf(lib, p))) && !TornAt(d, CompleteFile)
    requires e == FiveFiles(lib, p)
    ensures TornAfterCommit(lib, c0, c.(issuances := c.issuances[p.intent.issuanceId := e], fuel := fuel), p)
            <==> TornAfterCommit(lib, c0, c, p)
  {
  }

  lemma FirstComplete(lib: Lib, c0: Ca, c: Ca, p: Plan)
    requires Committed(lib, c0, c, p) && Final(CompleteFile) !in c.issuances[p.intent.issuanceId]
    ensures var id := p.intent.issuanceId;
            var out := PublishFileExact(c, id, CompleteFile, CompleteDoc(CompleteOf(lib, p)));
            && out.ca == c.(issuances := c.issuances[id := out.ca.issuances[id]], fuel := out.ca.fuel)
            && Committed(lib, c0, out.ca, p)
            && (out.Ok? ==> Final(CompleteFile) in out.ca.issuances[id])
            && (out.Ok? ==> (TornAfterCommit(lib, c0, out.ca, p) <==> TornAfterCommit(lib, c0, c, p)))
            && (c.fuel >= PUBLICATION_STEPS ==>
                  out.ca.fuel >= c.fuel - PUBLICATION_STEPS && (out.Ok? <==> !TornAt(c.issuances[id], CompleteFile)))
  {
    var id := p.intent.issuanceId;
    var d, doc := c.issuances[id], CompleteDoc(CompleteOf(lib, p));
    PublishShape(FourFiles(lib, p), d, CompleteFile, doc, c.tear, c.fuel);
    var out := PublishFileExact(c, id, CompleteFile, doc);
    CompleteReplaced(lib, c0, c, p, out.ca.issuances[id], out.ca.fuel);
    if out.Ok? {
      CompletePublished(lib, c, p);
      CompleteTears(lib, c0, c, p, d, out.ca.issuances[id], out.ca.fuel);
    }
  }

  lemma CompleteStep(lib: Lib, c0: Ca, c: Ca, p: Plan)
    requires Committed(lib, c0, c, p)
    ensures var id := p.intent.issuanceId;
            var out := PublishFileExact(c, id, CompleteFile, CompleteDoc(CompleteOf(lib, p)));
            && out.ca == c.(issuances := out.ca.issuances, fuel := out.ca.fuel)
            && Committed(lib, c0, out.ca, p)
            && (out.Ok? ==> Final(CompleteFile) in out.ca.issuances[id])
            && (out.Ok? ==> (TornAfterCommit(lib, c0, out.ca, p) <==> TornAfterCommit(lib, c0, c, p)))
            && (c.fuel >= PUBLICATION_STEPS ==>
                  out.ca.fuel >= c.fuel - PUBLICATION_STEPS && (out.Ok? <==> !TornAt(c.issuances[id], CompleteFile)))
  {
    var id := p.intent.issuanceId;
    var d, doc := c.issuances[id], CompleteDoc(CompleteOf(lib, p));
    if Final(CompleteFile) in d {
      ScanMeaning.HeldNeedsNothing(c, id, CompleteFile, doc);
      assert !TornAt(d, CompleteFile);
    } else {
      FirstComplete(lib, c0, c, p);
    }
  }

  lemma MappingStep(lib: Lib, c0: Ca, c: Ca, p: Plan)
    requires MappingProgress(lib, c0.mappings, c.mappings, p)
    requires Final(p.intent.keyHash) !in c0.mappings && Pending(p.intent.keyHash) !in c0.mappings
    ensures var out := PublishMapping(c, MappingOf(lib, p));
            && out.ca == c.(mappings := out.ca.mappings, fuel := out.ca.fuel)
            && MappingProgress(lib, c0.mappings, out.ca.mappings, p)
            && (out.Ok? || c.mappings == Indexed(lib, c0.mappings, p) ==>
                out.ca.mappings == Indexed(lib, c0.mappings, p))
            && (c.fuel >= PUBLICATION_STEPS ==>
                  out.ca.fuel >= c.fuel - PUBLICATION_STEPS && (out.Ok? <==> !TornAt(c.mappings, p.intent.keyHash)))
  {
    PublishShape(c0.mappings, c.mappings, p.intent.keyHash, MappingDoc(MappingOf(lib, p)), c.tear, c.fuel);
  }

  lemma SameFinalsSameNext(lib: Lib, before: Dir<nat>, now: Dir<nat>, record: Audit)
    requires forall n: nat :: Final(n) in now <==> Final(n) in before
    requires forall n: nat :: Final(n) in before ==> now[Final(n)] == before[Final(n)]
    ensures NextAudit(lib, now, record) == NextAudit(lib, before, record)
  {
    AuditChain.FinalsAre(before);
    AuditChain.FinalsAre(now);
    assert Finals(now) == Finals(before);
  }

  lemma {:induction false} NothingIssued(audits: Dir<nat>, order: seq<nat>, id: Id)
    requires forall n: nat :: !Scan.IssuedAt(audits, n, id)
    requires forall n <- order :: Final(n) in audits && ParseAudit(audits[Final(n)]).Some?
    ensures SearchAudit(audits, order, id).Absent?
  {
    if order != [] {
      assert !Scan.IssuedAt(audits, order[0], id);
      NothingIssued(audits, order[1..], id);
    }
  }

  lemma UnrecordedIsAbsent(lib: Lib, c0: Ca, now: Dir<nat>, id: Id)
    requires LibOk(lib) && Scan.AuditChainValid(lib, c0.audits)
    requires forall n: nat :: Final(n) in now <==> Final(n) in c0.audits
    requires forall n: nat :: Final(n) in c0.audits ==> now[Final(n)] == c0.audits[Final(n)]
    requires forall n: nat :: !Scan.IssuedAt(c0.audits, n, id)
    ensures SearchAudit(now, lib.list(Finals(now)), id).Absent?
  {
    AuditChain.FinalsAre(now);
    var order := lib.list(Finals(now));
    assert Enumerates(order, Finals(now));
    forall n <- order ensures Final(n) in now && ParseAudit(now[Final(n)]).Some? {
      assert n in Finals(now);
      assert Scan.AuditEntryValid(lib, c0.audits, n);
    }
    assert forall n: nat :: Scan.IssuedAt(now, n, id) == Scan.IssuedAt(c0.audits, n, id);
    NothingIssued(now, order, id);
  }

  lemma RecordedIsAudited(lib: Lib, c0: Ca, p: Plan)
    ensures ScanMeaning.AuditedAs(RecordedAudits(lib, c0.audits, p), CommitOf(lib, p),
          NextOf(lib, c0.audits, p).sequence)
  {
  }

  lemma AlreadyRecorded(lib: Lib, c0: Ca, c: Ca, p: Plan)
    requires LibOk(lib) && Scan.AuditChainValid(lib, c0.audits) && (forall n: nat :: Pending(n) !in c0.audits)
    requires (forall n: nat :: !Scan.IssuedAt(c0.audits, n, p.intent.issuanceId))
    requires c.audits == RecordedAudits(lib, c0.audits, p)
    ensures EnsureIssuanceAudit(lib, c, CommitOf(lib, p)) == Ok(c, ())
    ensures Scan.AuditChainValid(lib, c.audits) && Advance.Kept(c0.audits, c.audits)
  {
    var next := NextOf(lib, c0.audits, p);
    assert c0.audits - {Pending(next.sequence)} == c0.audits;
    AuditChain.AppendKeepsChain(lib, c0.audits, IssuedRecord(CommitOf(lib, p)));
    WreckQuarantine.AppendedKeeps(lib, c0.audits, IssuedRecord(CommitOf(lib, p)));
    RecordedIsAudited(lib, c0, p);
    ScanMeaning.AuditedNeedsNothing(lib, c, CommitOf(lib, p));
  }

  lemma AuditStep(lib: Lib, c0: Ca, c: Ca, p: Plan)
    requires LibOk(lib) && Scan.AuditChainValid(lib, c0.audits) && (forall n: nat :: Pending(n) !in c0.audits)
    requires (forall n: nat :: !Scan.IssuedAt(c0.audits, n, p.intent.issuanceId))
    requires AuditProgress(lib, c0.audits, c.audits, p)
    ensures var out := EnsureIssuanceAudit(lib, c, CommitOf(lib, p));
            && out.ca == c.(audits := out.ca.audits, fuel := out.ca.fuel)
            && AuditProgress(lib, c0.audits, out.ca.audits, p)
            && (out.Ok? || c.audits == RecordedAudits(lib, c0.audits, p) ==>
                out.ca.audits == RecordedAudits(lib, c0.audits, p))
            && (c.fuel >= PUBLICATION_STEPS ==>
                  out.ca.fuel >= c.fuel - PUBLICATION_STEPS
                  && (out.Ok? <==> !TornAt(c.audits, NextOf(lib, c0.audits, p).sequence)))
  {
    var next := NextOf(lib, c0.audits, p);
    if c.audits == RecordedAudits(lib, c0.audits, p) {
      AlreadyRecorded(lib, c0, c, p);
    } else {
      assert Final(next.sequence) !in c0.audits && Final(next.sequence) !in c.audits;
      UnrecordedIsAbsent(lib, c0, c.audits, p.intent.issuanceId);
      SameFinalsSameNext(lib, c0.audits, c.audits, IssuedRecord(CommitOf(lib, p)));
      PublishShape(c0.audits, c.audits, next.sequence, AuditDoc(next), c.tear, c.fuel);
    }
  }

  lemma MarkStep(lib: Lib, c0: Ca, c: Ca, p: Plan)
    requires Committed(lib, c0, c, p) && Final(CompleteFile) in c.issuances[p.intent.issuanceId]
    requires c.mappings == Indexed(lib, c0.mappings, p) && c.audits == RecordedAudits(lib, c0.audits, p)
    ensures var id := p.intent.issuanceId;
            var out := PublishMark(c, id, id);
            && out.ca == c.(issuances := out.ca.issuances, fuel := out.ca.fuel)
            && Committed(lib, c0, out.ca, p) && Final(CompleteFile) in out.ca.issuances[id]
            && (out.Ok? ==> out.ca.issuances == c0.issuances[id := SixFiles(lib, p)])
            && (c.fuel >= PUBLICATION_STEPS ==> (out.Ok? <==> !TornAt(c.issuances[id], AuditMarkFile)))
  {
    var id := p.intent.issuanceId;
    var d := c.issuances[id];
    PublishShape(FiveFiles(lib, p), d, AuditMarkFile, AuditMarkDoc(id), c.tear, c.fuel);
    var e := PublishMark(c, id, id).ca.issuances[id];
    WreckQuarantine.UpdateTwice(c0.issuances, id, d, e);
  }
}
