/** Recovery of a committed issuance: when it succeeds, and that stopped recoveries converge. */
module Recovery {
  import opened Publication
  import opened Records
  import opened AuthorityState
  import opened Issuance
  import opened QuarantineCommand
  import opened Finish
  import AuditChain
  import CleanState
  import Scan

  // ---------- recovery of a committed issuance ----------

  lemma RecoveryIsCompleteThenTail(lib: Lib, authority: Id, c: Ca, p: Plan)
    requires p.intent.authorityId == authority && p.intent.issuanceId in c.issuances
    requires DirProgress(lib, c.issuances[p.intent.issuanceId], p)
    ensures var id := p.intent.issuanceId;
            var first := PublishFileExact(c, id, CompleteFile, CompleteDoc(CompleteOf(lib, p)));
            RecoverCommit(lib, authority, c, id)
                == if first.Err? then first else Tail(lib, first.ca, id, CommitOf(lib, p))
  {
    LoadsAsPlanned(lib, authority, c.issuances[p.intent.issuanceId], p);
  }

  /** From any partial state after COMPLETE, with any amount of fuel. */
  lemma TailShape(lib: Lib, authority: Id, c0: Ca, c: Ca, p: Plan)
    requires LibOk(lib) && CleanState.Clean(lib, authority, c0) && Fits(authority, c0, p)
    requires Committed(lib, c0, c, p) && Final(CompleteFile) in c.issuances[p.intent.issuanceId]
    ensures var out := Tail(lib, c, p.intent.issuanceId, CommitOf(lib, p));
            && Committed(lib, c0, out.ca, p) && Final(CompleteFile) in out.ca.issuances[p.intent.issuanceId]
            && (out.Ok? ==> out.ca == Finished(lib, c0, out.ca, p))
            && (c.fuel >= 3 * PUBLICATION_STEPS ==> (out.Ok? <==> !TornAfterCommit(lib, c0, c, p)))
            && out.ca.signed == c.signed && out.ca.replies == c.replies && out.ca.retired == c.retired
  {
    MappingStep(lib, c0, c, p);
    var o2 := PublishMapping(c, MappingOf(lib, p));
    MappingsReplaced(lib, c0, c, p, o2.ca.mappings, o2.ca.fuel);
    CompleteIsNotStaged(lib, c.issuances[p.intent.issuanceId], p);
    if o2.Ok? {
      AuditThenMark(lib, authority, c0, o2.ca, p);
    }
  }

  lemma CompleteIsNotStaged(lib: Lib, d: Dir<File>, p: Plan)
    requires DirProgress(lib, d, p) && Final(CompleteFile) in d
    ensures Pending(CompleteFile) !in d
  {
  }

  lemma MappingsReplaced(lib: Lib, c0: Ca, c: Ca, p: Plan, mappings: Dir<Digest>, fuel: nat)
    requires Committed(lib, c0, c, p) && MappingProgress(lib, c0.mappings, mappings, p)
    requires c.mappings == Indexed(lib, c0.mappings, p) ==> mappings == Indexed(lib, c0.mappings, p)
    ensures Committed(lib, c0, c.(mappings := mappings, fuel := fuel), p)
  {
  }

  lemma AuditsReplaced(lib: Lib, c0: Ca, c: Ca, p: Plan, audits: Dir<nat>, fuel: nat)
    requires Committed(lib, c0, c, p) && AuditProgress(lib, c0.audits, audits, p)
    requires c.audits == RecordedAudits(lib, c0.audits, p) ==> audits == RecordedAudits(lib, c0.audits, p)
    ensures Committed(lib, c0, c.(audits := audits, fuel := fuel), p)
  {
  }

  lemma AuditThenMark(lib: Lib, authority: Id, c0: Ca, c: Ca, p: Plan)
    requires LibOk(lib) && CleanState.Clean(lib, authority, c0) && Fits(authority, c0, p)
    requires Committed(lib, c0, c, p) && Final(CompleteFile) in c.issuances[p.intent.issuanceId]
    requires c.mappings == Indexed(lib, c0.mappings, p)
    ensures var o3 := EnsureIssuanceAudit(lib, c, CommitOf(lib, p));
            var out := if o3.Err? then o3 else PublishMark(o3.ca, p.intent.issuanceId, p.intent.issuanceId);
            && Committed(lib, c0, out.ca, p) && Final(CompleteFile) in out.ca.issuances[p.intent.issuanceId]
            && (out.Ok? ==> out.ca == Finished(lib, c0, out.ca, p))
            && (c.fuel >= 2 * PUBLICATION_STEPS ==>
                  (out.Ok? <==> !TornAt(c.issuances[p.intent.issuanceId], AuditMarkFile)
                                && !TornAt(c.audits, NextOf(lib, c0.audits, p).sequence)))
            && out.ca.signed == c.signed && out.ca.replies == c.replies && out.ca.retired == c.retired
  {
    AuditStep(lib, c0, c, p);
    var o3 := EnsureIssuanceAudit(lib, c, CommitOf(lib, p));
    AuditsReplaced(lib, c0, c, p, o3.ca.audits, o3.ca.fuel);
    if o3.Ok? {
      MarkStep(lib, c0, o3.ca, p);
    }
  }

  /** With enough fuel, recovery finishes a committed issuance exactly when none of its
      staging files is torn. */
  lemma CommittedRecovers(lib: Lib, authority: Id, c0: Ca, c: Ca, p: Plan)
    requires LibOk(lib) && CleanState.Clean(lib, authority, c0) && Fits(authority, c0, p)
    requires Committed(lib, c0, c, p) && c.fuel >= CleanState.ENOUGH
    ensures var out := RecoverCommit(lib, authority, c, p.intent.issuanceId);
            && (out.Ok? <==> !TornAfterCommit(lib, c0, c, p))
            && (out.Ok? ==> out.ca == Finished(lib, c0, out.ca, p))
  {
    RecoveryIsCompleteThenTail(lib, authority, c, p);
    CompleteStep(lib, c0, c, p);
    var first := PublishFileExact(c, p.intent.issuanceId, CompleteFile, CompleteDoc(CompleteOf(lib, p)));
    if first.Ok? {
      TailShape(lib, authority, c0, first.ca, p);
    }
  }

  ghost predicate SameFiles(a: Ca, b: Ca) {
    a.issuances == b.issuances && a.mappings == b.mappings && a.audits == b.audits
    && a.reservations == b.reservations && a.quarantines == b.quarantines
  }

  lemma RefuelledStays(lib: Lib, c0: Ca, c: Ca, p: Plan, fuel: nat, tear: Tear)
    ensures var ready := c.(fuel := fuel, tear := tear);
            && (Committed(lib, c0, c, p) <==> Committed(lib, c0, ready, p))
            && (TornAfterCommit(lib, c0, c, p) <==> TornAfterCommit(lib, c0, ready, p))
  {
  }

  lemma FinishedAlike(lib: Lib, c0: Ca, a: Ca, b: Ca, p: Plan)
    requires Committed(lib, c0, a, p) && Committed(lib, c0, b, p)
    requires a == Finished(lib, c0, a, p) && b == Finished(lib, c0, b, p)
    ensures SameFiles(a, b)
  {
  }

  lemma StoppedRecoveryIsCommitted(lib: Lib, authority: Id, c0: Ca, c: Ca, p: Plan)
    requires LibOk(lib) && CleanState.Clean(lib, authority, c0) && Fits(authority, c0, p)
    requires Committed(lib, c0, c, p)
    ensures Committed(lib, c0, RecoverCommit(lib, authority, c, p.intent.issuanceId).ca, p)
  {
    RecoveryIsCompleteThenTail(lib, authority, c, p);
    CompleteStep(lib, c0, c, p);
    var first := PublishFileExact(c, p.intent.issuanceId, CompleteFile, CompleteDoc(CompleteOf(lib, p)));
    if first.Ok? {
      TailShape(lib, authority, c0, first.ca, p);
    }
  }

  lemma OneRecordAdded(lib: Lib, c0: Ca, p: Plan)
    requires Scan.AuditChainValid(lib, c0.audits) && (forall n: nat :: Pending(n) !in c0.audits)
    ensures |Finals(RecordedAudits(lib, c0.audits, p))| == |Finals(c0.audits)| + 1
  {
    assert c0.audits - {Pending(NextOf(lib, c0.audits, p).sequence)} == c0.audits;
    AuditChain.CountGrows(lib, c0.audits, IssuedRecord(CommitOf(lib, p)));
  }

  /** Stopping recovery anywhere and running it again reaches the same files as one
      uninterrupted run, exactly when the stop left no staging file torn; and in all it adds
      one audit record. */
  lemma RecoveryConverges(lib: Lib, authority: Id, c0: Ca, c: Ca, p: Plan, tear: Tear)
    requires LibOk(lib) && CleanState.Clean(lib, authority, c0) && Fits(authority, c0, p)
    requires Committed(lib, c0, c, p) && !TornAfterCommit(lib, c0, c, p)
    ensures var id := p.intent.issuanceId;
            var stopped := RecoverCommit(lib, authority, c, id).ca;
            var again := RecoverCommit(lib, authority, stopped.(fuel := CleanState.ENOUGH, tear := tear), id);
            var direct := RecoverCommit(lib, authority, c.(fuel := CleanState.ENOUGH, tear := tear), id);
            && direct.Ok?
            && (again.Ok? <==> !TornAfterCommit(lib, c0, stopped, p))
            && (again.Ok? ==> SameFiles(again.ca, direct.ca))
            && |Finals(direct.ca.audits)| == |Finals(c0.audits)| + 1
  {
    var id := p.intent.issuanceId;
    StoppedRecoveryIsCommitted(lib, authority, c0, c, p);
    var stopped := RecoverCommit(lib, authority, c, id).ca;
    var ready, whole := stopped.(fuel := CleanState.ENOUGH, tear := tear), c.(fuel := CleanState.ENOUGH, tear := tear);
    RefuelledStays(lib, c0, stopped, p, CleanState.ENOUGH, tear);
    RefuelledStays(lib, c0, c, p, CleanState.ENOUGH, tear);
    CommittedRecovers(lib, authority, c0, ready, p);
    CommittedRecovers(lib, authority, c0, whole, p);
    StoppedRecoveryIsCommitted(lib, authority, c0, whole, p);
    if !TornAfterCommit(lib, c0, stopped, p) {
      var again, direct := RecoverCommit(lib, authority, ready, id).ca, RecoverCommit(lib, authority, whole, id).ca;
      StoppedRecoveryIsCommitted(lib, authority, c0, ready, p);
      FinishedAlike(lib, c0, again, direct, p);
    }
    OneRecordAdded(lib, c0, p);
  }
}
