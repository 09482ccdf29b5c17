/** The scan's validators as the loops they are, proved against their meaning. */
module Validators {
  import opened Publication
  import opened Records
  import opened AuthorityState
  import opened Issuance
  import opened Scan
  import AuditChain

  // ---------- sorted directory listings ----------

  predicate Ascending(s: seq<nat>) {
    forall i, j :: 0 <= i < j < |s| ==> s[i] <= s[j]
  }

  function Insert(x: nat, s: seq<nat>): (r: seq<nat>) {
    if s == [] || x <= s[0] then [x] + s else [s[0]] + Insert(x, s[1..])
  }

  /** `entries.sort()`; zero-padded names sort as their numbers do. */
  function Sort(s: seq<nat>): (r: seq<nat>) {
    if s == [] then [] else Insert(s[0], Sort(s[1..]))
  }

  lemma {:induction false} InsertAdds(x: nat, s: seq<nat>)
    ensures multiset(Insert(x, s)) == multiset(s) + multiset{x}
  {
    if s != [] && x > s[0] {
      InsertAdds(x, s[1..]);
      assert s == [s[0]] + s[1..];
    }
  }

  lemma {:induction false} InsertAscends(x: nat, s: seq<nat>)
    requires Ascending(s)
    ensures Ascending(Insert(x, s))
  {
    if s != [] && x > s[0] {
      var rest := Insert(x, s[1..]);
      InsertAscends(x, s[1..]);
      InsertAdds(x, s[1..]);
      forall j | 0 <= j < |rest| ensures s[0] <= rest[j] {
        assert rest[j] in multiset(rest);
        assert rest[j] == x || rest[j] in s[1..];
      }
    }
  }

  /** Sorting permutes the listing into ascending order. */
  lemma {:induction false} SortSorts(s: seq<nat>)
    ensures Ascending(Sort(s)) && multiset(Sort(s)) == multiset(s)
  {
    if s != [] {
      SortSorts(s[1..]);
      InsertAdds(s[0], Sort(s[1..]));
      InsertAscends(s[0], Sort(s[1..]));
      assert s == [s[0]] + s[1..];
    }
  }

  lemma SortedEnumerates(s: seq<nat>, entries: set<nat>)
    requires Enumerates(s, entries)
    ensures Enumerates(Sort(s), entries) && Ascending(Sort(s))
  {
    var r := Sort(s);
    SortSorts(s);
    forall x: nat ensures x in r <==> x in entries {
      assert x in r <==> x in multiset(r);
      assert x in s <==> x in multiset(s);
    }
    forall i, j | 0 <= i < j < |r| ensures r[i] != r[j] {
      if r[i] == r[j] {
        TwiceCounts(r, i, j);
        OnceEach(s, r[i]);
      }
    }
  }

  lemma TwiceCounts(s: seq<nat>, i: nat, j: nat)
    requires i < j < |s| && s[i] == s[j]
    ensures multiset(s)[s[i]] >= 2
  {
    assert s == s[..j] + s[j..];
    assert s[i] in s[..j] && s[j] in s[j..];
  }

  lemma {:induction false} OnceEach(s: seq<nat>, x: nat)
    requires forall i, j :: 0 <= i < j < |s| ==> s[i] != s[j]
    ensures multiset(s)[x] <= 1
  {
    if s != [] {
      assert s == [s[0]] + s[1..];
      OnceEach(s[1..], x);
      if s[0] == x {
        assert x !in s[1..];
      }
    }
  }

  lemma {:induction false} EnumerationSize(s: seq<nat>, entries: set<nat>)
    requires Enumerates(s, entries)
    ensures |s| == |entries|
  {
    if s == [] {
      assert entries == {};
    } else {
      assert s == [s[0]] + s[1..];
      assert s[0] in s;
      EnumerationSize(s[1..], entries - {s[0]});
    }
  }

  /** Distinct ascending numbers below their count are 0, 1, 2, ... */
  lemma {:induction false} AscendingBelowCount(s: seq<nat>, k: nat)
    requires Ascending(s) && (forall i, j :: 0 <= i < j < |s| ==> s[i] != s[j])
    requires (forall x <- s :: x < |s|) && k < |s|
    ensures s[k] == k
  {
    AtLeastIndex(s, k);
    AtMostIndex(s, k);
  }

  lemma {:induction false} AtLeastIndex(s: seq<nat>, k: nat)
    requires Ascending(s) && (forall i, j :: 0 <= i < j < |s| ==> s[i] != s[j]) && k < |s|
    ensures s[k] >= k
  {
    if k > 0 {
      AtLeastIndex(s, k - 1);
      assert s[k - 1] < s[k];
    }
  }

  lemma {:induction false} AtMostIndex(s: seq<nat>, k: nat)
    requires Ascending(s) && (forall i, j :: 0 <= i < j < |s| ==> s[i] != s[j])
    requires (forall x <- s :: x < |s|) && k < |s|
    ensures s[k] <= k
    decreases |s| - k
  {
    if k + 1 < |s| {
      AtMostIndex(s, k + 1);
      assert s[k] < s[k + 1];
    } else {
      assert s[k] in s;
    }
  }

  // ---------- validate_audit_chain ----------

  ghost predicate RecordedBefore(audits: Dir<nat>, n: nat, id: Id) {
    exists m: nat :: m < n && IssuedAt(audits, m, id)
  }

  lemma ValidChainListing(lib: Lib, audits: Dir<nat>, entries: seq<nat>, k: nat)
    requires AuditChainValid(lib, audits) && Enumerates(entries, Finals(audits)) && Ascending(entries) && k < |entries|
    ensures entries[k] == k && AuditEntryValid(lib, audits, k)
  {
    EnumerationSize(entries, Finals(audits));
    AuditChain.FinalsAre(audits);
    AscendingBelowCount(entries, k);
  }

  lemma CheckedChain(lib: Lib, audits: Dir<nat>, entries: seq<nat>)
    requires Enumerates(entries, Finals(audits))
    requires forall k: nat :: k < |entries| ==> entries[k] == k && AuditEntryValid(lib, audits, k)
    requires forall n: nat, m: nat,
          id: Id :: n < |entries| && m < |entries| && IssuedAt(audits, n, id) && IssuedAt(audits, m, id) ==> n == m
    ensures AuditChainValid(lib, audits)
  {
    EnumerationSize(entries, Finals(audits));
    AuditChain.FinalsAre(audits);
    forall n: nat ensures Final(n) in audits <==> n < |entries| {
      if Final(n) in audits {
        assert n in entries;
        var k: nat :| k < |entries| && entries[k] == n;
        assert entries[k] == k;
      }
      if n < |entries| {
        assert AuditEntryValid(lib, audits, n);
      }
    }
  }

  /** What the loop knows after the first `n` entries. */
  ghost predicate ChainChecked(lib: Lib, audits: Dir<nat>, entries: seq<nat>, n: nat, prior: Option<Digest>,
          seen: set<Id>) {
    && n <= |entries|
    && (forall k: nat :: k < n ==> entries[k] == k && AuditEntryValid(lib, audits, k))
    && (n == 0 ==> prior == None)
    && (n > 0 ==> Final(n - 1) in audits && prior == Some(lib.sha(audits[Final(n - 1)])))
    && (forall id: Id :: id in seen <==> RecordedBefore(audits, n, id))
    && (forall k: nat, m: nat, id: Id :: k < n && m < n && IssuedAt(audits, k, id) && IssuedAt(audits, m, id) ==>
          k == m)
  }

  /** One entry: its number, its link to the entry before, and its issuance not seen yet. */
  predicate EntryAccepted(record: Audit, name: nat, sequence: nat, prior: Option<Digest>, seen: set<Id>) {
    && record.sequence == sequence && record.prior == prior && name == sequence
    && (record.kind == CertificateIssued ==> record.issuanceId.Some? && record.issuanceId.value !in seen)
  }

  function Noted(record: Audit, seen: set<Id>): set<Id> {
    if record.kind == CertificateIssued && record.issuanceId.Some? then seen + {record.issuanceId.value} else seen
  }

  lemma AcceptedEntry(lib: Lib, audits: Dir<nat>, entries: seq<nat>, n: nat, prior: Option<Digest>, seen: set<Id>,
          record: Audit)
    requires ChainChecked(lib, audits, entries, n, prior, seen) && n < |entries| && Final(entries[n]) in audits
    requires ParseAudit(audits[Final(entries[n])]) == Some(record) && EntryAccepted(record, entries[n], n, prior, seen)
    ensures ChainChecked(lib, audits, entries, n + 1, Some(lib.sha(audits[Final(entries[n])])), Noted(record, seen))
  {
    assert AuditEntryValid(lib, audits, n);
    forall id: Id ensures id in Noted(record, seen) <==> RecordedBefore(audits, n + 1, id) {
      assert IssuedAt(audits, n, id) <==> IsIssuedRecord(record, id);
      if RecordedBefore(audits, n + 1, id) && !IssuedAt(audits, n, id) {
        var m: nat :| m < n + 1 && IssuedAt(audits, m, id);
        assert m < n;
      }
    }
    forall k: nat, m: nat,
          id: Id | k < n + 1 && m < n + 1 && IssuedAt(audits, k, id) && IssuedAt(audits, m, id) ensures k == m {
      assert IssuedAt(audits, n, id) ==> id !in seen;
      assert k < n && m == n ==> RecordedBefore(audits, n, id);
      assert m < n && k == n ==> RecordedBefore(audits, n, id);
    }
  }

  lemma RefusedEntry(lib: Lib, audits: Dir<nat>, entries: seq<nat>, n: nat, prior: Option<Digest>, seen: set<Id>)
    requires ChainChecked(lib, audits, entries, n, prior, seen) && n < |entries|
    requires AuditChainValid(lib, audits) && Enumerates(entries, Finals(audits)) && Ascending(entries)
    ensures Final(entries[n]) in audits && ParseAudit(audits[Final(entries[n])]).Some?
    ensures EntryAccepted(ParseAudit(audits[Final(entries[n])]).value, entries[n], n, prior, seen)
  {
    ValidChainListing(lib, audits, entries, n);
    var record := ParseAudit(audits[Final(n)]).value;
    if record.kind == CertificateIssued {
      var id := record.issuanceId.value;
      assert IssuedAt(audits, n, id);
      assert forall m: nat :: IssuedAt(audits, m, id) ==> m == n;
      assert !RecordedBefore(audits, n, id);
    }
  }

  lemma NothingChecked(lib: Lib, audits: Dir<nat>, entries: seq<nat>)
    ensures ChainChecked(lib, audits, entries, 0, None, {})
  {
  }

  method CheckAuditEntry(lib: Lib, audits: Dir<nat>, entries: seq<nat>, sequence: nat, prior: Option<Digest>,
          seen: set<Id>)
    returns (ok: bool, prior': Option<Digest>, seen': set<Id>)
    requires Enumerates(entries, Finals(audits)) && Ascending(entries) && sequence < |entries|
    requires ChainChecked(lib, audits, entries, sequence, prior, seen)
    ensures ok ==> ChainChecked(lib, audits, entries, sequence + 1, prior', seen')
    ensures !ok ==> !AuditChainValid(lib, audits)
  {
    var name := entries[sequence];
    assert name in entries;
    assert Final(name) in audits by {
      AuditChain.FinalsAre(audits);
    }
    var bytes := audits[Final(name)];
    var parsed := ParseAudit(bytes);
    if parsed.None? || !EntryAccepted(parsed.value, name, sequence, prior, seen) {
      if AuditChainValid(lib, audits) {
        RefusedEntry(lib, audits, entries, sequence, prior, seen);
      }
      return false, prior, seen;
    }
    AcceptedEntry(lib, audits, entries, sequence, prior, seen, parsed.value);
    return true, Some(lib.sha(bytes)), Noted(parsed.value, seen);
  }

  method ValidateAuditChain(lib: Lib, audits: Dir<nat>) returns (ok: bool)
    requires LibOk(lib)
    ensures ok == AuditChainValid(lib, audits)
  {
    var listed := lib.list(Finals(audits));
    var entries := Sort(listed);
    SortedEnumerates(listed, Finals(audits));
    var prior: Option<Digest> := None;
    var issuanceIds: set<Id> := {};
    NothingChecked(lib, audits, entries);
    for sequence := 0 to |entries|
      invariant ChainChecked(lib, audits, entries, sequence, prior, issuanceIds)
    {
      ok, prior, issuanceIds := CheckAuditEntry(lib, audits, entries, sequence, prior, issuanceIds);
      if !ok {
        return false;
      }
    }
    CheckedChain(lib, audits, entries);
    return true;
  }

  // ---------- validate_idempotency_index ----------

  method ValidateIdempotencyIndex(lib: Lib, authority: Id, c: Ca) returns (ok: bool)
    requires LibOk(lib)
    ensures ok == MappingsValid(authority, c)
  {
    var entries := lib.list(Finals(c.mappings));
    assert Enumerates(entries, Finals(c.mappings));
    AuditChain.FinalsAre(c.mappings);
    for i := 0 to |entries|
      invariant forall k: nat :: k < i ==>
        var parsed := ParseMapping(c.mappings[Final(entries[k])]);
        parsed.Some? && MappingValid(authority, c, entries[k], parsed.value)
    {
      var key := entries[i];
      assert key in entries;
      match ParseMapping(c.mappings[Final(key)]) {
        case None =>
          return false;
        case Some(m) =>
          if !MappingValid(authority, c, key, m) {
            return false;
          }
      }
    }
    return true;
  }

  // ---------- validate_reservations ----------

  method ReservationMatchesQuarantine(c: Ca, entries: seq<Id>, r: Reservation) returns (ok: bool)
    ensures ok == MatchesQuarantine(c, entries, r)
  {
    for i := 0 to |entries|
      invariant MatchesQuarantine(c, entries, r) == MatchesQuarantine(c, entries[i..], r)
    {
      assert entries[i..][0] == entries[i] && entries[i..][1..] == entries[i + 1..];
      if entries[i] !in c.quarantines {
        return false;
      }
      var x := c.quarantines[entries[i]];
      if Final(PreparedNote) in x.notes && Final(QuarantinedNote) in x.notes {
        match ParsePrepared(x.notes[Final(PreparedNote)]) {
          case None =>
            return false;
          case Some(p) =>
            if p.issuanceId == r.issuanceId && p.serial == Some(r.serial) {
              return x.original.Some? && Final(ReservationCopy) in x.original.value
                     && ParseReservation(x.original.value[Final(ReservationCopy)]) == Some(r);
            }
        }
      }
    }
    assert entries[|entries|..] == [];
    return false;
  }

  ghost predicate ReservedAmong(c: Ca, entries: seq<Id>, i: nat, id: Id)
    requires i <= |entries|
  {
    exists k: nat, r: Reservation :: k < i && ReservedAt(c, entries[k], r) && r.issuanceId == id
  }

  lemma ReservedSomewhere(c: Ca, entries: seq<Id>, id: Id)
    requires Enumerates(entries, Finals(c.reservations))
    ensures IsReserved(c, id) <==> ReservedAmong(c, entries, |entries|, id)
  {
    AuditChain.FinalsAre(c.reservations);
    if IsReserved(c, id) {
      var s: Id, r: Reservation :| ReservedAt(c, s, r) && r.issuanceId == id;
      assert s in entries;
      var k: nat :| k < |entries| && entries[k] == s;
      assert ReservedAt(c, entries[k], r);
    }
    if ReservedAmong(c, entries, |entries|, id) {
      var k: nat, r: Reservation :| k < |entries| && ReservedAt(c, entries[k], r) && r.issuanceId == id;
    }
  }

  /** The first loop: every reservation is readable and belongs somewhere, no issuance twice. */
  method CheckEachReservation(lib: Lib, authority: Id, c: Ca, entries: seq<Id>) returns (ok: bool, reserved: set<Id>)
    requires LibOk(lib) && Enumerates(entries, Finals(c.reservations))
    ensures ok ==> forall id: Id :: id in reserved <==> ReservedAmong(c, entries, |entries|, id)
    ensures ok <==> forall k: nat :: k < |entries| ==> ReservationAccepted(lib, authority, c, entries, k)
  {
    AuditChain.FinalsAre(c.reservations);
    reserved := {};
    ok := true;
    for i := 0 to |entries|
      invariant forall id: Id :: id in reserved <==> ReservedAmong(c, entries, i, id)
      invariant forall k: nat :: k < i ==> ReservationAccepted(lib, authority, c, entries, k)
    {
      var serial := entries[i];
      assert serial in entries;
      match ParseReservation(c.reservations[Final(serial)]) {
        case None =>
          assert !ReservationAccepted(lib, authority, c, entries, i);
          return false, reserved;
        case Some(r) =>
          assert ReservedAt(c, entries[i], r);
          var matches;
          if Has(c, r.issuanceId, IntentFile) {
            var parsed := ParseIntent(FileOf(c, r.issuanceId, IntentFile));
            matches := parsed.Some? && r.serial == parsed.value.serial && r.issuanceId == parsed.value.issuanceId;
          } else {
            matches := ReservationMatchesQuarantine(c, lib.list(c.quarantines.Keys), r);
          }
          if r.authorityId != authority || !matches || r.issuanceId in reserved {
            assert !ReservationAccepted(lib, authority, c, entries, i);
            return false, reserved;
          }
          reserved := reserved + {r.issuanceId};
          assert forall id: Id :: ReservedAmong(c, entries, i + 1, id) <==>
              ReservedAmong(c, entries, i, id) || id == r.issuanceId by {
            forall id: Id ensures ReservedAmong(c, entries, i + 1, id) <==>
                ReservedAmong(c, entries, i, id) || id == r.issuanceId {
              OneMoreReserved(c, entries, i, r, id);
            }
          }
      }
    }
  }

  lemma OneMoreReserved(c: Ca, entries: seq<Id>, i: nat, r: Reservation, id: Id)
    requires i < |entries| && ReservedAt(c, entries[i], r)
    ensures ReservedAmong(c, entries, i + 1, id) <==> ReservedAmong(c, entries, i, id) || id == r.issuanceId
  {
    if ReservedAmong(c, entries, i + 1, id) && !ReservedAmong(c, entries, i, id) {
      var k: nat, q: Reservation :| k < i + 1 && ReservedAt(c, entries[k], q) && q.issuanceId == id;
      assert k == i;
    }
  }

  /** What the first loop demands of the reservation at position k. */
  ghost predicate ReservationAccepted(lib: Lib, authority: Id, c: Ca, entries: seq<Id>, k: nat)
    requires k < |entries|
  {
    && Final(entries[k]) in c.reservations
    && var parsed := ParseReservation(c.reservations[Final(entries[k])]);
       parsed.Some? && ReservationValid(lib, authority, c, parsed.value)
             && !ReservedAmong(c, entries, k, parsed.value.issuanceId)
  }

  lemma AcceptedMeansValid(lib: Lib, authority: Id, c: Ca, entries: seq<Id>)
    requires Enumerates(entries, Finals(c.reservations))
    requires forall k: nat :: k < |entries| ==> ReservationAccepted(lib, authority, c, entries, k)
    requires forall id <- c.issuances.Keys :: IsReserved(c, id)
    ensures ReservationsValid(lib, authority, c)
  {
    AuditChain.FinalsAre(c.reservations);
    forall s: Id | Final(s) in c.reservations
      ensures exists k: nat :: k < |entries| && entries[k] == s && ReservationAccepted(lib, authority, c, entries, k)
    {
      assert s in entries;
      var k: nat :| k < |entries| && entries[k] == s;
      assert ReservationAccepted(lib, authority, c, entries, k);
    }
    forall s: Id, t: Id, r: Reservation,
          q: Reservation | ReservedAt(c, s, r) && ReservedAt(c, t, q) && r.issuanceId == q.issuanceId
      ensures s == t
    {
      var k: nat :| k < |entries| && entries[k] == s && ReservationAccepted(lib, authority, c, entries, k);
      var l: nat :| l < |entries| && entries[l] == t && ReservationAccepted(lib, authority, c, entries, l);
      AcceptedOnce(lib, authority, c, entries, k, l, r, q);
    }
  }

  lemma AcceptedOnce(lib: Lib, authority: Id, c: Ca, entries: seq<Id>, k: nat, l: nat, r: Reservation, q: Reservation)
    requires k < |entries| && l < |entries|
    requires ReservationAccepted(lib, authority, c, entries, k) && ReservationAccepted(lib, authority, c, entries, l)
    requires ReservedAt(c, entries[k], r) && ReservedAt(c, entries[l], q) && r.issuanceId == q.issuanceId
    ensures k == l
  {
    assert !ReservedAmong(c, entries, k, r.issuanceId) && !ReservedAmong(c, entries, l, q.issuanceId);
  }

  lemma ValidMeansAccepted(lib: Lib, authority: Id, c: Ca, entries: seq<Id>, k: nat)
    requires Enumerates(entries, Finals(c.reservations)) && ReservationsValid(lib, authority, c) && k < |entries|
    ensures ReservationAccepted(lib, authority, c, entries, k)
  {
    AuditChain.FinalsAre(c.reservations);
    assert entries[k] in entries;
    var r := ParseReservation(c.reservations[Final(entries[k])]).value;
    assert ReservedAt(c, entries[k], r);
    forall l: nat, q: Reservation | l < k && ReservedAt(c, entries[l], q) ensures q.issuanceId != r.issuanceId {
      assert entries[l] != entries[k];
    }
  }

  method ValidateReservations(lib: Lib, authority: Id, c: Ca) returns (ok: bool)
    requires LibOk(lib)
    ensures ok == ReservationsValid(lib, authority, c)
  {
    var entries := lib.list(Finals(c.reservations));
    assert Enumerates(entries, Finals(c.reservations));
    var accepted, reserved := CheckEachReservation(lib, authority, c, entries);
    if !accepted {
      if ReservationsValid(lib, authority, c) {
        forall k: nat | k < |entries| ensures ReservationAccepted(lib, authority, c, entries, k) {
          ValidMeansAccepted(lib, authority, c, entries, k);
        }
      }
      return false;
    }
    var directories := lib.list(c.issuances.Keys);
    assert Enumerates(directories, c.issuances.Keys);
    for i := 0 to |directories|
      invariant forall k: nat :: k < i ==> IsReserved(c, directories[k])
    {
      ReservedSomewhere(c, entries, directories[i]);
      assert directories[i] in directories;
      if directories[i] !in reserved {
        return false;
      }
    }
    AcceptedMeansValid(lib, authority, c, entries);
    return true;
  }

  // ---------- quarantines ----------

  method ValidateQuarantines(lib: Lib, c: Ca) returns (ok: bool)
    requires LibOk(lib)
    ensures ok == QuarantinesDone(c)
  {
    var entries := lib.list(c.quarantines.Keys);
    assert Enumerates(entries, c.quarantines.Keys);
    for i := 0 to |entries|
      invariant forall k: nat :: k < i ==> entries[k] in c.quarantines && QuarantineDone(c.quarantines[entries[k]])
    {
      assert entries[i] in entries;
      if !QuarantineDone(c.quarantines[entries[i]]) {
        return false;
      }
    }
    return true;
  }
}
