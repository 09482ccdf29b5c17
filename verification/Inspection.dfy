/** Collecting the evidence about an incomplete issuance, as the loops `quarantine` runs
    (authority.rs), proved against what they are meant to find. */
module Inspection {
  import opened Publication
  import opened Records
  import opened AuthorityState
  import opened Issuance
  import opened QuarantineCommand
  import AuditChain
  import Validators
  import WreckQuarantine

  lemma ListedOnce(lib: Lib, entries: set<nat>)
    requires LibOk(lib)
    ensures Enumerates(lib.list(entries), entries)
  {
  }

  // ---------- mappings ----------

  method CheckNoMapping(lib: Lib, c: Ca, id: Id) returns (ok: bool)
    requires LibOk(lib)
    ensures ok == NoMappingTo(c, id)
  {
    var entries := lib.list(Finals(c.mappings));
    ListedOnce(lib, Finals(c.mappings));
    AuditChain.FinalsAre(c.mappings);
    for i := 0 to |entries|
      invariant forall k: nat :: k < i ==>
        var parsed := ParseMapping(c.mappings[Final(entries[k])]);
        parsed.Some? && parsed.value.issuanceId != id
    {
      var key := entries[i];
      assert key in entries;
      var parsed := ParseMapping(c.mappings[Final(key)]);
      if parsed.None? || parsed.value.issuanceId == id {
        assert !MappingReadable(c, key) || ParseMapping(c.mappings[Final(key)]).value.issuanceId == id;
        return false;
      }
    }
    return true;
  }

  // ---------- reservations ----------

  /** Every finalized reservation of the issuance; None when one cannot be read. */
  method CollectReservations(lib: Lib, c: Ca, id: Id) returns (found: Option<seq<Id>>)
    requires LibOk(lib)
    ensures found.None? <==> !ReservationsReadable(c)
    ensures found.Some? ==> Enumerates(found.value, Reserved(c, id))
  {
    var entries := lib.list(Finals(c.reservations));
    ListedOnce(lib, Finals(c.reservations));
    AuditChain.FinalsAre(c.reservations);
    var reservations: seq<Id> := [];
    for i := 0 to |entries|
      invariant forall k: nat :: k < i ==> ReservationOf(c, entries[k]).Some?
      invariant forall x: Id :: x in reservations <==> x in entries[..i] && x in Reserved(c, id)
      invariant forall k, l :: 0 <= k < l < |reservations| ==> reservations[k] != reservations[l]
    {
      var serial := entries[i];
      assert serial in entries && serial !in entries[..i];
      assert entries[..i + 1] == entries[..i] + [serial];
      var parsed := ReservationOf(c, serial);
      if parsed.None? {
        assert Final(serial) in c.reservations;
        return None;
      }
      if parsed.value.issuanceId == id {
        reservations := reservations + [serial];
      }
    }
    assert entries[..|entries|] == entries;
    forall s: Id | Final(s) in c.reservations ensures ReservationOf(c, s).Some? {
      assert s in entries;
    }
    return Some(reservations);
  }

  lemma OneOrNone(lib: Lib, entries: set<nat>, s: set<Id>, found: seq<Id>)
    requires LibOk(lib) && s <= entries && Enumerates(found, s) && |found| <= 1
    ensures |s| <= 1
    ensures Only(s, lib.list(entries)) == if found == [] then None else Some(found[0])
  {
    ListedOnce(lib, entries);
    Validators.EnumerationSize(found, s);
    if found == [] {
      assert s == {};
      WreckQuarantine.OnlyFinds(s, lib.list(entries), 0);
    } else {
      assert s == {found[0]};
      WreckQuarantine.OnlyFinds(s, lib.list(entries), found[0]);
    }
  }

  // ---------- staged reservations ----------

  lemma TwoElements(s: set<Id>, x: Id, y: Id)
    requires x in s && y in s && x != y
    ensures |s| > 1
  {
    assert {x, y} <= s && |{x, y}| == 2;
    SubsetSize({x, y}, s);
  }

  lemma {:induction false} SubsetSize(a: set<Id>, b: set<Id>)
    requires a <= b
    ensures |a| <= |b|
  {
    if a != {} {
      var x :| x in a;
      SubsetSize(a - {x}, b - {x});
    }
  }

  /** The one staged reservation that belongs to the issuance; None when several do. */
  method CollectPending(lib: Lib, c: Ca, id: Id, intent: Option<Intent>) returns (found: Option<seq<Id>>)
    requires LibOk(lib)
    ensures found.None? <==> |PendingReserved(c, id, intent)| > 1
    ensures found.Some? ==> |found.value| <= 1 && Enumerates(found.value, PendingReserved(c, id, intent))
  {
    var entries := lib.list(Pendings(c.reservations));
    ListedOnce(lib, Pendings(c.reservations));
    AuditChain.FinalsAre(c.reservations);
    var pending: seq<Id> := [];
    for i := 0 to |entries|
      invariant |pending| <= 1
      invariant forall x: Id :: x in pending <==> x in entries[..i] && x in PendingReserved(c, id, intent)
    {
      var serial := entries[i];
      assert serial in entries && serial !in entries[..i];
      assert entries[..i + 1] == entries[..i] + [serial];
      if PendingBelongs(c, serial, id, intent) {
        if pending != [] {
          assert pending[0] in pending;
          TwoElements(PendingReserved(c, id, intent), pending[0], serial);
          return None;
        }
        pending := [serial];
      }
    }
    assert entries[..|entries|] == entries;
    Validators.EnumerationSize(pending, PendingReserved(c, id, intent));
    return Some(pending);
  }

  // ---------- the evidence ----------

  function First(found: seq<Id>): Option<Id> {
    if found == [] then None else Some(found[0])
  }

  /** The checks that follow the three searches. */
  predicate EvidenceRefused(authority: Id, c: Ca, id: Id, intent: Option<Intent>, reservation: Option<Id>,
          adopted: Option<Id>) {
    || (intent.Some? && intent.value.authorityId != authority)
    || (intent.Some? && reservation.Some?
        && (ReservationOf(c, reservation.value).None?
            || ReservationOf(c, reservation.value).value.serial != intent.value.serial
            || ReservationOf(c, reservation.value).value.authorityId != authority))
    || (intent.None? && reservation.None? && adopted.None? && id !in c.issuances)
    || (intent.None? && id in c.issuances && !StagingOnly(c.issuances[id]))
  }

  function Adopted(lib: Lib, c: Ca, id: Id, intent: Option<Intent>, reservation: Option<Id>,
          pending: Option<Id>): Option<Id> {
    var listed := lib.list(Pendings(c.reservations));
    if pending.None? && intent.None? && reservation.None? && id in c.issuances && |listed|
          == 1 then Some(listed[0]) else pending
  }

  lemma InspectionIs(lib: Lib, authority: Id, c: Ca, id: Id, intent: Option<Intent>)
    requires !Has(c, id, CompleteFile)
    requires var found := if id in c.issuances then IntentEvidence(c.issuances[id]) else Absent;
             found != Unreadable && intent == if found.Found? then Some(found.value) else None
    ensures var reservation := Only(Reserved(c, id), lib.list(Finals(c.reservations)));
            var pending := Only(PendingReserved(c, id, intent), lib.list(Pendings(c.reservations)));
            var adopted := Adopted(lib, c, id, intent, reservation, pending);
            Inspect(lib, authority, c, id) ==
              if NoMappingTo(c, id) && ReservationsReadable(c) && |Reserved(c, id)| <= 1
                 && |PendingReserved(c, id, intent)| <= 1
                 && !EvidenceRefused(authority, c, id, intent, reservation, adopted)
              then Some(Evidence(intent, reservation, adopted)) else None
  {
  }

  method InspectIssuance(lib: Lib, authority: Id, c: Ca, id: Id) returns (evidence: Option<Evidence>)
    requires LibOk(lib)
    ensures evidence == Inspect(lib, authority, c, id)
  {
    if Has(c, id, CompleteFile) {
      return None;
    }
    var found := if id in c.issuances then IntentEvidence(c.issuances[id]) else Absent;
    if found == Unreadable {
      return None;
    }
    var intent := if found.Found? then Some(found.value) else None;
    InspectionIs(lib, authority, c, id, intent);
    var unmapped := CheckNoMapping(lib, c, id);
    if !unmapped {
      return None;
    }
    var reservations := CollectReservations(lib, c, id);
    if reservations.None? {
      return None;
    }
    Validators.EnumerationSize(reservations.value, Reserved(c, id));
    if |reservations.value| > 1 {
      return None;
    }
    var pendings := CollectPending(lib, c, id, intent);
    if pendings.None? {
      return None;
    }
    evidence := Weigh(lib, authority, c, id, intent, reservations.value, pendings.value);
  }

  method Weigh(lib: Lib, authority: Id, c: Ca, id: Id, intent: Option<Intent>, reservations: seq<Id>, pendings: seq<Id>)
    returns (evidence: Option<Evidence>)
    requires LibOk(lib) && |reservations| <= 1 && |pendings| <= 1
    requires Enumerates(reservations, Reserved(c, id)) && Enumerates(pendings, PendingReserved(c, id, intent))
    ensures var reservation := Only(Reserved(c, id), lib.list(Finals(c.reservations)));
            var pending := Only(PendingReserved(c, id, intent), lib.list(Pendings(c.reservations)));
            var adopted := Adopted(lib, c, id, intent, reservation, pending);
            evidence == if EvidenceRefused(authority, c, id, intent, reservation, adopted)
                        then None else Some(Evidence(intent, reservation, adopted))
  {
    OneOrNone(lib, Finals(c.reservations), Reserved(c, id), reservations);
    OneOrNone(lib, Pendings(c.reservations), PendingReserved(c, id, intent), pendings);
    var reservation, pending := First(reservations), First(pendings);
    var adopted := Adopted(lib, c, id, intent, reservation, pending);
    if EvidenceRefused(authority, c, id, intent, reservation, adopted) {
      return None;
    }
    return Some(Evidence(intent, reservation, adopted));
  }
}
