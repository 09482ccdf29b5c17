/** What an enrollment stopped before COMPLETE leaves behind, and how the scan meets it. */
module Wreckage {
  import opened Publication
  import opened Records
  import opened AuthorityState
  import opened Issuance
  import opened Scan
  import AuditChain
  import CleanState
  import ScanMeaning

  ghost predicate WreckDir(d: Dir<File>, intent: Intent) {
    && Final(CompleteFile) !in d && Pending(AuditMarkFile) !in d
    && (forall f: File :: f == ReservationCopy || f == PendingCopy ==> Final(f) !in d && Pending(f) !in d)
    && (Final(IntentFile) in d ==> d[Final(IntentFile)] == Whole(IntentDoc(intent)))
    && (Final(IntentFile) !in d ==>
          && (forall f: File :: Final(f) !in d)
          && (Pending(IntentFile) in d ==> StagedFor(d[Pending(IntentFile)], IntentDoc(intent))))
  }

  ghost predicate ReservationProgress(c0: Ca, c: Ca, intent: Intent)
    requires intent.issuanceId in c.issuances
  {
    var s, doc := intent.serial, ReservationDoc(ReservationFor(intent));
    || c.reservations == c0.reservations
    || (&& Final(IntentFile) in c.issuances[intent.issuanceId]
        && (|| c.reservations == c0.reservations[Final(s) := Whole(doc)]
            || (&& Pending(s) in c.reservations && StagedFor(c.reservations[Pending(s)], doc)
                && c.reservations == c0.reservations[Pending(s) := c.reservations[Pending(s)]])))
  }

  /** `c` is the clean state `c0` plus one enrollment that has not reached COMPLETE. */
  ghost predicate Wreck(c0: Ca, c: Ca, intent: Intent) {
    && c.initPending == c0.initPending && c.mappings == c0.mappings
    && c.audits == c0.audits && c.quarantines == c0.quarantines
    && intent.issuanceId in c.issuances
    && c.issuances == c0.issuances[intent.issuanceId := c.issuances[intent.issuanceId]]
    && WreckDir(c.issuances[intent.issuanceId], intent)
    && ReservationProgress(c0, c, intent)
  }

  /** The scan cannot finish it: no commit yet, or COMPLETE still staged. */
  predicate Blocked(d: Dir<File>) {
    Final(CommitFile) !in d || Pending(CompleteFile) in d
  }

  ghost predicate BlockedWreck(c0: Ca, c: Ca, intent: Intent) {
    Wreck(c0, c, intent) && Blocked(c.issuances[intent.issuanceId])
  }

  // ---------- staging is adopted or reported ----------

  function Missing(c: Ca, id: Id): nat {
    if Has(c, id, IntentFile) then 0 else 1
  }

  lemma AdoptedDir(d: Dir<File>, intent: Intent, fuel: nat)
    requires WreckDir(d, intent) && Blocked(d) && Final(IntentFile) !in d && fuel > 0
    requires Pending(IntentFile) in d && d[Pending(IntentFile)].Whole?
    ensures var r := Adopt(d, IntentFile, fuel);
            && r.status == Done && r.fuel == fuel - 1
            && WreckDir(r.dir, intent) && Blocked(r.dir) && Final(IntentFile) in r.dir
            && d[Pending(IntentFile)] == Whole(IntentDoc(intent))
  {
  }

  lemma AdoptOneWreck(authority: Id, c0: Ca, c: Ca, intent: Intent, x: Id)
    requires NoStaging(c0) && intent.issuanceId !in c0.issuances && BlockedWreck(c0, c, intent)
    requires intent.authorityId == authority && intent.version == SCHEMA_VERSION
    ensures var out := AdoptIntent(authority, c, x);
            && BlockedWreck(c0, out.ca, intent)
            && (c.fuel >= Missing(c, intent.issuanceId) ==>
                  && out.ca.fuel + Missing(c, intent.issuanceId) == c.fuel + Missing(out.ca, intent.issuanceId)
                  && (out.Err? ==> out.error == StateError))
            && out.ca.reservations == c.reservations
  {
    var id := intent.issuanceId;
    if x == id && Final(IntentFile) !in c.issuances[id] && Pending(IntentFile) in c.issuances[id]
       && c.issuances[id][Pending(IntentFile)].Whole? {
      if c.fuel > 0 {
        AdoptMine(authority, c0, c, intent);
      } else {
        assert c.issuances[id := c.issuances[id]] == c.issuances;
      }
    } else if x != id && x in c.issuances {
      assert x in c0.issuances && c.issuances[x] == c0.issuances[x];
    }
  }

  lemma AdoptMine(authority: Id, c0: Ca, c: Ca, intent: Intent)
    requires BlockedWreck(c0, c, intent) && c.fuel >= 1
    requires intent.authorityId == authority && intent.version == SCHEMA_VERSION
    requires var d := c.issuances[intent.issuanceId];
             Final(IntentFile) !in d && Pending(IntentFile) in d && d[Pending(IntentFile)].Whole?
    ensures var out := AdoptIntent(authority, c, intent.issuanceId);
            && out.Ok? && BlockedWreck(c0, out.ca, intent) && Has(out.ca, intent.issuanceId, IntentFile)
            && out.ca.fuel == c.fuel - 1 && out.ca.reservations == c.reservations
  {
    var id := intent.issuanceId;
    var d := c.issuances[id];
    AdoptedDir(d, intent, c.fuel);
    var r := Adopt(d, IntentFile, c.fuel);
    assert c.issuances[id := r.dir] == c0.issuances[id := r.dir];
  }

  lemma {:induction false} AdoptIntentsWreck(authority: Id, c0: Ca, c: Ca, intent: Intent, order: seq<Id>)
    requires NoStaging(c0) && intent.issuanceId !in c0.issuances && BlockedWreck(c0, c, intent)
    requires intent.authorityId == authority && intent.version == SCHEMA_VERSION
    ensures var out := AdoptIntents(authority, c, order);
            && BlockedWreck(c0, out.ca, intent)
            && (c.fuel >= Missing(c, intent.issuanceId) ==>
                  && out.ca.fuel + Missing(c, intent.issuanceId) == c.fuel + Missing(out.ca, intent.issuanceId)
                  && (out.Err? ==> out.error == StateError))
    decreases |order|
  {
    if order != [] {
      AdoptOneWreck(authority, c0, c, intent, order[0]);
      var one := AdoptIntent(authority, c, order[0]);
      if one.Ok? {
        AdoptIntentsWreck(authority, c0, one.ca, intent, order[1..]);
      }
    }
  }

  lemma OneListed(lib: Lib, x: nat)
    requires LibOk(lib)
    ensures lib.list({x}) == [x]
  {
    var s := lib.list({x});
    assert Enumerates(s, {x});
    assert x in s;
    if |s| > 1 {
      Repeats(s, x);
    }
  }

  lemma Repeats(s: seq<nat>, x: nat)
    requires |s| > 1 && forall y <- s :: y == x
    ensures exists i, j :: 0 <= i < j < |s| && s[i] == s[j]
  {
    assert s[0] in s && s[1] in s;
    assert s[0] == s[1];
  }

  lemma AdoptReservationWreck(authority: Id, c0: Ca, c: Ca, intent: Intent)
    requires NoStaging(c0) && intent.issuanceId !in c0.issuances && BlockedWreck(c0, c, intent)
    requires Final(intent.serial) !in c0.reservations && Pending(intent.serial) in c.reservations
    requires intent.authorityId == authority && intent.version == SCHEMA_VERSION
    ensures var out := AdoptReservation(authority, c, intent.serial);
            && BlockedWreck(c0, out.ca, intent)
            && out.ca.fuel >= c.fuel - 1
            && (out.Err? && c.fuel >= 1 ==> out.error == StateError)
            && out.ca.issuances == c.issuances
  {
    var s, doc := intent.serial, ReservationDoc(ReservationFor(intent));
    var blob := c.reservations[Pending(s)];
    assert Has(c, intent.issuanceId, IntentFile);
    if blob == Whole(doc) {
      var out := AdoptReservation(authority, c, s);
      assert ReservationFits(authority, c, s, doc.reservation);
      assert c.fuel > 0 ==> out.ca.reservations == (c.reservations - {Pending(s)})[Final(s) := blob];
      assert c.fuel > 0 ==> out.ca.reservations == c0.reservations[Final(s) := Whole(doc)];
    }
  }

  lemma RecoverStagingWreck(lib: Lib, authority: Id, c0: Ca, c: Ca, intent: Intent)
    requires LibOk(lib) && NoStaging(c0) && intent.issuanceId !in c0.issuances && BlockedWreck(c0, c, intent)
    requires Final(intent.serial) !in c0.reservations
    requires intent.authorityId == authority && intent.version == SCHEMA_VERSION
    ensures var out := RecoverStaging(lib, authority, c);
            && BlockedWreck(c0, out.ca, intent)
            && (c.fuel >= CleanState.ENOUGH ==> out.ca.fuel >= c.fuel - 2 && (out.Err? ==> out.error == StateError))
            && (out.Ok? ==> Final(CommitFile) !in out.ca.issuances[intent.issuanceId])
  {
    var o1 := AdoptIntents(authority, c, lib.list(c.issuances.Keys));
    AdoptIntentsWreck(authority, c0, c, intent, lib.list(c.issuances.Keys));
    if o1.Ok? {
      AdoptReservationsWreck(lib, authority, c0, o1.ca, intent);
    }
  }

  lemma AdoptReservationsWreck(lib: Lib, authority: Id, c0: Ca, c: Ca, intent: Intent)
    requires LibOk(lib) && NoStaging(c0) && intent.issuanceId !in c0.issuances && BlockedWreck(c0, c, intent)
    requires Final(intent.serial) !in c0.reservations
    requires intent.authorityId == authority && intent.version == SCHEMA_VERSION
    ensures var out := AdoptReservations(authority, c, lib.list(Pendings(c.reservations)));
            && BlockedWreck(c0, out.ca, intent) && out.ca.issuances == c.issuances
            && out.ca.fuel >= c.fuel - 1 && (out.Err? && c.fuel >= 1 ==> out.error == StateError)
  {
    var s := intent.serial;
    AuditChain.FinalsAre(c.reservations);
    if Pending(s) in c.reservations {
      assert Pendings(c.reservations) == {s};
      OneListed(lib, s);
      AdoptReservationWreck(authority, c0, c, intent);
      var one := AdoptReservation(authority, c, s);
      assert [s][1..] == [];
      assert one.Ok? ==> AdoptReservations(authority, one.ca, []) == Ok(one.ca, ());
      assert AdoptReservations(authority, c, [s]) == one;
    } else {
      assert Pendings(c.reservations) == {};
      ScanMeaning.NothingListed(lib);
    }
  }

  // ---------- the scan stops at the wreck ----------

  lemma RecoverAllStops(lib: Lib, authority: Id, c: Ca, order: seq<Id>, id: Id)
    requires LibOk(lib) && AuditChainValid(lib, c.audits) && id in order && !Has(c, id, CommitFile)
    requires forall x <- order :: x != id ==> ScanMeaning.IssuanceSettled(lib, authority, c, x)
    ensures RecoverAll(lib, authority, c, order) == Err(c, StateError)
  {
    var rest := ScanMeaning.SkipsSettled(lib, authority, c, order, id);
  }

  lemma OthersStaySettled(lib: Lib, authority: Id, c0: Ca, c: Ca, intent: Intent, x: Id)
    requires intent.issuanceId !in c0.issuances && Wreck(c0, c, intent)
    requires x in c0.issuances && ScanMeaning.IssuanceSettled(lib, authority, c0, x)
    ensures ScanMeaning.IssuanceSettled(lib, authority, c, x)
  {
    assert c.issuances[x] == c0.issuances[x];
  }

  /** Scanning a blocked wreck fails, with enough fuel not for lack of it, and leaves a blocked
      wreck wherever it stops. */
  lemma BlockedWreckScan(lib: Lib, authority: Id, c0: Ca, c: Ca, intent: Intent)
    requires LibOk(lib) && CleanState.Clean(lib, authority, c0) && BlockedWreck(c0, c, intent)
    requires intent.issuanceId !in c0.issuances && Final(intent.serial) !in c0.reservations
    requires intent.authorityId == authority && intent.version == SCHEMA_VERSION
    ensures var out := FullScan(lib, authority, c);
            && out.Err? && BlockedWreck(c0, out.ca, intent)
            && (c.fuel >= CleanState.ENOUGH ==> out.error != Stopped && out.ca.fuel >= c.fuel - 2)
  {
    RecoverStagingWreck(lib, authority, c0, c, intent);
    var o1 := RecoverStaging(lib, authority, c);
    if o1.Ok? {
      var order := lib.list(o1.ca.issuances.Keys);
      assert Enumerates(order, o1.ca.issuances.Keys);
      forall x <- order | x != intent.issuanceId ensures ScanMeaning.IssuanceSettled(lib, authority, o1.ca, x) {
        assert x in c0.issuances;
        OthersStaySettled(lib, authority, c0, o1.ca, intent, x);
      }
      RecoverAllStops(lib, authority, o1.ca, order, intent.issuanceId);
    }
  }
}
