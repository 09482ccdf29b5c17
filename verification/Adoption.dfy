/** What the scan may adopt of the staged intents and reservations it finds, in any state. */
module Adoption {
  import opened Publication
  import opened Records
  import opened AuthorityState
  import opened Issuance
  import opened Scan
  import AuditChain

  /** The directory is as it was, or its staged intent, complete and naming the directory and the
      authority, has become final. */
  ghost predicate IntentAdopted(authority: Id, id: Id, d: Dir<File>, d': Dir<File>) {
    || d' == d
    || exists i: Intent ::
         && Final(IntentFile) !in d && Pending(IntentFile) in d && d[Pending(IntentFile)] == Whole(IntentDoc(i))
         && i.version == 1 && i.issuanceId == id && i.authorityId == authority
         && d' == (d - {Pending(IntentFile)})[Final(IntentFile) := Whole(IntentDoc(i))]
  }

  /** Nothing but intents has been adopted. */
  ghost predicate OnlyIntents(authority: Id, c: Ca, c': Ca) {
    && c' == c.(issuances := c'.issuances, fuel := c'.fuel)
    && c'.issuances.Keys == c.issuances.Keys
    && forall id <- c.issuances.Keys :: IntentAdopted(authority, id, c.issuances[id], c'.issuances[id])
  }

  lemma OneIntent(authority: Id, c: Ca, id: Id)
    ensures OnlyIntents(authority, c, AdoptIntent(authority, c, id).ca)
  {
    var out := AdoptIntent(authority, c, id);
    if out.ca != c && id in c.issuances {
      var d, d' := c.issuances[id], out.ca.issuances[id];
      assert IntentAdopted(authority, id, d, d') by {
        if d' != d {
          assert d' == (d - {Pending(IntentFile)})[Final(IntentFile) := d[Pending(IntentFile)]];
        }
      }
    }
  }

  lemma IntentsOn(authority: Id, a: Ca, b: Ca, c: Ca)
    requires OnlyIntents(authority, a, b) && OnlyIntents(authority, b, c)
    ensures OnlyIntents(authority, a, c)
  {
    forall id <- a.issuances.Keys ensures IntentAdopted(authority, id, a.issuances[id], c.issuances[id]) {
      assert IntentAdopted(authority, id, a.issuances[id], b.issuances[id]);
      assert IntentAdopted(authority, id, b.issuances[id], c.issuances[id]);
    }
  }

  lemma {:induction false} IntentsOnly(authority: Id, c: Ca, order: seq<Id>)
    ensures OnlyIntents(authority, c, AdoptIntents(authority, c, order).ca)
    decreases |order|
  {
    if order != [] {
      OneIntent(authority, c, order[0]);
      var one := AdoptIntent(authority, c, order[0]);
      if one.Ok? {
        IntentsOnly(authority, one.ca, order[1..]);
        IntentsOn(authority, c, one.ca, AdoptIntents(authority, one.ca, order[1..]).ca);
      }
    }
  }

  /** The reservation is for its own name, under the authority, and an issuance whose intent is
      final names it back. */
  ghost predicate Belongs(authority: Id, c: Ca, s: Id, r: Reservation) {
    && r.version == 1 && r.authorityId == authority && r.serial == s && Has(c, r.issuanceId, IntentFile)
    && exists i: Intent :: ParseIntent(FileOf(c, r.issuanceId, IntentFile)) == Some(i)
                           && i.issuanceId == r.issuanceId && i.serial == s
  }

  ghost predicate SameUnder(a: Dir<Id>, b: Dir<Id>, s: Id) {
    && (Final(s) in b <==> Final(s) in a) && (Final(s) in a ==> b[Final(s)] == a[Final(s)])
    && (Pending(s) in b <==> Pending(s) in a) && (Pending(s) in a ==> b[Pending(s)] == a[Pending(s)])
  }

  /** Under this name nothing has changed, or a staged reservation that belongs has become final. */
  ghost predicate ReservationAdopted(authority: Id, c: Ca, c': Ca, s: Id) {
    || SameUnder(c.reservations, c'.reservations, s)
    || exists r: Reservation ::
         && Final(s) !in c.reservations && Pending(s) in c.reservations
         && c.reservations[Pending(s)] == Whole(ReservationDoc(r)) && Belongs(authority, c, s, r)
         && Pending(s) !in c'.reservations && Final(s) in c'.reservations
         && c'.reservations[Final(s)] == Whole(ReservationDoc(r))
  }

  ghost predicate OnlyReservations(authority: Id, c: Ca, c': Ca) {
    && c' == c.(reservations := c'.reservations, fuel := c'.fuel)
    && forall s: Id :: ReservationAdopted(authority, c, c', s)
  }

  lemma OneReservation(authority: Id, c: Ca, s: Id)
    ensures OnlyReservations(authority, c, AdoptReservation(authority, c, s).ca)
  {
    var c' := AdoptReservation(authority, c, s).ca;
    forall t: Id ensures ReservationAdopted(authority, c, c', t) {
      if t == s && c' != c && !SameUnder(c.reservations, c'.reservations, s) {
        var r := c.reservations[Pending(s)].doc.reservation;
        assert Belongs(authority, c, s, r);
      }
    }
  }

  lemma ReservationsOn(authority: Id, a: Ca, b: Ca, c: Ca)
    requires OnlyReservations(authority, a, b) && OnlyReservations(authority, b, c)
    ensures OnlyReservations(authority, a, c)
  {
    forall r: Reservation, s: Id | Belongs(authority, b, s, r) ensures Belongs(authority, a, s, r) {
      assert Has(a, r.issuanceId, IntentFile);
    }
    forall s: Id ensures ReservationAdopted(authority, a, c, s) {
      assert ReservationAdopted(authority, a, b, s) && ReservationAdopted(authority, b, c, s);
    }
  }

  lemma {:induction false} ReservationsOnly(authority: Id, c: Ca, order: seq<Id>)
    ensures OnlyReservations(authority, c, AdoptReservations(authority, c, order).ca)
    decreases |order|
  {
    if order == [] {
      assert forall s: Id :: SameUnder(c.reservations, c.reservations, s);
    } else {
      OneReservation(authority, c, order[0]);
      var one := AdoptReservation(authority, c, order[0]);
      if one.Ok? {
        ReservationsOnly(authority, one.ca, order[1..]);
        ReservationsOn(authority, c, one.ca, AdoptReservations(authority, one.ca, order[1..]).ca);
      }
    }
  }

  /** Whatever its outcome, recovering the staging adopts only intents that name their directory
      and reservations that belong to an intent; and it succeeds only with nothing left staged. */
  lemma AdoptsOnly(lib: Lib, authority: Id, c: Ca)
    ensures var out := RecoverStaging(lib, authority, c);
            && (exists mid: Ca :: OnlyIntents(authority, c, mid) && OnlyReservations(authority, mid, out.ca))
            && (out.Ok? ==>
                  && (forall id <- out.ca.issuances.Keys, f: File :: Pending(f) !in out.ca.issuances[id])
                  && (forall s: Id :: Pending(s) !in out.ca.reservations))
  {
    var order := lib.list(c.issuances.Keys);
    IntentsOnly(authority, c, order);
    var o1 := AdoptIntents(authority, c, order);
    ReservationsOnly(authority, o1.ca, []);
    if o1.Ok? {
      ReservationsOnly(authority, o1.ca, lib.list(Pendings(o1.ca.reservations)));
    }
  }

  // ---------- what stops the scan ----------

  /** A staged intent without a final one. */
  ghost predicate Staged(c: Ca, id: Id) {
    id in c.issuances && Final(IntentFile) !in c.issuances[id] && Pending(IntentFile) in c.issuances[id]
  }

  /** The staged intent is complete and names its directory and the authority. */
  ghost predicate Adoptable(authority: Id, c: Ca, id: Id) {
    Staged(c, id)
    && exists i: Intent :: c.issuances[id][Pending(IntentFile)] == Whole(IntentDoc(i))
                           && i.version == 1 && i.issuanceId == id && i.authorityId == authority
  }

  /** The staged intent is neither empty nor a complete intent. */
  ghost predicate Garbled(c: Ca, id: Id) {
    Staged(c, id) && c.issuances[id][Pending(IntentFile)] != Empty
    && forall i: Intent :: c.issuances[id][Pending(IntentFile)] != Whole(IntentDoc(i))
  }

  /** Of a staged intent: adopted exactly when it can be, an error exactly when it is garbled or no
      operation is left to adopt it, and otherwise left alone. */
  lemma IntentExactly(authority: Id, c: Ca, id: Id)
    ensures var out := AdoptIntent(authority, c, id);
            && (out.Err? <==> Garbled(c, id) || (Adoptable(authority, c, id) && c.fuel == 0))
            && (Has(out.ca, id, IntentFile) && !Has(c, id, IntentFile) <==> Adoptable(authority, c, id) && c.fuel > 0)
            && (!Adoptable(authority, c, id) || c.fuel == 0 ==> out.ca.issuances == c.issuances)
  {
    if id in c.issuances {
      assert c.issuances == c.issuances[id := c.issuances[id]];
    }
  }

  /** A pending initialization stops the scan before it touches anything, and a log that is not a
      chain stops it before it recovers a commit. */
  lemma StopsEarly(lib: Lib, authority: Id, c: Ca)
    ensures c.initPending ==> FullScan(lib, authority, c) == Err(c, StateError)
    ensures !c.initPending && RecoverStaging(lib, authority, c).Ok? && !AuditChainValid(lib, c.audits) ==>
              FullScan(lib, authority, c) == Err(RecoverStaging(lib, authority, c).ca, Inconsistent)
  {
    AdoptsOnly(lib, authority, c);
  }

  // ---------- exactly when everything staged is recovered ----------

  ghost predicate ReservationFitsNow(authority: Id, c: Ca, s: Id) {
    && Pending(s) in c.reservations && Final(s) !in c.reservations
    && exists r: Reservation :: c.reservations[Pending(s)] == Whole(ReservationDoc(r)) && Belongs(authority, c, s, r)
  }

  /** Of a staged reservation: adopted exactly when it belongs and its name is free, and an error
      otherwise. */
  lemma ReservationExactly(authority: Id, c: Ca, s: Id)
    requires Pending(s) in c.reservations
    ensures var out := AdoptReservation(authority, c, s);
            && (out.Ok? <==> ReservationFitsNow(authority, c, s) && c.fuel > 0)
            && (out.Ok? ==> out.ca == c.(reservations := out.ca.reservations, fuel := c.fuel - 1)
                            && out.ca.reservations
                               == (c.reservations - {Pending(s)})[Final(s) := c.reservations[Pending(s)]])
  {
    if c.reservations[Pending(s)].Whole? && c.reservations[Pending(s)].doc.ReservationDoc? {
      var r := c.reservations[Pending(s)].doc.reservation;
      assert ReservationFits(authority, c, s, r) <==> Belongs(authority, c, s, r);
    }
  }

  /** The issuance has this intent, or will once its staged one is adopted. */
  ghost predicate IntentToBe(authority: Id, c: Ca, id: Id, i: Intent) {
    || (Has(c, id, IntentFile) && ParseIntent(FileOf(c, id, IntentFile)) == Some(i))
    || (Adoptable(authority, c, id) && c.issuances[id][Pending(IntentFile)] == Whole(IntentDoc(i)))
  }

  ghost predicate WillFit(authority: Id, c: Ca, s: Id) {
    && Pending(s) in c.reservations && Final(s) !in c.reservations
    && exists r: Reservation, i: Intent ::
         && c.reservations[Pending(s)] == Whole(ReservationDoc(r))
         && r.version == 1 && r.authorityId == authority && r.serial == s
         && IntentToBe(authority, c, r.issuanceId, i) && i.issuanceId == r.issuanceId && i.serial == s
  }

  /** Nothing is staged but intents that can be adopted and reservations that will belong. */
  ghost predicate AllAdoptable(authority: Id, c: Ca) {
    && (forall id <- c.issuances.Keys, f: File :: Pending(f) in c.issuances[id] ==>
          f == IntentFile && Adoptable(authority, c, id))
    && (forall s: Id :: Pending(s) in c.reservations ==> WillFit(authority, c, s))
  }

  predicate Distinct(order: seq<nat>) {
    forall i, j :: 0 <= i < j < |order| ==> order[i] != order[j]
  }

  lemma Untouched(authority: Id, c: Ca, c': Ca, id: Id)
    requires c'.issuances.Keys == c.issuances.Keys && (id in c.issuances ==> c'.issuances[id] == c.issuances[id])
    ensures Garbled(c', id) == Garbled(c, id) && Adoptable(authority, c', id) == Adoptable(authority, c, id)
  {
  }

  lemma {:induction false} IntentsRun(authority: Id, c: Ca, order: seq<Id>)
    requires Distinct(order) && c.fuel >= |order| && forall id <- order :: !Garbled(c, id)
    ensures var out := AdoptIntents(authority, c, order);
            && out.Ok? && out.ca.fuel >= c.fuel - |order|
            && forall id <- order :: Adoptable(authority, c, id) ==> Has(out.ca, id, IntentFile)
    decreases |order|
  {
    if order != [] {
      IntentExactly(authority, c, order[0]);
      OneIntent(authority, c, order[0]);
      var one := AdoptIntent(authority, c, order[0]);
      assert order == [order[0]] + order[1..];
      forall id <- order[1..] ensures id != order[0] && !Garbled(one.ca, id)
                                      && (Adoptable(authority, c, id) ==> Adoptable(authority, one.ca, id)) {
        var k :| 0 <= k < |order| - 1 && order[1..][k] == id;
        assert order[k + 1] == id && id in order && !Garbled(c, id);
        Untouched(authority, c, one.ca, id);
      }
      IntentsRun(authority, one.ca, order[1..]);
      IntentsOnly(authority, one.ca, order[1..]);
    }
  }

  lemma FitsElsewhere(authority: Id, c: Ca, c': Ca, s: Id, t: Id)
    requires c' == c.(reservations := c'.reservations, fuel := c'.fuel) && Pending(t) in c.reservations && s != t
    requires c'.reservations == (c.reservations - {Pending(t)})[Final(t) := c.reservations[Pending(t)]]
    requires ReservationFitsNow(authority, c, s)
    ensures ReservationFitsNow(authority, c', s)
  {
    var r: Reservation :| c.reservations[Pending(s)] == Whole(ReservationDoc(r)) && Belongs(authority, c, s, r);
    assert Belongs(authority, c', s, r) by {
      assert Has(c', r.issuanceId, IntentFile);
    }
  }

  lemma {:induction false} ReservationsRun(authority: Id, c: Ca, order: seq<Id>)
    requires Distinct(order) && c.fuel >= |order| && forall s <- order :: ReservationFitsNow(authority, c, s)
    ensures var out := AdoptReservations(authority, c, order);
            && out.Ok? && (forall s <- order :: Pending(s) !in out.ca.reservations)
            && (forall s: Id :: Pending(s) in out.ca.reservations ==> Pending(s) in c.reservations)
    decreases |order|
  {
    if order != [] {
      assert order[0] in order;
      ReservationExactly(authority, c, order[0]);
      var one := AdoptReservation(authority, c, order[0]);
      assert order == [order[0]] + order[1..];
      forall s <- order[1..] ensures ReservationFitsNow(authority, one.ca, s) {
        var k :| 0 <= k < |order| - 1 && order[1..][k] == s;
        assert order[k + 1] == s;
        FitsElsewhere(authority, c, one.ca, s, order[0]);
      }
      ReservationsRun(authority, one.ca, order[1..]);
    }
  }

  /** What has been recovered could be. */
  lemma RecoveredWasAdoptable(lib: Lib, authority: Id, c: Ca)
    requires RecoverStaging(lib, authority, c).Ok?
    ensures AllAdoptable(authority, c)
  {
    AdoptsOnly(lib, authority, c);
    var out := RecoverStaging(lib, authority, c).ca;
    var mid: Ca :| OnlyIntents(authority, c, mid) && OnlyReservations(authority, mid, out);
    forall id <- c.issuances.Keys, f: File | Pending(f) in c.issuances[id]
      ensures f == IntentFile && Adoptable(authority, c, id)
    {
      assert IntentAdopted(authority, id, c.issuances[id], mid.issuances[id]);
      assert Pending(f) !in out.issuances[id];
    }
    forall s: Id | Pending(s) in c.reservations ensures WillFit(authority, c, s) {
      assert ReservationAdopted(authority, mid, out, s);
      var r: Reservation :| mid.reservations[Pending(s)] == Whole(ReservationDoc(r)) && Belongs(authority, mid, s, r);
      ToBeFrom(authority, c, mid, s, r);
    }
  }

  lemma ToBeFrom(authority: Id, c: Ca, mid: Ca, s: Id, r: Reservation)
    requires OnlyIntents(authority, c, mid) && Belongs(authority, mid, s, r)
    ensures exists i: Intent ::
              IntentToBe(authority, c, r.issuanceId, i) && i.issuanceId == r.issuanceId && i.serial == s
  {
    var id := r.issuanceId;
    var i: Intent :| ParseIntent(FileOf(mid, id, IntentFile)) == Some(i) && i.issuanceId == id && i.serial == s;
    assert IntentAdopted(authority, id, c.issuances[id], mid.issuances[id]);
    assert IntentToBe(authority, c, id, i);
  }

  lemma ToBeIs(authority: Id, c: Ca, mid: Ca, id: Id, i: Intent)
    requires OnlyIntents(authority, c, mid) && IntentToBe(authority, c, id, i)
    requires Adoptable(authority, c, id) ==> Has(mid, id, IntentFile)
    ensures Has(mid, id, IntentFile) && ParseIntent(FileOf(mid, id, IntentFile)) == Some(i)
  {
    assert IntentAdopted(authority, id, c.issuances[id], mid.issuances[id]);
  }

  lemma FitsInTheMiddle(authority: Id, c: Ca, mid: Ca, s: Id)
    requires OnlyIntents(authority, c, mid) && WillFit(authority, c, s)
    requires forall id: Id :: Adoptable(authority, c, id) ==> Has(mid, id, IntentFile)
    ensures ReservationFitsNow(authority, mid, s)
  {
    var r: Reservation, i: Intent :|
      && c.reservations[Pending(s)] == Whole(ReservationDoc(r))
      && r.version == 1 && r.authorityId == authority && r.serial == s
      && IntentToBe(authority, c, r.issuanceId, i) && i.issuanceId == r.issuanceId && i.serial == s;
    ToBeIs(authority, c, mid, r.issuanceId, i);
    assert Belongs(authority, mid, s, r);
  }

  lemma AdoptableIsRecovered(lib: Lib, authority: Id, c: Ca)
    requires LibOk(lib) && AllAdoptable(authority, c)
    requires c.fuel >= |lib.list(c.issuances.Keys)| + |lib.list(Pendings(c.reservations))|
    ensures RecoverStaging(lib, authority, c).Ok?
  {
    var order, staged := lib.list(c.issuances.Keys), lib.list(Pendings(c.reservations));
    assert Enumerates(order, c.issuances.Keys) && Enumerates(staged, Pendings(c.reservations));
    AuditChain.FinalsAre(c.reservations);
    forall id <- order ensures !Garbled(c, id) {
    }
    IntentsRun(authority, c, order);
    IntentsOnly(authority, c, order);
    var mid := AdoptIntents(authority, c, order).ca;
    forall s <- staged ensures ReservationFitsNow(authority, mid, s) {
      FitsInTheMiddle(authority, c, mid, s);
    }
    ReservationsRun(authority, mid, staged);
    var out := AdoptReservations(authority, mid, staged).ca;
    ReservationsAside(authority, mid, staged);
    NoneStagedAfter(authority, c, mid);
  }

  lemma NoneStagedAfter(authority: Id, c: Ca, mid: Ca)
    requires AllAdoptable(authority, c) && OnlyIntents(authority, c, mid)
    requires forall id <- c.issuances.Keys :: Adoptable(authority, c, id) ==> Has(mid, id, IntentFile)
    ensures forall id <- mid.issuances.Keys, f: File :: Pending(f) !in mid.issuances[id]
  {
    forall id <- mid.issuances.Keys, f: File ensures Pending(f) !in mid.issuances[id] {
      assert IntentAdopted(authority, id, c.issuances[id], mid.issuances[id]);
    }
  }

  lemma {:induction false} ReservationsAside(authority: Id, c: Ca, order: seq<Id>)
    ensures AdoptReservations(authority, c, order).ca.issuances == c.issuances
    decreases |order|
  {
    if order != [] {
      var one := AdoptReservation(authority, c, order[0]);
      if one.Ok? {
        ReservationsAside(authority, one.ca, order[1..]);
      }
    }
  }

  /** With operations enough, the staging is recovered exactly when all of it can be adopted. */
  lemma RecoversExactlyWhen(lib: Lib, authority: Id, c: Ca)
    requires LibOk(lib) && c.fuel >= |lib.list(c.issuances.Keys)| + |lib.list(Pendings(c.reservations))|
    ensures RecoverStaging(lib, authority, c).Ok? <==> AllAdoptable(authority, c)
  {
    if RecoverStaging(lib, authority, c).Ok? {
      RecoveredWasAdoptable(lib, authority, c);
    }
    if AllAdoptable(authority, c) {
      AdoptableIsRecovered(lib, authority, c);
    }
  }
}
