/** What a quarantine amounts to in any state: exactly when it refuses, and what a success has put
    aside and written down. */
module QuarantineMeaning {
  import opened Publication
  import opened Records
  import opened AuthorityState
  import opened Issuance
  import opened QuarantineCommand
  import AuditChain
  import Inspection
  import Scan
  import Validators
  import WreckQuarantine

  // ---------- the evidence ----------

  /** The issuance's intent: its final one, or a complete staged one where none is final. */
  ghost predicate IntentSeen(c: Ca, id: Id, i: Intent) {
    && id in c.issuances
    && var d := c.issuances[id];
       if Final(IntentFile) in d then ParseIntent(d[Final(IntentFile)]) == Some(i)
       else Pending(IntentFile) in d && d[Pending(IntentFile)] == Whole(IntentDoc(i))
  }

  ghost predicate SeesIntent(c: Ca, id: Id) {
    exists i: Intent :: IntentSeen(c, id, i)
  }

  ghost predicate ReservedFor(c: Ca, id: Id, s: Id, r: Reservation) {
    Final(s) in c.reservations && ParseReservation(c.reservations[Final(s)]) == Some(r) && r.issuanceId == id
  }

  ghost predicate IsReservedFor(c: Ca, id: Id, s: Id) {
    exists r: Reservation :: ReservedFor(c, id, s, r)
  }

  /** A staged reservation that names the issuance or carries its intent's serial. */
  ghost predicate StagedFor(c: Ca, id: Id, s: Id) {
    && Pending(s) in c.reservations
    && (|| (exists r: Reservation :: ParseReservation(c.reservations[Pending(s)]) == Some(r) && r.issuanceId == id)
        || (exists i: Intent :: IntentSeen(c, id, i) && i.serial == s))
  }

  ghost predicate HasReservation(c: Ca, id: Id) {
    exists s: Id :: IsReservedFor(c, id, s)
  }

  ghost predicate HasStaged(c: Ca, id: Id) {
    exists s: Id :: StagedFor(c, id, s)
  }

  /** With nothing else to go by, the only staged reservation there is. */
  ghost predicate OnlyStaged(c: Ca, id: Id, s: Id) {
    && id in c.issuances && !SeesIntent(c, id) && !HasReservation(c, id) && !HasStaged(c, id)
    && Pending(s) in c.reservations && forall t: Id :: Pending(t) in c.reservations ==> t == s
  }

  ghost predicate Unreadable(c: Ca, id: Id) {
    || (Has(c, id, IntentFile) && ParseIntent(FileOf(c, id, IntentFile)) == None)
    || (exists key: Digest :: Final(key) in c.mappings && ParseMapping(c.mappings[Final(key)]) == None)
    || (exists s: Id :: Final(s) in c.reservations && ParseReservation(c.reservations[Final(s)]) == None)
  }

  ghost predicate Mapped(c: Ca, id: Id) {
    exists key: Digest, m: Mapping ::
      Final(key) in c.mappings && ParseMapping(c.mappings[Final(key)]) == Some(m) && m.issuanceId == id
  }

  ghost predicate Doubled(c: Ca, id: Id) {
    || (exists s: Id, t: Id :: s != t && IsReservedFor(c, id, s) && IsReservedFor(c, id, t))
    || (exists s: Id, t: Id :: s != t && StagedFor(c, id, s) && StagedFor(c, id, t))
  }

  /** The intent is another authority's, or the reservation is not the intent's. */
  ghost predicate Foreign(authority: Id, c: Ca, id: Id) {
    exists i: Intent :: IntentSeen(c, id, i)
      && (|| i.authorityId != authority
          || exists s: Id, r: Reservation ::
               ReservedFor(c, id, s, r) && (r.serial != i.serial || r.authorityId != authority))
  }

  /** Nothing is known of the issuance, or its directory holds final files without an intent. */
  ghost predicate Unidentified(c: Ca, id: Id) {
    && !SeesIntent(c, id)
    && if id in c.issuances then exists f: File :: Final(f) in c.issuances[id]
       else !HasReservation(c, id) && !HasStaged(c, id)
  }

  lemma IntentEvidenceIs(c: Ca, id: Id)
    requires id in c.issuances
    ensures match IntentEvidence(c.issuances[id])
            case Found(i) => IntentSeen(c, id, i) && forall j: Intent :: IntentSeen(c, id, j) ==> j == i
            case Absent => !SeesIntent(c, id) && !Has(c, id, IntentFile)
            case Unreadable =>
              !SeesIntent(c, id) && Has(c, id, IntentFile) && ParseIntent(FileOf(c, id, IntentFile)) == None
  {
  }

  /** The intent that the evidence carries, if any. */
  ghost predicate IntentOk(c: Ca, id: Id, intent: Option<Intent>) {
    match intent case Some(i) => IntentSeen(c, id, i) case None => !SeesIntent(c, id)
  }

  lemma ReservedIs(c: Ca, id: Id)
    ensures forall s: Id :: s in Reserved(c, id) <==> IsReservedFor(c, id, s)
    ensures |Reserved(c, id)| > 1
            <==> exists s: Id, t: Id :: s != t && IsReservedFor(c, id, s) && IsReservedFor(c, id, t)
  {
    AuditChain.FinalsAre(c.reservations);
    forall s: Id ensures s in Reserved(c, id) <==> IsReservedFor(c, id, s) {
      if s in Reserved(c, id) {
        assert ReservedFor(c, id, s, ReservationOf(c, s).value);
      }
    }
    ManyIs(Reserved(c, id));
  }

  /** More than one element is two different ones. */
  lemma ManyIs(s: set<Id>)
    ensures |s| > 1 <==> exists x: Id, y: Id :: x in s && y in s && x != y
  {
    if |s| > 1 {
      var x :| x in s;
      if s - {x} == {} {
        Inspection.SubsetSize(s, {x});
      }
      var y :| y in s - {x};
      assert x in s && y in s && x != y;
    }
    if x: Id, y: Id :| x in s && y in s && x != y {
      Inspection.TwoElements(s, x, y);
    }
  }

  lemma PendingIs(c: Ca, id: Id, intent: Option<Intent>)
    requires IntentOk(c, id, intent)
    ensures forall s: Id :: s in PendingReserved(c, id, intent) <==> StagedFor(c, id, s)
    ensures |PendingReserved(c, id, intent)| > 1
            <==> exists s: Id, t: Id :: s != t && StagedFor(c, id, s) && StagedFor(c, id, t)
  {
    AuditChain.FinalsAre(c.reservations);
    forall s: Id ensures s in PendingReserved(c, id, intent) <==> StagedFor(c, id, s) {
    }
    ManyIs(PendingReserved(c, id, intent));
  }

  lemma OnlyIs(lib: Lib, entries: set<nat>, s: set<Id>)
    requires LibOk(lib) && s <= entries && |s| <= 1
    ensures match Only(s, lib.list(entries)) case Some(x) => s == {x} case None => s == {}
  {
    assert Enumerates(lib.list(entries), entries);
    if s == {} {
      WreckQuarantine.OnlyFinds(s, lib.list(entries), 0);
    } else {
      var x :| x in s;
      assert s == {x} by {
        forall y <- s ensures y == x {
          if y != x { Inspection.TwoElements(s, x, y); }
        }
      }
      WreckQuarantine.OnlyFinds(s, lib.list(entries), x);
    }
  }

  ghost predicate Refuses(authority: Id, c: Ca, id: Id) {
    || Has(c, id, CompleteFile) || Unreadable(c, id) || Mapped(c, id) || Doubled(c, id) || Foreign(authority, c, id)
    || Unidentified(c, id)
  }

  /** The evidence says what is there. */
  ghost predicate Shows(c: Ca, id: Id, e: Evidence) {
    && (match e.intent case Some(i) => IntentSeen(c, id, i) case None => !SeesIntent(c, id))
    && (match e.reservation case Some(s) => IsReservedFor(c, id, s) case None => !HasReservation(c, id))
    && (match e.pending
        case Some(s) => StagedFor(c, id, s) || OnlyStaged(c, id, s)
        case None => !HasStaged(c, id) && forall s: Id :: !OnlyStaged(c, id, s))
  }

  lemma MappingsAre(c: Ca, id: Id)
    ensures NoMappingTo(c, id) <==>
              && !Mapped(c, id)
              && forall key: Digest :: Final(key) in c.mappings ==> ParseMapping(c.mappings[Final(key)]) != None
  {
    if NoMappingTo(c, id) {
      forall key: Digest | Final(key) in c.mappings
        ensures ParseMapping(c.mappings[Final(key)]) != None
        ensures ParseMapping(c.mappings[Final(key)]).value.issuanceId != id
      {
        assert MappingReadable(c, key);
      }
    }
  }

  /** One staged reservation is listed exactly when there is one. */
  lemma ListedOnly(lib: Lib, c: Ca)
    requires LibOk(lib)
    ensures var listed := lib.list(Pendings(c.reservations));
            && (|listed| == 1 ==> Pending(listed[0]) in c.reservations
                                  && forall t: Id :: Pending(t) in c.reservations ==> t == listed[0])
            && (forall s: Id ::
                  (Pending(s) in c.reservations && forall t: Id :: Pending(t) in c.reservations ==> t == s) ==>
                    |listed| == 1)
  {
    AuditChain.FinalsAre(c.reservations);
    var listed := lib.list(Pendings(c.reservations));
    assert Enumerates(listed, Pendings(c.reservations));
    if |listed| == 1 {
      assert listed[0] in listed;
    }
    forall s: Id | Pending(s) in c.reservations && (forall t: Id :: Pending(t) in c.reservations ==> t == s)
      ensures |listed| == 1
    {
      assert Pendings(c.reservations) == {s};
      Validators.EnumerationSize(listed, Pendings(c.reservations));
    }
  }

  /** The searches for the reservation and the staged one have found what there is. */
  ghost predicate Searched(c: Ca, id: Id, intent: Option<Intent>, reservation: Option<Id>, pending: Option<Id>) {
    && IntentOk(c, id, intent)
    && (match reservation
        case Some(s) => IsReservedFor(c, id, s) && forall t: Id :: IsReservedFor(c, id, t) ==> t == s
        case None => !HasReservation(c, id))
    && (match pending
        case Some(s) => StagedFor(c, id, s) && forall t: Id :: StagedFor(c, id, t) ==> t == s
        case None => !HasStaged(c, id))
  }

  lemma SearchesFind(lib: Lib, c: Ca, id: Id, intent: Option<Intent>)
    requires LibOk(lib) && IntentOk(c, id, intent)
    requires |Reserved(c, id)| <= 1 && |PendingReserved(c, id, intent)| <= 1
    ensures Searched(c, id, intent, Only(Reserved(c, id), lib.list(Finals(c.reservations))),
                     Only(PendingReserved(c, id, intent), lib.list(Pendings(c.reservations))))
  {
    ReservedIs(c, id);
    PendingIs(c, id, intent);
    OnlyIs(lib, Finals(c.reservations), Reserved(c, id));
    OnlyIs(lib, Pendings(c.reservations), PendingReserved(c, id, intent));
  }

  lemma AdoptedIs(lib: Lib, c: Ca, id: Id, intent: Option<Intent>, reservation: Option<Id>, pending: Option<Id>)
    requires LibOk(lib) && Searched(c, id, intent, reservation, pending)
    ensures Shows(c, id, Evidence(intent, reservation, Inspection.Adopted(lib, c, id, intent, reservation, pending)))
  {
    ListedOnly(lib, c);
  }

  lemma RefusedIs(lib: Lib, authority: Id, c: Ca, id: Id, intent: Option<Intent>, reservation: Option<Id>,
          pending: Option<Id>)
    requires LibOk(lib) && Searched(c, id, intent, reservation, pending)
    ensures Inspection.EvidenceRefused(authority, c, id, intent, reservation,
                                       Inspection.Adopted(lib, c, id, intent, reservation, pending))
            <==> Foreign(authority, c, id) || Unidentified(c, id)
  {
    if intent.Some? {
      assert forall i: Intent :: IntentSeen(c, id, i) ==> i == intent.value;
    }
    if reservation.Some? {
      assert forall s: Id, r: Reservation :: ReservedFor(c, id, s, r) ==> IsReservedFor(c, id, s);
      var r: Reservation :| ReservedFor(c, id, reservation.value, r);
    } else {
      assert forall s: Id, r: Reservation :: ReservedFor(c, id, s, r) ==> IsReservedFor(c, id, s);
    }
    if id in c.issuances {
      assert StagingOnly(c.issuances[id]) <==> forall f: File :: Final(f) !in c.issuances[id] by {
        assert forall name <- c.issuances[id].Keys :: name.Final? ==> Final(name.n) in c.issuances[id];
      }
    }
  }

  lemma EvidenceIs(lib: Lib, authority: Id, c: Ca, id: Id, intent: Option<Intent>)
    requires LibOk(lib) && !Has(c, id, CompleteFile) && IntentOk(c, id, intent)
    requires Has(c, id, IntentFile) ==> ParseIntent(FileOf(c, id, IntentFile)) != None
    ensures Inspect(lib, authority, c, id).None? <==> Refuses(authority, c, id)
    ensures match Inspect(lib, authority, c, id) case Some(e) => Shows(c, id, e) case None => true
  {
    if id in c.issuances {
      IntentEvidenceIs(c, id);
    }
    Inspection.InspectionIs(lib, authority, c, id, intent);
    MappingsAre(c, id);
    ReservedIs(c, id);
    PendingIs(c, id, intent);
    assert ReservationsReadable(c)
           <==> forall s: Id :: Final(s) in c.reservations ==> ParseReservation(c.reservations[Final(s)]) != None;
    if |Reserved(c, id)| <= 1 && |PendingReserved(c, id, intent)| <= 1 {
      SearchesFind(lib, c, id, intent);
      var reservation := Only(Reserved(c, id), lib.list(Finals(c.reservations)));
      var pending := Only(PendingReserved(c, id, intent), lib.list(Pendings(c.reservations)));
      AdoptedIs(lib, c, id, intent, reservation, pending);
      RefusedIs(lib, authority, c, id, intent, reservation, pending);
    }
  }

  /** Inspection refuses exactly in these cases, and otherwise finds what there is. */
  lemma InspectsExactly(lib: Lib, authority: Id, c: Ca, id: Id)
    requires LibOk(lib)
    ensures Inspect(lib, authority, c, id).None? <==> Refuses(authority, c, id)
    ensures match Inspect(lib, authority, c, id) case Some(e) => Shows(c, id, e) case None => true
  {
    var found := if id in c.issuances then IntentEvidence(c.issuances[id]) else Absent;
    if id in c.issuances {
      IntentEvidenceIs(c, id);
    }
    if !Has(c, id, CompleteFile) && found != Search<Intent>.Unreadable {
      EvidenceIs(lib, authority, c, id, if found.Found? then Some(found.value) else None);
    }
  }

  // ---------- what a success leaves ----------

  /** The serial the note carries: the intent's, or else the reservation's, or else the staged one's. */
  ghost predicate SerialIs(c: Ca, e: Evidence, serial: Option<Id>) {
    match (e.intent, e.reservation)
    case (Some(i), _) => serial == Some(i.serial)
    case (None, Some(s)) => exists r: Reservation :: ReservationOf(c, s) == Some(r) && serial == Some(r.serial)
    case (None, None) => serial == e.pending
  }

  /** What was noted under the name before. */
  function NotesBefore(c: Ca, q: Id): Dir<Note> {
    if q in c.quarantines then c.quarantines[q].notes else map[]
  }

  ghost predicate Notes(authority: Id, c: Ca, id: Id, e: Evidence, t: Ticket, note: Prepared) {
    note.issuanceId == id && note.authorityId == authority && note.utc == t.utc && SerialIs(c, e, note.serial)
  }

  /** The issuance's directory has been renamed into the quarantine, after a note of it. */
  ghost predicate Renamed(authority: Id, c: Ca, c': Ca, id: Id, e: Evidence, t: Ticket) {
    && c' == c.(issuances := c.issuances - {id}, quarantines := c'.quarantines, retired := c'.retired, fuel := c'.fuel)
    && t.destination in c'.quarantines
    && c'.quarantines == c.quarantines[t.destination := c'.quarantines[t.destination]]
    && var x := c'.quarantines[t.destination];
       && Final(PreparedNote) in x.notes && Final(PreparedNote) !in NotesBefore(c, t.destination)
       && x.notes[Final(PreparedNote)].Whole? && x.notes[Final(PreparedNote)].doc.PreparedDoc?
       && Notes(authority, c, id, e, t, x.notes[Final(PreparedNote)].doc.prepared)
       && (id in c.issuances ==> x.original == Some(c.issuances[id])
                                 && (t.destination in c.quarantines ==> c.quarantines[t.destination].original == None))
       && (id !in c.issuances ==> x.original.Some?)
  }

  lemma SerialExactly(c: Ca, id: Id, e: Evidence)
    requires Shows(c, id, e)
    ensures SerialIs(c, e, EvidenceSerial(c, e))
  {
    if e.reservation.Some? {
      var r: Reservation :| ReservedFor(c, id, e.reservation.value, r);
    }
  }

  lemma OpeningMeans(c: Ca, q: Id)
    ensures var out := OpenQuarantine(c, q);
            out.Ok? ==>
              && out.ca == c.(quarantines := out.ca.quarantines, fuel := out.ca.fuel)
              && q in out.ca.quarantines && out.ca.quarantines == c.quarantines[q := out.ca.quarantines[q]]
              && out.ca.quarantines[q].notes == NotesBefore(c, q)
              && out.ca.quarantines[q].original == if q in c.quarantines then c.quarantines[q].original else None
  {
    if q in c.quarantines {
      assert c.quarantines == c.quarantines[q := c.quarantines[q]];
    }
  }

  lemma NoteMeans(c: Ca, q: Id, n: Note, doc: Doc)
    requires q in c.quarantines
    ensures var out := PublishNote(c, q, n, doc);
            && q in out.ca.quarantines
            && out.ca == c.(quarantines := c.quarantines[q := out.ca.quarantines[q]], fuel := out.ca.fuel)
            && out.ca.quarantines[q].original == c.quarantines[q].original
            && (out.Ok? ==> Final(n) !in c.quarantines[q].notes
                            && out.ca.quarantines[q].notes
                                == (c.quarantines[q].notes - {Pending(n)})[Final(n) := Whole(doc)])
  {
    DestinationIsAbsentOrExact(c.quarantines[q].notes, n, Whole(doc), Empty, TornBlob(c.tear, Whole(doc)), c.fuel);
  }

  lemma MovingMeans(c: Ca, q: Id, id: Id)
    requires q in c.quarantines
    ensures var out := MoveOriginal(c, q, id);
            out.Ok? ==>
              && q in out.ca.quarantines && out.ca.quarantines == c.quarantines[q := out.ca.quarantines[q]]
              && out.ca == c.(issuances := c.issuances - {id}, quarantines := out.ca.quarantines,
                              retired := out.ca.retired, fuel := out.ca.fuel)
              && out.ca.quarantines[q].notes == c.quarantines[q].notes
              && (id in c.issuances ==>
                    out.ca.quarantines[q].original == Some(c.issuances[id]) && c.quarantines[q].original == None)
              && (id !in c.issuances ==> out.ca.quarantines[q].original.Some?)
  {
  }

  lemma OpenedThenNoted(c: Ca, q: Id, doc: Doc)
    ensures var o1 := OpenQuarantine(c, q);
            o1.Ok? ==>
              var o2 := PublishNote(o1.ca, q, PreparedNote, doc);
              o2.Ok? ==>
                && q in o2.ca.quarantines
                && o2.ca == c.(quarantines := c.quarantines[q := o2.ca.quarantines[q]], fuel := o2.ca.fuel)
                && Final(PreparedNote) !in NotesBefore(c, q)
                && Final(PreparedNote) in o2.ca.quarantines[q].notes
                && o2.ca.quarantines[q].notes[Final(PreparedNote)] == Whole(doc)
                && o2.ca.quarantines[q].original == if q in c.quarantines then c.quarantines[q].original else None
  {
    OpeningMeans(c, q);
    var o1 := OpenQuarantine(c, q);
    if o1.Ok? {
      NoteMeans(o1.ca, q, PreparedNote, doc);
    }
  }

  lemma OpenAndMoveMeans(authority: Id, c: Ca, id: Id, e: Evidence, t: Ticket)
    requires Shows(c, id, e)
    ensures var out := OpenAndMove(authority, c, id, e, t);
            out.Ok? ==> Renamed(authority, c, out.ca, id, e, t)
  {
    var q, doc := t.destination, PreparedDoc(Prepared(id, authority, EvidenceSerial(c, e), t.utc));
    SerialExactly(c, id, e);
    OpenedThenNoted(c, q, doc);
    var o1 := OpenQuarantine(c, q);
    if o1.Ok? {
      var o2 := PublishNote(o1.ca, q, PreparedNote, doc);
      if o2.Ok? {
        MovingMeans(o2.ca, q, id);
      }
    }
  }

  /** The directory with a copy of the reservation and of the staged one. */
  ghost predicate CopiesAdded(d: Dir<File>, d': Dir<File>, reservations: Dir<Id>, e: Evidence) {
    && (forall f: File :: f != ReservationCopy && f != PendingCopy ==>
          && (Final(f) in d' <==> Final(f) in d) && (Final(f) in d ==> d'[Final(f)] == d[Final(f)])
          && (Pending(f) in d' <==> Pending(f) in d) && (Pending(f) in d ==> d'[Pending(f)] == d[Pending(f)]))
    && (match e.reservation
        case Some(s) => Final(s) in reservations && Final(ReservationCopy) in d'
                        && d'[Final(ReservationCopy)] == reservations[Final(s)]
        case None => true)
    && (match e.pending
        case Some(s) => Pending(s) in reservations && Final(PendingCopy) in d'
                        && d'[Final(PendingCopy)] == reservations[Pending(s)]
        case None => true)
  }

  /** The copies have been made, and the staged reservation has been removed. */
  ghost predicate Copied(c: Ca, c': Ca, q: Id, e: Evidence)
    requires q in c.quarantines && c.quarantines[q].original.Some?
  {
    && q in c'.quarantines && c'.quarantines[q].original.Some?
    && c' == c.(quarantines := c.quarantines[q := c'.quarantines[q]], reservations := c'.reservations, fuel := c'.fuel)
    && c'.reservations == (match e.pending case Some(s) => c.reservations - {Pending(s)} case None => c.reservations)
    && c'.quarantines[q].notes == c.quarantines[q].notes
    && CopiesAdded(c.quarantines[q].original.value, c'.quarantines[q].original.value, c.reservations, e)
  }

  lemma CopyMeans(c: Ca, q: Id, f: File, blob: Blob)
    requires q in c.quarantines && c.quarantines[q].original.Some?
    ensures var out := CopyInto(c, q, f, blob);
            && q in out.ca.quarantines && out.ca.quarantines[q].original.Some?
            && out.ca == c.(quarantines := c.quarantines[q := out.ca.quarantines[q]], fuel := out.ca.fuel)
            && out.ca.quarantines[q].notes == c.quarantines[q].notes
            && (out.Ok? ==> out.ca.quarantines[q].original.value == CopyAdded(c.quarantines[q].original.value, f, blob))
  {
    DestinationIsAbsentOrExact(c.quarantines[q].original.value, f, blob, Empty, TornBlob(c.tear, blob), c.fuel);
  }

  function CopyAdded(d: Dir<File>, f: File, blob: Blob): Dir<File> {
    (d - {Pending(f)})[Final(f) := blob]
  }

  function WithReservation(d: Dir<File>, reservations: Dir<Id>, reservation: Option<Id>): Dir<File>
    requires reservation.Some? ==> Final(reservation.value) in reservations
  {
    match reservation case Some(s) => CopyAdded(d, ReservationCopy, reservations[Final(s)]) case None => d
  }

  function WithStaged(d: Dir<File>, reservations: Dir<Id>, pending: Option<Id>): Dir<File>
    requires pending.Some? ==> Pending(pending.value) in reservations
  {
    match pending case Some(s) => CopyAdded(d, PendingCopy, reservations[Pending(s)]) case None => d
  }

  lemma TwiceCopied(d: Dir<File>, reservations: Dir<Id>, e: Evidence)
    requires e.reservation.Some? ==> Final(e.reservation.value) in reservations
    requires e.pending.Some? ==> Pending(e.pending.value) in reservations
    ensures CopiesAdded(d, WithStaged(WithReservation(d, reservations, e.reservation), reservations, e.pending),
                        reservations, e)
  {
  }

  lemma ReservationCopyMeans(c: Ca, q: Id, reservation: Option<Id>)
    requires q in c.quarantines && c.quarantines[q].original.Some?
    ensures var out := CopyReservation(c, q, reservation);
            out.Ok? ==>
              && (reservation.Some? ==> Final(reservation.value) in c.reservations)
              && out.ca == c.(quarantines := c.quarantines[q := out.ca.quarantines[q]], fuel := out.ca.fuel)
              && out.ca.quarantines[q].notes == c.quarantines[q].notes
              && out.ca.quarantines[q].original.value
                 == WithReservation(c.quarantines[q].original.value, c.reservations, reservation)
  {
    assert c.quarantines == c.quarantines[q := c.quarantines[q]];
    if reservation.Some? && Final(reservation.value) in c.reservations {
      CopyMeans(c, q, ReservationCopy, c.reservations[Final(reservation.value)]);
    }
  }

  lemma PendingCopyMeans(c: Ca, q: Id, pending: Option<Id>)
    requires q in c.quarantines && c.quarantines[q].original.Some?
    ensures var out := CopyPending(c, q, pending);
            out.Ok? ==>
              && (pending.Some? ==> Pending(pending.value) in c.reservations)
              && out.ca.quarantines[q].original.Some?
              && out.ca == c.(quarantines := c.quarantines[q := out.ca.quarantines[q]],
                              reservations := out.ca.reservations, fuel := out.ca.fuel)
              && out.ca.quarantines[q].notes == c.quarantines[q].notes
              && out.ca.reservations == (match pending case Some(s) => c.reservations - {Pending(s)}
                                                       case None => c.reservations)
              && out.ca.quarantines[q].original.value
                 == WithStaged(c.quarantines[q].original.value, c.reservations, pending)
  {
    assert c.quarantines == c.quarantines[q := c.quarantines[q]];
    if pending.Some? && Pending(pending.value) in c.reservations {
      CopyMeans(c, q, PendingCopy, c.reservations[Pending(pending.value)]);
    }
  }

  lemma CopiesMean(c: Ca, q: Id, e: Evidence)
    requires q in c.quarantines && c.quarantines[q].original.Some?
    ensures var o1 := CopyReservation(c, q, e.reservation);
            var o2 := CopyPending(o1.ca, q, e.pending);
            o1.Ok? && o2.Ok? ==> Copied(c, o2.ca, q, e)
  {
    ReservationCopyMeans(c, q, e.reservation);
    var o1 := CopyReservation(c, q, e.reservation);
    if o1.Ok? {
      PendingCopyMeans(o1.ca, q, e.pending);
      var o2 := CopyPending(o1.ca, q, e.pending);
      if o2.Ok? {
        TwiceCopied(c.quarantines[q].original.value, c.reservations, e);
        assert c.quarantines[q := o1.ca.quarantines[q]][q := o2.ca.quarantines[q]]
            == c.quarantines[q := o2.ca.quarantines[q]];
      }
    }
  }

  function ClosedNotes(notes: Dir<Note>, id: Id, t: Ticket): Dir<Note> {
    (notes - {Pending(QuarantinedNote)})[Final(QuarantinedNote) := Whole(QuarantinedDoc(id, t.utc))]
  }

  /** The note that closes the quarantine, and its record at the end of the log. */
  ghost predicate Closed(lib: Lib, authority: Id, c: Ca, c': Ca, id: Id, t: Ticket)
    requires t.destination in c.quarantines
  {
    var q, n := t.destination, |Finals(c.audits)|;
    && q in c'.quarantines && Final(QuarantinedNote) !in c.quarantines[q].notes
    && c' == c.(quarantines := c.quarantines[q := c'.quarantines[q]], audits := c'.audits, fuel := c'.fuel)
    && c'.quarantines[q].original == c.quarantines[q].original
    && c'.quarantines[q].notes == ClosedNotes(c.quarantines[q].notes, id, t)
    && Final(n) !in c.audits && (forall m: nat :: Final(m) in c'.audits <==> Final(m) in c.audits || m == n)
    && (forall m: nat :: Final(m) in c.audits ==> c'.audits[Final(m)] == c.audits[Final(m)])
    && c'.audits[Final(n)].Whole? && c'.audits[Final(n)].doc.AuditDoc?
    && var record := c'.audits[Final(n)].doc.audit;
       record.version == 1 && record.sequence == n && record.prior == PriorDigest(lib, c.audits)
       && record.kind == IssuanceQuarantined && record.authorityId == Some(authority) && record.issuanceId == Some(id)
       && record.operationId == None && record.sourceIp == None && record.accepted
       && record.detail == PreservedIssuance && record.utc == t.utc
  }

  lemma RecordMeans(lib: Lib, c: Ca, record: Audit)
    ensures var out, next := AppendAudit(lib, c, record), NextAudit(lib, c.audits, record);
            out.Ok? ==>
              && Final(next.sequence) !in c.audits && out.ca == c.(audits := out.ca.audits, fuel := out.ca.fuel)
              && out.ca.audits == (c.audits - {Pending(next.sequence)})[Final(next.sequence) := Whole(AuditDoc(next))]
  {
    var next := NextAudit(lib, c.audits, record);
    DestinationIsAbsentOrExact(c.audits, next.sequence, Whole(AuditDoc(next)), Empty,
                               TornBlob(c.tear, Whole(AuditDoc(next))), c.fuel);
  }

  lemma ClosingMeans(lib: Lib, authority: Id, c: Ca, id: Id, t: Ticket)
    requires t.destination in c.quarantines
    ensures var o1 := PublishNote(c, t.destination, QuarantinedNote, QuarantinedDoc(id, t.utc));
            var o2 := AppendAudit(lib, o1.ca, QuarantineRecord(authority, id, t.utc));
            o1.Ok? && o2.Ok? ==> Closed(lib, authority, c, o2.ca, id, t)
  {
    NoteMeans(c, t.destination, QuarantinedNote, QuarantinedDoc(id, t.utc));
    var o1 := PublishNote(c, t.destination, QuarantinedNote, QuarantinedDoc(id, t.utc));
    RecordMeans(lib, o1.ca, QuarantineRecord(authority, id, t.utc));
  }

  /** The three parts of a success, from the scanned state on. */
  ghost predicate PutAside(lib: Lib, authority: Id, c: Ca, c': Ca, id: Id, e: Evidence, t: Ticket) {
    exists renamed: Ca, copied: Ca ::
      && Renamed(authority, c, renamed, id, e, t) && renamed.quarantines[t.destination].original.Some?
      && Copied(renamed, copied, t.destination, e) && Closed(lib, authority, copied, c', id, t)
  }

  /** From any state: after the scan's own repairs, a quarantine refuses exactly when the evidence
      does, changing nothing more; and a success has renamed the directory whole under a note of
      it, copied its reservations, removed the staged one, and recorded it at the log's end. */
  lemma QuarantineMeans(lib: Lib, authority: Id, c: Ca, id: Id, t: Ticket)
    requires LibOk(lib)
    ensures var scanned, out := Scan.FullScan(lib, authority, c), QuarantineIssuance(lib, authority, c, id, t);
            if scanned.Err? && scanned.error == Stopped then out == Err(scanned.ca, Stopped)
            else if Refuses(authority, scanned.ca, id) then out == Err(scanned.ca, Precondition)
            else exists e: Evidence :: Shows(scanned.ca, id, e)
                   && (out.Ok? ==> PutAside(lib, authority, scanned.ca, out.ca, id, e, t))
  {
    var scanned := Scan.FullScan(lib, authority, c).ca;
    InspectsExactly(lib, authority, scanned, id);
    var found := Inspect(lib, authority, scanned, id);
    if found.Some? {
      MoveMeans(lib, authority, scanned, id, found.value, t);
    }
  }

  lemma MoveMeans(lib: Lib, authority: Id, c: Ca, id: Id, e: Evidence, t: Ticket)
    requires Shows(c, id, e)
    ensures var out := MoveEvidence(lib, authority, c, id, e, t);
            out.Ok? ==> PutAside(lib, authority, c, out.ca, id, e, t)
  {
    OpenAndMoveMeans(authority, c, id, e, t);
    var o1, q := OpenAndMove(authority, c, id, e, t), t.destination;
    if o1.Ok? {
      CopiesMean(o1.ca, q, e);
      var o2 := CopyReservation(o1.ca, q, e.reservation);
      if o2.Ok? {
        var o3 := CopyPending(o2.ca, q, e.pending);
        if o3.Ok? {
          ClosingMeans(lib, authority, o3.ca, id, t);
        }
      }
    }
  }
}
