/** The authority's durable state and the elementary operations on it. */
module AuthorityState {
  import opened Publication
  import opened Records

  datatype File =
    | IntentFile | CertificateFile | RecordFile | CommitFile | CompleteFile | AuditMarkFile
    | ReservationCopy | PendingCopy

  datatype Note = PreparedNote | QuarantinedNote

  type Dir<N(==)> = map<Name<N>, Blob>

  datatype Quarantined = Quarantined(notes: Dir<Note>, original: Option<Dir<File>>)

  /** A call of the leaf-signing key, and an answer given to a client. */
  datatype Signing = Signing(keyHash: Digest, serial: Id, issuanceId: Id)
  datatype Reply = Reply(status: nat, keyHash: Digest, requestHash: Digest, issuanceId: Id, certificate: Blob)

  /** The state directory; `fuel` file operations remain before the run is cut short and
      `tear` is what a write cut short leaves. `signed`, `replies` and `retired` are
      history: signatures made, answers given, serials of intents moved to quarantine. */
  datatype Ca = Ca(
    initPending: bool,
    issuances: map<Id, Dir<File>>,
    reservations: Dir<Id>,
    mappings: Dir<Digest>,
    audits: Dir<nat>,
    quarantines: map<Id, Quarantined>,
    signed: seq<Signing>,
    replies: seq<Reply>,
    retired: set<Id>,
    fuel: nat,
    tear: Tear)

  datatype Error =
    | Stopped | Conflict | Incomplete | StateError | Inconsistent | Precondition | Provider
    | AlreadyInitialized | PendingInitialization

  /** A step's result; both outcomes carry the state left behind. */
  datatype Out<+T> = Ok(ca: Ca, value: T) | Err(ca: Ca, error: Error) {
    predicate IsFailure() { Err? }
    function PropagateFailure<U>(): Out<U> requires Err? { Err(ca, error) }
    function Extract(): (Ca, T) requires Ok? { (ca, value) }
  }

  function Settle(c: Ca, status: Status): Out<()> {
    match status
    case Done => Ok(c, ())
    case Refused => Err(c, StateError)
    case Interrupted => Err(c, Stopped)
  }

  /** The finalized entries of a directory. */
  function Finals<N>(dir: Dir<N>): set<N> {
    set name <- dir.Keys | name.Final? :: name.n
  }

  function Pendings<N>(dir: Dir<N>): set<N> {
    set name <- dir.Keys | name.Pending? :: name.n
  }

  /** One operation outside the file contents: create or rename a directory, call the key. */
  function Spend(c: Ca): Out<()> {
    if c.fuel == 0 then Err(c, Stopped) else Ok(c.(fuel := c.fuel - 1), ())
  }

  function PublishIn<N>(c: Ca, dir: Dir<N>, n: N, blob: Blob): Published<N, Blob> {
    Publish(dir, n, blob, Empty, TornBlob(c.tear, blob), c.fuel)
  }

  function PublishExactIn<N>(c: Ca, dir: Dir<N>, n: N, blob: Blob): Published<N, Blob> {
    PublishExact(dir, n, blob, Empty, TornBlob(c.tear, blob), c.fuel)
  }

  function WithIssuance(c: Ca, id: Id, p: Published<File, Blob>): Out<()> {
    Settle(c.(issuances := c.issuances[id := p.dir], fuel := p.fuel), p.status)
  }

  function WithReservations(c: Ca, p: Published<Id, Blob>): Out<()> {
    Settle(c.(reservations := p.dir, fuel := p.fuel), p.status)
  }

  function WithMappings(c: Ca, p: Published<Digest, Blob>): Out<()> {
    Settle(c.(mappings := p.dir, fuel := p.fuel), p.status)
  }

  function WithAudits(c: Ca, p: Published<nat, Blob>): Out<()> {
    Settle(c.(audits := p.dir, fuel := p.fuel), p.status)
  }

  function WithQuarantine(c: Ca, q: Id, x: Quarantined, fuel: nat, status: Status): Out<()> {
    Settle(c.(quarantines := c.quarantines[q := x], fuel := fuel), status)
  }

  function PublishFile(c: Ca, id: Id, f: File, doc: Doc): Out<()>
    requires id in c.issuances
  {
    WithIssuance(c, id, PublishIn(c, c.issuances[id], f, Whole(doc)))
  }

  function PublishFileExact(c: Ca, id: Id, f: File, doc: Doc): Out<()>
    requires id in c.issuances
  {
    WithIssuance(c, id, PublishExactIn(c, c.issuances[id], f, Whole(doc)))
  }

  predicate Has(c: Ca, id: Id, f: File) {
    id in c.issuances && Final(f) in c.issuances[id]
  }

  function FileOf(c: Ca, id: Id, f: File): Blob
    requires Has(c, id, f)
  {
    c.issuances[id][Final(f)]
  }
}
