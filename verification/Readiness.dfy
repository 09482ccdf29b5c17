/** The readiness watcher as an interleaving of four parties: the watcher thread, requests that
    hold the issuance mutex, whoever changes the state directory, and readers of the two
    atomics (`ReadinessWatcher::start` and `is_ready` in crates/azihsm-ca/src/http.rs). */
module Readiness {

  /** What a wait on the directory watcher can return. */
  datatype Event = Timeout | Changed | Overflow | Failed

  /** Why it failed: the wait itself; the report, or the reset of its event, which stays
      signaled; or arming the watcher again once the event has been reset. */
  datatype Fault = WaitFails | ReportFails | ArmingFails

  /** The watcher: armed, signaled by a report it cannot take, or neither armed nor signaled. */
  datatype Watch = Armed | Signaled | Unarmed

  /** The watcher thread's next statement. */
  datatype Pc =
    | Waiting                    // wait_with_stop
    | Waited(event: Event)       // it returned; `pending` is not stored yet
    | Marked(event: Event)       // pending.store(true) done
    | Unready(event: Event)      // ready is false
    | Locking                    // issuance.lock
    | Validating                 // about to call revalidate
    | Running(taken: nat, version: nat)  // inside revalidate
    | Draining                   // it succeeded; wait(ZERO)
    | Replacing                  // the drain overflowed or failed
    | Settling                   // the drain was empty; pending.store(false)
    | Raising                    // ready := true
    | Releasing                  // unlock
    | Ended

  datatype Holder = Free | Watcher | Issuer

  /** `version` counts changes of the directory and `seen` those already reported or dropped;
      the rest are still queued in the watcher. `taken` counts what waits have returned,
      timeouts aside. `okTaken` and `okVersion` are what the last revalidation began with,
      when it succeeded. `poisoned`: a request panicked while holding the mutex. */
  datatype World = World(
    pc: Pc, ready: bool, pending: bool, mutex: Holder, poisoned: bool, watch: Watch,
    version: nat, seen: nat, taken: nat, lastOk: bool, okTaken: nat, okVersion: nat)

  datatype Action =
    | Change                                          // someone changes the directory
    | Acquire                                         // a request takes the mutex
    | Release(panics: bool)                           // and gives it back
    | Step(event: Event, fault: Fault, succeeds: bool, stop: bool)  // the watcher thread's next statement

  function Start(): World {
    World(Waited(Timeout), false, true, Free, false, Armed, 0, 0, 0, false, 0, 0)
  }

  /** What a wait can return: a signaled watcher never times out, and one that is not armed
      has nothing to report. */
  function Heard(watch: Watch, event: Event): Event {
    match watch
    case Armed => event
    case Signaled => if event == Timeout then Failed else event
    case Unarmed => if event == Failed then Failed else Timeout
  }

  function AfterFailure(watch: Watch, fault: Fault): Watch {
    if watch == Unarmed || fault == WaitFails then watch
    else if fault == ReportFails then Signaled
    else Unarmed
  }

  /** A wait: a report takes everything queued and arms the watcher again. */
  function Wait(w: World, heard: Event, fault: Fault): World {
    match heard
    case Timeout => w
    case Changed => w.(seen := w.version, taken := w.taken + 1, watch := Armed)
    case Overflow => w.(seen := w.version, taken := w.taken + 1, watch := Armed)
    case Failed => w.(taken := w.taken + 1, watch := AfterFailure(w.watch, fault))
  }

  /** A watcher registered now reports only what happens from now on; when none can be
      registered, the old one stays in place. */
  function Replace(w: World, succeeds: bool): World {
    if succeeds then w.(seen := w.version, watch := Armed) else w
  }

  function WatcherStep(w: World, event: Event, fault: Fault, succeeds: bool, stop: bool): World {
    var heard := Heard(w.watch, event);
    match w.pc
    case Waiting => if stop then w.(pc := Ended) else Wait(w, heard, fault).(pc := Waited(heard))
    case Waited(e) => w.(pending := true, pc := Marked(e))
    case Marked(e) => w.(ready := false, pc := Unready(e))
    case Unready(e) =>
      if e == Failed || e == Overflow then Replace(w, succeeds).(pc := if succeeds then Locking else Waiting)
      else w.(pc := Locking)
    case Locking =>
      if w.poisoned then w.(pc := Waiting)
      else if w.mutex == Free then w.(mutex := Watcher, pc := Validating) else w
    case Validating => w.(pc := Running(w.taken, w.version))
    case Running(t, v) =>
      if succeeds then w.(lastOk := true, okTaken := t, okVersion := v, pc := Draining)
      else w.(lastOk := false, ready := false, pc := Releasing)
    case Draining =>
      if heard == Timeout then w.(pc := Settling)
      else if heard == Changed then Wait(w, Changed, fault).(pc := Validating)
      else Wait(w, heard, fault).(pc := Replacing)
    case Replacing => Replace(w, succeeds).(pc := if succeeds then Validating else Releasing)
    case Settling => w.(pending := false, pc := Raising)
    case Raising => w.(ready := true, pc := Releasing)
    case Releasing => w.(mutex := Free, pc := Waiting)
    case Ended => w
  }

  function Next(w: World, a: Action): World {
    match a
    case Change => w.(version := w.version + 1)
    case Acquire => if w.mutex == Free && !w.poisoned then w.(mutex := Issuer) else w
    case Release(panics) => if w.mutex == Issuer then w.(mutex := Free, poisoned := w.poisoned || panics) else w
    case Step(event, fault, succeeds, stop) => WatcherStep(w, event, fault, succeeds, stop)
  }

  /** The states of a run, the first included. */
  function Trace(w: World, actions: seq<Action>): (trace: seq<World>)
    ensures |trace| == |actions| + 1 && trace[0] == w
    decreases |actions|
  {
    if actions == [] then [w] else [w] + Trace(Next(w, actions[0]), actions[1..])
  }

  // ---------- the invariant ----------

  /** The last revalidation succeeded, and everything any wait ever returned was returned, and
      every change reported or dropped, before it began. */
  predicate Checked(w: World) {
    w.lastOk && w.taken == w.okTaken && w.seen <= w.okVersion <= w.version
  }

  /** Besides, every change since it began is still queued in an armed watcher. */
  predicate Validated(w: World) {
    Checked(w) && w.watch == Armed
  }

  /** The watcher thread holds the mutex from before revalidating until after raising. */
  predicate WatcherInside(pc: Pc) {
    pc.Validating? || pc.Running? || pc.Draining? || pc.Replacing? || pc.Settling? || pc.Raising? || pc.Releasing?
  }

  /** The statements between storing `pending` and settling. */
  predicate MustBePending(pc: Pc) {
    pc.Marked? || pc.Unready? || pc.Locking? || pc.Validating? || pc.Running? || pc.Draining? || pc.Replacing?
          || pc.Settling?
  }

  /** Where the mutex and `pending` are, by the thread's position. */
  predicate Placed(w: World) {
    && w.seen <= w.version && w.okVersion <= w.version
    && (WatcherInside(w.pc) <==> w.mutex == Watcher)
    && (MustBePending(w.pc) ==> w.pending)
    && (w.pc.Raising? ==> !w.pending)
  }

  predicate Lost(event: Event) { event == Failed || event == Overflow }

  /** A signaled watcher is about to fail a wait, or has failed one, with `pending` set or about
      to be. */
  predicate Working(w: World) {
    && (w.watch == Signaled ==> w.pending || w.pc == Waited(Failed))
    && (w.watch == Signaled && (w.pc.Waited? || w.pc.Marked? || w.pc.Unready?) ==> w.pc.event == Failed)
    && (w.watch == Signaled ==>
          !(w.pc.Locking? || w.pc.Validating? || w.pc.Running? || w.pc.Draining? || w.pc.Settling?))
  }

  /** A wait has returned a report, or failed, and `pending` does not say so yet. */
  predicate InHand(w: World) {
    w.pc.Waited? && w.pc.event != Timeout
  }

  /** The same, but of `ready`. */
  predicate Unheeded(w: World) {
    (w.pc.Waited? || w.pc.Marked?) && w.pc.event != Timeout
  }

  /** What has been checked, by the thread's position and the two atomics. */
  predicate Evidence(w: World) {
    && w.okTaken <= w.taken && (Unheeded(w) ==> w.okTaken < w.taken)
    && (w.pc.Running? ==> w.pc.taken == w.taken && w.seen <= w.pc.version <= w.version)
    && (w.pc.Draining? || w.pc.Settling? ==> Checked(w))
    && (!w.pending ==> (Checked(w) <==> !InHand(w)))
    && (w.ready ==> !w.pending || w.pc.Marked?)
    && (w.ready ==> (Checked(w) <==> !Unheeded(w)))
  }

  predicate Inv(w: World) {
    Placed(w) && Working(w) && Evidence(w)
  }

  lemma OthersKeepInv(w: World, a: Action)
    requires Inv(w) && !a.Step?
    ensures Inv(Next(w, a))
  {
  }

  lemma WaitKeepsInv(w: World, event: Event, fault: Fault, succeeds: bool, stop: bool)
    requires Inv(w) && w.pc.Waiting?
    ensures Inv(WatcherStep(w, event, fault, succeeds, stop))
  {
    var w' := WatcherStep(w, event, fault, succeeds, stop);
    assert !w.pending ==> Checked(w);
    assert w.ready ==> !w.pending;
    assert Placed(w') && Working(w');
  }

  lemma MarkingKeepsInv(w: World, event: Event, fault: Fault, succeeds: bool, stop: bool)
    requires Inv(w) && (w.pc.Waited? || w.pc.Marked?)
    ensures Inv(WatcherStep(w, event, fault, succeeds, stop))
  {
  }

  lemma ReplacingKeepsInv(w: World, event: Event, fault: Fault, succeeds: bool, stop: bool)
    requires Inv(w) && w.pc.Unready?
    ensures Inv(WatcherStep(w, event, fault, succeeds, stop))
  {
    assert w.pending;
  }

  lemma LockingKeepsInv(w: World, event: Event, fault: Fault, succeeds: bool, stop: bool)
    requires Inv(w) && (w.pc.Locking? || w.pc.Ended?)
    ensures Inv(WatcherStep(w, event, fault, succeeds, stop))
  {
  }

  lemma InnerKeepsInv(w: World, event: Event, fault: Fault, succeeds: bool, stop: bool)
    requires Inv(w) && WatcherInside(w.pc)
    ensures Inv(WatcherStep(w, event, fault, succeeds, stop))
  {
  }

  lemma InvStep(w: World, a: Action)
    requires Inv(w)
    ensures Inv(Next(w, a))
  {
    if a.Step? {
      if WatcherInside(w.pc) {
        InnerKeepsInv(w, a.event, a.fault, a.succeeds, a.stop);
      } else if w.pc.Waiting? {
        WaitKeepsInv(w, a.event, a.fault, a.succeeds, a.stop);
      } else if w.pc.Waited? || w.pc.Marked? {
        MarkingKeepsInv(w, a.event, a.fault, a.succeeds, a.stop);
      } else if w.pc.Unready? {
        ReplacingKeepsInv(w, a.event, a.fault, a.succeeds, a.stop);
      } else {
        LockingKeepsInv(w, a.event, a.fault, a.succeeds, a.stop);
      }
    } else {
      OthersKeepInv(w, a);
    }
  }

  lemma {:induction false} InvTrace(w: World, actions: seq<Action>)
    requires Inv(w)
    ensures forall i :: 0 <= i <= |actions| ==> Inv(Trace(w, actions)[i])
    decreases |actions|
  {
    if actions != [] {
      InvStep(w, actions[0]);
      InvTrace(Next(w, actions[0]), actions[1..]);
      forall i | 0 <= i <= |actions| ensures Inv(Trace(w, actions)[i]) {
        if i > 0 {
          assert Trace(w, actions)[i] == Trace(Next(w, actions[0]), actions[1..])[i - 1];
        }
      }
    }
  }

  lemma StartInv()
    ensures Inv(Start())
  {
  }

  lemma Reached(w: World, actions: seq<Action>, i: nat)
    requires Inv(w) && i <= |actions|
    ensures var v := Trace(w, actions)[i];
            && Inv(v)
            && (!v.pending ==> (Validated(v) <==> !InHand(v) && v.watch == Armed))
            && (v.ready ==> (Validated(v) <==> !Unheeded(v) && v.watch == Armed))
  {
    InvTrace(w, actions);
    InvTells(Trace(w, actions)[i]);
  }

  lemma InvTells(w: World)
    requires Inv(w)
    ensures !w.pending ==> (Validated(w) <==> !InHand(w) && w.watch == Armed)
    ensures w.ready ==> (Validated(w) <==> !Unheeded(w) && w.watch == Armed)
  {
  }

  /** A moment with `pending` false is validated exactly when the watcher is armed and holds
      nothing that it has not yet stored: then the last revalidation succeeded, all reports
      were taken before it began and every change since it began is still queued. */
  lemma NotPendingMeansValidated(actions: seq<Action>, i: nat)
    requires i <= |actions| && !Trace(Start(), actions)[i].pending
    ensures var w := Trace(Start(), actions)[i];
            Validated(w) <==> !InHand(w) && w.watch == Armed
  {
    StartInv();
    Reached(Start(), actions, i);
  }

  /** The same of a moment with `ready` true. */
  lemma ReadyMeansValidated(actions: seq<Action>, i: nat)
    requires i <= |actions| && Trace(Start(), actions)[i].ready
    ensures var w := Trace(Start(), actions)[i];
            Validated(w) <==> !Unheeded(w) && w.watch == Armed
  {
    StartInv();
    Reached(Start(), actions, i);
  }

  lemma {:induction false} TraceSteps(w: World, actions: seq<Action>, i: nat)
    requires i < |actions|
    ensures Trace(w, actions)[i + 1] == Next(Trace(w, actions)[i], actions[i])
    decreases |actions|
  {
    var rest := Trace(Next(w, actions[0]), actions[1..]);
    assert Trace(w, actions) == [w] + rest;
    if i > 0 {
      TraceSteps(Next(w, actions[0]), actions[1..], i - 1);
    }
  }

  /** From moment i to moment j the watcher never leaves the gap between wait and store. */
  ghost predicate InHandThroughout(trace: seq<World>, i: nat, j: nat) {
    forall k :: i <= k <= j < |trace| ==> InHand(trace[k])
  }

  ghost predicate CheckedBetween(trace: seq<World>, i: nat, j: nat) {
    exists k :: i <= k <= j < |trace| && Checked(trace[k])
  }

  ghost predicate ValidatedBetween(trace: seq<World>, i: nat, j: nat) {
    exists k :: i <= k <= j < |trace| && Validated(trace[k])
  }

  ghost predicate ArmedThroughout(trace: seq<World>, i: nat, j: nat) {
    forall k :: i <= k <= j < |trace| ==> trace[k].watch == Armed
  }

  /** Entering the gap leaves `pending` alone; so does every move of the others inside it. */
  lemma IntoTheGap(w: World, a: Action)
    requires Inv(w) && InHand(Next(w, a)) && !Next(w, a).pending
    ensures !w.pending && (InHand(w) || Checked(w))
  {
  }

  lemma {:induction false} GapOrChecked(w: World, actions: seq<Action>, i: nat, j: nat)
    requires Inv(w) && i <= j <= |actions| && !Trace(w, actions)[j].pending
    ensures var trace := Trace(w, actions);
            CheckedBetween(trace, i, j) <==> !InHandThroughout(trace, i, j)
    decreases j
  {
    var trace := Trace(w, actions);
    Reached(w, actions, j);
    if !InHand(trace[j]) {
      assert Checked(trace[j]);
    } else if i < j {
      TraceSteps(w, actions, j - 1);
      Reached(w, actions, j - 1);
      IntoTheGap(trace[j - 1], actions[j - 1]);
      GapOrChecked(w, actions, i, j - 1);
    }
  }

  /** What a true answer means that loaded `ready` at moment i and `pending` at moment j. Each
      load falls in a validated moment exactly when nothing is in hand and the watcher is
      armed. Some moment from the one to the other is checked, unless the watcher stood in the
      gap between a wait's return and the store that follows it all that time; with the
      watcher armed all that time, that moment is validated. */
  ghost predicate Accounted(trace: seq<World>, i: nat, j: nat)
    requires i <= j < |trace|
  {
    && (Validated(trace[i]) <==> !Unheeded(trace[i]) && trace[i].watch == Armed)
    && (Validated(trace[j]) <==> !InHand(trace[j]) && trace[j].watch == Armed)
    && (CheckedBetween(trace, i, j) <==> !InHandThroughout(trace, i, j))
    && (ArmedThroughout(trace, i, j) ==> (ValidatedBetween(trace, i, j) <==> !InHandThroughout(trace, i, j)))
  }

  lemma AnswersFrom(w: World, actions: seq<Action>, i: nat, j: nat)
    requires Inv(w) && i <= j <= |actions|
    requires Trace(w, actions)[i].ready && !Trace(w, actions)[j].pending
    ensures Accounted(Trace(w, actions), i, j)
  {
    var trace := Trace(w, actions);
    Reached(w, actions, i);
    Reached(w, actions, j);
    GapOrChecked(w, actions, i, j);
    if ArmedThroughout(trace, i, j) {
      assert forall k :: i <= k <= j < |trace| ==> (Checked(trace[k]) <==> Validated(trace[k]));
    }
  }

  /** A true answer of `is_ready`, which loaded `ready` at moment i and `pending` at moment j,
      is accounted for. */
  lemma ReadyAnswersAreValidated(actions: seq<Action>, i: nat, j: nat)
    requires i <= j <= |actions|
    requires Trace(Start(), actions)[i].ready && !Trace(Start(), actions)[j].pending
    ensures Accounted(Trace(Start(), actions), i, j)
  {
    StartInv();
    AnswersFrom(Start(), actions, i, j);
  }

  // ---------- when the watcher is not armed ----------

  /** The wait of this step fails at arming the watcher again. */
  predicate Unarms(w: World, a: Action) {
    && a.Step? && Heard(w.watch, a.event) == Failed && a.fault == ArmingFails && w.watch != Unarmed
    && ((w.pc.Waiting? && !a.stop) || w.pc.Draining?)
  }

  /** A replacement is registered. */
  predicate Replaces(w: World, a: Action) {
    && a.Step? && a.succeeds
    && (w.pc.Replacing? || (w.pc.Unready? && (w.pc.event == Failed || w.pc.event == Overflow)))
  }

  lemma WatchOfWait(w: World, event: Event, fault: Fault)
    ensures var heard := Heard(w.watch, event);
            Wait(w, heard, fault).watch == Unarmed <==> w.watch == Unarmed || (heard == Failed && fault == ArmingFails)
  {
  }

  lemma WatchWhileWaiting(w: World, a: Action)
    requires a.Step? && (w.pc.Waiting? || w.pc.Draining?)
    ensures Next(w, a).watch == Unarmed <==> Unarms(w, a) || w.watch == Unarmed
  {
    WatchOfWait(w, a.event, a.fault);
  }

  lemma WatchElsewhere(w: World, a: Action)
    requires a.Step? ==> !w.pc.Waiting? && !w.pc.Draining?
    ensures Next(w, a).watch == if Replaces(w, a) then Armed else w.watch
  {
  }

  lemma OneStepOfWatch(w: World, a: Action)
    ensures Next(w, a).watch == Unarmed <==> Unarms(w, a) || (w.watch == Unarmed && !Replaces(w, a))
  {
    if a.Step? && (w.pc.Waiting? || w.pc.Draining?) {
      WatchWhileWaiting(w, a);
      assert !Replaces(w, a);
    } else {
      WatchElsewhere(w, a);
      assert !Unarms(w, a);
    }
  }

  /** Arming failed at step k, and no replacement has been registered since. */
  ghost predicate UnarmedSince(actions: seq<Action>, k: nat, i: nat) {
    var trace := Trace(Start(), actions);
    && k < i <= |actions| && Unarms(trace[k], actions[k])
    && forall l :: k < l < i ==> !Replaces(trace[l], actions[l])
  }

  /** The watcher is unarmed exactly when arming it failed at some step and no replacement has
      been registered since. */
  lemma {:induction false} UnarmedMeans(actions: seq<Action>, i: nat)
    requires i <= |actions|
    ensures Trace(Start(), actions)[i].watch == Unarmed <==> exists k: nat :: UnarmedSince(actions, k, i)
    decreases i
  {
    var trace := Trace(Start(), actions);
    if i > 0 {
      UnarmedMeans(actions, i - 1);
      TraceSteps(Start(), actions, i - 1);
      OneStepOfWatch(trace[i - 1], actions[i - 1]);
      if Unarms(trace[i - 1], actions[i - 1]) {
        assert UnarmedSince(actions, i - 1, i);
      } else if trace[i].watch == Unarmed {
        var k: nat :| UnarmedSince(actions, k, i - 1);
        assert UnarmedSince(actions, k, i);
      }
      if exists k: nat :: UnarmedSince(actions, k, i) {
        var k: nat :| UnarmedSince(actions, k, i);
        if k < i - 1 {
          assert UnarmedSince(actions, k, i - 1);
        }
      }
    }
  }

  /** No wait fails. */
  predicate Uneventful(actions: seq<Action>) {
    forall a <- actions :: a.Step? ==> a.event != Failed
  }

  /** An unarmed watcher whose failure is behind it. */
  predicate Deaf(w: World) {
    && w.watch == Unarmed && !w.pc.Replacing?
    && ((w.pc.Waited? || w.pc.Marked? || w.pc.Unready?) ==> w.pc.event == Timeout)
  }

  lemma DeafStep(w: World, a: Action)
    requires Deaf(w) && (a.Step? ==> a.event != Failed)
    ensures Deaf(Next(w, a)) && Next(w, a).taken == w.taken
  {
    if a.Step? {
      assert Heard(w.watch, a.event) == Timeout;
    }
  }

  /** Then nothing that happens to the directory is ever reported, until a wait fails. */
  lemma {:induction false} DeafHearsNothing(w: World, actions: seq<Action>, i: nat)
    requires Deaf(w) && Uneventful(actions) && i <= |actions|
    ensures Deaf(Trace(w, actions)[i]) && Trace(w, actions)[i].taken == w.taken
    decreases |actions|
  {
    if i > 0 {
      DeafStep(w, actions[0]);
      DeafHearsNothing(Next(w, actions[0]), actions[1..], i - 1);
      assert Trace(w, actions)[i] == Trace(Next(w, actions[0]), actions[1..])[i - 1];
    }
  }

  // ---------- two runs ----------

  /** A step in which everything goes well. */
  function Quiet(): Action {
    Step(Timeout, WaitFails, true, false)
  }

  function Round(): seq<Action> {
    seq(10, _ => Quiet())
  }

  /** After a first round. */
  function Raised(): World {
    Start().(pc := Waiting, ready := true, pending := false, lastOk := true)
  }

  lemma StepsOf(w: World, actions: seq<Action>)
    ensures forall i: nat :: i < |actions| ==> Trace(w, actions)[i + 1] == Next(Trace(w, actions)[i], actions[i])
  {
    forall i: nat | i < |actions| ensures Trace(w, actions)[i + 1] == Next(Trace(w, actions)[i], actions[i]) {
      TraceSteps(w, actions, i);
    }
  }

  /** Five quiet steps of a round that begins with the thread having waited in vain. */
  lemma FirstHalf(trace: seq<World>, k: nat, w: World)
    requires k + 5 < |trace| && trace[k] == w && w.pc == Waited(Timeout) && w.mutex == Free && !w.poisoned
    requires forall i: nat :: k <= i < k + 5 ==> trace[i + 1] == Next(trace[i], Quiet())
    ensures trace[k + 5] == w.(pc := Running(w.taken, w.version), mutex := Watcher, ready := false, pending := true)
  {
    var v := w.(ready := false, pending := true);
    assert trace[k + 1] == w.(pc := Marked(Timeout), pending := true);
    assert trace[k + 1 + 1] == v.(pc := Unready(Timeout));
    assert trace[k + 2 + 1] == v.(pc := Locking);
    assert trace[k + 3 + 1] == v.(pc := Validating, mutex := Watcher);
    assert trace[k + 4 + 1] == v.(pc := Running(w.taken, w.version), mutex := Watcher);
  }

  lemma SecondHalf(trace: seq<World>, k: nat, w: World)
    requires k + 5 < |trace| && trace[k] == w && w.pc == Running(w.taken, w.version) && w.watch != Signaled
    requires forall i: nat :: k <= i < k + 5 ==> trace[i + 1] == Next(trace[i], Quiet())
    ensures trace[k + 5] == w.(pc := Waiting, mutex := Free, ready := true, pending := false, lastOk := true,
                               okTaken := w.taken, okVersion := w.version)
  {
    var v := w.(lastOk := true, okTaken := w.taken, okVersion := w.version);
    assert trace[k + 1] == v.(pc := Draining);
    assert trace[k + 1 + 1] == v.(pc := Settling);
    assert trace[k + 2 + 1] == v.(pc := Raising, pending := false);
    assert trace[k + 3 + 1] == v.(pc := Releasing, pending := false, ready := true);
    assert trace[k + 4 + 1] == v.(pc := Waiting, mutex := Free, pending := false, ready := true);
  }

  /** A round that begins at moment k and in which everything goes well. */
  lemma WholeRound(trace: seq<World>, k: nat, w: World)
    requires k + 10 < |trace| && trace[k] == w && w.pc == Waited(Timeout) && w.mutex == Free && !w.poisoned
    requires w.watch != Signaled
    requires forall i: nat :: k <= i < k + 10 ==> trace[i + 1] == Next(trace[i], Quiet())
    ensures trace[k + 10] == w.(pc := Waiting, ready := true, pending := false, lastOk := true,
                                okTaken := w.taken, okVersion := w.version)
  {
    FirstHalf(trace, k, w);
    SecondHalf(trace, k + 5, trace[k + 5]);
  }

  /** A first round that validates, a change, and the wait that returns it. */
  function IntoGap(): seq<Action> {
    Round() + [Change, Step(Changed, WaitFails, true, false)]
  }

  lemma GapOpens(trace: seq<World>)
    requires |trace| == 13 && trace[0] == Start()
    requires forall i: nat :: i < 12 ==> trace[i + 1] == Next(trace[i], IntoGap()[i])
    ensures var w := trace[12]; w.ready && !w.pending && InHand(w) && !Validated(w)
  {
    forall i: nat | 0 <= i < 10 ensures trace[i + 1] == Next(trace[i], Quiet()) {
      assert IntoGap()[i] == Quiet();
    }
    WholeRound(trace, 0, Start());
    assert trace[10 + 1] == Raised().(version := 1);
    assert trace[11 + 1] == Raised().(version := 1, seen := 1, taken := 1, pc := Waited(Changed));
  }

  /** In this run `is_ready` is true although the change it has been told of is not validated:
      the exception in the theorems above is needed. */
  lemma ReadyInTheGap()
    ensures |IntoGap()| == 12
    ensures var w := Trace(Start(), IntoGap())[12];
            w.ready && !w.pending && InHand(w) && !Validated(w)
  {
    StepsOf(Start(), IntoGap());
    GapOpens(Trace(Start(), IntoGap()));
  }

  /** A first round, a wait that fails at arming the watcher again, a replacement that fails
      too, a wait that times out, and another round. */
  function IntoSilence(): seq<Action> {
    var falls := [Step(Failed, ArmingFails, true, false), Quiet(), Quiet(), Step(Timeout, WaitFails, false, false)];
    Round() + falls + [Quiet()] + Round()
  }

  /** The watcher unarmed, and the next round about to begin. */
  function Silent(): World {
    Raised().(pc := Waited(Timeout), ready := false, pending := true, watch := Unarmed, taken := 1)
  }

  lemma SilenceFalls(trace: seq<World>)
    requires |trace| > 15 && trace[10] == Raised()
    requires forall i: nat :: 10 <= i < 15 ==> trace[i + 1] == Next(trace[i], IntoSilence()[i])
    ensures trace[15] == Silent()
  {
    assert trace[10 + 1] == Raised().(pc := Waited(Failed), watch := Unarmed, taken := 1);
    assert trace[11 + 1] == Raised().(pc := Marked(Failed), pending := true, watch := Unarmed, taken := 1);
    assert trace[12 + 1] == Silent().(pc := Unready(Failed));
    assert trace[13 + 1] == Silent().(pc := Waiting);
    assert trace[14 + 1] == Silent();
  }

  lemma SilenceLasts(trace: seq<World>)
    requires |trace| == 26 && trace[0] == Start()
    requires forall i: nat :: i < 25 ==> trace[i + 1] == Next(trace[i], IntoSilence()[i])
    ensures var w := trace[25]; w.ready && !w.pending && !Unheeded(w) && Deaf(w) && !Validated(w)
  {
    forall i: nat | 0 <= i < 10 || 15 <= i < 25 ensures trace[i + 1] == Next(trace[i], Quiet()) {
      assert IntoSilence()[i] == Quiet();
    }
    WholeRound(trace, 0, Start());
    SilenceFalls(trace);
    WholeRound(trace, 15, Silent());
  }

  /** In this run the watcher thread reports readiness, with nothing in hand, although its
      watcher is unarmed and hears of no later change. */
  lemma ReadyInSilence()
    ensures |IntoSilence()| == 25
    ensures var w := Trace(Start(), IntoSilence())[25];
            w.ready && !w.pending && !Unheeded(w) && Deaf(w) && !Validated(w)
  {
    StepsOf(Start(), IntoSilence());
    SilenceLasts(Trace(Start(), IntoSilence()));
  }

  // ---------- readiness comes back ----------

  /** Quiet steps left until `ready` is raised. */
  function Left(pc: Pc): nat {
    match pc
    case Releasing => 11
    case Waiting => 10
    case Waited(_) => 9
    case Marked(_) => 8
    case Unready(_) => 7
    case Locking => 6
    case Replacing => 6
    case Validating => 5
    case Running(_, _) => 4
    case Draining => 3
    case Settling => 2
    case Raising => 1
    case Ended => 0
  }

  /** Nothing keeps the watcher thread from going on: it has not ended, and no request holds the
      mutex or has left it poisoned. */
  predicate Unhindered(w: World) {
    !w.pc.Ended? && w.mutex != Issuer && !w.poisoned
  }

  lemma QuietStep(w: World)
    requires Inv(w) && Unhindered(w) && Left(w.pc) > 1
    ensures var w' := Next(w, Quiet()); Inv(w') && Unhindered(w') && Left(w'.pc) == Left(w.pc) - 1
  {
    InvStep(w, Quiet());
    assert Heard(w.watch, Timeout) == Timeout || w.watch == Signaled;
  }

  lemma LastQuietStep(w: World)
    requires Inv(w) && Unhindered(w) && Left(w.pc) == 1
    ensures var w' := Next(w, Quiet()); Inv(w') && w'.ready && !w'.pending && Checked(w')
  {
    InvStep(w, Quiet());
    InvTells(Next(w, Quiet()));
  }

  /** The state after `n` steps in which everything goes well. */
  function AfterQuiet(w: World, n: nat): World
    decreases n
  {
    if n == 0 then w else AfterQuiet(Next(w, Quiet()), n - 1)
  }

  /** From wherever the thread is, as many quiet steps as are left make the answer true, and what
      it answers for has been checked. */
  lemma {:induction false} QuietRaises(w: World)
    requires Inv(w) && Unhindered(w)
    ensures var v := AfterQuiet(w, Left(w.pc)); v.ready && !v.pending && Checked(v)
    decreases Left(w.pc)
  {
    if Left(w.pc) == 1 {
      LastQuietStep(w);
      assert AfterQuiet(w, 1) == AfterQuiet(Next(w, Quiet()), 0);
    } else {
      QuietStep(w);
      QuietRaises(Next(w, Quiet()));
    }
  }

  lemma ReturnsFrom(w: World, actions: seq<Action>, i: nat)
    requires Inv(w) && i <= |actions| && Unhindered(Trace(w, actions)[i])
    ensures var v := Trace(w, actions)[i];
            && 1 <= Left(v.pc) <= 11
            && AfterQuiet(v, Left(v.pc)).ready && !AfterQuiet(v, Left(v.pc)).pending
  {
    Reached(w, actions, i);
    QuietRaises(Trace(w, actions)[i]);
  }

  /** After any run, unless the thread has been stopped or a request holds the mutex or has left
      it poisoned, at most eleven quiet steps make `is_ready` true. */
  lemma ReadinessReturns(actions: seq<Action>, i: nat)
    requires i <= |actions| && Unhindered(Trace(Start(), actions)[i])
    ensures var w := Trace(Start(), actions)[i];
            && 1 <= Left(w.pc) <= 11
            && AfterQuiet(w, Left(w.pc)).ready && !AfterQuiet(w, Left(w.pc)).pending
  {
    StartInv();
    ReturnsFrom(Start(), actions, i);
  }

  /** A round is entered at once, without another wait: after a change and after a wait in vain;
      after a failed wait or an overflow once a replacement is registered; and again when the
      drain returns a change, or is lost and its watcher replaced. So many quiet steps later
      the answer is true. */
  lemma RoundsAreEntered(w: World, event: Event, fault: Fault)
    requires Inv(w) && Unhindered(w)
    ensures w.pc.Unready? && !Lost(w.pc.event) ==>
              var v := AfterQuiet(Next(w, Step(event, fault, false, false)), 6); v.ready && !v.pending
    ensures w.pc.Unready? && Lost(w.pc.event) ==>
              var v := AfterQuiet(Next(w, Step(event, fault, true, false)), 6); v.ready && !v.pending
    ensures w.pc.Draining? && Heard(w.watch, event) == Changed ==>
              var v := AfterQuiet(Next(w, Step(event, fault, false, false)), 5); v.ready && !v.pending
    ensures w.pc.Draining? && Lost(Heard(w.watch, event)) ==>
              var v := AfterQuiet(Next(w, Step(event, fault, false, false)), 6); v.ready && !v.pending
    ensures w.pc.Replacing? ==>
              var v := AfterQuiet(Next(w, Step(event, fault, true, false)), 5); v.ready && !v.pending
  {
    var lucky, unlucky := Step(event, fault, true, false), Step(event, fault, false, false);
    if w.pc.Unready? && !Lost(w.pc.event) {
      EntersRound(w, unlucky);
    } else if w.pc.Unready? {
      EntersRound(w, lucky);
    } else if w.pc.Draining? && (Heard(w.watch, event) == Changed || Lost(Heard(w.watch, event))) {
      EntersRound(w, unlucky);
    } else if w.pc.Replacing? {
      EntersRound(w, lucky);
    }
  }

  lemma EntersRound(w: World, a: Action)
    requires Inv(w) && Unhindered(w) && Unhindered(Next(w, a))
    ensures var v := AfterQuiet(Next(w, a), Left(Next(w, a).pc)); v.ready && !v.pending
  {
    InvStep(w, a);
    QuietRaises(Next(w, a));
  }

  /** A poisoned mutex is for good: once the answer is false it stays false, and no request
      issues again. */
  lemma {:induction false} PoisonedStaysUnready(w: World, actions: seq<Action>, i: nat)
    requires Inv(w) && w.poisoned && w.mutex != Watcher && i <= |actions|
    ensures var v := Trace(w, actions)[i];
            v.poisoned && v.mutex != Watcher && (!w.ready ==> !v.ready) && (w.pending ==> v.pending)
            && (w.mutex == Free ==> v.mutex == Free)
    decreases |actions|
  {
    if i > 0 {
      PoisonedStep(w, actions[0]);
      PoisonedStaysUnready(Next(w, actions[0]), actions[1..], i - 1);
      assert Trace(w, actions)[i] == Trace(Next(w, actions[0]), actions[1..])[i - 1];
    }
  }

  lemma PoisonedStep(w: World, a: Action)
    requires Inv(w) && w.poisoned && w.mutex != Watcher
    ensures var v := Next(w, a);
            Inv(v) && v.poisoned && v.mutex != Watcher && (!w.ready ==> !v.ready) && (w.pending ==> v.pending)
            && (w.mutex == Free ==> v.mutex == Free)
  {
    InvStep(w, a);
    assert !WatcherInside(w.pc);
  }

  /** What a revalidation that fails, a stop and a failed replacement lead to. */
  lemma FailuresGiveWay(w: World, event: Event, fault: Fault)
    requires Inv(w)
    ensures w.pc.Running? ==>
              var v := Next(Next(w, Step(event, fault, false, false)), Step(event, fault, false, false));
              v.mutex == Free && v.pc == Waiting && !v.ready && v.pending
    ensures w.pc.Waiting? ==> Next(w, Step(event, fault, false, true)) == w.(pc := Ended)
    ensures w.pc.Replacing? ==>
              var v := Next(Next(w, Step(event, fault, false, false)), Step(event, fault, false, false));
              v.mutex == Free && v.pc == Waiting && v.pending && v.watch == w.watch
    ensures w.pc.Unready? && Lost(w.pc.event) ==>
              var v := Next(w, Step(event, fault, false, false)); v == w.(pc := Waiting)
  {
  }

  /** Revalidation and issuance never overlap. */
  lemma RevalidationExcludesIssuance(actions: seq<Action>, i: nat)
    requires i <= |actions|
    ensures var w := Trace(Start(), actions)[i];
            && (w.pc.Running? ==> w.mutex == Watcher)
            && (w.mutex == Issuer ==> !WatcherInside(w.pc))
  {
    StartInv();
    InvTrace(Start(), actions);
    var w := Trace(Start(), actions)[i];
    assert Inv(w);
  }
}
