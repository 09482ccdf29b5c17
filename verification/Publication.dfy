/** Staged, non-replacing publication of one file (crates/azihsm-ca/src/state.rs).

    A directory is a map from names to contents. Publishing `n` writes the sibling
    `.n.pending` and renames it. Every file-system operation (create, write, rename,
    remove) spends one unit of `fuel`; the operation attempted at fuel 0 does not happen
    and the run stops there, which is what a crash or an I/O error leaves behind. A write
    that is cut short leaves `torn`. The contents type `B` is arbitrary: `blank` is the
    empty file. */
module Publication {

  datatype Name<+N> = Final(n: N) | Pending(n: N)

  datatype Status = Done | Refused | Interrupted

  datatype Published<N(==), B> = Published(dir: map<Name<N>, B>, fuel: nat, status: Status)

  // ---------- specification ----------

  /** Renames the staged file onto its absent destination. */
  function Rename<N(==), B>(dir: map<Name<N>, B>, n: N, fuel: nat): Published<N, B>
    requires Pending(n) in dir
  {
    if fuel == 0 then Published(dir, 0, Interrupted)
    else Published((dir - {Pending(n)})[Final(n) := dir[Pending(n)]], fuel - 1, Done)
  }

  /** Creates, fills and renames a staging file that does not exist yet. */
  function WriteAndRename<N(==), B>(dir: map<Name<N>, B>, n: N, bytes: B, torn: B, fuel: nat): Published<N, B>
  {
    if fuel == 0 then Published(dir, 0, Interrupted)
    else if fuel == 1 then Published(dir[Pending(n) := torn], 0, Interrupted)
    else Rename(dir[Pending(n) := bytes], n, fuel - 2)
  }

  /** What `durable_bytes` leaves behind, for every amount of fuel. */
  function Publish<N(==), B(==)>(dir: map<Name<N>, B>, n: N, bytes: B, blank: B, torn: B, fuel: nat): Published<N, B>
  {
    if Final(n) in dir then Published(dir, fuel, Refused)
    else if Pending(n) !in dir then WriteAndRename(dir, n, bytes, torn, fuel)
    else if dir[Pending(n)] == blank then
      if fuel == 0 then Published(dir, 0, Interrupted)
      else WriteAndRename(dir - {Pending(n)}, n, bytes, torn, fuel - 1)
    else if dir[Pending(n)] == bytes then Rename(dir, n, fuel)
    else Published(dir, fuel, Refused)
  }

  /** `finalize_pending_publication`: adopt a staged file as it stands. */
  function Adopt<N(==), B>(dir: map<Name<N>, B>, n: N, fuel: nat): Published<N, B>
  {
    if Final(n) in dir || Pending(n) !in dir then Published(dir, fuel, Refused)
    else Rename(dir, n, fuel)
  }

  /** `publish_exact_or_validate`: an existing destination must already hold the bytes. */
  function PublishExact<N(==), B(==)>(dir: map<Name<N>, B>, n: N, bytes: B, blank: B, torn: B,
          fuel: nat): Published<N, B>
  {
    if Final(n) in dir then Published(dir, fuel, if dir[Final(n)] == bytes then Done else Refused)
    else Publish(dir, n, bytes, blank, torn, fuel)
  }

  // ---------- the algorithms, operation by operation ----------

  method DurableBytes<N(==), B(==)>(dir: map<Name<N>, B>, n: N, bytes: B, blank: B, torn: B, budget: nat)
    returns (r: Published<N, B>)
    ensures r == Publish(dir, n, bytes, blank, torn, budget)
  {
    var entries, fuel := dir, budget;
    if Final(n) in entries {
      return Published(entries, fuel, Refused);
    }
    if Pending(n) in entries {
      var staged := entries[Pending(n)];
      if staged == blank {
        if fuel == 0 {
          return Published(entries, fuel, Interrupted);
        }
        entries, fuel := entries - {Pending(n)}, fuel - 1;
      } else if staged != bytes {
        return Published(entries, fuel, Refused);
      }
    }
    if Pending(n) !in entries {
      if fuel == 0 {
        return Published(entries, fuel, Interrupted);
      }
      entries, fuel := entries[Pending(n) := blank], fuel - 1;
      if fuel == 0 {
        entries := entries[Pending(n) := torn];
        assert entries == dir[Pending(n) := torn] || entries == (dir - {Pending(n)})[Pending(n) := torn];
        return Published(entries, fuel, Interrupted);
      }
      entries, fuel := entries[Pending(n) := bytes], fuel - 1;
      assert entries == dir[Pending(n) := bytes] || entries == (dir - {Pending(n)})[Pending(n) := bytes];
    }
    var reopened := entries[Pending(n)];
    if reopened != bytes {
      return Published(entries, fuel, Refused);
    }
    if fuel == 0 {
      return Published(entries, fuel, Interrupted);
    }
    entries, fuel := (entries - {Pending(n)})[Final(n) := reopened], fuel - 1;
    if entries[Final(n)] != bytes {
      return Published(entries, fuel, Refused);
    }
    return Published(entries, fuel, Done);
  }

  method FinalizePending<N(==), B>(dir: map<Name<N>, B>, n: N, budget: nat) returns (r: Published<N, B>)
    ensures r == Adopt(dir, n, budget)
  {
    if Final(n) in dir {
      return Published(dir, budget, Refused);
    }
    if Pending(n) !in dir {
      return Published(dir, budget, Refused);
    }
    if budget == 0 {
      return Published(dir, budget, Interrupted);
    }
    return Published((dir - {Pending(n)})[Final(n) := dir[Pending(n)]], budget - 1, Done);
  }

  // ---------- what publication promises ----------

  /** Enough operations for one publication: remove, create, write, rename. */
  const PUBLICATION_STEPS := 4

  /** Whatever the crash point: the destination is what it was or exactly the requested
      bytes, it is the requested bytes only when the run finished, and no other name moves. */
  lemma DestinationIsAbsentOrExact<N, B>(dir: map<Name<N>, B>, n: N, bytes: B, blank: B, torn: B, fuel: nat)
    ensures var r := Publish(dir, n, bytes, blank, torn, fuel);
            && (Final(n) in dir ==> r.status == Refused && r.dir == dir)
            && (Final(n) !in dir ==> (Final(n) in r.dir <==> r.status == Done))
            && (r.status == Done ==> r.dir == (dir - {Pending(n)})[Final(n) := bytes])
            && (r.status == Refused ==> r.dir == dir)
            && (forall m: Name<N> :: m != Final(n) && m != Pending(n) ==>
                  (m in dir <==> m in r.dir) && (m in dir ==> r.dir[m] == dir[m]))
  {
  }

  /** Exactly which starting states a complete run can publish from. */
  lemma PublishSucceedsExactlyWhen<N, B>(dir: map<Name<N>, B>, n: N, bytes: B, blank: B, torn: B, fuel: nat)
    requires fuel >= PUBLICATION_STEPS
    ensures Publish(dir, n, bytes, blank, torn, fuel).status == Done
            <==> Final(n) !in dir && (Pending(n) in dir ==> dir[Pending(n)] == blank || dir[Pending(n)] == bytes)
  {
  }

  /** Rerunning after an interruption that left an empty or complete staging file reaches
      the very directory an uninterrupted run reaches; a torn staging file that is neither
      blocks every later run without touching the destination. */
  lemma RerunAfterCrash<N, B>(dir: map<Name<N>, B>, n: N, bytes: B, blank: B, torn: B, fuel: nat, torn2: B, fuel2: nat)
    requires Publish(dir, n, bytes, blank, torn, fuel).status == Interrupted
    requires fuel2 >= PUBLICATION_STEPS
    ensures var crashed := Publish(dir, n, bytes, blank, torn, fuel);
            var again := Publish(crashed.dir, n, bytes, blank, torn2, fuel2);
            var direct := Publish(dir, n, bytes, blank, torn2, fuel2);
            if Pending(n) in crashed.dir && crashed.dir[Pending(n)] != blank && crashed.dir[Pending(n)] != bytes
            then again.status == Refused && again.dir == crashed.dir && Final(n) !in again.dir
            else again.status == Done && direct.status == Done && again.dir == direct.dir
  {
    var crashed := Publish(dir, n, bytes, blank, torn, fuel);
    var base := dir - {Pending(n)};
    assert crashed.dir == dir || crashed.dir == base || crashed.dir == base[Pending(n) := torn]
        || crashed.dir == base[Pending(n) := bytes] || crashed.dir == dir[Pending(n) := torn]
        || crashed.dir == dir[Pending(n) := bytes];
    if !(Pending(n) in crashed.dir && crashed.dir[Pending(n)] != blank && crashed.dir[Pending(n)] != bytes) {
      assert crashed.dir - {Pending(n)} == base;
      DestinationIsAbsentOrExact(crashed.dir, n, bytes, blank, torn2, fuel2);
      DestinationIsAbsentOrExact(dir, n, bytes, blank, torn2, fuel2);
    }
  }

  /** Adopting is the other way to finish a publication that was stopped with its staging file
      complete: it reaches the directory an uninterrupted run reaches. Nothing else is ever
      adopted onto an existing destination, and nothing changes unless it succeeds. */
  lemma AdoptionCompletes<N, B>(dir: map<Name<N>, B>, n: N, bytes: B, blank: B, torn: B, fuel: nat, fuel2: nat)
    ensures var stopped := Publish(dir, n, bytes, blank, torn, fuel);
            var adopted := Adopt(stopped.dir, n, fuel2);
            && (stopped.status == Interrupted && Pending(n) in stopped.dir && stopped.dir[Pending(n)] == bytes ==>
                  fuel2 > 0 ==>
                  && adopted.status == Done
                  && adopted.dir == Publish(dir, n, bytes, blank, torn, fuel + PUBLICATION_STEPS).dir)
            && (Final(n) in stopped.dir ==> adopted.status == Refused)
            && (adopted.status != Done ==> adopted.dir == stopped.dir)
  {
    var stopped := Publish(dir, n, bytes, blank, torn, fuel);
    if stopped.status == Interrupted && Pending(n) in stopped.dir && stopped.dir[Pending(n)] == bytes {
      RerunAfterCrash(dir, n, bytes, blank, torn, fuel, torn, fuel + PUBLICATION_STEPS);
      DestinationIsAbsentOrExact(dir, n, bytes, blank, torn, fuel + PUBLICATION_STEPS);
      assert stopped.dir - {Pending(n)} == dir - {Pending(n)};
    }
  }

  /** Publication under an unused name: three operations, one new entry. */
  lemma PublishAbsent<N, B>(dir: map<Name<N>, B>, n: N, bytes: B, blank: B, torn: B, fuel: nat)
    requires Final(n) !in dir && Pending(n) !in dir
    ensures Publish(dir, n, bytes, blank, torn, fuel) ==
            if fuel == 0 then Published(dir, 0, Interrupted)
            else if fuel == 1 then Published(dir[Pending(n) := torn], 0, Interrupted)
            else if fuel == 2 then Published(dir[Pending(n) := bytes], 0, Interrupted)
            else Published(dir[Final(n) := bytes], fuel - 3, Done)
  {
    assert (dir[Pending(n) := bytes] - {Pending(n)}) == dir;
  }
}
