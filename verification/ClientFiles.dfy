/** The client's artifact publication: stage, then commit (crates/azihsm-ca-client/src/files.rs).
    Unlike the authority's, it accepts a destination that already holds the bytes. */
module ClientFiles {
  import opened Publication

  function Stage<N(==), B(==)>(dir: map<Name<N>, B>, n: N, bytes: B, blank: B, torn: B, fuel: nat): Published<N, B> {
    if Final(n) in dir then Published(dir, fuel, if dir[Final(n)] == bytes then Done else Refused)
    else if Pending(n) !in dir then Written(dir, n, bytes, torn, fuel)
    else if dir[Pending(n)] == blank then
      if fuel == 0 then Published(dir, 0, Interrupted) else Written(dir - {Pending(n)}, n, bytes, torn, fuel - 1)
    else Published(dir, fuel, if dir[Pending(n)] == bytes then Done else Refused)
  }

  /** Creates and fills a staging file that does not exist yet. */
  function Written<N(==), B>(dir: map<Name<N>, B>, n: N, bytes: B, torn: B, fuel: nat): Published<N, B> {
    if fuel == 0 then Published(dir, 0, Interrupted)
    else if fuel == 1 then Published(dir[Pending(n) := torn], 0, Interrupted)
    else Published(dir[Pending(n) := bytes], fuel - 2, Done)
  }

  function CommitStaged<N(==), B(==)>(dir: map<Name<N>, B>, n: N, bytes: B, fuel: nat): Published<N, B> {
    if Final(n) in dir then Published(dir, fuel, if dir[Final(n)] == bytes then Done else Refused)
    else if Pending(n) !in dir || dir[Pending(n)] != bytes then Published(dir, fuel, Refused)
    else Rename(dir, n, fuel)
  }

  function PublishArtifact<N(==), B(==)>(dir: map<Name<N>, B>, n: N, bytes: B, blank: B, torn: B,
          fuel: nat): Published<N, B> {
    var staged := Stage(dir, n, bytes, blank, torn, fuel);
    if staged.status == Done then CommitStaged(staged.dir, n, bytes, staged.fuel) else staged
  }

  method StageFile<N(==), B(==)>(dir: map<Name<N>, B>, n: N, bytes: B, blank: B, torn: B, budget: nat)
      returns (r: Published<N, B>)
    ensures r == Stage(dir, n, bytes, blank, torn, budget)
  {
    var entries, fuel := dir, budget;
    if Final(n) in entries {
      return Published(entries, fuel, if entries[Final(n)] == bytes then Done else Refused);
    }
    if Pending(n) in entries {
      var staged := entries[Pending(n)];
      if staged == blank {
        if fuel == 0 {
          return Published(entries, fuel, Interrupted);
        }
        entries, fuel := entries - {Pending(n)}, fuel - 1;
      } else if staged != bytes {
        return Published(entries, fuel, Refused);
      }
    }
    if Pending(n) !in entries {
      if fuel == 0 {
        return Published(entries, fuel, Interrupted);
      }
      entries, fuel := entries[Pending(n) := blank], fuel - 1;
      if fuel == 0 {
        entries := entries[Pending(n) := torn];
        assert entries == dir[Pending(n) := torn] || entries == (dir - {Pending(n)})[Pending(n) := torn];
        return Published(entries, fuel, Interrupted);
      }
      entries, fuel := entries[Pending(n) := bytes], fuel - 1;
      assert entries == dir[Pending(n) := bytes] || entries == (dir - {Pending(n)})[Pending(n) := bytes];
    }
    if entries[Pending(n)] != bytes {
      return Published(entries, fuel, Refused);
    }
    return Published(entries, fuel, Done);
  }

  method CommitFile<N(==), B(==)>(dir: map<Name<N>, B>, n: N, bytes: B, budget: nat) returns (r: Published<N, B>)
    ensures r == CommitStaged(dir, n, bytes, budget)
  {
    if Final(n) in dir {
      return Published(dir, budget, if dir[Final(n)] == bytes then Done else Refused);
    }
    if Pending(n) !in dir {
      return Published(dir, budget, Refused);
    }
    if dir[Pending(n)] != bytes {
      return Published(dir, budget, Refused);
    }
    if budget == 0 {
      return Published(dir, budget, Interrupted);
    }
    return Published((dir - {Pending(n)})[Final(n) := dir[Pending(n)]], budget - 1, Done);
  }

  /** Staging and committing is the authority's exact publication, cut short at the same
      places with the same remains. */
  lemma ArtifactIsExactPublication<N, B>(dir: map<Name<N>, B>, n: N, bytes: B, blank: B, torn: B, fuel: nat)
    ensures PublishArtifact(dir, n, bytes, blank, torn, fuel) == PublishExact(dir, n, bytes, blank, torn, fuel)
  {
    assert (dir - {Pending(n)})[Pending(n) := bytes] - {Pending(n)} == dir - {Pending(n)};
  }

  /** Committing what a stage has left: it succeeds exactly when the destination or, if there is
      none, the staging file holds the artifact; then the destination holds it and committing
      again changes nothing; a destination that exists is never touched. */
  lemma CommitIsExact<N, B>(dir: map<Name<N>, B>, n: N, bytes: B, fuel: nat, fuel2: nat)
    requires fuel > 0
    ensures var r := CommitStaged(dir, n, bytes, fuel);
            && (r.status == Done <==>
                if Final(n) in dir then dir[Final(n)] == bytes else Pending(n) in dir && dir[Pending(n)] == bytes)
            && (r.status == Done ==> Final(n) in r.dir && r.dir[Final(n)] == bytes
                                     && CommitStaged(r.dir, n, bytes, fuel2) == Published(r.dir, fuel2, Done))
            && (Final(n) in dir || r.status != Done ==> r.dir == dir)
            && (forall m: Name<N> :: m != Final(n) && m != Pending(n) ==>
                (m in dir <==> m in r.dir) && (m in dir ==> r.dir[m] == dir[m]))
  {
  }

  /** Publishing the same artifact again succeeds without touching anything, whatever fuel is
      left; publishing another under its name is refused. */
  lemma PublishedAgain<N, B>(dir: map<Name<N>, B>, n: N, bytes: B, other: B, blank: B, torn: B, torn2: B, fuel: nat,
          fuel2: nat)
    requires PublishArtifact(dir, n, bytes, blank, torn, fuel).status == Done
    ensures var now := PublishArtifact(dir, n, bytes, blank, torn, fuel).dir;
            && Final(n) in now && now[Final(n)] == bytes
            && PublishArtifact(now, n, bytes, blank, torn2, fuel2) == Published(now, fuel2, Done)
            && (other != bytes ==>
                PublishArtifact(now, n, other, blank, torn2, fuel2) == Published(now, fuel2, Refused))
  {
    ArtifactIsExactPublication(dir, n, bytes, blank, torn, fuel);
    DestinationIsAbsentOrExact(dir, n, bytes, blank, torn, fuel);
  }
}
