/** Checking a buffer of directory-change records (`validate_notifications` in
    crates/azihsm-ca/src/state.rs). */
module Notifications {

  type Byte = b: int | 0 <= b < 256 witness 0

  const HEADER := 12

  /** Little-endian 32-bit number at `i`. */
  function Word(bytes: seq<Byte>, i: nat): nat
    requires i + 4 <= |bytes|
  {
    var b0: nat, b1: nat, b2: nat, b3: nat := bytes[i], bytes[i + 1], bytes[i + 2], bytes[i + 3];
    b0 + 0x100 * b1 + 0x1_0000 * b2 + 0x100_0000 * b3
  }

  function NextOf(bytes: seq<Byte>, offset: nat): nat
    requires offset + HEADER <= |bytes|
  {
    Word(bytes, offset)
  }

  function NameLength(bytes: seq<Byte>, offset: nat): nat
    requires offset + HEADER <= |bytes|
  {
    Word(bytes, offset + 8)
  }

  datatype Kind = Added | Removed | Modified | RenamedFrom | RenamedTo

  /** The number of an action, as the operating system reports it. */
  function Code(kind: Kind): nat {
    match kind case Added => 1 case Removed => 2 case Modified => 3 case RenamedFrom => 4 case RenamedTo => 5
  }

  predicate KnownAction(action: nat) { 1 <= action <= 5 }

  /** A record at `offset`: a whole header, a known action, and a name of two-byte characters
      that ends within the buffer. */
  predicate RecordAt(bytes: seq<Byte>, offset: nat) {
    && offset + HEADER <= |bytes|
    && KnownAction(Word(bytes, offset + 4))
    && NameLength(bytes, offset) % 2 == 0
    && offset + HEADER + NameLength(bytes, offset) <= |bytes|
  }

  /** The offsets of a chain of records: each links to the next, beyond its own end, and the
      last links nowhere. */
  ghost predicate IsChain(bytes: seq<Byte>, offsets: seq<nat>) {
    && offsets != [] && offsets[0] == 0
    && (forall i :: 0 <= i < |offsets| ==> RecordAt(bytes, offsets[i]))
    && (forall i :: 0 <= i < |offsets| - 1 ==>
          && offsets[i] + NextOf(bytes, offsets[i]) == offsets[i + 1]
          && offsets[i] + HEADER + NameLength(bytes, offsets[i]) <= offsets[i + 1])
    && NextOf(bytes, offsets[|offsets| - 1]) == 0
  }

  /** What has been checked when the loop stands at `offset`. */
  ghost predicate ChainUpTo(bytes: seq<Byte>, offsets: seq<nat>, offset: nat) {
    && |offsets| >= 1 && offsets[0] == 0 && offsets[|offsets| - 1] == offset
    && (forall i :: 0 <= i < |offsets| - 1 ==>
          && RecordAt(bytes, offsets[i])
          && offsets[i] + NextOf(bytes, offsets[i]) == offsets[i + 1]
          && offsets[i] + HEADER + NameLength(bytes, offsets[i]) <= offsets[i + 1])
  }

  /** Links leave no choice: any chain runs through what has been checked. */
  lemma {:induction false} ChainsAgree(bytes: seq<Byte>, offsets: seq<nat>, offset: nat, chain: seq<nat>)
    requires ChainUpTo(bytes, offsets, offset) && IsChain(bytes, chain)
    ensures offsets <= chain
    decreases |offsets|
  {
    if |offsets| > 1 {
      var n := |offsets| - 1;
      ChainsAgree(bytes, offsets[..n], offsets[n - 1], chain);
      assert chain[n - 1] == offsets[n - 1];
      assert NextOf(bytes, offsets[n - 1]) == offsets[n] - offsets[n - 1] > 0;
      assert n - 1 < |chain| - 1;
      assert offsets == offsets[..n] + [offsets[n]];
    } else {
      assert offsets == [chain[0]];
    }
  }

  /** The loop accepts exactly the buffers that hold a chain of records. */
  method ValidateNotifications(bytes: seq<Byte>) returns (ok: bool)
    ensures ok <==> exists offsets: seq<nat> :: IsChain(bytes, offsets)
  {
    var offset: nat := 0;
    ghost var offsets: seq<nat> := [0];
    while true
      invariant ChainUpTo(bytes, offsets, offset)
      decreases |bytes| - offset
    {
      if |bytes| - offset < HEADER {
        NoChain(bytes, offsets, offset);
        return false;
      }
      var next := Word(bytes, offset);
      var action := Word(bytes, offset + 4);
      var nameBytes := Word(bytes, offset + 8);
      if !KnownAction(action) || nameBytes % 2 != 0 || offset + (HEADER + nameBytes) > |bytes| {
        NoChain(bytes, offsets, offset);
        return false;
      }
      if next == 0 {
        ChainEnds(bytes, offsets, offset);
        return true;
      }
      if next < HEADER + nameBytes || offset + next >= |bytes| {
        NoChain(bytes, offsets, offset);
        return false;
      }
      ChainGoesOn(bytes, offsets, offset);
      offsets := offsets + [offset + next];
      offset := offset + next;
    }
  }

  lemma ChainEnds(bytes: seq<Byte>, offsets: seq<nat>, offset: nat)
    requires ChainUpTo(bytes, offsets, offset) && RecordAt(bytes, offset) && NextOf(bytes, offset) == 0
    ensures IsChain(bytes, offsets)
  {
  }

  lemma ChainGoesOn(bytes: seq<Byte>, offsets: seq<nat>, offset: nat)
    requires ChainUpTo(bytes, offsets, offset) && RecordAt(bytes, offset)
    requires NextOf(bytes, offset) >= HEADER + NameLength(bytes, offset)
    ensures ChainUpTo(bytes, offsets + [offset + NextOf(bytes, offset)], offset + NextOf(bytes, offset))
  {
  }

  /** Any chain has a record where the loop stands, which ends it or links onwards properly. */
  lemma ChainContinues(bytes: seq<Byte>, offsets: seq<nat>, offset: nat, chain: seq<nat>)
    requires ChainUpTo(bytes, offsets, offset) && IsChain(bytes, chain)
    ensures RecordAt(bytes, offset)
    ensures NextOf(bytes, offset) == 0
            || (NextOf(bytes, offset) >= HEADER + NameLength(bytes, offset) && offset + NextOf(bytes, offset) < |bytes|)
  {
    ChainsAgree(bytes, offsets, offset, chain);
    var i := |offsets| - 1;
    assert chain[i] == offset;
    if i < |chain| - 1 {
      assert RecordAt(bytes, chain[i + 1]);
    }
  }

  /** Where the loop gives up there is no chain at all. */
  lemma NoChain(bytes: seq<Byte>, offsets: seq<nat>, offset: nat)
    requires ChainUpTo(bytes, offsets, offset)
    requires RecordAt(bytes, offset) ==>
               && NextOf(bytes, offset) != 0
               && (NextOf(bytes, offset) < HEADER + NameLength(bytes, offset)
                   || offset + NextOf(bytes, offset) >= |bytes|)
    ensures forall chain: seq<nat> :: !IsChain(bytes, chain)
  {
    forall chain: seq<nat> ensures !IsChain(bytes, chain) {
      if IsChain(bytes, chain) {
        ChainContinues(bytes, offsets, offset, chain);
      }
    }
  }

  /** An accepted buffer is read in one way only, and its records do not overlap. */
  lemma ChainIsUnique(bytes: seq<Byte>, a: seq<nat>, b: seq<nat>)
    requires IsChain(bytes, a) && IsChain(bytes, b)
    ensures a == b
    ensures forall i, j :: 0 <= i < j < |a| ==> a[i] + HEADER + NameLength(bytes, a[i]) <= a[j]
  {
    ChainsAgree(bytes, a, a[|a| - 1], b);
    ChainsAgree(bytes, b, b[|b| - 1], a);
    forall i, j | 0 <= i < j < |a| ensures a[i] + HEADER + NameLength(bytes, a[i]) <= a[j] {
      Disjoint(bytes, a, i, j);
    }
  }

  lemma {:induction false} Disjoint(bytes: seq<Byte>, a: seq<nat>, i: nat, j: nat)
    requires IsChain(bytes, a) && i < j < |a|
    ensures a[i] + HEADER + NameLength(bytes, a[i]) <= a[j]
  {
    if j > i + 1 {
      Disjoint(bytes, a, i, j - 1);
      assert a[j - 1] + HEADER + NameLength(bytes, a[j - 1]) <= a[j];
    }
  }

  // ---------- what an accepted buffer says ----------

  /** The four bytes of a number, least significant first. */
  function Bytes32(n: nat): (b: seq<Byte>)
    requires n < 0x1_0000_0000
    ensures |b| == 4
  {
    [n % 0x100, n / 0x100 % 0x100, n / 0x1_0000 % 0x100, n / 0x100_0000]
  }

  lemma Recomposed(n: nat)
    requires n < 0x1_0000_0000
    ensures n % 0x100 + 0x100 * (n / 0x100 % 0x100) + 0x1_0000 * (n / 0x1_0000 % 0x100) + 0x100_0000 * (n / 0x100_0000)
            == n
  {
    Quotients(n);
  }

  /** The number read is the one whose bytes, least significant first, are there. */
  lemma WordExactly(bytes: seq<Byte>, i: nat, n: nat)
    requires n < 0x1_0000_0000 && i + 4 <= |bytes|
    ensures Word(bytes, i) == n <==> bytes[i..i + 4] == Bytes32(n)
  {
    var b := bytes[i..i + 4];
    assert b == [bytes[i], bytes[i + 1], bytes[i + 2], bytes[i + 3]];
    Recomposed(n);
    if Word(bytes, i) == n {
      Digits(bytes[i], bytes[i + 1], bytes[i + 2], bytes[i + 3]);
    }
  }

  lemma Step(q: nat, r: nat)
    requires r < 256
    ensures (0x100 * q + r) / 0x100 == q && (0x100 * q + r) % 0x100 == r
  {
  }

  lemma Quotients(n: nat)
    ensures n / 0x1_0000 == n / 0x100 / 0x100 && n / 0x100_0000 == n / 0x100 / 0x100 / 0x100
  {
  }

  lemma Digits(b0: nat, b1: nat, b2: nat, b3: nat)
    requires b0 < 256 && b1 < 256 && b2 < 256 && b3 < 256
    ensures var n := b0 + 0x100 * b1 + 0x1_0000 * b2 + 0x100_0000 * b3;
            n < 0x1_0000_0000 && Bytes32(n) == [b0, b1, b2, b3]
  {
    var n := b0 + 0x100 * b1 + 0x1_0000 * b2 + 0x100_0000 * b3;
    var m1, m2 := b1 + 0x100 * b2 + 0x1_0000 * b3, b2 + 0x100 * b3;
    assert n == 0x100 * m1 + b0 && m1 == 0x100 * m2 + b1 && m2 == 0x100 * b3 + b2;
    Step(m1, b0);
    Step(m2, b1);
    Step(b3, b2);
    Quotients(n);
  }

  /** A change of one entry; names are whole two-byte characters. */
  datatype Change = Change(kind: Kind, name: seq<Byte>)

  /** The record at `offset` is this change, and links to `next`. */
  predicate IsRecord(bytes: seq<Byte>, offset: nat, c: Change, next: nat) {
    && offset + 12 + |c.name| <= |bytes| && |c.name| % 2 == 0
    && Word(bytes, offset) == next && Word(bytes, offset + 4) == Code(c.kind) && Word(bytes, offset + 8) == |c.name|
    && bytes[offset + 12..offset + 12 + |c.name|] == c.name
  }

  /** The buffer, read along these offsets, says these changes: the first lies at the start, each
      links past its own name to the next, and the last links nowhere. */
  ghost predicate Says(bytes: seq<Byte>, offsets: seq<nat>, changes: seq<Change>) {
    && offsets != [] && |changes| == |offsets| && offsets[0] == 0
    && (forall k :: 0 <= k < |offsets| - 1 ==>
          && offsets[k] + 12 + |changes[k].name| <= offsets[k + 1]
          && IsRecord(bytes, offsets[k], changes[k], offsets[k + 1] - offsets[k]))
    && IsRecord(bytes, offsets[|offsets| - 1], changes[|offsets| - 1], 0)
  }

  /** The change a record says. */
  function ChangeAt(bytes: seq<Byte>, offset: nat): (c: Change)
    requires RecordAt(bytes, offset)
    ensures IsRecord(bytes, offset, c, NextOf(bytes, offset))
  {
    var action := Word(bytes, offset + 4);
    var kind := if action == 1 then Added else if action == 2 then Removed else if action == 3 then Modified
                else if action == 4 then RenamedFrom else RenamedTo;
    Change(kind, bytes[offset + 12..offset + 12 + NameLength(bytes, offset)])
  }

  lemma RecordIs(bytes: seq<Byte>, offset: nat, c: Change, next: nat)
    requires IsRecord(bytes, offset, c, next)
    ensures RecordAt(bytes, offset) && NextOf(bytes, offset) == next && NameLength(bytes, offset) == |c.name|
    ensures c == ChangeAt(bytes, offset)
  {
  }

  lemma ChainSays(bytes: seq<Byte>, offsets: seq<nat>) returns (changes: seq<Change>)
    requires IsChain(bytes, offsets)
    ensures Says(bytes, offsets, changes)
  {
    changes := seq(|offsets|, k requires 0 <= k < |offsets| => ChangeAt(bytes, offsets[k]));
    forall k | 0 <= k < |offsets| - 1
      ensures offsets[k] + 12 + |changes[k].name| <= offsets[k + 1]
      ensures IsRecord(bytes, offsets[k], changes[k], offsets[k + 1] - offsets[k])
    {
      assert RecordAt(bytes, offsets[k]);
    }
  }

  lemma SaysInChain(bytes: seq<Byte>, offsets: seq<nat>, changes: seq<Change>)
    requires Says(bytes, offsets, changes)
    ensures IsChain(bytes, offsets)
    ensures forall k :: 0 <= k < |offsets| ==> RecordAt(bytes, offsets[k]) && changes[k] == ChangeAt(bytes, offsets[k])
  {
    var last := |offsets| - 1;
    forall k | 0 <= k < |offsets|
      ensures RecordAt(bytes, offsets[k]) && changes[k] == ChangeAt(bytes, offsets[k])
      ensures NextOf(bytes, offsets[k]) == if k == last then 0 else offsets[k + 1] - offsets[k]
      ensures NameLength(bytes, offsets[k]) == |changes[k].name|
    {
      RecordIs(bytes, offsets[k], changes[k], if k == last then 0 else offsets[k + 1] - offsets[k]);
    }
  }

  /** A buffer is accepted exactly when it says a list of changes, and it says only one. */
  lemma AcceptedSaysOne(bytes: seq<Byte>)
    ensures (exists offsets: seq<nat> :: IsChain(bytes, offsets)) <==>
              exists offsets: seq<nat>, changes: seq<Change> :: Says(bytes, offsets, changes)
    ensures forall a: seq<nat>, b: seq<nat>, c: seq<Change>, d: seq<Change> ::
              Says(bytes, a, c) && Says(bytes, b, d) ==> a == b && c == d
  {
    if offsets: seq<nat> :| IsChain(bytes, offsets) {
      var changes := ChainSays(bytes, offsets);
    }
    forall a: seq<nat>, c: seq<Change> | Says(bytes, a, c) ensures IsChain(bytes, a) {
      SaysInChain(bytes, a, c);
    }
    forall a: seq<nat>, b: seq<nat>, c: seq<Change>, d: seq<Change> | Says(bytes, a, c) && Says(bytes, b, d)
      ensures a == b && c == d
    {
      SaysInChain(bytes, a, c);
      SaysInChain(bytes, b, d);
      ChainIsUnique(bytes, a, b);
    }
  }
}
