/** Appending to the hash-chained audit log, and what the chain commits to. */
module AuditChain {
  import opened Publication
  import opened Records
  import opened AuthorityState
  import opened Issuance
  import Scan

  lemma FinalsAre<N(!new)>(dir: Dir<N>)
    ensures forall n: N :: n in Finals(dir) <==> Final(n) in dir
    ensures forall n: N :: n in Pendings(dir) <==> Pending(n) in dir
  {
    forall n: N | Final(n) in dir ensures n in Finals(dir) {
      assert Final(n) in dir.Keys;
    }
    forall n: N | Pending(n) in dir ensures n in Pendings(dir) {
      assert Pending(n) in dir.Keys;
    }
  }

  /** The record a valid chain of n entries links to is entry n - 1. */
  lemma PriorIsLast(lib: Lib, audits: Dir<nat>)
    requires LibOk(lib) && Scan.AuditChainValid(lib, audits)
    ensures var n := |Finals(audits)|;
            PriorDigest(lib, audits) == if n
                == 0 then None else if Final(n - 1) in audits then Some(lib.sha(audits[Final(n - 1)])) else None
  {
    FinalsAre(audits);
    var listed := lib.list(Finals(audits));
    assert Enumerates(listed, Finals(audits));
    var n := |Finals(audits)|;
    if n == 0 {
      if listed != [] { assert listed[0] in listed; }
    } else {
      assert n - 1 in Finals(audits);
      assert n - 1 in listed;
    }
  }

  /** The log with one more record. */
  function Appended(lib: Lib, audits: Dir<nat>, record: Audit): Dir<nat> {
    var next := NextAudit(lib, audits, record);
    (audits - {Pending(next.sequence)})[Final(next.sequence) := Whole(AuditDoc(next))]
  }

  lemma CountGrows(lib: Lib, audits: Dir<nat>, record: Audit)
    requires Scan.AuditChainValid(lib, audits)
    ensures |Finals(Appended(lib, audits, record))| == |Finals(audits)| + 1
  {
    var n := |Finals(audits)|;
    FinalsAre(audits);
    FinalsAre(Appended(lib, audits, record));
    assert Final(n) !in audits && n !in Finals(audits);
    var before, after := Finals(audits), Finals(Appended(lib, audits, record));
    assert after == before + {n};
    assert |before + {n}| == |before| + 1;
  }

  /** `append_audit` preserves the chain that `validate_audit_chain` checks, provided it does
      not record the same issuance twice. */
  lemma AppendKeepsChain(lib: Lib, audits: Dir<nat>, record: Audit)
    requires LibOk(lib) && Scan.AuditChainValid(lib, audits)
    requires record.kind == CertificateIssued ==>
               record.issuanceId.Some? && forall n: nat :: !Scan.IssuedAt(audits, n, record.issuanceId.value)
    ensures Scan.AuditChainValid(lib, Appended(lib, audits, record))
  {
    var n := |Finals(audits)|;
    var next := NextAudit(lib, audits, record);
    var grown := Appended(lib, audits, record);
    CountGrows(lib, audits, record);
    PriorIsLast(lib, audits);
    forall m: nat ensures Final(m) in grown <==> m < n + 1 {
    }
    forall m: nat | m < n + 1 ensures Scan.AuditEntryValid(lib, grown, m) {
      if m < n {
        assert Scan.AuditEntryValid(lib, audits, m);
      }
    }
    forall m: nat, k: nat, id: Id | Scan.IssuedAt(grown, m, id) && Scan.IssuedAt(grown, k, id) ensures m == k {
      assert m != n ==> Scan.IssuedAt(audits, m, id);
      assert k != n ==> Scan.IssuedAt(audits, k, id);
    }
  }

  /** With enough fuel and nothing but the same record staged, the append goes through. */
  lemma AppendSucceeds(lib: Lib, c: Ca, record: Audit)
    requires Scan.AuditChainValid(lib, c.audits) && c.fuel >= PUBLICATION_STEPS
    requires var next := NextAudit(lib, c.audits, record);
             Pending(next.sequence) in c.audits ==>
               c.audits[Pending(next.sequence)] == Empty || c.audits[Pending(next.sequence)] == Whole(AuditDoc(next))
    ensures var out := AppendAudit(lib, c, record);
            && out.Ok? && out.ca.fuel >= c.fuel - PUBLICATION_STEPS
            && out.ca == c.(audits := Appended(lib, c.audits, record), fuel := out.ca.fuel)
  {
    var next := NextAudit(lib, c.audits, record);
    assert Final(next.sequence) !in c.audits;
    var blob := Whole(AuditDoc(next));
    PublishSucceedsExactlyWhen(c.audits, next.sequence, blob, Empty, TornBlob(c.tear, blob), c.fuel);
    DestinationIsAbsentOrExact(c.audits, next.sequence, blob, Empty, TornBlob(c.tear, blob), c.fuel);
  }

  /** Two accepted chains of equal length whose last records have the same digest are the
      same, record by record, when the hash is injective. */
  lemma {:induction false} LastDigestFixesTheChain(lib: Lib, a: Dir<nat>, b: Dir<nat>, n: nat)
    requires forall x: Blob, y: Blob :: lib.sha(x) == lib.sha(y) ==> x == y
    requires Scan.AuditChainValid(lib, a) && Scan.AuditChainValid(lib, b)
    requires n < |Finals(a)| == |Finals(b)|
    requires Final(n) in a && Final(n) in b && lib.sha(a[Final(n)]) == lib.sha(b[Final(n)])
    ensures forall m: nat :: m <= n ==> Final(m) in a && Final(m) in b && a[Final(m)] == b[Final(m)]
  {
    assert a[Final(n)] == b[Final(n)];
    assert Scan.AuditEntryValid(lib, a, n) && Scan.AuditEntryValid(lib, b, n);
    if n > 0 {
      LastDigestFixesTheChain(lib, a, b, n - 1);
    }
  }

  // ---------- zero-padded names ----------

  /** The last `width` decimal digits of `n`, most significant first, as file names carry them. */
  function Padded(n: nat, width: nat): (digits: seq<nat>)
    ensures |digits| == width && forall d <- digits :: d < 10
  {
    if width == 0 then [] else Padded(n / 10, width - 1) + [n % 10]
  }

  function TenTo(width: nat): nat {
    if width == 0 then 1 else 10 * TenTo(width - 1)
  }

  /** Order of two names of equal length, compared character by character. */
  predicate NameBefore(a: seq<nat>, b: seq<nat>)
    requires |a| == |b|
  {
    a != [] && (a[0] < b[0] || (a[0] == b[0] && NameBefore(a[1..], b[1..])))
  }

  lemma {:induction false} NameOrderSplits(a: seq<nat>, b: seq<nat>, x: nat, y: nat)
    requires |a| == |b|
    ensures NameBefore(a + [x], b + [y]) <==> NameBefore(a, b) || (a == b && x < y)
  {
    if a == [] {
      assert (a + [x])[0] == x && (b + [y])[0] == y;
    } else {
      assert (a + [x])[1..] == a[1..] + [x] && (b + [y])[1..] == b[1..] + [y];
      NameOrderSplits(a[1..], b[1..], x, y);
      assert a == b <==> a[0] == b[0] && a[1..] == b[1..];
    }
  }

  /** Sorting twenty-digit file names sorts their numbers (every u64 has at most twenty digits). */
  lemma {:induction false} PaddedOrderIsNumeric(m: nat, n: nat, width: nat)
    requires m < TenTo(width) && n < TenTo(width)
    ensures NameBefore(Padded(m, width), Padded(n, width)) <==> m < n
    ensures Padded(m, width) == Padded(n, width) ==> m == n
  {
    if width > 0 {
      PaddedOrderIsNumeric(m / 10, n / 10, width - 1);
      NameOrderSplits(Padded(m / 10, width - 1), Padded(n / 10, width - 1), m % 10, n % 10);
      var p, q := Padded(m / 10, width - 1), Padded(n / 10, width - 1);
      if p + [m % 10] == q + [n % 10] {
        assert p == (p + [m % 10])[..|p|] == (q + [n % 10])[..|q|] == q;
        assert m % 10 == (p + [m % 10])[|p|] == (q + [n % 10])[|q|] == n % 10;
      }
    }
  }
}
