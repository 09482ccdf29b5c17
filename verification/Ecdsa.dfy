/** ECDSA signatures: the encoder that turns the key's fixed-width answer into DER
    (crates/azihsm-ncrypt/src/signer.rs) and the recognizer written separately for requests
    (crates/azihsm-ca/src/csr.rs). Section 2.2.3 of RFC 3279, section 8.3.2 of X.690. */
module Ecdsa {
  import opened Records

  type Byte = b: int | 0 <= b < 256 witness 0

  const HALF := 32

  // ---------- the two forms of a positive integer ----------

  /** Without leading zeros. */
  function Strip(v: seq<Byte>): (r: seq<Byte>)
    ensures |r| <= |v| && (r != [] ==> r[0] != 0)
  {
    if v != [] && v[0] == 0 then Strip(v[1..]) else v
  }

  function Zeros(n: nat): (z: seq<Byte>)
    ensures |z| == n && forall b <- z :: b == 0
  {
    seq(n, _ => 0 as Byte)
  }

  /** With leading zeros up to `width`. */
  function Pad(v: seq<Byte>, width: nat): (r: seq<Byte>)
    ensures |v| <= width ==> |r| == width
  {
    Zeros(if |v| <= width then width - |v| else 0) + v
  }

  predicate AllZero(v: seq<Byte>) { forall i :: 0 <= i < |v| ==> v[i] == 0 }

  lemma OneMoreZero(v: seq<Byte>, width: nat)
    requires |v| < width
    ensures Pad(v, width) == [0] + Pad(v, width - 1)
  {
    assert Zeros(width - |v|) == [0] + Zeros(width - 1 - |v|);
  }

  lemma {:induction false} PadOfStrip(v: seq<Byte>)
    ensures Pad(Strip(v), |v|) == v
  {
    if v != [] && v[0] == 0 {
      PadOfStrip(v[1..]);
      OneMoreZero(Strip(v[1..]), |v|);
      assert v == [v[0]] + v[1..];
    }
  }

  lemma {:induction false} StripsToNothing(v: seq<Byte>)
    ensures AllZero(v) <==> Strip(v) == []
  {
    if v != [] {
      StripsToNothing(v[1..]);
      assert forall i :: 0 < i < |v| ==> v[i] == v[1..][i - 1];
    }
  }

  lemma {:induction false} StripOfPad(v: seq<Byte>, width: nat)
    requires v != [] && v[0] != 0 && |v| <= width
    ensures Strip(Pad(v, width)) == v
    decreases width
  {
    if width > |v| {
      OneMoreZero(v, width);
      assert Pad(v, width)[1..] == Pad(v, width - 1);
      StripOfPad(v, width - 1);
    } else {
      assert Pad(v, width) == v;
    }
  }

  /** The number big-endian bytes stand for. */
  function Value(v: seq<Byte>): nat {
    if v == [] then 0 else 256 * Value(v[..|v| - 1]) + v[|v| - 1]
  }

  // ---------- content octets ----------

  /** Two's-complement content of a positive integer: a zero octet before a high bit. */
  function Content(v: seq<Byte>): (c: seq<Byte>)
    requires v != []
  {
    if v[0] >= 0x80 then [0] + v else v
  }

  /** What the recognizer demands of content octets. */
  predicate CanonicalContent(c: seq<Byte>) {
    && c != [] && c[0] < 0x80 && !AllZero(c)
    && (|c| > 1 && c[0] == 0 ==> c[1] >= 0x80)
  }

  function Magnitude(c: seq<Byte>): seq<Byte> {
    if c != [] && c[0] == 0 then c[1..] else c
  }

  /** Content octets and magnitudes without leading zeros correspond one to one. */
  lemma ContentIsCanonical(v: seq<Byte>)
    requires v != [] && v[0] != 0
    ensures CanonicalContent(Content(v)) && Magnitude(Content(v)) == v
  {
    var c := Content(v);
    if c == [0] + v {
      assert c[1] == v[0];
    }
  }

  lemma CanonicalIsContent(c: seq<Byte>)
    requires CanonicalContent(c)
    ensures Magnitude(c) != [] && Magnitude(c)[0] != 0 && Content(Magnitude(c)) == c
  {
    if c[0] == 0 {
      assert |c| > 1;
      assert c == [0] + c[1..];
    }
  }

  // ---------- the encoder ----------

  function DerInteger(v: seq<Byte>): Option<seq<Byte>>
    requires |v| <= HALF
  {
    var m := Strip(v);
    if m == [] then None else Some([0x02, |Content(m)|] + Content(m))
  }

  /** What `p1363_to_der` returns. */
  function P1363ToDer(signature: seq<Byte>): Option<seq<Byte>> {
    if |signature| != 2 * HALF then None
    else
      match (DerInteger(signature[..HALF]), DerInteger(signature[HALF..]))
      case (Some(r), Some(s)) => Some([0x30, |r| + |s|] + r + s)
      case _ => None
  }

  /** `integer`: skip the zeros, then write tag, length, prefix and bytes. */
  method EncodeInteger(value: seq<Byte>) returns (r: Option<seq<Byte>>)
    requires |value| <= HALF
    ensures r == DerInteger(value)
  {
    var first := 0;
    while first < |value| && value[first] == 0
      invariant 0 <= first <= |value|
      invariant Strip(value) == Strip(value[first..])
    {
      assert value[first..][1..] == value[first + 1..];
      first := first + 1;
    }
    if first == |value| {
      return None;
    }
    var rest := value[first..];
    var prefix := if rest[0] >= 0x80 then 1 else 0;
    var output: seq<Byte> := [0x02, |rest| + prefix];
    if prefix != 0 {
      output := output + [0];
    }
    output := output + rest;
    assert output == [0x02, |Content(rest)|] + Content(rest);
    return Some(output);
  }

  method EncodeSignature(signature: seq<Byte>) returns (r: Option<seq<Byte>>)
    ensures r == P1363ToDer(signature)
  {
    if |signature| != 2 * HALF {
      return None;
    }
    var first := EncodeInteger(signature[..HALF]);
    if first.None? {
      return None;
    }
    var second := EncodeInteger(signature[HALF..]);
    if second.None? {
      return None;
    }
    var output: seq<Byte> := [0x30, |first.value| + |second.value|];
    output := output + first.value;
    output := output + second.value;
    return Some(output);
  }

  // ---------- the recognizer ----------

  /** The content octets of a canonical integer starting at `offset`. */
  function IntegerAt(der: seq<Byte>, offset: nat): Option<seq<Byte>> {
    if offset + 1 < |der| && der[offset] == 0x02 && der[offset + 1] > 0 && offset + 2 + der[offset + 1] <= |der|
       && CanonicalContent(der[offset + 2..offset + 2 + der[offset + 1]])
    then Some(der[offset + 2..offset + 2 + der[offset + 1]]) else None
  }

  /** The two integers of an encoding `nonzero_canonical_ecdsa` accepts. */
  function Recognized(der: seq<Byte>): Option<(seq<Byte>, seq<Byte>)> {
    if |der| < 8 || der[0] != 0x30 || der[1] as int + 2 != |der| then None
    else
      match IntegerAt(der, 2)
      case None => None
      case Some(r) =>
        match IntegerAt(der, 4 + |r|)
        case None => None
        case Some(s) => if 6 + |r| + |s| == |der| then Some((r, s)) else None
  }

  lemma OneMoreByte(v: seq<Byte>, i: nat)
    requires i < |v|
    ensures AllZero(v[..i + 1]) <==> AllZero(v[..i]) && v[i] == 0
  {
    assert forall j :: 0 <= j < i ==> v[..i + 1][j] == v[..i][j];
    assert v[..i + 1][i] == v[i];
  }

  method CheckInteger(der: seq<Byte>, offset: nat) returns (next: Option<nat>)
    ensures next == match IntegerAt(der, offset) case Some(c) => Some(offset + 2 + |c|) case None => None
  {
    if offset >= |der| || der[offset] != 0x02 {
      return None;
    }
    if offset + 1 >= |der| || der[offset + 1] == 0 {
      return None;
    }
    var length := der[offset + 1];
    if offset + 2 + length > |der| {
      return None;
    }
    var integer := der[offset + 2..offset + 2 + length];
    var zero := true;
    for i := 0 to |integer|
      invariant zero <==> AllZero(integer[..i])
    {
      OneMoreByte(integer, i);
      zero := zero && integer[i] == 0;
    }
    assert integer[..|integer|] == integer;
    if integer[0] >= 0x80 || zero || (|integer| > 1 && integer[0] == 0 && integer[1] < 0x80) {
      return None;
    }
    return Some(offset + 2 + length);
  }

  /** `nonzero_canonical_ecdsa`. */
  method NonzeroCanonicalEcdsa(der: seq<Byte>) returns (ok: bool)
    ensures ok <==> Recognized(der).Some?
  {
    if |der| < 8 || der[0] != 0x30 || der[1] as int + 2 != |der| {
      return false;
    }
    var offset: nat := 2;
    for i := 0 to 2
      invariant i == 0 ==> offset == 2
      invariant i == 1 ==> IntegerAt(der, 2).Some? && offset == 4 + |IntegerAt(der, 2).value|
      invariant i == 2 ==>
        && IntegerAt(der, 2).Some? && IntegerAt(der, 4 + |IntegerAt(der, 2).value|).Some?
        && offset == 6 + |IntegerAt(der, 2).value| + |IntegerAt(der, 4 + |IntegerAt(der, 2).value|).value|
    {
      var next := CheckInteger(der, offset);
      if next.None? {
        return false;
      }
      offset := next.value;
    }
    return offset == |der|;
  }

  // ---------- encoder and recognizer agree ----------

  /** The fixed-width signature an accepted encoding stands for. */
  function Fixed(r: seq<Byte>, s: seq<Byte>): seq<Byte> {
    Pad(Magnitude(r), HALF) + Pad(Magnitude(s), HALF)
  }

  lemma IntegerFound(der: seq<Byte>, offset: nat, c: seq<Byte>)
    requires CanonicalContent(c) && |c| < 256 && offset + 2 + |c| <= |der|
    requires der[offset] == 0x02 && der[offset + 1] == |c| && der[offset + 2..offset + 2 + |c|] == c
    ensures IntegerAt(der, offset) == Some(c)
  {
  }

  lemma EncodedParts(v: seq<Byte>)
    requires |v| == HALF && !AllZero(v)
    ensures var m := Strip(v);
            && m != [] && m[0] != 0 && CanonicalContent(Content(m)) && |Content(m)| <= HALF + 1
            && DerInteger(v) == Some([0x02, |Content(m)|] + Content(m)) && Pad(Magnitude(Content(m)), HALF) == v
  {
    PadOfStrip(v);
    StripsToNothing(v);
    ContentIsCanonical(Strip(v));
  }

  function DerPair(r: seq<Byte>, s: seq<Byte>): seq<Byte>
    requires |r| + |s| < 252
  {
    [0x30, 4 + |r| + |s|] + ([0x02, |r|] + r) + ([0x02, |s|] + s)
  }

  lemma PairParts(r: seq<Byte>, s: seq<Byte>)
    requires |r| + |s| < 252
    ensures var der := DerPair(r, s);
            && |der| == 6 + |r| + |s| && der[0] == 0x30 && der[1] == 4 + |r| + |s|
            && der[2] == 0x02 && der[3] == |r| && der[4..4 + |r|] == r
            && der[4 + |r|] == 0x02 && der[5 + |r|] == |s| && der[6 + |r|..6 + |r| + |s|] == s
  {
  }

  /** A sequence of two canonical integers is recognized as that pair. */
  lemma PairIsRecognized(r: seq<Byte>, s: seq<Byte>)
    requires CanonicalContent(r) && CanonicalContent(s) && |r| + |s| < 252
    ensures Recognized(DerPair(r, s)) == Some((r, s))
  {
    PairParts(r, s);
    IntegerFound(DerPair(r, s), 2, r);
    IntegerFound(DerPair(r, s), 4 + |r|, s);
  }

  lemma EncodedAsPair(signature: seq<Byte>)
    requires |signature| == 2 * HALF && !AllZero(signature[..HALF]) && !AllZero(signature[HALF..])
    ensures var a, b := Strip(signature[..HALF]), Strip(signature[HALF..]);
            && a != [] && b != [] && |Content(a)| + |Content(b)| < 252
            && P1363ToDer(signature) == Some(DerPair(Content(a), Content(b)))
  {
    EncodedParts(signature[..HALF]);
    EncodedParts(signature[HALF..]);
  }

  lemma ZeroIsNotEncoded(signature: seq<Byte>)
    requires |signature| == 2 * HALF && (AllZero(signature[..HALF]) || AllZero(signature[HALF..]))
    ensures P1363ToDer(signature).None?
  {
    StripsToNothing(signature[..HALF]);
    StripsToNothing(signature[HALF..]);
  }

  /** Every signature of sixty-four bytes with nonzero halves is encoded, the recognizer accepts the encoding, and
      it stands for the very signature; nothing else is encoded. */
  lemma EncodedIsRecognized(signature: seq<Byte>)
    ensures P1363ToDer(signature).Some? <==>
              |signature| == 64 && !AllZero(signature[..HALF]) && !AllZero(signature[HALF..])
    ensures P1363ToDer(signature).Some? ==>
              var found := Recognized(P1363ToDer(signature).value);
              found.Some? && Fixed(found.value.0, found.value.1) == signature
  {
    if |signature| != 64 {
      assert P1363ToDer(signature) == None;
    } else if AllZero(signature[..HALF]) || AllZero(signature[HALF..]) {
      ZeroIsNotEncoded(signature);
    } else {
      EncodedAsPair(signature);
      EncodedParts(signature[..HALF]);
      EncodedParts(signature[HALF..]);
      PairIsRecognized(Content(Strip(signature[..HALF])), Content(Strip(signature[HALF..])));
      assert signature[..HALF] + signature[HALF..] == signature;
    }
  }

  /** Every accepted encoding whose integers fit thirty-two bytes is the one output for its
      pair: encodings are unique. */
  lemma RecognizedIsEncoded(der: seq<Byte>)
    requires Recognized(der).Some?
    requires |Magnitude(Recognized(der).value.0)| <= HALF && |Magnitude(Recognized(der).value.1)| <= HALF
    ensures var found := Recognized(der).value; P1363ToDer(Fixed(found.0, found.1)) == Some(der)
  {
    var r, s := Recognized(der).value.0, Recognized(der).value.1;
    var signature := Fixed(r, s);
    CanonicalIsContent(r);
    CanonicalIsContent(s);
    var a, b := Pad(Magnitude(r), HALF), Pad(Magnitude(s), HALF);
    StripOfPad(Magnitude(r), HALF);
    StripOfPad(Magnitude(s), HALF);
    assert signature[..HALF] == a && signature[HALF..] == b;
    assert DerInteger(a) == Some([0x02, |r|] + r) && DerInteger(b) == Some([0x02, |s|] + s);
    RecognizedShape(der);
    assert der == [0x30, |[0x02, |r|] + r| + |[0x02, |s|] + s|] + ([0x02, |r|] + r) + ([0x02, |s|] + s);
  }

  lemma RecognizedShape(der: seq<Byte>)
    requires Recognized(der).Some?
    ensures var r, s := Recognized(der).value.0, Recognized(der).value.1;
            && |r| < 256 && |s| < 256 && 4 + |r| + |s| < 256
            && der == [0x30, 4 + |r| + |s|] + [0x02, |r|] + r + [0x02, |s|] + s
  {
    var r, s := Recognized(der).value.0, Recognized(der).value.1;
    assert der[2..4] == [0x02, |r|] && der[4..4 + |r|] == r;
    assert der[4 + |r|..6 + |r|] == [0x02, |s|] && der[6 + |r|..] == s;
    assert der == der[..2] + der[2..4] + der[4..4 + |r|] + der[4 + |r|..6 + |r|] + der[6 + |r|..];
  }

  /** The recognizer accepts exactly the sequences of two canonical integers, of any length that
      one length octet can state. */
  lemma RecognizesExactly(der: seq<Byte>, r: seq<Byte>, s: seq<Byte>)
    ensures Recognized(der) == Some((r, s)) <==>
              CanonicalContent(r) && CanonicalContent(s) && |r| + |s| < 252 && der == DerPair(r, s)
  {
    if Recognized(der) == Some((r, s)) {
      RecognizedShape(der);
      assert DerPair(r, s) == [0x30, 4 + |r| + |s|] + [0x02, |r|] + r + [0x02, |s|] + s;
    }
    if CanonicalContent(r) && CanonicalContent(s) && |r| + |s| < 252 && der == DerPair(r, s) {
      PairIsRecognized(r, s);
    }
  }

  /** Two encodings accepted for the same pair are the same encoding. */
  lemma EncodingIsUnique(a: seq<Byte>, b: seq<Byte>)
    requires Recognized(a).Some? && Recognized(b) == Recognized(a)
    ensures a == b
  {
    RecognizedShape(a);
    RecognizedShape(b);
  }

  // ---------- numbers are kept ----------

  lemma {:induction false} LeadingZeroKeepsValue(v: seq<Byte>)
    ensures Value([0] + v) == Value(v)
  {
    var w := [0] + v;
    if v == [] {
      assert w[..|w| - 1] == [];
    } else {
      assert w[..|w| - 1] == [0] + v[..|v| - 1];
      LeadingZeroKeepsValue(v[..|v| - 1]);
    }
  }

  /** The content octets stand for the same number as the half they encode. */
  lemma {:induction false} ContentKeepsValue(v: seq<Byte>)
    requires Strip(v) != []
    ensures Value(Content(Strip(v))) == Value(v)
  {
    if v[0] == 0 {
      ContentKeepsValue(v[1..]);
      assert v == [0] + v[1..];
      LeadingZeroKeepsValue(v[1..]);
    } else if v[0] >= 0x80 {
      LeadingZeroKeepsValue(v);
    }
  }
}
