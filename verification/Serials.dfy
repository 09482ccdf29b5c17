/** Certificate serial numbers and their text (authority.rs). A serial is sixteen bytes,
    least significant first; its text is thirty-two lower-case hexadecimal digits, most
    significant first. */
module Serials {
  import opened Records

  const SERIAL_BYTES := 16

  type Serial = s: seq<bv8> | |s| == 16 witness seq(16, _ => 0 as bv8)

  function HexDigit(nibble: bv8): (c: char)
    requires nibble < 16
  {
    if nibble < 10 then '0' + (nibble as int) as char else 'a' + (nibble as int - 10) as char
  }

  /** The value of a lower-case hexadecimal digit. */
  function Nibble(c: char): Option<bv8> {
    if '0' <= c <= '9' then Some(((c as int) - ('0' as int)) as bv8)
    else if 'a' <= c <= 'f' then Some(((c as int) - ('a' as int) + 10) as bv8)
    else None
  }

  function ByteHex(b: bv8): (text: string)
    ensures |text| == 2
  {
    [HexDigit(b >> 4), HexDigit(b & 0x0f)]
  }

  /** `hex`. */
  function Hex(bytes: seq<bv8>): (text: string)
    ensures |text| == 2 * |bytes|
  {
    if bytes == [] then "" else ByteHex(bytes[0]) + Hex(bytes[1..])
  }

  function DecodePair(high: char, low: char): Option<bv8> {
    match (Nibble(high), Nibble(low))
    case (Some(h), Some(l)) => Some((h << 4) | l)
    case _ => None
  }

  /** `decode_hex_vec`: an even number of lower-case digits. */
  function DecodeHex(text: string): Option<seq<bv8>> {
    if text == "" then Some([])
    else if |text| == 1 then None
    else
      match (DecodePair(text[0], text[1]), DecodeHex(text[2..]))
      case (Some(b), Some(rest)) => Some([b] + rest)
      case _ => None
  }

  function Reverse<T>(s: seq<T>): (r: seq<T>)
    ensures |r| == |s|
  {
    seq(|s|, i requires 0 <= i < |s| => s[|s| - 1 - i])
  }

  lemma ReverseTwice<T>(s: seq<T>)
    ensures Reverse(Reverse(s)) == s
  {
  }

  function SerialHex(serial: Serial): string {
    Hex(Reverse(serial))
  }

  function DecodeSerial(text: string): Option<Serial> {
    match DecodeHex(text)
    case Some(bytes) => if |bytes| == 16 then Some(Reverse(bytes)) else None
    case None => None
  }

  // ---------- round trips ----------

  lemma NibbleOfDigit(nibble: bv8)
    requires nibble < 16
    ensures Nibble(HexDigit(nibble)) == Some(nibble)
  {
  }

  lemma DigitOfNibble(c: char)
    requires Nibble(c).Some?
    ensures Nibble(c).value < 16 && HexDigit(Nibble(c).value) == c
  {
  }

  lemma SplitByte(b: bv8)
    ensures b >> 4 < 16 && b & 0x0f < 16 && ((b >> 4) << 4) | (b & 0x0f) == b
  {
  }

  lemma JoinNibbles(high: bv8, low: bv8)
    requires high < 16 && low < 16
    ensures ((high << 4) | low) >> 4 == high && ((high << 4) | low) & 0x0f == low
  {
  }

  lemma PairOfByte(b: bv8)
    ensures DecodePair(ByteHex(b)[0], ByteHex(b)[1]) == Some(b)
  {
    SplitByte(b);
    NibbleOfDigit(b >> 4);
    NibbleOfDigit(b & 0x0f);
  }

  lemma ByteOfPair(high: char, low: char)
    requires DecodePair(high, low).Some?
    ensures ByteHex(DecodePair(high, low).value) == [high, low]
  {
    DigitOfNibble(high);
    DigitOfNibble(low);
    JoinNibbles(Nibble(high).value, Nibble(low).value);
  }

  lemma {:induction false} DecodeOfHex(bytes: seq<bv8>)
    ensures DecodeHex(Hex(bytes)) == Some(bytes)
  {
    if bytes != [] {
      PairOfByte(bytes[0]);
      DecodeOfHex(bytes[1..]);
      var text := ByteHex(bytes[0]) + Hex(bytes[1..]);
      assert text[2..] == Hex(bytes[1..]);
      assert [bytes[0]] + bytes[1..] == bytes;
    }
  }

  lemma {:induction false} HexOfDecode(text: string)
    requires DecodeHex(text).Some?
    ensures Hex(DecodeHex(text).value) == text
  {
    if text != "" {
      ByteOfPair(text[0], text[1]);
      HexOfDecode(text[2..]);
      var bytes := DecodeHex(text).value;
      assert bytes[1..] == DecodeHex(text[2..]).value;
      assert text == [text[0], text[1]] + text[2..];
    }
  }

  /** Encoding and decoding are inverse: the text of a serial decodes to it, and no other
      text does. */
  lemma SerialRoundTrip(serial: Serial, text: string)
    ensures DecodeSerial(text) == Some(serial) <==> text == SerialHex(serial)
  {
    ReverseTwice(serial);
    DecodeOfHex(Reverse(serial));
    if DecodeSerial(text) == Some(serial) {
      HexOfDecode(text);
      ReverseTwice(DecodeHex(text).value);
    }
  }

  // ---------- positive serials ----------

  /** `positive_serial`: clears the sign bit and avoids zero. */
  function PositiveSerial(random: Serial): Serial {
    var cleared := random[15 := random[15] & 0x7f];
    if forall b <- cleared :: b == 0 then cleared[0 := 1] else cleared
  }

  function Value(bytes: seq<bv8>): nat {
    if bytes == [] then 0 else bytes[0] as nat + 256 * Value(bytes[1..])
  }

  /** What the digit `d` counts for at position `i`. */
  function Weight(d: nat, i: nat): nat {
    if i == 0 then d else 256 * Weight(d, i - 1)
  }

  lemma {:induction false} ValueBound(bytes: seq<bv8>, top: nat)
    requires bytes != [] && bytes[|bytes| - 1] as nat < top
    ensures Value(bytes) < Weight(top, |bytes| - 1)
  {
    if |bytes| > 1 {
      ValueBound(bytes[1..], top);
    } else {
      assert bytes[1..] == [];
    }
  }

  lemma {:induction false} ValuePositive(bytes: seq<bv8>, i: nat)
    requires i < |bytes| && bytes[i] != 0
    ensures Value(bytes) > 0
  {
    if i > 0 {
      ValuePositive(bytes[1..], i - 1);
    } else {
      assert bytes[0] as nat != 0;
    }
  }

  const HALF_RANGE := 0x8000_0000_0000_0000_0000_0000_0000_0000

  lemma TopWeight()
    ensures Weight(128, 15) == HALF_RANGE && Weight(0, 15) == 0
  {
    assert Weight(128, 5) == 0x8000_0000_0000 && Weight(0, 5) == 0;
    assert Weight(128, 10) == 0x80_0000_0000_0000_0000_0000 && Weight(0, 10) == 0;
  }

  lemma BelowHalf(cleared: Serial)
    requires cleared[15] as nat < 128
    ensures Value(cleared) < HALF_RANGE
  {
    ValueBound(cleared, 128);
    TopWeight();
  }

  lemma ClearedTop(b: bv8)
    ensures (b & 0x7f) as nat < 128
  {
    assert b & 0x7f < 128;
  }

  /** Every serial drawn is positive and below 2^127, as section 4.1.2.2 of RFC 5280 asks. */
  lemma PositiveSerialIsPositive(random: Serial)
    ensures 0 < Value(PositiveSerial(random)) < HALF_RANGE
  {
    var serial := PositiveSerial(random);
    ClearedTop(random[15]);
    BelowHalf(serial);
    var cleared := random[15 := random[15] & 0x7f];
    if forall b <- cleared :: b == 0 {
      ValuePositive(serial, 0);
    } else {
      var b :| b in cleared && b != 0;
      var i: nat :| i < |cleared| && cleared[i] == b;
      ValuePositive(serial, i);
    }
  }

  lemma {:induction false} LessAt(bytes: seq<bv8>, less: seq<bv8>, i: nat, d: nat)
    requires i < |bytes| && |less| == |bytes| && bytes[i] as nat == less[i] as nat + d
    requires forall j :: 0 <= j < |bytes| && j != i ==> less[j] == bytes[j]
    ensures Value(bytes) == Value(less) + Weight(d, i)
  {
    if i == 0 {
      assert less[1..] == bytes[1..];
    } else {
      LessAt(bytes[1..], less[1..], i - 1, d);
    }
  }

  lemma {:induction false} ZerosAreZero(bytes: seq<bv8>)
    requires forall i :: 0 <= i < |bytes| ==> bytes[i] == 0
    ensures Value(bytes) == 0
  {
    if bytes != [] {
      ZerosAreZero(bytes[1..]);
    }
  }

  lemma ClearedIs(b: bv8)
    ensures b as nat == (b & 0x7f) as nat + if b >= 128 then 128 else 0
  {
    if b >= 128 {
      assert b & 0x7f == b - 128;
    } else {
      assert b & 0x7f == b;
    }
  }

  lemma WithoutTop(random: Serial, cleared: Serial, top: bool)
    requires forall j :: 0 <= j < 15 ==> cleared[j] == random[j]
    requires cleared[15] as nat < 128 && random[15] as nat == cleared[15] as nat + if top then 128 else 0
    ensures Value(cleared) < HALF_RANGE && Value(random) == Value(cleared) + if top then HALF_RANGE else 0
  {
    BelowHalf(cleared);
    TopWeight();
    LessAt(random, cleared, 15, if top then 128 else 0);
  }

  lemma ClearedValue(random: Serial, cleared: Serial)
    requires cleared == random[15 := random[15] & 0x7f]
    ensures Value(cleared) < HALF_RANGE
    ensures Value(random) == Value(cleared) || Value(random) == Value(cleared) + HALF_RANGE
  {
    var top := random[15];
    ClearedIs(top);
    ClearedTop(top);
    WithoutTop(random, cleared, top >= 128);
  }

  /** The serial is the drawn number without its top bit, or one if nothing else is left. */
  lemma PositiveSerialIs(random: Serial)
    ensures var rest := if Value(random) >= HALF_RANGE then Value(random) - HALF_RANGE else Value(random);
            Value(PositiveSerial(random)) == if rest == 0 then 1 else rest
  {
    var cleared := random[15 := random[15] & 0x7f];
    ClearedValue(random, cleared);
    if forall b <- cleared :: b == 0 {
      forall i | 0 <= i < 16 ensures cleared[i] == 0 {
        assert cleared[i] in cleared;
      }
      ZerosAreZero(cleared);
      ZerosAreZero(cleared[1..]);
      assert PositiveSerial(random)[1..] == cleared[1..];
    } else {
      var b :| b in cleared && b != 0;
      var i: nat :| i < |cleared| && cleared[i] == b;
      ValuePositive(cleared, i);
    }
  }

  // ---------- what the text says ----------

  predicate IsDigit(c: char) {
    '0' <= c <= '9' || 'a' <= c <= 'f'
  }

  function DigitValue(c: char): nat
    requires IsDigit(c)
  {
    if c <= '9' then c as nat - '0' as nat else c as nat - 'a' as nat + 10
  }

  predicate IsNumeral(text: string) {
    forall i :: 0 <= i < |text| ==> IsDigit(text[i])
  }

  /** The number a hexadecimal numeral denotes, most significant digit first. */
  function NumeralValue(text: string): nat
    requires IsNumeral(text)
  {
    if text == "" then 0 else 16 * NumeralValue(text[..|text| - 1]) + DigitValue(text[|text| - 1])
  }

  lemma {:induction false} HexOfMore(bytes: seq<bv8>, b: bv8)
    ensures Hex(bytes + [b]) == Hex(bytes) + ByteHex(b)
  {
    if bytes == [] {
      assert bytes + [b] == [b] && Hex([b][1..]) == "";
    } else {
      assert (bytes + [b])[1..] == bytes[1..] + [b];
      HexOfMore(bytes[1..], b);
    }
  }

  lemma DigitOf(nibble: bv8)
    requires nibble < 16
    ensures IsDigit(HexDigit(nibble)) && DigitValue(HexDigit(nibble)) == nibble as nat
  {
  }

  lemma HalvesOf(b: bv8)
    ensures b >> 4 < 16 && b & 0x0f < 16 && b as nat == 16 * ((b >> 4) as nat) + (b & 0x0f) as nat
  {
    assert b == 16 * (b >> 4) + (b & 0x0f);
    assert (b >> 4) < 16 && (b & 0x0f) < 16;
  }

  lemma TwoMoreDigits(text: string, b: bv8)
    requires IsNumeral(text)
    ensures IsNumeral(text + ByteHex(b)) && NumeralValue(text + ByteHex(b)) == 256 * NumeralValue(text) + b as nat
  {
    var high, low := HexDigit(b >> 4), HexDigit(b & 0x0f);
    HalvesOf(b);
    DigitOf(b >> 4);
    DigitOf(b & 0x0f);
    var one, two := text + [high], text + ByteHex(b);
    assert two[..|two| - 1] == one && one[..|one| - 1] == text;
  }

  lemma {:induction false} TextOfBytes(bytes: seq<bv8>)
    ensures IsNumeral(Hex(Reverse(bytes))) && NumeralValue(Hex(Reverse(bytes))) == Value(bytes)
    ensures |Hex(Reverse(bytes))| == 2 * |bytes|
  {
    if bytes != [] {
      assert Reverse(bytes) == Reverse(bytes[1..]) + [bytes[0]];
      HexOfMore(Reverse(bytes[1..]), bytes[0]);
      TextOfBytes(bytes[1..]);
      TwoMoreDigits(Hex(Reverse(bytes[1..])), bytes[0]);
    }
  }

  /** The text of a serial is its number in thirty-two lower-case hexadecimal digits. */
  lemma SerialTextIs(serial: Serial)
    ensures |SerialHex(serial)| == 32 && IsNumeral(SerialHex(serial))
    ensures NumeralValue(SerialHex(serial)) == Value(serial)
  {
    TextOfBytes(serial);
  }
}
