/**
 * Stable component GUIDs of the WiX fragment generator: the MD5 digest of
 * the UTF-8 bytes of "MPExtended_Hash_Guid_" + component Id, with the
 * version field of one byte forced to 4, rendered the way .NET's
 * Guid(byte[]) constructor and its "D" format lay the bytes out.
 */
module Guids {

  newtype byte = x: int | 0 <= x < 0x100

  /** An MD5 digest. */
  type Digest = s: seq<byte> | |s| == 16 witness seq(16, _ => 0 as byte)

  /** The text hashed in front of a component Id. */
  const GuidSeed: string := "MPExtended_Hash_Guid_"

  // ---------------------------------------------------------------------
  // UTF-8 (Unicode scalar values; the string type holds no lone surrogates)

  /**
   * The scalar value a well-formed UTF-8 sequence of one to four bytes
   * stands for: the payload bits of the lead byte followed by six bits from
   * each continuation byte.
   */
  function Utf8Value(b: seq<byte>): int
    requires 1 <= |b| <= 4
  {
    if |b| == 1 then b[0] as int
    else if |b| == 2 then (b[0] as int - 0xC0) * 0x40 + (b[1] as int - 0x80)
    else if |b| == 3 then (b[0] as int - 0xE0) * 0x1000 + (b[1] as int - 0x80) * 0x40 + (b[2] as int - 0x80)
    else (b[0] as int - 0xF0) * 0x40000 + (b[1] as int - 0x80) * 0x1000 + (b[2] as int - 0x80) * 0x40 + (b[3] as int - 0x80)
  }

  /**
   * The UTF-8 encoding of one character: the shortest sequence whose lead
   * byte announces its length and which decodes back to the character.
   */
  function Utf8Char(c: char): (b: seq<byte>)
    ensures 1 <= |b| <= 4
    ensures (c as int < 0x80) <==> |b| == 1
    ensures (0x80 <= c as int < 0x800) <==> |b| == 2
    ensures (0x800 <= c as int < 0x10000) <==> |b| == 3
    ensures |b| == 2 ==> 0xC0 <= b[0] < 0xE0
    ensures |b| == 3 ==> 0xE0 <= b[0] < 0xF0
    ensures |b| == 4 ==> 0xF0 <= b[0] < 0xF8
    ensures forall i :: 1 <= i < |b| ==> 0x80 <= b[i] < 0xC0
    ensures Utf8Value(b) == c as int
  {
    var n := c as int;
    if n < 0x80 then [n as byte]
    else if n < 0x800 then Utf8Two(n)
    else if n < 0x10000 then Utf8Three(n)
    else Utf8Four(n)
  }

  /** Six low bits of `n`, as a continuation byte. */
  function Continuation(n: int): (b: byte)
    requires 0 <= n
    ensures 0x80 <= b < 0xC0 && b as int - 0x80 == n % 0x40
  {
    (0x80 + n % 0x40) as byte
  }

  function Utf8Two(n: int): (b: seq<byte>)
    requires 0x80 <= n < 0x800
    ensures |b| == 2 && 0xC0 <= b[0] < 0xE0 && 0x80 <= b[1] < 0xC0
    ensures Utf8Value(b) == n
  {
    var lead := (0xC0 + n / 0x40) as byte;
    var r := [lead, Continuation(n)];
    assert Utf8Value(r) == (n / 0x40) * 0x40 + n % 0x40;
    r
  }

  function Utf8Three(n: int): (b: seq<byte>)
    requires 0x800 <= n < 0x10000
    ensures |b| == 3 && 0xE0 <= b[0] < 0xF0 && 0x80 <= b[1] < 0xC0 && 0x80 <= b[2] < 0xC0
    ensures Utf8Value(b) == n
  {
    var m := n / 0x40;
    var lead := (0xE0 + m / 0x40) as byte;
    var r := [lead, Continuation(m), Continuation(n)];
    assert Utf8Value(r) == ((m / 0x40) * 0x40 + m % 0x40) * 0x40 + n % 0x40;
    r
  }

  function Utf8Four(n: int): (b: seq<byte>)
    requires 0x10000 <= n < 0x110000
    ensures |b| == 4 && 0xF0 <= b[0] < 0xF8 && 0x80 <= b[1] < 0xC0 && 0x80 <= b[2] < 0xC0 && 0x80 <= b[3] < 0xC0
    ensures Utf8Value(b) == n
  {
    var m := n / 0x40;
    var k := m / 0x40;
    var lead := (0xF0 + k / 0x40) as byte;
    var r := [lead, Continuation(k), Continuation(m), Continuation(n)];
    assert Utf8Value(r) == (((k / 0x40) * 0x40 + k % 0x40) * 0x40 + m % 0x40) * 0x40 + n % 0x40;
    r
  }

  /** The UTF-8 encoding of a string. */
  function Utf8(s: string): (b: seq<byte>)
    ensures |s| <= |b| <= 4 * |s|
  {
    if s == [] then [] else Utf8Char(s[0]) + Utf8(s[1..])
  }

  /** The bytes the generator hashes for a component Id. */
  function HashInput(baseComponent: string): seq<byte> {
    Utf8(GuidSeed + baseComponent)
  }

  // ---------------------------------------------------------------------
  // The version field

  /**
   * The source computes `(byte)(0x40 | (0x0F & x))`. On every byte that is
   * 0x40 plus the low nibble of x, which is how StampVersion writes it.
   */
  lemma VersionNibbleIsBitwise(x: bv8)
    ensures 0x40 | (0x0F & x) == 0x40 + x % 0x10
  {
  }

  /**
   * Sets the high nibble of byte `index` to 4 and keeps its low nibble: the
   * source's `(byte)(0x40 | (0x0F & b[index]))`. A `byte` here and a `bv8` in
   * VersionNibbleIsBitwise stand for the same 8-bit value, and that lemma
   * shows the bitwise form equals the `0x40 + b[index] % 0x10` written here.
   */
  function StampVersion(b: Digest, index: nat): (r: Digest)
    requires index < 16
    ensures r[index] / 0x10 == 4 && r[index] % 0x10 == b[index] % 0x10
    ensures forall i :: 0 <= i < 16 && i != index ==> r[i] == b[i]
  {
    b[index := 0x40 + b[index] % 0x10]
  }

  /** The byte the source stamps: 7 on a little-endian machine, 1 otherwise. */
  function VersionIndexAsWritten(littleEndian: bool): nat {
    if littleEndian then 7 else 1
  }

  /**
   * The byte that holds the version field in Guid(byte[])'s layout, which is
   * the same on every platform (the high byte of the third field).
   */
  const VersionIndex: nat := 7

  // ---------------------------------------------------------------------
  // The "D" format of Guid(byte[])

  /** The nibble a lower-case hex digit stands for. */
  function HexValue(c: char): int
    requires IsLowerHex(c)
  {
    if c <= '9' then c as int - '0' as int else c as int - 'a' as int + 10
  }

  /** The digit for a nibble: '0'-'9', then 'a'-'f'; the one lower-case hex digit whose value is `v`. */
  function HexDigit(v: byte): (c: char)
    requires v < 16
    ensures IsLowerHex(c) && HexValue(c) == v as int
  {
    if v < 10 then ('0' as int + v as int) as char else ('a' as int + v as int - 10) as char
  }

  predicate IsLowerHex(c: char) {
    ('0' <= c <= '9') || ('a' <= c <= 'f')
  }

  /**
   * Guid(bytes).ToString("D"): the first three fields are little-endian
   * 32-, 16- and 16-bit integers, the last eight bytes are taken in order;
   * every byte is two lower-case hex digits, high nibble first.
   */
  function GuidString(b: Digest): (g: string)
    ensures |g| == 36
  {
    [ Hi(b[3]), Lo(b[3]), Hi(b[2]), Lo(b[2]), Hi(b[1]), Lo(b[1]), Hi(b[0]), Lo(b[0]), '-',
      Hi(b[5]), Lo(b[5]), Hi(b[4]), Lo(b[4]), '-',
      Hi(b[7]), Lo(b[7]), Hi(b[6]), Lo(b[6]), '-',
      Hi(b[8]), Lo(b[8]), Hi(b[9]), Lo(b[9]), '-',
      Hi(b[10]), Lo(b[10]), Hi(b[11]), Lo(b[11]), Hi(b[12]), Lo(b[12]),
      Hi(b[13]), Lo(b[13]), Hi(b[14]), Lo(b[14]), Hi(b[15]), Lo(b[15]) ]
  }

  /** Where the "D" format prints the two digits of byte k: at HexPos[k] and the position after it. */
  const HexPos: seq<nat> := [6, 4, 2, 0, 11, 9, 16, 14, 19, 21, 24, 26, 28, 30, 32, 34]

  function Hi(x: byte): char {
    HexDigit(x / 0x10)
  }

  function Lo(x: byte): char {
    HexDigit(x % 0x10)
  }

  /** A 36-character "D"-format GUID whose version digit (the 13th hex digit) is 4. */
  predicate IsVersion4Guid(g: string) {
    && |g| == 36
    && g[8] == '-' && g[13] == '-' && g[18] == '-' && g[23] == '-'
    && (forall i :: 0 <= i < 36 && i != 8 && i != 13 && i != 18 && i != 23 ==> IsLowerHex(g[i]))
    && g[14] == '4'
  }

  /** The GUID the generator gives the component `baseComponent`. */
  function ComponentGuid(baseComponent: string, md5: seq<byte> -> Digest): string {
    GuidString(StampVersion(md5(HashInput(baseComponent)), VersionIndex))
  }
}

module GuidProperties {
  import opened Guids

  lemma {:induction false} Utf8Append(a: string, b: string)
    ensures Utf8(a + b) == Utf8(a) + Utf8(b)
  {
    if a == [] {
      assert a + b == b;
    } else {
      assert (a + b)[1..] == a[1..] + b;
      Utf8Append(a[1..], b);
    }
  }

  /** A string of characters below 0x80 encodes to one byte per character, each equal to its code. */
  lemma {:induction false} Utf8Ascii(s: string)
    requires forall i :: 0 <= i < |s| ==> s[i] < '\U{80}'
    ensures |Utf8(s)| == |s|
    ensures forall i :: 0 <= i < |s| ==> Utf8(s)[i] as int == s[i] as int
  {
    if s != [] {
      Utf8Ascii(s[1..]);
    }
  }

  /** The hashed bytes are the seed's bytes followed by the UTF-8 of the component Id. */
  lemma HashInputSplits(baseComponent: string)
    ensures HashInput(baseComponent) == Utf8(GuidSeed) + Utf8(baseComponent)
  {
    Utf8Append(GuidSeed, baseComponent);
  }

  /**
   * The layout of the "D" format: four dashes, lower-case hex elsewhere, and
   * where the high digits of bytes 1 and 7 appear; GuidStringBytes gives
   * the position of every byte.
   */
  lemma GuidStringLayout(b: Digest)
    ensures var g := GuidString(b);
      && |g| == 36
      && g[8] == '-' && g[13] == '-' && g[18] == '-' && g[23] == '-'
      && (forall i :: 0 <= i < 36 && i != 8 && i != 13 && i != 18 && i != 23 ==> IsLowerHex(g[i]))
      && g[4] == Hi(b[1])
      && g[14] == Hi(b[7])
  {
  }

  /** Where the "D" format prints the first field, bytes 0-3 in reverse. */
  lemma GuidStringFirstDigits(b: Digest)
    ensures var g := GuidString(b);
      g[6] == Hi(b[0]) && g[7] == Lo(b[0])
      && g[4] == Hi(b[1]) && g[5] == Lo(b[1])
      && g[2] == Hi(b[2]) && g[3] == Lo(b[2])
      && g[0] == Hi(b[3]) && g[1] == Lo(b[3])
  {
  }

  /** Where the "D" format prints the second and third fields, bytes 4-7 pairwise reversed. */
  lemma GuidStringSecondDigits(b: Digest)
    ensures var g := GuidString(b);
      g[11] == Hi(b[4]) && g[12] == Lo(b[4])
      && g[9] == Hi(b[5]) && g[10] == Lo(b[5])
      && g[16] == Hi(b[6]) && g[17] == Lo(b[6])
      && g[14] == Hi(b[7]) && g[15] == Lo(b[7])
  {
  }

  /** Where the "D" format prints the fourth group, bytes 8-9 in order. */
  lemma GuidStringFourthDigits(b: Digest)
    ensures var g := GuidString(b);
      g[19] == Hi(b[8]) && g[20] == Lo(b[8])
      && g[21] == Hi(b[9]) && g[22] == Lo(b[9])
  {
  }

  /** Where the "D" format prints the last group, bytes 10-15 in order. */
  lemma GuidStringLastDigits(b: Digest)
    ensures var g := GuidString(b);
      g[24] == Hi(b[10]) && g[25] == Lo(b[10])
      && g[26] == Hi(b[11]) && g[27] == Lo(b[11])
      && g[28] == Hi(b[12]) && g[29] == Lo(b[12])
      && g[30] == Hi(b[13]) && g[31] == Lo(b[13])
      && g[32] == Hi(b[14]) && g[33] == Lo(b[14])
      && g[34] == Hi(b[15]) && g[35] == Lo(b[15])
  {
  }

  /** Byte k of the GUID prints as its high digit at HexPos[k] and its low digit right after. */
  lemma GuidStringBytes(b: Digest)
    ensures var g := GuidString(b);
      forall k :: 0 <= k < 16 ==> g[HexPos[k]] == Hi(b[k]) && g[HexPos[k] + 1] == Lo(b[k])
  {
    var g := GuidString(b);
    forall k | 0 <= k < 16 ensures g[HexPos[k]] == Hi(b[k]) && g[HexPos[k] + 1] == Lo(b[k]) {
      if k < 4 {
        GuidStringFirstDigits(b);
      } else if k < 8 {
        GuidStringSecondDigits(b);
      } else if k < 10 {
        GuidStringFourthDigits(b);
      } else {
        GuidStringLastDigits(b);
      }
    }
  }

  /** HexDigit is one-to-one: a nibble renders as '4' exactly when it is 4. */
  lemma HexDigitIsFour(v: byte)
    requires v < 16
    ensures HexDigit(v) == '4' <==> v == 4
  {
  }

  /** Every component GUID is a version-4 GUID in the "D" format. */
  lemma ComponentGuidIsVersion4(baseComponent: string, md5: seq<byte> -> Digest)
    ensures IsVersion4Guid(ComponentGuid(baseComponent, md5))
  {
    var stamped := StampVersion(md5(HashInput(baseComponent)), VersionIndex);
    GuidStringLayout(stamped);
  }

  /** On a little-endian machine the source stamps the byte the corrected model stamps. */
  lemma LittleEndianAsWrittenIsCorrected()
    ensures VersionIndexAsWritten(true) == VersionIndex
  {
  }

  /**
   * As written, on a big-endian machine the stamped byte is byte 1, which the
   * "D" format prints at position 4; the version position 14 shows '4' only
   * when the digest's byte 7 already had high nibble 4.
   */
  lemma BigEndianAsWrittenVersionDigit(b: Digest)
    ensures var g := GuidString(StampVersion(b, VersionIndexAsWritten(false)));
      g[4] == '4' && (g[14] == '4' <==> b[7] / 0x10 == 4)
  {
    var s := StampVersion(b, VersionIndexAsWritten(false));
    GuidStringLayout(s);
    HexDigitIsFour(s[1] / 0x10);
    HexDigitIsFour(b[7] / 0x10);
  }

  /** A digest that shows it: with an all-zero MD5 the big-endian GUID has version digit '0'. */
  lemma BigEndianAsWrittenCounterexample()
    ensures var g := GuidString(StampVersion(seq(16, _ => 0 as byte), VersionIndexAsWritten(false)));
      !IsVersion4Guid(g) && g[14] == '0'
  {
    var z: Digest := seq(16, _ => 0 as byte);
    BigEndianAsWrittenVersionDigit(z);
    GuidStringLayout(StampVersion(z, 1));
  }
}
