/** Bytes, 32-bit words and the JavaScript operators the hash code applies to them.

    JavaScript numbers are doubles, but every bitwise operator first converts its
    operands to 32-bit integers (ToInt32 / ToUint32), and `>>> 0` reinterprets the
    32 bits as an unsigned number.  Every value the hash code keeps is either reduced
    in this way or only ever used by such an operator or by a sum reduced mod 2^32, so
    a word is modelled as a `bv32` and a signed int32 result and its unsigned
    reinterpretation are the same `Word`. */
module Bits {

  type Byte = bv8
  type Word = bv32

  /** JavaScript `x << n`: only the low five bits of the count are used. */
  function Shl(x: Word, n: Word): Word {
    x << (n & 31)
  }

  /** JavaScript `x >>> n`: only the low five bits of the count are used. */
  function Ushr(x: Word, n: Word): Word {
    x >> (n & 31)
  }

  /** ToUint32 of a non-negative integer: the number reduced mod 2^32. */
  function ToUint32(n: nat): Word {
    (n % 0x1_0000_0000) as Word
  }

  /** JavaScript `x & 0xFF`, stored as a byte. */
  function Lo8(w: Word): Byte {
    (w & 0xFF) as Byte
  }

  /** `b0 | b1 << 8 | b2 << 16 | b3 << 24`, read as an unsigned 32-bit word. */
  function WordLE(b0: Byte, b1: Byte, b2: Byte, b3: Byte): Word {
    (b0 as Word) | ((b1 as Word) << 8) | ((b2 as Word) << 16) | ((b3 as Word) << 24)
  }

  /** The four bytes of a word, least-significant byte first. */
  function LE32(w: Word): (s: seq<Byte>)
    ensures |s| == 4
  {
    [Lo8(w), Lo8(w >> 8), Lo8(w >> 16), Lo8(w >> 24)]
  }

  /** Serialising a word little-endian and reading it back gives the word. */
  lemma WordOfLE32(w: Word)
    ensures WordLE(LE32(w)[0], LE32(w)[1], LE32(w)[2], LE32(w)[3]) == w
  {
  }

  /** Reading four bytes as a word and serialising it gives the bytes back. */
  lemma LE32OfWord(b0: Byte, b1: Byte, b2: Byte, b3: Byte)
    ensures LE32(WordLE(b0, b1, b2, b3)) == [b0, b1, b2, b3]
  {
  }

  /** ToUint32 of a number below 2^32 is zero only for zero. */
  lemma ToUint32Zero(n: nat)
    requires n < 0x1_0000_0000
    ensures ToUint32(n) == 0 <==> n == 0
  {
  }

  /** A word serialises to four zero bytes only if it is zero. */
  lemma LE32Zero(w: Word)
    ensures LE32(w) == [0, 0, 0, 0] <==> w == 0
  {
    if LE32(w) == [0, 0, 0, 0] {
      assert Lo8(w) == 0 && Lo8(w >> 8) == 0 && Lo8(w >> 16) == 0 && Lo8(w >> 24) == 0;
    }
  }

  /** JavaScript `(a + b) >>> 0` on two words: the sum mod 2^32. */
  function Add(a: Word, b: Word): Word {
    a + b
  }

  /** `(a + b + c) >>> 0`: the three-term sum mod 2^32, added left to right. */
  function Add3(a: Word, b: Word, c: Word): Word {
    Add(Add(a, b), c)
  }

  /** `(a + b + c + d) >>> 0`: the four-term sum mod 2^32, added left to right. */
  function Add4(a: Word, b: Word, c: Word, d: Word): Word {
    Add(Add(Add(a, b), c), d)
  }

  /** Lowercase hexadecimal digit of a value below 16. */
  function HexDigit(n: Byte): char
    requires n < 16
  {
    "0123456789abcdef"[n as int]
  }

  predicate IsHexDigit(c: char) {
    '0' <= c <= '9' || 'a' <= c <= 'f'
  }

  /** The value of a lowercase hexadecimal digit. */
  function DigitValue(c: char): (n: Byte)
    requires IsHexDigit(c)
    ensures n < 16
  {
    if c <= '9' then (c as int - '0' as int) as Byte else (c as int - 'a' as int + 10) as Byte
  }

  lemma DigitValueOfHexDigit(n: Byte)
    requires n < 16
    ensures IsHexDigit(HexDigit(n)) && DigitValue(HexDigit(n)) == n
  {
    var k := n as int;
    assert 0 <= k < 16;
    assert k == 0 || k == 1 || k == 2 || k == 3 || k == 4 || k == 5 || k == 6 || k == 7
        || k == 8 || k == 9 || k == 10 || k == 11 || k == 12 || k == 13 || k == 14 || k == 15;
  }

  /** The byte a pair of hexadecimal digits denotes, high nibble first. */
  function ByteOfDigits(hi: char, lo: char): Byte
    requires IsHexDigit(hi) && IsHexDigit(lo)
  {
    (DigitValue(hi) << 4) | DigitValue(lo)
  }

  /** `b.toString(16).padStart(2, '0')`: two lowercase hexadecimal digits, high nibble first. */
  function HexByte(b: Byte): (s: string)
    ensures |s| == 2 && IsHexDigit(s[0]) && IsHexDigit(s[1])
    ensures ByteOfDigits(s[0], s[1]) == b
  {
    DigitValueOfHexDigit(b >> 4);
    DigitValueOfHexDigit(b & 0xF);
    [HexDigit(b >> 4), HexDigit(b & 0xF)]
  }

  /** The bytes written as hexadecimal, two digits per byte, in order. */
  function Hex(bytes: seq<Byte>): (s: string)
    ensures |s| == 2 * |bytes|
    ensures forall k :: 0 <= k < |s| ==> IsHexDigit(s[k])
  {
    if bytes == [] then "" else HexByte(bytes[0]) + Hex(bytes[1..])
  }

  /** Reads a string of hexadecimal digit pairs back into bytes. */
  function UnHex(s: string): seq<Byte>
    requires |s| % 2 == 0
    requires forall k :: 0 <= k < |s| ==> IsHexDigit(s[k])
  {
    if s == [] then [] else [ByteOfDigits(s[0], s[1])] + UnHex(s[2..])
  }

  /** The hexadecimal text determines the bytes: reading it back gives them again. */
  lemma {:induction false} UnHexHex(bytes: seq<Byte>)
    ensures UnHex(Hex(bytes)) == bytes
  {
    if bytes != [] {
      var s := Hex(bytes);
      var head := HexByte(bytes[0]);
      assert s == head + Hex(bytes[1..]);
      assert s[..2] == head && s[2..] == Hex(bytes[1..]);
      UnHexHex(bytes[1..]);
    }
  }

  /** Writing two byte strings one after the other writes their digits one after the other. */
  lemma {:induction false} HexAppend(a: seq<Byte>, b: seq<Byte>)
    ensures Hex(a + b) == Hex(a) + Hex(b)
  {
    if a != [] {
      assert (a + b)[1..] == a[1..] + b;
      HexAppend(a[1..], b);
    } else {
      assert a + b == b;
    }
  }
}
