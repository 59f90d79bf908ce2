/** `ripemd160Padding` of the hash module: the message is turned into bytes (text
    mode: one byte per UTF-16 code unit below 128; binary mode: one byte per group of
    eight '0'/'1' characters), then 0x80, zero bytes up to 56 mod 64, and an 8-byte
    length field are appended. */
module Padding {
  import opened Bits

  datatype Result<T> = Success(value: T) | Failure(error: string)

  const NonAsciiError := "Non-ASCII characters not supported yet"

  /** A JavaScript string is a sequence of UTF-16 code units. */
  type CodeUnit = bv16

  /** The `base` argument: 'text', or anything else, which selects binary mode. */
  datatype Base = Text | Binary

  /** The characters '0' and '1'. */
  const Zero: CodeUnit := 48
  const One: CodeUnit := 49

  predicate IsAscii(message: seq<CodeUnit>) {
    forall k :: 0 <= k < |message| ==> message[k] < 128
  }

  predicate IsBinaryString(message: seq<CodeUnit>) {
    forall k :: 0 <= k < |message| ==> message[k] == Zero || message[k] == One
  }

  // ---------------------------------------------------------------------------
  // Message to bytes

  /** Text mode: each code unit, all of them below 128, becomes the byte with its value. */
  function AsciiBytes(message: seq<CodeUnit>): (s: seq<Byte>)
    requires IsAscii(message)
    ensures |s| == |message|
    ensures forall k :: 0 <= k < |s| ==> s[k] as CodeUnit == message[k]
  {
    if message == [] then []
    else AsciiBytes(message[..|message| - 1]) + [message[|message| - 1] as Byte]
  }

  /** `parseInt(digits, 2)` for at most eight binary digits, most significant first. */
  function BinaryValue(digits: seq<CodeUnit>): Byte
    requires |digits| <= 8 && IsBinaryString(digits)
  {
    if digits == [] then 0
    else (BinaryValue(digits[..|digits| - 1]) << 1) | (if digits[|digits| - 1] == One then 1 else 0)
  }

  /** The slice `message.slice(i, i + 8)`. */
  function Group(message: seq<CodeUnit>, i: nat): (g: seq<CodeUnit>)
    requires i < |message|
    ensures 1 <= |g| <= 8
  {
    message[i .. if i + 8 <= |message| then i + 8 else |message|]
  }

  /** Binary mode: one byte per slice `message.slice(i, i + 8)`, i = 0, 8, 16, ...;
      the last slice may be shorter than eight digits. */
  function BinaryBytes(message: seq<CodeUnit>): (s: seq<Byte>)
    requires IsBinaryString(message)
    decreases |message|
  {
    if message == [] then []
    else if |message| <= 8 then [BinaryValue(message)]
    else [BinaryValue(message[..8])] + BinaryBytes(message[8..])
  }

  /** 2 to the power n. */
  function Pow2(n: nat): (p: nat)
    ensures p >= 1
  {
    if n == 0 then 1 else 2 * Pow2(n - 1)
  }

  /** The number a string of binary digits writes, most significant digit first. */
  function DigitsNumber(digits: seq<CodeUnit>): nat
    requires IsBinaryString(digits)
  {
    if digits == [] then 0
    else 2 * DigitsNumber(digits[..|digits| - 1]) + (if digits[|digits| - 1] == One then 1 else 0)
  }

  /** Shifting a byte below 128 left by one and or-ing in a bit doubles it and adds the bit. */
  lemma ShiftInBit(v: Byte, b: Byte)
    requires v < 128 && b <= 1
    ensures ((v << 1) | b) as int == 2 * v as int + b as int
  {
  }

  /** `parseInt(digits, 2)`: the byte BinaryValue computes is the number the digits write,
      and k digits write a number below 2^k, so a short group gives a smaller byte. */
  lemma {:induction false} BinaryValueIsNumber(digits: seq<CodeUnit>)
    requires |digits| <= 8 && IsBinaryString(digits)
    ensures BinaryValue(digits) as int == DigitsNumber(digits)
    ensures DigitsNumber(digits) < Pow2(|digits|)
  {
    if digits != [] {
      var front := digits[..|digits| - 1];
      assert IsBinaryString(front) by {
        forall k | 0 <= k < |front| ensures front[k] == Zero || front[k] == One {
          assert front[k] == digits[k];
        }
      }
      BinaryValueIsNumber(front);
      assert Pow2(|front|) <= 128 by {
        Pow2Monotone(|front|, 7);
      }
      var bit: Byte := if digits[|digits| - 1] == One then 1 else 0;
      ShiftInBit(BinaryValue(front), bit);
    }
  }

  lemma {:induction false} Pow2Monotone(m: nat, n: nat)
    requires m <= n
    ensures Pow2(m) <= Pow2(n)
  {
    if m < n {
      Pow2Monotone(m, n - 1);
    }
  }

  /** Binary mode gives one byte per started group of eight digits. */
  lemma {:induction false} BinaryBytesLength(message: seq<CodeUnit>)
    requires IsBinaryString(message)
    ensures |BinaryBytes(message)| == (|message| + 7) / 8
    decreases |message|
  {
    if |message| > 8 {
      BinaryBytesLength(message[8..]);
    }
  }

  /** Byte j of binary mode is `parseInt(message.slice(8j, 8j + 8), 2)`: the number the
      j-th group of digits writes. */
  lemma {:induction false} BinaryBytesAt(message: seq<CodeUnit>, j: nat)
    requires IsBinaryString(message) && j < (|message| + 7) / 8
    ensures 8 * j < |message| && j < |BinaryBytes(message)|
    ensures BinaryBytes(message)[j] == BinaryValue(Group(message, 8 * j))
    ensures BinaryBytes(message)[j] as int == DigitsNumber(Group(message, 8 * j))
    decreases |message|
  {
    BinaryBytesLength(message);
    if |message| <= 8 {
      assert Group(message, 0) == message;
    } else if j == 0 {
      assert Group(message, 0) == message[..8];
    } else {
      var rest := message[8..];
      BinaryBytesAt(rest, j - 1);
      assert Group(rest, 8 * (j - 1)) == Group(message, 8 * j);
    }
    var g := Group(message, 8 * j);
    assert IsBinaryString(g) by {
      forall k | 0 <= k < |g| ensures g[k] == Zero || g[k] == One {
        assert g[k] == message[8 * j + k];
      }
    }
    BinaryValueIsNumber(g);
  }

  /** The bytes `ripemd160Padding` starts from, or the error it throws. */
  function InputBytes(message: seq<CodeUnit>, base: Base): Result<seq<Byte>>
    requires base == Binary ==> IsBinaryString(message)
  {
    if base == Binary then Success(BinaryBytes(message))
    else if IsAscii(message) then Success(AsciiBytes(message))
    else Failure(NonAsciiError)
  }

  // ---------------------------------------------------------------------------
  // Padding

  function Zeros(n: nat): (s: seq<Byte>)
    ensures |s| == n
  {
    if n == 0 then [] else Zeros(n - 1) + [0]
  }

  lemma {:induction false} ZerosAreZero(n: nat)
    ensures forall k :: 0 <= k < n ==> Zeros(n)[k] == 0
  {
    if n > 0 {
      ZerosAreZero(n - 1);
      assert Zeros(n) == Zeros(n - 1) + [0];
    }
  }

  /** How many zero bytes follow 0x80 so that the length becomes 56 mod 64. */
  function ZeroCount(len: nat): (k: nat)
    ensures k < 64
  {
    if len % 64 <= 55 then 55 - len % 64 else 119 - len % 64
  }

  /** The zero loop stops after exactly ZeroCount(len) zeros: no fewer zeros bring the
      length to 56 mod 64. */
  lemma ZeroCountLeast(len: nat, j: nat)
    requires j <= ZeroCount(len)
    ensures (len + 1 + j) % 64 == 56 <==> j == ZeroCount(len)
  {
  }

  /** Byte i of the length field: `(lengthInBits >>> (i * 8)) & 0xFF`.  JavaScript
      takes the shift count mod 32. */
  function LengthByte(bits: Word, i: Word): Byte {
    Lo8(Ushr(bits, i * 8))
  }

  /** The first i bytes the length loop pushes. */
  function FieldPrefix(bits: Word, i: Word): seq<Byte>
    decreases i
  {
    if i == 0 then [] else FieldPrefix(bits, i - 1) + [LengthByte(bits, i - 1)]
  }

  /** The eight length bytes the code writes for the bit length `bits`. */
  function LengthField(bits: Word): seq<Byte> {
    FieldPrefix(bits, 8)
  }

  /** `lengthInBits`, as `>>>` sees it: the bit length reduced mod 2^32. */
  function BitLength(len: nat): Word {
    ToUint32(8 * len)
  }

  lemma FieldPrefixEight(bits: Word)
    ensures FieldPrefix(bits, 8) == [LengthByte(bits, 0), LengthByte(bits, 1), LengthByte(bits, 2), LengthByte(bits, 3), LengthByte(bits, 4), LengthByte(bits, 5), LengthByte(bits, 6), LengthByte(bits, 7)]
  {
    assert FieldPrefix(bits, 1) == [LengthByte(bits, 0)];
    assert FieldPrefix(bits, 2) == [LengthByte(bits, 0), LengthByte(bits, 1)];
    assert FieldPrefix(bits, 3) == [LengthByte(bits, 0), LengthByte(bits, 1), LengthByte(bits, 2)];
    assert FieldPrefix(bits, 4) == [LengthByte(bits, 0), LengthByte(bits, 1), LengthByte(bits, 2), LengthByte(bits, 3)];
    assert FieldPrefix(bits, 5) == [LengthByte(bits, 0), LengthByte(bits, 1), LengthByte(bits, 2), LengthByte(bits, 3), LengthByte(bits, 4)];
    assert FieldPrefix(bits, 6) == [LengthByte(bits, 0), LengthByte(bits, 1), LengthByte(bits, 2), LengthByte(bits, 3), LengthByte(bits, 4), LengthByte(bits, 5)];
    assert FieldPrefix(bits, 7) == [LengthByte(bits, 0), LengthByte(bits, 1), LengthByte(bits, 2), LengthByte(bits, 3), LengthByte(bits, 4), LengthByte(bits, 5), LengthByte(bits, 6)];
  }

  lemma LengthBytes(bits: Word)
    ensures LengthByte(bits, 0) == Lo8(bits) && LengthByte(bits, 4) == Lo8(bits)
    ensures LengthByte(bits, 1) == Lo8(bits >> 8) && LengthByte(bits, 5) == Lo8(bits >> 8)
    ensures LengthByte(bits, 2) == Lo8(bits >> 16) && LengthByte(bits, 6) == Lo8(bits >> 16)
    ensures LengthByte(bits, 3) == Lo8(bits >> 24) && LengthByte(bits, 7) == Lo8(bits >> 24)
  {
  }

  /** The message bytes, 0x80, the zeros and the length field for `lengthInBits`. */
  function PadWith(bytes: seq<Byte>, lengthInBits: Word): seq<Byte> {
    bytes + [0x80] + Zeros(ZeroCount(|bytes|)) + LengthField(lengthInBits)
  }

  /** The padded message as the code builds it. */
  function Pad(bytes: seq<Byte>): seq<Byte> {
    PadWith(bytes, BitLength(|bytes|))
  }

  /** The padded length is the least multiple of 64 that is at least L + 9, so the
      chunk loop runs ceil((L + 9) / 64) times. */
  lemma PadLength(bytes: seq<Byte>, lengthInBits: Word)
    ensures |PadWith(bytes, lengthInBits)| % 64 == 0
    ensures |bytes| + 9 <= |PadWith(bytes, lengthInBits)| < |bytes| + 9 + 64
    ensures |PadWith(bytes, lengthInBits)| / 64 == (|bytes| + 9 + 63) / 64
  {
    FieldPrefixEight(lengthInBits);
    ZeroCountLeast(|bytes|, ZeroCount(|bytes|));
    assert |PadWith(bytes, lengthInBits)| == |bytes| + 1 + ZeroCount(|bytes|) + 8;
  }

  /** The padded message splits into whole 64-byte chunks, ceil((L + 9) / 64) of them. */
  lemma PadChunks(bytes: seq<Byte>)
    ensures |Pad(bytes)| % 64 == 0 && |Pad(bytes)| / 64 == (|bytes| + 9 + 63) / 64
  {
    PadLength(bytes, BitLength(|bytes|));
  }

  /** The input is a prefix of the padded message, 0x80 follows it, then zeros up to
      the length field in the last eight bytes. */
  lemma PadContents(bytes: seq<Byte>, lengthInBits: Word)
    ensures PadWith(bytes, lengthInBits)[..|bytes|] == bytes
    ensures PadWith(bytes, lengthInBits)[|bytes|] == 0x80
    ensures forall k :: |bytes| < k < |PadWith(bytes, lengthInBits)| - 8 ==> PadWith(bytes, lengthInBits)[k] == 0
    ensures PadWith(bytes, lengthInBits)[|PadWith(bytes, lengthInBits)| - 8..] == LengthField(lengthInBits)
  {
    var p := PadWith(bytes, lengthInBits);
    var z := Zeros(ZeroCount(|bytes|));
    FieldPrefixEight(lengthInBits);
    assert p == bytes + [0x80] + z + LengthField(lengthInBits);
    ZerosAreZero(|z|);
    forall k | |bytes| < k < |p| - 8
      ensures p[k] == 0
    {
      assert p[k] == z[k - |bytes| - 1];
    }
  }

  /** Shift-count masking: bytes 4..7 of the length field repeat bytes 0..3, the
      little-endian bytes of the bit length mod 2^32. */
  lemma LengthFieldRepeats(bits: Word)
    ensures LengthField(bits) == LE32(bits) + LE32(bits)
  {
    FieldPrefixEight(bits);
    LengthBytes(bits);
  }

  /** Hence for every non-empty message the upper length word is not zero. */
  lemma UpperLengthWordNonZero(len: nat)
    requires 0 < len < 0x2000_0000
    ensures LengthField(BitLength(len))[4..] != [0, 0, 0, 0]
  {
    LengthFieldRepeats(BitLength(len));
    ToUint32Zero(8 * len);
    LE32Zero(BitLength(len));
  }

  /** The length field section 3.2 of RFC 1320 prescribes: the 64-bit bit length as
      two little-endian 32-bit words, low-order word first. */
  function StandardLengthField(len: nat): (s: seq<Byte>)
    ensures |s| == 8
  {
    LE32(BitLength(len)) + LE32(ToUint32(8 * len / 0x1_0000_0000))
  }

  /** For a message under 2^29 bytes the standard field holds the 32-bit bit length
      followed by four zero bytes; it agrees with the code's field only for the empty
      message. */
  lemma StandardLengthFieldAgreement(len: nat)
    requires len < 0x2000_0000
    ensures StandardLengthField(len) == LE32(BitLength(len)) + [0, 0, 0, 0]
    ensures StandardLengthField(len) == LengthField(BitLength(len)) <==> len == 0
  {
    assert 8 * len / 0x1_0000_0000 == 0;
    assert ToUint32(0) == 0;
    LengthFieldRepeats(BitLength(len));
    ToUint32Zero(8 * len);
    LE32Zero(BitLength(len));
    if StandardLengthField(len) == LengthField(BitLength(len)) {
      assert LengthField(BitLength(len))[4..] == [0, 0, 0, 0];
    }
  }

  /** The padding with the standard length field. */
  function StandardPad(bytes: seq<Byte>): seq<Byte> {
    bytes + [0x80] + Zeros(ZeroCount(|bytes|)) + StandardLengthField(|bytes|)
  }

  /** The standard padding differs from the code's exactly in the upper length word,
      so the two agree only for the empty message. */
  lemma StandardPadAgreement(bytes: seq<Byte>)
    requires |bytes| < 0x2000_0000
    ensures |StandardPad(bytes)| == |Pad(bytes)|
    ensures StandardPad(bytes)[..|Pad(bytes)| - 4] == Pad(bytes)[..|Pad(bytes)| - 4]
    ensures StandardPad(bytes) == Pad(bytes) <==> bytes == []
  {
    var head := bytes + [0x80] + Zeros(ZeroCount(|bytes|));
    StandardLengthFieldAgreement(|bytes|);
    var field := LengthField(BitLength(|bytes|));
    LengthFieldRepeats(BitLength(|bytes|));
    assert StandardPad(bytes) == head + StandardLengthField(|bytes|);
    assert Pad(bytes) == head + field;
    if StandardPad(bytes) == Pad(bytes) {
      assert StandardPad(bytes)[|head|..] == StandardLengthField(|bytes|);
      assert Pad(bytes)[|head|..] == field;
    }
  }

  /** The number an 8-byte length field holds, read as a 64-bit little-endian value. */
  function FieldValue(field: seq<Byte>): nat
    requires |field| == 8
  {
    WordLE(field[0], field[1], field[2], field[3]) as nat
    + 0x1_0000_0000 * WordLE(field[4], field[5], field[6], field[7]) as nat
  }

  /** The standard field holds the bit length: the 32-bit `lengthInBits` in the low
      word and nothing above it, which for a message under 2^29 bytes is all of 8 L. */
  lemma StandardFieldHoldsLength(len: nat)
    requires len < 0x2000_0000
    ensures FieldValue(StandardLengthField(len)) == BitLength(len) as nat
  {
    StandardLengthFieldAgreement(len);
    WordOfLE32(BitLength(len));
    assert WordLE(0, 0, 0, 0) == 0;
  }

  /** A field that holds the same word twice reads as 2^32 + 1 times that word. */
  lemma RepeatedFieldValue(w: Word)
    ensures FieldValue(LE32(w) + LE32(w)) == (0x1_0000_0000 + 1) * w as nat
  {
    var f := LE32(w) + LE32(w);
    assert f[..4] == LE32(w) && f[4..] == LE32(w);
    WordOfLE32(w);
    assert WordLE(f[0], f[1], f[2], f[3]) == w && WordLE(f[4], f[5], f[6], f[7]) == w;
  }

  /** The code's field holds the bit length in both words, so read as a 64-bit number
      it is 2^32 + 1 times the bit length, which is the bit length only for the empty
      message. */
  lemma CodeFieldMisstatesLength(len: nat)
    requires len < 0x2000_0000
    ensures FieldValue(LengthField(BitLength(len))) == (0x1_0000_0000 + 1) * BitLength(len) as nat
    ensures FieldValue(LengthField(BitLength(len))) == BitLength(len) as nat <==> len == 0
  {
    var bits := BitLength(len);
    LengthFieldRepeats(bits);
    RepeatedFieldValue(bits);
    ToUint32Zero(8 * len);
    var v := bits as nat;
    assert v == 0 <==> bits == 0;
    assert (0x1_0000_0000 + 1) * v == v <==> v == 0;
  }

  /** Text mode of `ripemd160Padding`: one byte per code unit, or the error thrown at
      the first code unit of 128 or more. */
  method TextModeBytes(message: seq<CodeUnit>) returns (r: Result<seq<Byte>>)
    ensures r == InputBytes(message, Text)
  {
    var bytes: seq<Byte> := [];
    for i := 0 to |message|
      invariant IsAscii(message[..i]) && bytes == AsciiBytes(message[..i])
    {
      if message[i] < 128 {
        assert message[..i + 1][..i] == message[..i];
        bytes := bytes + [message[i] as Byte];
      } else {
        return Failure(NonAsciiError);
      }
    }
    assert message[..|message|] == message;
    r := Success(bytes);
  }

  /** Binary mode of `ripemd160Padding`: `parseInt(message.slice(i, i + 8), 2)` for
      i = 0, 8, 16, ... */
  method BinaryModeBytes(message: seq<CodeUnit>) returns (bytes: seq<Byte>)
    requires IsBinaryString(message)
    ensures bytes == BinaryBytes(message)
  {
    bytes := [];
    var i := 0;
    while i < |message|
      invariant i % 8 == 0
      invariant i <= |message| ==> bytes + BinaryBytes(message[i..]) == BinaryBytes(message)
      invariant i > |message| ==> bytes == BinaryBytes(message)
      decreases |message| - i
    {
      var rest := message[i..];
      if i + 8 < |message| {
        assert rest[..8] == Group(message, i) && rest[8..] == message[i + 8..];
      } else {
        assert rest == Group(message, i);
        if i + 8 == |message| {
          assert message[i + 8..] == [];
        }
      }
      bytes := bytes + [BinaryValue(Group(message, i))];
      i := i + 8;
    }
  }

  /** 0x80, then zeros while the length is not 56 mod 64. */
  method PushMarkerAndZeros(input: seq<Byte>) returns (bytes: seq<Byte>)
    ensures bytes == input + [0x80] + Zeros(ZeroCount(|input|))
  {
    bytes := input + [0x80];
    while |bytes| % 64 != 56
      invariant |input| + 1 <= |bytes| <= |input| + 1 + ZeroCount(|input|)
      invariant bytes == input + [0x80] + Zeros(|bytes| - |input| - 1)
      decreases |input| + 1 + ZeroCount(|input|) - |bytes|
    {
      ZeroCountLeast(|input|, |bytes| - |input| - 1);
      bytes := bytes + [0];
    }
    ZeroCountLeast(|input|, |bytes| - |input| - 1);
  }

  /** The length loop: eight bytes `(lengthInBits >>> (i * 8)) & 0xFF`. */
  method PushLength(prefix: seq<Byte>, lengthInBits: Word) returns (bytes: seq<Byte>)
    ensures bytes == prefix + FieldPrefix(lengthInBits, 8)
  {
    bytes := prefix;
    var i: Word := 0;
    while i < 8
      invariant i <= 8
      invariant bytes == prefix + FieldPrefix(lengthInBits, i)
    {
      bytes := bytes + [LengthByte(lengthInBits, i)];
      i := i + 1;
    }
  }

  /** The second half of `ripemd160Padding`: 0x80, the zero bytes and the length field
      pushed onto the message bytes. */
  method AppendPadding(input: seq<Byte>) returns (bytes: seq<Byte>)
    ensures bytes == Pad(input)
  {
    bytes := PushMarkerAndZeros(input);
    var lengthInBits := BitLength(|input|);
    bytes := PushLength(bytes, lengthInBits);
  }

  /** `ripemd160Padding(message, base)`, or the error it throws. */
  method RipemdPadding(message: seq<CodeUnit>, base: Base) returns (r: Result<seq<Byte>>)
    requires base == Binary ==> IsBinaryString(message)
    ensures r.Failure? <==> base == Text && !IsAscii(message)
    ensures r.Failure? ==> r.error == NonAsciiError
    ensures r.Success? ==> r.value == Pad(InputBytes(message, base).value)
  {
    var bytes: seq<Byte>;
    if base == Text {
      var text := TextModeBytes(message);
      if text.Failure? {
        return Failure(text.error);
      }
      bytes := text.value;
    } else {
      bytes := BinaryModeBytes(message);
    }
    var padded := AppendPadding(bytes);
    r := Success(padded);
  }
}
