/** `ripemd160` of the hash module: padding in text mode, the
    chunk loop with its 80-round two-lane compression, the combine, and the
    40-character little-endian hexadecimal digest. */
module Ripemd160 {
  import opened Bits
  import opened Selection
  import opened Schedule
  import opened Padding
  import opened Compression

  /** `toHexLE(value)`: the four bytes least-significant first, each written as two
      lowercase hexadecimal digits, joined. */
  function ToHexLE(value: Word): string {
    Hex([Lo8(value >> 0), Lo8(value >> 8), Lo8(value >> 16), Lo8(value >> 24)])
  }

  /** The returned string: `toHexLE(h0) + ... + toHexLE(h4)`. */
  function HexDigest(h: State): string {
    ToHexLE(h.h0) + ToHexLE(h.h1) + ToHexLE(h.h2) + ToHexLE(h.h3) + ToHexLE(h.h4)
  }

  /** The hexadecimal digest is the 20 digest bytes written as 40 lowercase hex digits,
      so reading it back gives the bytes. */
  lemma HexDigestIsHexOfDigestBytes(h: State)
    ensures HexDigest(h) == Hex(DigestBytes(h))
    ensures |HexDigest(h)| == 40
    ensures UnHex(HexDigest(h)) == DigestBytes(h)
  {
    ToHexLEIsHex(h.h0);
    ToHexLEIsHex(h.h1);
    ToHexLEIsHex(h.h2);
    ToHexLEIsHex(h.h3);
    ToHexLEIsHex(h.h4);
    var d := DigestBytes(h);
    HexAppend(LE32(h.h0), LE32(h.h1));
    HexAppend(LE32(h.h0) + LE32(h.h1), LE32(h.h2));
    HexAppend(LE32(h.h0) + LE32(h.h1) + LE32(h.h2), LE32(h.h3));
    HexAppend(LE32(h.h0) + LE32(h.h1) + LE32(h.h2) + LE32(h.h3), LE32(h.h4));
    UnHexHex(d);
  }

  /** `toHexLE` writes the word's little-endian bytes in hexadecimal. */
  lemma ToHexLEIsHex(value: Word)
    ensures ToHexLE(value) == Hex(LE32(value))
  {
    assert value >> 0 == value;
  }

  /** The chunk count ripemd160 runs over the padded message. */
  function ChunkCount(padded: seq<Byte>): nat {
    |padded| / 64
  }

  /** The digest of a message of bytes, as the chunk loop computes it. */
  function DigestOfBytes(bytes: seq<Byte>): State {
    var padded := Pad(bytes);
    StateAfter(padded, ChunkCount(padded))
  }

  /** What `ripemd160(message)` returns, or the error it throws. */
  function Ripemd160Hex(message: seq<CodeUnit>): Result<string> {
    if IsAscii(message) then Success(HexDigest(DigestOfBytes(AsciiBytes(message))))
    else Failure(NonAsciiError)
  }

  /** `ripemd160(message)`: text-mode padding (which throws on a code unit of 128 or
      more), the chunk loop, and the hexadecimal serialisation of h0..h4. */
  method Ripemd160(message: seq<CodeUnit>) returns (r: Result<string>)
    ensures r == Ripemd160Hex(message)
  {
    var padding := RipemdPadding(message, Text);
    if padding.Failure? {
      return Failure(padding.error);
    }
    var paddedBytes := padding.value;
    PadChunks(AsciiBytes(message));
    var h0, h1, h2, h3, h4 := HashChunks(paddedBytes, ChunkCount(paddedBytes));
    r := Success(ToHexLE(h0) + ToHexLE(h1) + ToHexLE(h2) + ToHexLE(h3) + ToHexLE(h4));
  }

  /** The chunk loop of `ripemd160`: h0..h4 start at the initial values and each 64-byte
      chunk is compressed into them in turn. */
  method HashChunks(paddedBytes: seq<Byte>, ghost chunks: nat) returns (h0: Word, h1: Word, h2: Word, h3: Word, h4: Word)
    requires |paddedBytes| == 64 * chunks
    ensures State(h0, h1, h2, h3, h4) == StateAfter(paddedBytes, chunks)
  {
    h0, h1, h2, h3, h4 := 0x6745_2301, 0xefcd_ab89, 0x98ba_dcfe, 0x1032_5476, 0xc3d2_e1f0;
    var chunkStart := 0;
    ghost var chunk := 0;
    while chunkStart < |paddedBytes|
      invariant chunkStart == 64 * chunk && chunk <= chunks
      invariant |paddedBytes| == 64 * chunks
      invariant State(h0, h1, h2, h3, h4) == StateAfter(paddedBytes, chunk)
      decreases |paddedBytes| - chunkStart
    {
      ChunkInRange(chunkStart, chunk, chunks);
      h0, h1, h2, h3, h4 := ProcessChunk(h0, h1, h2, h3, h4, paddedBytes, chunkStart, chunk, chunks);
      chunkStart, chunk := chunkStart + 64, chunk + 1;
    }
    LastChunk(chunkStart, chunk, chunks);
  }

  /** The chunk loop stops exactly after the last chunk. */
  lemma LastChunk(chunkStart: nat, chunk: nat, chunks: nat)
    requires chunkStart == 64 * chunk && chunk <= chunks && chunkStart >= 64 * chunks
    ensures chunk == chunks
  {
  }

  /** A chunk that starts inside the padded message is one of its chunks. */
  lemma ChunkInRange(chunkStart: nat, chunk: nat, chunks: nat)
    requires chunkStart == 64 * chunk && chunkStart < 64 * chunks
    ensures chunk < chunks
  {
  }

  /** The body of the chunk loop: read the chunk's 16 words, run the rounds, combine. */
  method ProcessChunk(h0: Word, h1: Word, h2: Word, h3: Word, h4: Word,
                      paddedBytes: seq<Byte>, chunkStart: nat, ghost chunk: nat, ghost chunks: nat)
    returns (n0: Word, n1: Word, n2: Word, n3: Word, n4: Word)
    requires chunkStart == 64 * chunk && chunk < chunks && |paddedBytes| == 64 * chunks
    requires State(h0, h1, h2, h3, h4) == StateAfter(paddedBytes, chunk)
    ensures State(n0, n1, n2, n3, n4) == StateAfter(paddedBytes, chunk + 1)
  {
    var w := ReadChunk(paddedBytes, chunkStart, chunk);
    n0, n1, n2, n3, n4 := CompressChunk(h0, h1, h2, h3, h4, w);
  }

  /** The word loop at the head of each chunk: `w[i]` is the little-endian word at
      `chunkStart + 4 * i`. */
  method ReadChunk(paddedBytes: seq<Byte>, chunkStart: nat, ghost chunk: nat) returns (w: array<Word>)
    requires chunkStart == 64 * chunk && chunkStart + 64 <= |paddedBytes|
    ensures fresh(w) && w[..] == ChunkWords(paddedBytes, chunk)
  {
    w := new Word[16];
    for i := 0 to 16
      invariant forall k :: 0 <= k < i ==> w[k] == WordAt(paddedBytes, chunkStart + 4 * k)
    {
      var byteOffset := chunkStart + i * 4;
      w[i] := WordLE(paddedBytes[byteOffset], paddedBytes[byteOffset + 1],
                     paddedBytes[byteOffset + 2], paddedBytes[byteOffset + 3]);
    }
  }

  /** The body of the chunk loop after the words are read: the 80 rounds on both lanes
      and the combine. */
  method CompressChunk(h0: Word, h1: Word, h2: Word, h3: Word, h4: Word, w: array<Word>)
    returns (n0: Word, n1: Word, n2: Word, n3: Word, n4: Word)
    requires w.Length == 16
    ensures State(n0, n1, n2, n3, n4) == Compress(State(h0, h1, h2, h3, h4), w[..])
  {
    var al, bl, cl, dl, el := h0, h1, h2, h3, h4;
    var ar, br, cr, dr, er := h0, h1, h2, h3, h4;
    ghost var init := Lanes(State(h0, h1, h2, h3, h4));
    for i := 0 to 80
      invariant Regs(al, bl, cl, dl, el) == LeftRounds(i, init, w[..])
      invariant Regs(ar, br, cr, dr, er) == RightRounds(i, init, w[..])
    {
      var t := LeftT(i, Regs(al, bl, cl, dl, el), w[..]);
      t := Add(t, el);
      al, el, dl, cl, bl := el, dl, RotateLeft(cl, 10), bl, t;
      t := RightT(i, Regs(ar, br, cr, dr, er), w[..]);
      t := Add(t, er);
      ar, er, dr, cr, br := er, dr, RotateLeft(cr, 10), br, t;
    }
    var t := Add3(h1, cl, dr);
    n1 := Add3(h2, dl, er);
    n2 := Add3(h3, el, ar);
    n3 := Add3(h4, al, br);
    n4 := Add3(h0, bl, cr);
    n0 := t;
  }
}
