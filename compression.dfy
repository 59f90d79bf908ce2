/** The compression function of the hash module as a specification: the two lanes of
    80 rounds over one 16-word block, the permuted-addition combine, the chunk fold
    over the padded message and the little-endian digest. */
module Compression {
  import opened Bits
  import opened Selection
  import opened Schedule

  /** The 16 message words of one 64-byte chunk. */
  type Block = s: seq<Word> | |s| == 16
    witness [0, 0, 0, 0, 0, 0, 0, 0, 0, 0, 0, 0, 0, 0, 0, 0]

  /** The five working registers A..E of one lane. */
  datatype Regs = Regs(a: Word, b: Word, c: Word, d: Word, e: Word)

  /** The chaining state h0..h4. */
  datatype State = State(h0: Word, h1: Word, h2: Word, h3: Word, h4: Word)

  const IV := State(0x6745_2301, 0xefcd_ab89, 0x98ba_dcfe, 0x1032_5476, 0xc3d2_e1f0)

  /** Both lanes start a chunk from the chaining state: A = h0, ..., E = h4. */
  function Lanes(h: State): Regs {
    Regs(h.h0, h.h1, h.h2, h.h3, h.h4)
  }

  /** The left lane's rotated sum in round i: rotl(A + f(i)(B, C, D) + X[r(i)] + K(i), s(i)),
      with f, r, K and s chosen by the quintet as the hash module's `if` chain does. */
  function LeftT(i: Round, r: Regs, x: Block): Word {
    RotateLeft(Add4(r.a, LeftSelect(i, r.b, r.c, r.d), x[LeftWordIndex(i)], LeftConstant(i)), LeftShift(i))
  }

  /** The right lane's rotated sum in round i. */
  function RightT(i: Round, r: Regs, x: Block): Word {
    RotateLeft(Add4(r.a, RightSelect(i, r.b, r.c, r.d), x[RightWordIndex(i)], RightConstant(i)), RightShift(i))
  }

  /** One left-lane round: T = LeftT + E, then A, B, C, D, E := E, T, B, rotl(C, 10), D. */
  function LeftRound(i: Round, r: Regs, x: Block): Regs {
    Regs(r.e, Add(LeftT(i, r, x), r.e), r.b, RotateLeft(r.c, 10), r.d)
  }

  /** One right-lane round. */
  function RightRound(i: Round, r: Regs, x: Block): Regs {
    Regs(r.e, Add(RightT(i, r, x), r.e), r.b, RotateLeft(r.c, 10), r.d)
  }

  /** The left lane after its first n rounds. */
  function LeftRounds(n: nat, r: Regs, x: Block): Regs
    requires n <= 80
  {
    if n == 0 then r else LeftRound(n - 1, LeftRounds(n - 1, r, x), x)
  }

  /** The right lane after its first n rounds. */
  function RightRounds(n: nat, r: Regs, x: Block): Regs
    requires n <= 80
  {
    if n == 0 then r else RightRound(n - 1, RightRounds(n - 1, r, x), x)
  }

  /** The combine: (h1 + C + D', h2 + D + E', h3 + E + A', h4 + A + B', h0 + B + C'),
      primes marking the right lane. */
  function Combine(h: State, left: Regs, right: Regs): State {
    State(Add3(h.h1, left.c, right.d),
          Add3(h.h2, left.d, right.e),
          Add3(h.h3, left.e, right.a),
          Add3(h.h4, left.a, right.b),
          Add3(h.h0, left.b, right.c))
  }

  /** One chunk: both lanes run all 80 rounds from the state, then combine. */
  function Compress(h: State, x: Block): State {
    Combine(h, LeftRounds(80, Lanes(h), x), RightRounds(80, Lanes(h), x))
  }

  /** The little-endian word at `offset`, or 0 where the four bytes are not all there. */
  function WordAt(padded: seq<Byte>, offset: nat): Word {
    if offset + 3 < |padded| then
      WordLE(padded[offset], padded[offset + 1], padded[offset + 2], padded[offset + 3])
    else 0
  }

  /** Words `w[0..15]` of chunk c. */
  function ChunkWords(padded: seq<Byte>, c: nat): Block {
    seq(16, k requires 0 <= k < 16 => WordAt(padded, c * 64 + 4 * k))
  }

  /** The chaining state after the first n chunks. */
  function StateAfter(padded: seq<Byte>, n: nat): State {
    if n == 0 then IV else Compress(StateAfter(padded, n - 1), ChunkWords(padded, n - 1))
  }

  /** The 20 digest bytes: h0..h4, each least-significant byte first. */
  function DigestBytes(h: State): seq<Byte> {
    LE32(h.h0) + LE32(h.h1) + LE32(h.h2) + LE32(h.h3) + LE32(h.h4)
  }

  /** The digest bytes determine the state: reading them back as little-endian words
      gives h0..h4. */
  lemma DigestBytesDetermineState(h: State)
    ensures |DigestBytes(h)| == 20
    ensures var d := DigestBytes(h);
      State(WordLE(d[0], d[1], d[2], d[3]), WordLE(d[4], d[5], d[6], d[7]),
            WordLE(d[8], d[9], d[10], d[11]), WordLE(d[12], d[13], d[14], d[15]),
            WordLE(d[16], d[17], d[18], d[19])) == h
  {
    WordOfLE32(h.h0);
    WordOfLE32(h.h1);
    WordOfLE32(h.h2);
    WordOfLE32(h.h3);
    WordOfLE32(h.h4);
  }
}
