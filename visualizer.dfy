/** The step-by-step visualiser (`ripemd160-visualizer.js`): its own padding, the split
    into 16-word blocks, and a two-lane compression that records every one of the 80
    steps of every block.  It keeps its own selection tables and its own `switch` on the
    round, which are shown here to agree with the hash module's schedule.  One line of
    its round differs from the hash module: B is set to rotl(T, s) plus the lane's new E,
    which is the old D, where the hash module adds the old E.  `AsWritten` models the
    visualiser's line; `Corrected` adds the old E, and that variant is proved to compute
    the hash module's digest. */
module Visualizer {
  import opened Bits
  import Selection
  import opened Schedule
  import opened Compression
  import opened Padding
  import opened Ripemd160
  import RipemdFunction

  // ---------------------------------------------------------------------------
  // Tables of `compressWithSteps`, five rows of 16 as the visualiser writes them

  const Rl: seq<WordIndex> := [0, 1, 2, 3, 4, 5, 6, 7, 8, 9, 10, 11, 12, 13, 14, 15]
                            + [7, 4, 13, 1, 10, 6, 15, 3, 12, 0, 9, 5, 2, 14, 11, 8]
                            + [3, 10, 14, 4, 9, 15, 8, 1, 2, 7, 0, 6, 13, 11, 5, 12]
                            + [1, 9, 11, 10, 0, 8, 12, 4, 13, 3, 7, 15, 14, 5, 6, 2]
                            + [4, 0, 5, 9, 7, 12, 2, 10, 14, 1, 3, 8, 11, 6, 15, 13]

  const Rr: seq<WordIndex> := [5, 14, 7, 0, 9, 2, 11, 4, 13, 6, 15, 8, 1, 10, 3, 12]
                            + [6, 11, 3, 7, 0, 13, 5, 10, 14, 15, 8, 12, 4, 9, 1, 2]
                            + [15, 5, 1, 3, 7, 14, 6, 9, 11, 8, 12, 2, 10, 0, 4, 13]
                            + [8, 6, 4, 1, 3, 11, 15, 0, 5, 12, 2, 13, 9, 7, 10, 14]
                            + [12, 15, 10, 4, 1, 5, 8, 7, 6, 2, 13, 14, 0, 3, 9, 11]

  const Sl: seq<Word> := [11, 14, 15, 12, 5, 8, 7, 9, 11, 13, 14, 15, 6, 7, 9, 8]
                       + [7, 6, 8, 13, 11, 9, 7, 15, 7, 12, 15, 9, 11, 7, 13, 12]
                       + [11, 13, 6, 7, 14, 9, 13, 15, 14, 8, 13, 6, 5, 12, 7, 5]
                       + [11, 12, 14, 15, 14, 15, 9, 8, 9, 14, 5, 6, 8, 6, 5, 12]
                       + [9, 15, 5, 11, 6, 8, 13, 12, 5, 12, 13, 14, 11, 8, 5, 6]

  const Sr: seq<Word> := [8, 9, 9, 11, 13, 15, 15, 5, 7, 7, 8, 11, 14, 14, 12, 6]
                       + [9, 13, 15, 7, 12, 8, 9, 11, 7, 7, 12, 7, 6, 15, 13, 11]
                       + [9, 7, 15, 11, 8, 6, 6, 14, 12, 13, 5, 14, 13, 13, 7, 5]
                       + [15, 5, 8, 11, 14, 14, 6, 14, 6, 9, 12, 9, 12, 5, 15, 8]
                       + [8, 5, 12, 9, 12, 5, 14, 6, 8, 13, 6, 5, 15, 13, 11, 11]

  const Functions: seq<string> := ["F", "G", "H", "I", "J"]

  /** The quintet of step i, `Math.floor(i / 16)`. */
  function RoundOf(i: Round): (round: nat)
    ensures round < 5
  {
    i / 16
  }

  /** The left lane's `switch (round)`: the selection function applied to B, C, D and
      the additive constant. */
  function LeftCase(round: nat, b: Word, c: Word, d: Word): (Word, Word)
    requires round < 5
  {
    if round == 0 then (Selection.F(b, c, d), 0x0000_0000)
    else if round == 1 then (Selection.G(b, c, d), 0x5a82_7999)
    else if round == 2 then (Selection.H(b, c, d), 0x6ed9_eba1)
    else if round == 3 then (Selection.I(b, c, d), 0x8f1b_bcdc)
    else (Selection.J(b, c, d), 0xa953_fd4e)
  }

  /** The right lane's `switch (round)`. */
  function RightCase(round: nat, b: Word, c: Word, d: Word): (Word, Word)
    requires round < 5
  {
    if round == 0 then (Selection.J(b, c, d), 0x50a2_8be6)
    else if round == 1 then (Selection.I(b, c, d), 0x5c4d_d124)
    else if round == 2 then (Selection.H(b, c, d), 0x6d70_3ef3)
    else if round == 3 then (Selection.G(b, c, d), 0x7a6d_76e9)
    else (Selection.F(b, c, d), 0x0000_0000)
  }

  /** The visualiser's `rotateLeft(value, amount)`, which does not reduce the amount
      first. */
  function RotateLeft(value: Word, amount: Word): Word {
    Shl(value, amount) | Ushr(value, 32 - amount)
  }

  // ---------------------------------------------------------------------------
  // The rounds as the visualiser computes them

  /** Which E the new B adds: the visualiser's line, or the round as the hash module
      and the algorithm have it. */
  datatype Variant = AsWritten | Corrected

  /** The left lane's rotated sum in step i: rotl(A + f(B, C, D) + X[rl[i]] + K, sl[i]),
      with f and K from the `switch (round)`. */
  function LeftRotated(i: Round, r: Regs, x: Block): Word {
    var fk := LeftCase(RoundOf(i), r.b, r.c, r.d);
    RotateLeft(Add4(r.a, fk.0, x[Rl[i]], fk.1), Sl[i])
  }

  /** The right lane's rotated sum in step i. */
  function RightRotated(i: Round, r: Regs, x: Block): Word {
    var fk := RightCase(RoundOf(i), r.b, r.c, r.d);
    RotateLeft(Add4(r.a, fk.0, x[Rr[i]], fk.1), Sr[i])
  }

  /** The E that the new B adds: the lane's updated E, which is the old D, as written;
      the old E when corrected. */
  function AddedE(v: Variant, r: Regs): Word {
    if v == AsWritten then r.d else r.e
  }

  /** One left-lane step: A, E, D, C := E, D, rotl(C, 10), B and B := the rotated sum
      plus the added E. */
  function LeftStep(v: Variant, i: Round, r: Regs, x: Block): Regs {
    Regs(r.e, Add(LeftRotated(i, r, x), AddedE(v, r)), r.b, RotateLeft(r.c, 10), r.d)
  }

  /** One right-lane step. */
  function RightStep(v: Variant, i: Round, r: Regs, x: Block): Regs {
    Regs(r.e, Add(RightRotated(i, r, x), AddedE(v, r)), r.b, RotateLeft(r.c, 10), r.d)
  }

  /** The left lane after its first n steps. */
  function LeftSteps(v: Variant, n: nat, r: Regs, x: Block): Regs
    requires n <= 80
  {
    if n == 0 then r else LeftStep(v, n - 1, LeftSteps(v, n - 1, r, x), x)
  }

  /** The right lane after its first n steps. */
  function RightSteps(v: Variant, n: nat, r: Regs, x: Block): Regs
    requires n <= 80
  {
    if n == 0 then r else RightStep(v, n - 1, RightSteps(v, n - 1, r, x), x)
  }

  /** One block: both lanes start from the chaining state, run 80 steps and combine. */
  function BlockCompress(v: Variant, h: State, x: Block): State {
    Combine(h, LeftSteps(v, 80, Lanes(h), x), RightSteps(v, 80, Lanes(h), x))
  }

  /** The chaining state after the first n blocks. */
  function BlockStateAfter(v: Variant, padded: seq<Byte>, n: nat): State
    decreases n, 1
  {
    if n == 0 then IV else BlockRun(v, padded, n - 1)
  }

  /** The chaining state once block c has been compressed. */
  function BlockRun(v: Variant, padded: seq<Byte>, c: nat): State
    decreases c + 1, 0
  {
    BlockCompress(v, BlockStateAfter(v, padded, c), ChunkWords(padded, c))
  }

  /** The 20 hash bytes the visualiser shows for a message of bytes. */
  function VisualDigest(v: Variant, bytes: seq<Byte>): seq<Byte> {
    var padded := Pad(bytes);
    DigestBytes(BlockStateAfter(v, padded, ChunkCount(padded)))
  }

  // ---------------------------------------------------------------------------
  // The step records

  /** What one lane shows in a step record: its registers after the step, the name of
      the function, the message word read and its index, the constant and the rotation.
      The operands the record prints beside the function name are the B, C, D of `regs`,
      that is, the values after the step. */
  datatype LaneRecord = LaneRecord(regs: Regs, functionName: string, wordIndex: WordIndex, word: Word,
                                   constant: Word, shift: Word)

  /** One entry of `steps`. */
  datatype StepRecord = StepRecord(step: nat, round: nat, functionName: string,
                                   left: LaneRecord, right: LaneRecord, blockNum: nat)

  /** What the left lane shows for step i, given the lane before the step. */
  function LeftLaneRecord(i: Round, l: Regs, x: Block): LaneRecord {
    LaneRecord(LeftStep(AsWritten, i, l, x), Functions[RoundOf(i)], Rl[i], x[Rl[i]],
               LeftCase(RoundOf(i), l.b, l.c, l.d).1, Sl[i])
  }

  /** What the right lane shows for step i; its function name is `functions[4 - round]`. */
  function RightLaneRecord(i: Round, r: Regs, x: Block): LaneRecord {
    LaneRecord(RightStep(AsWritten, i, r, x), Functions[4 - RoundOf(i)], Rr[i], x[Rr[i]],
               RightCase(RoundOf(i), r.b, r.c, r.d).1, Sr[i])
  }

  /** The record of step i of block `blockNum`, given the lanes before the step. */
  function RecordOf(i: Round, l: Regs, r: Regs, x: Block, blockNum: nat): StepRecord {
    StepRecord(i + 1, RoundOf(i) + 1, Functions[RoundOf(i)], LeftLaneRecord(i, l, x), RightLaneRecord(i, r, x), blockNum)
  }

  /** The record of each step of one block, from the lanes before the block. */
  function RecordsFrom(left: Regs, right: Regs, x: Block, blockNum: nat): nat --> StepRecord {
    (i: nat) requires i < 80 =>
      RecordOf(i, LeftSteps(AsWritten, i, left, x), RightSteps(AsWritten, i, right, x), x, blockNum)
  }

  /** f(0), ..., f(n - 1). */
  function Listing<T>(f: nat --> T, n: nat): (s: seq<T>)
    requires forall i: nat :: i < n ==> f.requires(i)
    ensures |s| == n
  {
    if n == 0 then [] else Listing(f, n - 1) + [f(n - 1)]
  }

  /** The records of the first n steps of one block. */
  function StepsOf(n: nat, left: Regs, right: Regs, x: Block, blockNum: nat): (s: seq<StepRecord>)
    requires n <= 80
  {
    Listing(RecordsFrom(left, right, x, blockNum), n)
  }

  /** The 80 records of block c, from the chaining state before it. */
  function BlockRecords(padded: seq<Byte>, c: nat): (s: seq<StepRecord>)
    ensures |s| == 80
  {
    var h := BlockStateAfter(AsWritten, padded, c);
    StepsOf(80, Lanes(h), Lanes(h), ChunkWords(padded, c), c)
  }

  /** The records of every block, block by block. */
  function BlockRecordsOf(padded: seq<Byte>): nat -> seq<StepRecord> {
    (c: nat) => BlockRecords(padded, c)
  }

  /** The parts 0 .. n - 1 one after the other. */
  function Concat<T>(parts: nat -> seq<T>, n: nat): seq<T> {
    if n == 0 then [] else Concat(parts, n - 1) + parts(n - 1)
  }

  /** n parts of w elements each make n * w elements. */
  lemma {:induction false} ConcatLength<T>(parts: nat -> seq<T>, w: nat, n: nat)
    requires forall c: nat :: |parts(c)| == w
    ensures |Concat(parts, n)| == w * n
  {
    if n > 0 {
      ConcatLength(parts, w, n - 1);
      assert w * n == w * (n - 1) + w;
    }
  }

  /** The records of the first n blocks. */
  function StepsAfter(padded: seq<Byte>, n: nat): (s: seq<StepRecord>)
    ensures |s| == 80 * n
  {
    ConcatLength(BlockRecordsOf(padded), 80, n);
    Concat(BlockRecordsOf(padded), n)
  }

  /** The `steps` array the visualiser pushes to. */
  class StepLog {
    var steps: seq<StepRecord>

    constructor()
      ensures steps == []
    {
      steps := [];
    }
  }

  // ---------------------------------------------------------------------------
  // The visualiser's methods

  /** `padMessage(messageBytes)`: a zeroed array of the padded length, the message, 0x80
      and the eight length bytes at the end. */
  method PadMessage(messageBytes: seq<Byte>) returns (padded: array<Byte>)
    ensures fresh(padded) && padded[..] == Pad(messageBytes)
  {
    var paddedLength := PaddedLength(|messageBytes|);
    padded := new Byte[paddedLength](_ => 0);
    forall k | 0 <= k < |messageBytes| {
      padded[k] := messageBytes[k];
    }
    padded[|messageBytes|] := 0x80;
    PaddedHead(messageBytes, padded[..paddedLength - 8]);
    WriteLength(padded, BitLength(|messageBytes|));
  }

  /** The length loop of `padMessage`: one past the message, then up by one until eight
      more bytes reach a multiple of 64, then the eight bytes. */
  method PaddedLength(len: nat) returns (paddedLength: nat)
    ensures paddedLength == len + 1 + ZeroCount(len) + 8
  {
    paddedLength := len + 1;
    while (paddedLength + 8) % 64 != 0
      invariant len + 1 <= paddedLength <= len + 1 + ZeroCount(len)
      decreases len + 1 + ZeroCount(len) - paddedLength
    {
      ZeroCountLeast(len, paddedLength - len - 1);
      paddedLength := paddedLength + 1;
    }
    ZeroCountLeast(len, paddedLength - len - 1);
    paddedLength := paddedLength + 8;
  }

  /** The message, 0x80 and zeros up to the length field. */
  lemma PaddedHead(bytes: seq<Byte>, s: seq<Byte>)
    requires |s| == |bytes| + 1 + ZeroCount(|bytes|)
    requires forall k :: 0 <= k < |bytes| ==> s[k] == bytes[k]
    requires s[|bytes|] == 0x80
    requires forall k :: |bytes| < k < |s| ==> s[k] == 0
    ensures s == bytes + [0x80] + Zeros(ZeroCount(|bytes|))
  {
    var p := bytes + [0x80] + Zeros(ZeroCount(|bytes|));
    ZerosAreZero(ZeroCount(|bytes|));
    forall k | 0 <= k < |s|
      ensures s[k] == p[k]
    {
      if k > |bytes| {
        assert p[k] == Zeros(ZeroCount(|bytes|))[k - |bytes| - 1];
      }
    }
  }

  /** A loop counter of at most 8 as the 32-bit integer a shift sees. */
  function CounterWord(i: nat): (w: Word)
    requires i <= 8
  {
    if i == 0 then 0 else if i == 1 then 1 else if i == 2 then 2 else if i == 3 then 3
    else if i == 4 then 4 else if i == 5 then 5 else if i == 6 then 6 else if i == 7 then 7 else 8
  }

  lemma CounterWordNext(i: nat)
    requires i < 8
    ensures CounterWord(i) < 8 && CounterWord(i + 1) == CounterWord(i) + 1
  {
  }

  /** The length loop: byte i of the last eight is `(messageBitLen >>> (i * 8)) & 0xff`. */
  method WriteLength(padded: array<Byte>, bits: Word)
    requires padded.Length >= 8
    modifies padded
    ensures padded[..] == old(padded[..padded.Length - 8]) + LengthField(bits)
  {
    var start := padded.Length - 8;
    ghost var written: seq<Byte> := [];
    for i := 0 to 8
      invariant |written| == i && written == FieldPrefix(bits, CounterWord(i))
      invariant forall k :: 0 <= k < start ==> padded[k] == old(padded[k])
      invariant forall k :: 0 <= k < i ==> padded[start + k] == written[k]
    {
      var b := LengthByteAt(bits, i);
      padded[start + i] := b;
      written := written + [b];
    }
    Juxtaposed(padded[..], old(padded[..start]), written);
  }
  /** `(messageBitLen >>> (i * 8)) & 0xff`, the length byte the loop writes at step i. */
  method LengthByteAt(bits: Word, i: nat) returns (b: Byte)
    requires i < 8
    ensures FieldPrefix(bits, CounterWord(i + 1)) == FieldPrefix(bits, CounterWord(i)) + [b]
  {
    CounterWordNext(i);
    b := LengthByte(bits, CounterWord(i));
  }

  /** A sequence that agrees with `head` and then with `tail` is their concatenation. */
  lemma Juxtaposed<T>(s: seq<T>, head: seq<T>, tail: seq<T>)
    requires |s| == |head| + |tail|
    requires forall k :: 0 <= k < |head| ==> s[k] == head[k]
    requires forall k :: 0 <= k < |tail| ==> s[|head| + k] == tail[k]
    ensures s == head + tail
  {
  }

  /** The first n blocks of a padded message. */
  function Blocks(padded: seq<Byte>, n: nat): (blocks: seq<Block>)
    ensures |blocks| == n
  {
    if n == 0 then [] else Blocks(padded, n - 1) + [ChunkWords(padded, n - 1)]
  }

  /** Block c of the split is the c-th run of 16 little-endian words. */
  lemma {:induction false} BlocksAt(padded: seq<Byte>, n: nat, c: nat)
    requires c < n
    ensures Blocks(padded, n)[c] == ChunkWords(padded, c)
  {
    if c < n - 1 {
      BlocksAt(padded, n - 1, c);
    }
  }

  /** `createMessageBlocks(message)`, on the message's bytes: the padded message cut
      into blocks of 16 little-endian words. */
  method CreateMessageBlocks(messageBytes: seq<Byte>) returns (blocks: seq<Block>)
    ensures blocks == Blocks(Pad(messageBytes), ChunkCount(Pad(messageBytes)))
  {
    var padded := PadMessage(messageBytes);
    PadChunks(messageBytes);
    blocks := SplitBlocks(padded);
  }

  /** The block loop of `createMessageBlocks`. */
  method SplitBlocks(padded: array<Byte>) returns (blocks: seq<Block>)
    requires padded.Length % 64 == 0
    ensures blocks == Blocks(padded[..], padded.Length / 64)
  {
    blocks := [];
    var i := 0;
    while i < padded.Length
      invariant i == 64 * |blocks| && i <= padded.Length
      invariant blocks == Blocks(padded[..], |blocks|)
    {
      var block := ReadChunk(padded[..], i, |blocks|);
      blocks := blocks + [block[..]];
      i := i + 64;
    }
  }

  /** `compressWithSteps(leftRegs, rightRegs, X, blockNum, steps)`: 80 steps on both
      lanes, one record pushed per step; returns both lanes. */
  method CompressWithSteps(left: Regs, right: Regs, x: Block, blockNum: nat, log: StepLog)
    returns (l: Regs, r: Regs)
    modifies log
    ensures l == LeftSteps(AsWritten, 80, left, x) && r == RightSteps(AsWritten, 80, right, x)
    ensures log.steps == old(log.steps) + StepsOf(80, left, right, x, blockNum)
  {
    var al, bl, cl, dl, el := left.a, left.b, left.c, left.d, left.e;
    var ar, br, cr, dr, er := right.a, right.b, right.c, right.d, right.e;
    for i := 0 to 80
      invariant Regs(al, bl, cl, dl, el) == LeftSteps(AsWritten, i, left, x)
      invariant Regs(ar, br, cr, dr, er) == RightSteps(AsWritten, i, right, x)
      invariant log.steps == old(log.steps) + StepsOf(i, left, right, x, blockNum)
    {
      StepsNext(i, left, right, x, blockNum);
      ghost var done := StepsOf(i, left, right, x, blockNum);
      al, bl, cl, dl, el, ar, br, cr, dr, er := Step(i, al, bl, cl, dl, el, ar, br, cr, dr, er, x, blockNum, log);
      Associative(old(log.steps), done, [RecordOf(i, LeftSteps(AsWritten, i, left, x), RightSteps(AsWritten, i, right, x), x, blockNum)]);
    }
    l, r := Regs(al, bl, cl, dl, el), Regs(ar, br, cr, dr, er);
  }

  /** Appending is associative. */
  lemma Associative<T>(a: seq<T>, b: seq<T>, c: seq<T>)
    ensures a + b + c == a + (b + c)
  {
  }

  /** One more step: one more round on each lane and one more record. */
  lemma StepsNext(i: Round, left: Regs, right: Regs, x: Block, blockNum: nat)
    ensures LeftSteps(AsWritten, i + 1, left, x) == LeftStep(AsWritten, i, LeftSteps(AsWritten, i, left, x), x)
    ensures RightSteps(AsWritten, i + 1, right, x) == RightStep(AsWritten, i, RightSteps(AsWritten, i, right, x), x)
    ensures StepsOf(i + 1, left, right, x, blockNum)
            == StepsOf(i, left, right, x, blockNum)
               + [RecordOf(i, LeftSteps(AsWritten, i, left, x), RightSteps(AsWritten, i, right, x), x, blockNum)]
  {
  }

  /** The body of the step loop of `compressWithSteps`: both lanes take step i and its
      record is pushed. */
  method Step(i: Round, a: Word, b: Word, c: Word, d: Word, e: Word,
              a': Word, b': Word, c': Word, d': Word, e': Word, x: Block, blockNum: nat, log: StepLog)
    returns (al: Word, bl: Word, cl: Word, dl: Word, el: Word, ar: Word, br: Word, cr: Word, dr: Word, er: Word)
    modifies log
    ensures Regs(al, bl, cl, dl, el) == LeftStep(AsWritten, i, Regs(a, b, c, d, e), x)
    ensures Regs(ar, br, cr, dr, er) == RightStep(AsWritten, i, Regs(a', b', c', d', e'), x)
    ensures log.steps == old(log.steps) + [RecordOf(i, Regs(a, b, c, d, e), Regs(a', b', c', d', e'), x, blockNum)]
  {
    var round := i / 16;
    var kleft, kright;
    al, bl, cl, dl, el, kleft := LeftLane(i, a, b, c, d, e, x);
    ar, br, cr, dr, er, kright := RightLane(i, a', b', c', d', e', x);
    log.steps := log.steps + [StepRecord(i + 1, round + 1, Functions[round],
                                         LaneRecord(Regs(al, bl, cl, dl, el), Functions[round], Rl[i], x[Rl[i]], kleft, Sl[i]),
                                         LaneRecord(Regs(ar, br, cr, dr, er), Functions[4 - round], Rr[i], x[Rr[i]], kright, Sr[i]),
                                         blockNum)];
  }

  /** The left-lane half of a step of `compressWithSteps`: the `switch`, T, the register
      moves and the new B; returns the registers and the constant used. */
  method LeftLane(i: Round, a: Word, b: Word, c: Word, d: Word, e: Word, x: Block)
    returns (al: Word, bl: Word, cl: Word, dl: Word, el: Word, kleft: Word)
    ensures Regs(al, bl, cl, dl, el) == LeftStep(AsWritten, i, Regs(a, b, c, d, e), x)
    ensures LaneRecord(Regs(al, bl, cl, dl, el), Functions[i / 16], Rl[i], x[Rl[i]], kleft, Sl[i])
            == LeftLaneRecord(i, Regs(a, b, c, d, e), x)
  {
    var fl;
    fl, kleft := LeftCase(i / 16, b, c, d).0, LeftCase(i / 16, b, c, d).1;
    var tl := Add4(a, fl, x[Rl[i]], kleft);
    al, el, dl, cl := e, d, RotateLeft(c, 10), b;
    bl := Add(RotateLeft(tl, Sl[i]), el);
  }

  /** The right-lane half of a step of `compressWithSteps`. */
  method RightLane(i: Round, a: Word, b: Word, c: Word, d: Word, e: Word, x: Block)
    returns (ar: Word, br: Word, cr: Word, dr: Word, er: Word, kright: Word)
    ensures Regs(ar, br, cr, dr, er) == RightStep(AsWritten, i, Regs(a, b, c, d, e), x)
    ensures LaneRecord(Regs(ar, br, cr, dr, er), Functions[4 - i / 16], Rr[i], x[Rr[i]], kright, Sr[i])
            == RightLaneRecord(i, Regs(a, b, c, d, e), x)
  {
    var fr;
    fr, kright := RightCase(i / 16, b, c, d).0, RightCase(i / 16, b, c, d).1;
    var tr := Add4(a, fr, x[Rr[i]], kright);
    ar, er, dr, cr := e, d, RotateLeft(c, 10), b;
    br := Add(RotateLeft(tr, Sr[i]), er);
  }

  /** `ripemd160WithSteps(message)`, on the message's bytes: pad, then for each block
      run `compressWithSteps` from the chaining state and combine; returns the 20 hash
      bytes and the step records. */
  method Ripemd160WithSteps(messageBytes: seq<Byte>) returns (hash: array<Byte>, log: StepLog)
    ensures fresh(hash) && fresh(log)
    ensures hash[..] == VisualDigest(AsWritten, messageBytes)
    ensures log.steps == StepsAfter(Pad(messageBytes), ChunkCount(Pad(messageBytes)))
  {
    var padded := PadMessage(messageBytes);
    PadChunks(messageBytes);
    log := new StepLog();
    var h0, h1, h2, h3, h4 := HashBlocks(padded[..], ChunkCount(padded[..]), log);
    hash := HashBytes(h0, h1, h2, h3, h4);
  }

  /** The block loop of `ripemd160WithSteps`, from the initial chaining values. */
  method HashBlocks(padded: seq<Byte>, count: nat, log: StepLog)
    returns (h0: Word, h1: Word, h2: Word, h3: Word, h4: Word)
    requires |padded| == 64 * count && log.steps == []
    modifies log
    ensures State(h0, h1, h2, h3, h4) == BlockStateAfter(AsWritten, padded, count)
    ensures log.steps == StepsAfter(padded, count)
  {
    h0, h1, h2, h3, h4 := 0x6745_2301, 0xefcd_ab89, 0x98ba_dcfe, 0x1032_5476, 0xc3d2_e1f0;
    BlocksBefore(padded);
    // blockIndex runs over 0, 64, 128, ... below |padded|: one pass per block.
    for block := 0 to count
      invariant State(h0, h1, h2, h3, h4) == BlockStateAfter(AsWritten, padded, block)
      invariant log.steps == StepsAfter(padded, block)
    {
      var blockIndex := 64 * block;
      h0, h1, h2, h3, h4 := NextBlock(h0, h1, h2, h3, h4, padded, blockIndex, block, count, log);
    }
  }

  /** Before the block loop: the initial chaining values and no records. */
  lemma BlocksBefore(padded: seq<Byte>)
    ensures BlockStateAfter(AsWritten, padded, 0) == IV && StepsAfter(padded, 0) == []
  {
  }

  /** The body of the block loop: read the block's 16 words, run `compressWithSteps` from
      the chaining state, combine. */
  method NextBlock(h0: Word, h1: Word, h2: Word, h3: Word, h4: Word,
                   padded: seq<Byte>, blockIndex: nat, ghost block: nat, ghost count: nat, log: StepLog)
    returns (n0: Word, n1: Word, n2: Word, n3: Word, n4: Word)
    requires blockIndex == 64 * block && block < count && |padded| == 64 * count
    requires State(h0, h1, h2, h3, h4) == BlockStateAfter(AsWritten, padded, block)
    requires log.steps == StepsAfter(padded, block)
    modifies log
    ensures State(n0, n1, n2, n3, n4) == BlockStateAfter(AsWritten, padded, block + 1)
    ensures log.steps == StepsAfter(padded, block + 1)
  {
    var x := ReadChunk(padded, blockIndex, block);
    var blockNum := blockIndex / 64;
    assert blockNum == block;
    ghost var before := log.steps;
    n0, n1, n2, n3, n4 := BlockWithSteps(h0, h1, h2, h3, h4, x[..], blockNum, log);
    NextBlockOutcome(padded, block, State(h0, h1, h2, h3, h4), x[..], State(n0, n1, n2, n3, n4), before, log.steps);
  }

  /** What the body of the block loop leaves: the chaining state and the records after
      one more block. */
  lemma NextBlockOutcome(padded: seq<Byte>, block: nat, h: State, x: Block, n: State,
                         before: seq<StepRecord>, after: seq<StepRecord>)
    requires h == BlockStateAfter(AsWritten, padded, block) && x == ChunkWords(padded, block)
    requires n == BlockCompress(AsWritten, h, x) && before == StepsAfter(padded, block)
    requires after == before + StepsOf(80, Lanes(h), Lanes(h), x, block)
    ensures n == BlockStateAfter(AsWritten, padded, block + 1) && after == StepsAfter(padded, block + 1)
  {
    BlocksAfterNext(padded, block);
  }

  /** One more block: one more compression and 80 more records. */
  lemma BlocksAfterNext(padded: seq<Byte>, block: nat)
    ensures BlockStateAfter(AsWritten, padded, block + 1)
            == BlockCompress(AsWritten, BlockStateAfter(AsWritten, padded, block), ChunkWords(padded, block))
    ensures StepsAfter(padded, block + 1) == StepsAfter(padded, block) + BlockRecords(padded, block)
  {
  }

  /** `compressWithSteps` from the chaining state, then the combine. */
  method BlockWithSteps(h0: Word, h1: Word, h2: Word, h3: Word, h4: Word, x: Block, blockNum: nat, log: StepLog)
    returns (n0: Word, n1: Word, n2: Word, n3: Word, n4: Word)
    modifies log
    ensures State(n0, n1, n2, n3, n4) == BlockCompress(AsWritten, State(h0, h1, h2, h3, h4), x)
    ensures log.steps == old(log.steps) + StepsOf(80, Lanes(State(h0, h1, h2, h3, h4)), Lanes(State(h0, h1, h2, h3, h4)), x, blockNum)
  {
    var lanes := Regs(h0, h1, h2, h3, h4);
    var l, r := CompressWithSteps(lanes, lanes, x, blockNum, log);
    n0 := Add3(h1, l.c, r.d);
    n1 := Add3(h2, l.d, r.e);
    n2 := Add3(h3, l.e, r.a);
    n3 := Add3(h4, l.a, r.b);
    n4 := Add3(h0, l.b, r.c);
  }

  /** The words written one after the other, each least-significant byte first. */
  function WordsLE(ws: seq<Word>): (s: seq<Byte>)
    ensures |s| == 4 * |ws|
  {
    if ws == [] then [] else WordsLE(ws[..|ws| - 1]) + LE32(ws[|ws| - 1])
  }
  /** h0..h4 written in turn are the digest bytes. */
  lemma WordsLEDigest(h: State)
    ensures WordsLE([h.h0, h.h1, h.h2, h.h3, h.h4]) == DigestBytes(h)
  {
    var ws := [h.h0, h.h1, h.h2, h.h3, h.h4];
    assert ws[..1][..0] == [] && ws[..2][..1] == ws[..1] && ws[..3][..2] == ws[..2];
    assert ws[..4][..3] == ws[..3] && ws[..5] == ws && ws[..4] == ws[..4];
    assert WordsLE(ws[..1]) == LE32(h.h0);
    assert WordsLE(ws[..2]) == LE32(h.h0) + LE32(h.h1);
    assert WordsLE(ws[..3]) == LE32(h.h0) + LE32(h.h1) + LE32(h.h2);
    assert WordsLE(ws[..4]) == LE32(h.h0) + LE32(h.h1) + LE32(h.h2) + LE32(h.h3);
  }
  /** The "convert to bytes" loop of `ripemd160WithSteps`. */
  method HashBytes(h0: Word, h1: Word, h2: Word, h3: Word, h4: Word) returns (hash: array<Byte>)
    ensures fresh(hash) && hash[..] == DigestBytes(State(h0, h1, h2, h3, h4))
  {
    hash := new Byte[20](_ => 0);
    var words := [h0, h1, h2, h3, h4];
    for i := 0 to 5
      invariant hash[..4 * i] == WordsLE(words[..i])
    {
      WriteWord(hash, i, words[i]);
      assert hash[..4 * i + 4] == hash[..4 * i] + hash[4 * i..4 * i + 4];
      assert words[..i + 1][..i] == words[..i];
    }
    assert hash[..20] == hash[..] && words[..5] == words;
    WordsLEDigest(State(h0, h1, h2, h3, h4));
  }
  /** The loop body: bytes 4i..4i+3 of the hash get the word, least-significant first. */
  method WriteWord(hash: array<Byte>, i: nat, w: Word)
    requires hash.Length == 20 && i < 5
    modifies hash
    ensures hash[..4 * i] == old(hash[..4 * i]) && hash[4 * i..4 * i + 4] == LE32(w)
    ensures hash[4 * i + 4..] == old(hash[4 * i + 4..])
  {
    hash[i * 4] := Lo8(w);
    hash[i * 4 + 1] := Lo8(w >> 8);
    hash[i * 4 + 2] := Lo8(w >> 16);
    hash[i * 4 + 3] := Lo8(w >> 24);
  }
}
