/** The step records of the visualiser: what `compressWithSteps` and `ripemd160WithSteps`
    push, record by record, and the first record as the visualiser writes it. */
module VisualizerRecords {
  import opened Bits
  import opened Compression
  import opened Padding
  import opened Ripemd160
  import opened Visualizer
  import opened VisualizerFacts

  /** `compressWithSteps` pushes one record per step, and record i says step i + 1,
      round floor(i / 16) + 1, `functions[round]` for the left lane and
      `functions[4 - round]` for the right, and holds the registers after the step. */
  lemma StepRecords(n: nat, left: Regs, right: Regs, x: Block, blockNum: nat, i: nat)
    requires i < n <= 80
    ensures |StepsOf(n, left, right, x, blockNum)| == n
    ensures var rec := StepsOf(n, left, right, x, blockNum)[i];
            && rec.step == i + 1 && rec.round == i / 16 + 1 && rec.blockNum == blockNum
            && rec.functionName == Functions[i / 16] && rec.left.functionName == Functions[i / 16]
            && rec.right.functionName == Functions[4 - i / 16]
            && rec.left.regs == LeftSteps(AsWritten, i + 1, left, x)
            && rec.right.regs == RightSteps(AsWritten, i + 1, right, x)
  {
    StepsOfEntry(n, left, right, x, blockNum, i);
    StepsNext(i, left, right, x, blockNum);
  }

  /** Record i of a block is the record of step i, taken from the lanes after i steps. */
  lemma StepsOfEntry(n: nat, left: Regs, right: Regs, x: Block, blockNum: nat, i: nat)
    requires i < n <= 80
    ensures StepsOf(n, left, right, x, blockNum)[i]
            == RecordOf(i, LeftSteps(AsWritten, i, left, x), RightSteps(AsWritten, i, right, x), x, blockNum)
  {
    ListingEntry(RecordsFrom(left, right, x, blockNum), n, i);
  }

  /** Entry i of f(0), ..., f(n - 1) is f(i). */
  lemma {:induction false} ListingEntry<T>(f: nat --> T, n: nat, i: nat)
    requires forall k: nat :: k < n ==> f.requires(k)
    requires i < n
    ensures Listing(f, n)[i] == f(i)
  {
    if i < n - 1 {
      ListingEntry(f, n - 1, i);
    }
  }

  /** Element j of part b sits at 80 * b + j of the concatenation of n >= b + 1 parts
      of 80 elements each (a block's records). */
  lemma {:induction false} ConcatEntry<T>(parts: nat -> seq<T>, n: nat, b: nat, j: nat)
    requires forall c: nat :: |parts(c)| == 80
    requires b < n && j < 80
    ensures 80 * b + j < |Concat(parts, n)|
    ensures Concat(parts, n)[80 * b + j] == parts(b)[j]
  {
    ConcatLength(parts, 80, n - 1);
    assert Concat(parts, n) == Concat(parts, n - 1) + parts(n - 1);
    if b < n - 1 {
      ConcatEntry(parts, n - 1, b, j);
    }
  }

  /** Record 80b + j of `ripemd160WithSteps` is record j of block b. */
  lemma StepsAfterEntry(padded: seq<Byte>, n: nat, b: nat, j: nat)
    requires b < n && j < 80
    ensures StepsAfter(padded, n)[80 * b + j] == BlockRecords(padded, b)[j]
  {
    ConcatEntry(BlockRecordsOf(padded), n, b, j);
  }

  /** What record j of block b shows: block b, step j + 1 of round floor(j / 16) + 1, and
      the lanes after j + 1 steps from the chaining state before block b. */
  predicate ShowsStep(rec: StepRecord, padded: seq<Byte>, b: nat, j: nat)
    requires j < 80
  {
    && rec.blockNum == b && rec.step == j + 1 && rec.round == j / 16 + 1
    && rec.left.regs == LeftSteps(AsWritten, j + 1, Lanes(BlockStateAfter(AsWritten, padded, b)), ChunkWords(padded, b))
    && rec.right.regs == RightSteps(AsWritten, j + 1, Lanes(BlockStateAfter(AsWritten, padded, b)), ChunkWords(padded, b))
  }

  /** Record 80b + j of `ripemd160WithSteps` shows step j + 1 of block b. */
  lemma StepsAfterRecord(padded: seq<Byte>, n: nat, b: nat, j: nat)
    requires b < n && j < 80
    ensures ShowsStep(StepsAfter(padded, n)[80 * b + j], padded, b, j)
  {
    StepsAfterEntry(padded, n, b, j);
    var h := BlockStateAfter(AsWritten, padded, b);
    StepRecords(80, Lanes(h), Lanes(h), ChunkWords(padded, b), b, j);
  }

  /** Step 1 from the initial chaining values, as the visualiser writes it, is not round
      0 of the algorithm: their D = 0x10325476 and E = 0xc3d2e1f0 differ. */
  lemma FirstStepDiffers(x: Block)
    ensures LeftSteps(AsWritten, 1, Lanes(IV), x) != LeftRound(0, Lanes(IV), x)
  {
    AsWrittenStepDiffers(0, Lanes(IV), x);
    CorrectedStepIsRound(0, Lanes(IV), x);
  }

  /** Hence for every message the first record of `ripemd160WithSteps` shows a left-lane
      B that round 0 of the algorithm does not produce. */
  lemma FirstRecordDiffers(bytes: seq<Byte>)
    ensures ChunkCount(Pad(bytes)) > 0
    ensures StepsAfter(Pad(bytes), ChunkCount(Pad(bytes)))[0].left.regs
            != LeftRound(0, Lanes(IV), ChunkWords(Pad(bytes), 0))
  {
    PadChunks(bytes);
    FirstBlockRecordDiffers(Pad(bytes), ChunkCount(Pad(bytes)));
  }

  /** The first record of any run over one block or more. */
  lemma FirstBlockRecordDiffers(padded: seq<Byte>, n: nat)
    requires 0 < n
    ensures StepsAfter(padded, n)[0].left.regs != LeftRound(0, Lanes(IV), ChunkWords(padded, 0))
  {
    StepsAfterRecord(padded, n, 0, 0);
    FirstStepDiffers(ChunkWords(padded, 0));
  }
}
