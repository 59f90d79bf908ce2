/** What the visualiser's compression computes and records, related to the hash
    module: its tables are the hash module's schedule, its `rotateLeft` is the 32-bit
    rotation for every amount it is given, the `Corrected` step is the hash module's
    round (so the corrected visualiser computes the hash module's digest), and the
    `AsWritten` step differs from it exactly when the lane's D and E differ. */
module VisualizerFacts {
  import opened Bits
  import Selection
  import opened Schedule
  import opened Compression
  import opened Padding
  import opened Ripemd160
  import opened Visualizer
  import opened Induction

  // ---------------------------------------------------------------------------
  // Rotation

  /** For the amounts 1..31 the visualiser's `rotateLeft` is the 32-bit rotation and
      agrees with the hash module's `rotateLeft`.  (Its `>>> 0` makes the result an
      unsigned value below 2^32, which a `Word` is by construction.) */
  lemma RotateLeftIsRotation(value: Word, amount: Word)
    requires 1 <= amount <= 31
    ensures Visualizer.RotateLeft(value, amount) == (value << amount) | (value >> (32 - amount))
    ensures Visualizer.RotateLeft(value, amount) == Selection.RotateLeft(value, amount)
  {
    assert amount & 31 == amount;
    assert (32 - amount) & 31 == 32 - amount;
  }

  // ---------------------------------------------------------------------------
  // Tables

  /** The five 16-entry groups of each visualiser table are the hash module's rows. */
  lemma RlRows()
    ensures Rl[..16] == [0, 1, 2, 3, 4, 5, 6, 7, 8, 9, 10, 11, 12, 13, 14, 15]
    ensures Rl[16..32] == LeftIndex1
    ensures Rl[32..48] == LeftIndex2
    ensures Rl[48..64] == LeftIndex3
    ensures Rl[64..] == LeftIndex4
  {
  }

  lemma RrRows()
    ensures Rr[..16] == RightIndex0
    ensures Rr[16..32] == RightIndex1
    ensures Rr[32..48] == RightIndex2
    ensures Rr[48..64] == RightIndex3
    ensures Rr[64..] == RightIndex4
  {
  }

  lemma SlRows()
    ensures Sl[..16] == LeftShift0
    ensures Sl[16..32] == LeftShift1
    ensures Sl[32..48] == LeftShift2
    ensures Sl[48..64] == LeftShift3
    ensures Sl[64..] == LeftShift4
  {
  }

  lemma SrRows()
    ensures Sr[..16] == RightShift0
    ensures Sr[16..32] == RightShift1
    ensures Sr[32..48] == RightShift2
    ensures Sr[48..64] == RightShift3
    ensures Sr[64..] == RightShift4
  {
  }

  /** Step i of the visualiser reads the message word and rotates by the amount that
      round i of the hash module uses. */
  lemma TablesAgree(i: Round)
    ensures Rl[i] == LeftWordIndex(i) && Rr[i] == RightWordIndex(i)
    ensures Sl[i] == LeftShift(i) && Sr[i] == RightShift(i)
  {
    RlRows();
    RrRows();
    SlRows();
    SrRows();
    if i < 16 {
      IdentityRow(i);
      assert Rr[i] == Rr[..16][i];
      assert Sl[i] == Sl[..16][i];
      assert Sr[i] == Sr[..16][i];
    } else if i < 32 {
      assert Rl[i] == Rl[16..32][i - 16];
      assert Rr[i] == Rr[16..32][i - 16];
      assert Sl[i] == Sl[16..32][i - 16];
      assert Sr[i] == Sr[16..32][i - 16];
    } else if i < 48 {
      assert Rl[i] == Rl[32..48][i - 32];
      assert Rr[i] == Rr[32..48][i - 32];
      assert Sl[i] == Sl[32..48][i - 32];
      assert Sr[i] == Sr[32..48][i - 32];
    } else if i < 64 {
      assert Rl[i] == Rl[48..64][i - 48];
      assert Rr[i] == Rr[48..64][i - 48];
      assert Sl[i] == Sl[48..64][i - 48];
      assert Sr[i] == Sr[48..64][i - 48];
    } else {
      assert Rl[i] == Rl[64..][i - 64];
      assert Rr[i] == Rr[64..][i - 64];
      assert Sl[i] == Sl[64..][i - 64];
      assert Sr[i] == Sr[64..][i - 64];
    }
  }

  /** The `switch (round)` of each lane picks the function and constant of the hash
      module's quintet. */
  lemma CasesAgree(i: Round, b: Word, c: Word, d: Word)
    ensures LeftCase(RoundOf(i), b, c, d) == (LeftSelect(i, b, c, d), LeftConstant(i))
    ensures RightCase(RoundOf(i), b, c, d) == (RightSelect(i, b, c, d), RightConstant(i))
  {
  }

  /** The first 16 entries of `rl` are 0..15 in order. */
  lemma IdentityRow(i: nat)
    requires i < 16
    ensures Rl[i] == i
  {
    assert Rl[..16] == [0, 1, 2, 3, 4, 5, 6, 7, 8, 9, 10, 11, 12, 13, 14, 15];
    assert i == 0 || i == 1 || i == 2 || i == 3 || i == 4 || i == 5 || i == 6 || i == 7
        || i == 8 || i == 9 || i == 10 || i == 11 || i == 12 || i == 13 || i == 14 || i == 15;
  }

  /** Each 16-entry group of `rl` and of `rr` holds every word index 0..15 once: every
      quintet of either lane reads the whole block. */
  lemma WordTablesArePermutations(q: nat)
    requires q < 5
    ensures IsPermutationRow(Rl[16 * q .. 16 * q + 16]) && IsPermutationRow(Rr[16 * q .. 16 * q + 16])
  {
    RlRows();
    RrRows();
    IndexRowsArePermutations();
    assert Rl[64..] == Rl[64..80] && Rr[64..] == Rr[64..80];
    forall k: WordIndex
      ensures k in Rl[..16]
    {
      IdentityRow(k);
      assert Rl[..16][k] == k;
    }
  }

  /** Every entry of `sl` and `sr` lies in 5..15. */
  lemma ShiftTablesInRange(i: Round)
    ensures 5 <= Sl[i] <= 15 && 5 <= Sr[i] <= 15
  {
    TablesAgree(i);
    ShiftsInRange(i);
  }

  // ---------------------------------------------------------------------------
  // The corrected step is the hash module's round

  /** With the old E added to B, a visualiser step is a round of the hash module. */
  lemma CorrectedStepIsRound(i: Round, r: Regs, x: Block)
    ensures LeftStep(Corrected, i, r, x) == LeftRound(i, r, x)
    ensures RightStep(Corrected, i, r, x) == RightRound(i, r, x)
  {
    LeftRotatedIsT(i, r, x);
    RightRotatedIsT(i, r, x);
    RotateTenAgrees(r.c);
  }

  /** The rotation of C by 10 is the same in both. */
  lemma RotateTenAgrees(c: Word)
    ensures Visualizer.RotateLeft(c, 10) == Selection.RotateLeft(c, 10)
  {
    RotateLeftIsRotation(c, 10);
  }

  /** The left lane's rotated sum is the hash module's `T` before E is added. */
  lemma LeftRotatedIsT(i: Round, r: Regs, x: Block)
    ensures LeftRotated(i, r, x) == LeftT(i, r, x)
  {
    TablesAgree(i);
    CasesAgree(i, r.b, r.c, r.d);
    ShiftsInRange(i);
    RotateLeftIsRotation(Add4(r.a, LeftSelect(i, r.b, r.c, r.d), x[LeftWordIndex(i)], LeftConstant(i)), LeftShift(i));
  }

  /** The right lane's rotated sum likewise. */
  lemma RightRotatedIsT(i: Round, r: Regs, x: Block)
    ensures RightRotated(i, r, x) == RightT(i, r, x)
  {
    TablesAgree(i);
    CasesAgree(i, r.b, r.c, r.d);
    ShiftsInRange(i);
    RotateLeftIsRotation(Add4(r.a, RightSelect(i, r.b, r.c, r.d), x[RightWordIndex(i)], RightConstant(i)), RightShift(i));
  }

  /** Hence the corrected lanes after n steps are the hash module's lanes after n
      rounds. */
  lemma {:induction false} CorrectedStepsAreRounds(n: nat, r: Regs, x: Block)
    requires n <= 80
    ensures LeftSteps(Corrected, n, r, x) == LeftRounds(n, r, x)
    ensures RightSteps(Corrected, n, r, x) == RightRounds(n, r, x)
  {
    if n > 0 {
      CorrectedStepsAreRounds(n - 1, r, x);
      CorrectedStepIsRound(n - 1, LeftSteps(Corrected, n - 1, r, x), x);
      CorrectedStepIsRound(n - 1, RightSteps(Corrected, n - 1, r, x), x);
    }
  }

  /** The corrected visualiser keeps the hash module's chaining state block by block. */
  lemma CorrectedStateIsStateAfter(padded: seq<Byte>, n: nat)
    ensures BlockStateAfter(Corrected, padded, n) == StateAfter(padded, n)
  {
    var agree := (k: nat) => BlockStateAfter(Corrected, padded, k) == StateAfter(padded, k);
    forall k: nat | agree(k)
      ensures agree(k + 1)
    {
      CorrectedNextState(padded, k);
    }
    NatInduction(agree, n);
  }

  /** One more block keeps them equal. */
  lemma CorrectedNextState(padded: seq<Byte>, k: nat)
    requires BlockStateAfter(Corrected, padded, k) == StateAfter(padded, k)
    ensures BlockStateAfter(Corrected, padded, k + 1) == StateAfter(padded, k + 1)
  {
    CorrectedBlockIsCompress(StateAfter(padded, k), ChunkWords(padded, k));
  }


  /** One corrected visualiser block is the hash module's compression. */
  lemma CorrectedBlockIsCompress(h: State, x: Block)
    ensures BlockCompress(Corrected, h, x) == Compress(h, x)
  {
    CorrectedStepsAreRounds(80, Lanes(h), x);
  }

  /** The corrected visualiser's 20 hash bytes are the hash module's digest: written in
      hexadecimal they are what `ripemd160` returns for an ASCII message. */
  lemma CorrectedDigestIsRipemd160(message: seq<CodeUnit>)
    requires IsAscii(message)
    ensures VisualDigest(Corrected, AsciiBytes(message)) == DigestBytes(DigestOfBytes(AsciiBytes(message)))
    ensures Ripemd160Hex(message) == Success(Hex(VisualDigest(Corrected, AsciiBytes(message))))
  {
    var padded := Pad(AsciiBytes(message));
    CorrectedStateIsStateAfter(padded, ChunkCount(padded));
    HexDigestIsHexOfDigestBytes(DigestOfBytes(AsciiBytes(message)));
  }

  // ---------------------------------------------------------------------------
  // The step as written

  /** The visualiser's step as written gives the same registers as the algorithm's
      exactly when the lane's D and E are equal; only B can differ. */
  lemma AsWrittenStepDiffers(i: Round, r: Regs, x: Block)
    ensures LeftStep(AsWritten, i, r, x) == LeftStep(Corrected, i, r, x) <==> r.d == r.e
    ensures RightStep(AsWritten, i, r, x) == RightStep(Corrected, i, r, x) <==> r.d == r.e
  {
    AddCancels(LeftRotated(i, r, x), r.d, r.e);
    AddCancels(RightRotated(i, r, x), r.d, r.e);
  }

  /** Adding the same word to two words gives equal sums only for equal words. */
  lemma AddCancels(y: Word, d: Word, e: Word)
    ensures Add(y, d) == Add(y, e) <==> d == e
  {
    if Add(y, d) == Add(y, e) {
      calc {
        d;
        (y + d) - y;
        (y + e) - y;
        e;
      }
    }
  }
}
