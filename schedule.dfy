/** The round schedule of the hash module's compression loop: for each of the 80
    rounds, the message word each lane reads, its rotation amount, its additive
    constant and its selection function.  The hash module writes these as an `if`
    chain over the five quintets of 16 rounds, with a literal 16-entry table per
    quintet; the rows below are those tables. */
module Schedule {
  import opened Bits
  import opened Selection

  type Round = i: nat | i < 80

  /** A message-word index into a 16-word block. */
  type WordIndex = x: nat | x < 16

  type IndexRow = s: seq<WordIndex> | |s| == 16
    witness [0, 1, 2, 3, 4, 5, 6, 7, 8, 9, 10, 11, 12, 13, 14, 15]

  type ShiftRow = s: seq<Word> | |s| == 16
    witness [0, 0, 0, 0, 0, 0, 0, 0, 0, 0, 0, 0, 0, 0, 0, 0]

  // Left lane: word indices of quintets 1..4 (quintet 0 reads word i itself).
  const LeftIndex1: IndexRow := [7, 4, 13, 1, 10, 6, 15, 3, 12, 0, 9, 5, 2, 14, 11, 8]
  const LeftIndex2: IndexRow := [3, 10, 14, 4, 9, 15, 8, 1, 2, 7, 0, 6, 13, 11, 5, 12]
  const LeftIndex3: IndexRow := [1, 9, 11, 10, 0, 8, 12, 4, 13, 3, 7, 15, 14, 5, 6, 2]
  const LeftIndex4: IndexRow := [4, 0, 5, 9, 7, 12, 2, 10, 14, 1, 3, 8, 11, 6, 15, 13]

  // Left lane: rotation amounts.
  const LeftShift0: ShiftRow := [11, 14, 15, 12, 5, 8, 7, 9, 11, 13, 14, 15, 6, 7, 9, 8]
  const LeftShift1: ShiftRow := [7, 6, 8, 13, 11, 9, 7, 15, 7, 12, 15, 9, 11, 7, 13, 12]
  const LeftShift2: ShiftRow := [11, 13, 6, 7, 14, 9, 13, 15, 14, 8, 13, 6, 5, 12, 7, 5]
  const LeftShift3: ShiftRow := [11, 12, 14, 15, 14, 15, 9, 8, 9, 14, 5, 6, 8, 6, 5, 12]
  const LeftShift4: ShiftRow := [9, 15, 5, 11, 6, 8, 13, 12, 5, 12, 13, 14, 11, 8, 5, 6]

  // Right lane: word indices.
  const RightIndex0: IndexRow := [5, 14, 7, 0, 9, 2, 11, 4, 13, 6, 15, 8, 1, 10, 3, 12]
  const RightIndex1: IndexRow := [6, 11, 3, 7, 0, 13, 5, 10, 14, 15, 8, 12, 4, 9, 1, 2]
  const RightIndex2: IndexRow := [15, 5, 1, 3, 7, 14, 6, 9, 11, 8, 12, 2, 10, 0, 4, 13]
  const RightIndex3: IndexRow := [8, 6, 4, 1, 3, 11, 15, 0, 5, 12, 2, 13, 9, 7, 10, 14]
  const RightIndex4: IndexRow := [12, 15, 10, 4, 1, 5, 8, 7, 6, 2, 13, 14, 0, 3, 9, 11]

  // Right lane: rotation amounts.
  const RightShift0: ShiftRow := [8, 9, 9, 11, 13, 15, 15, 5, 7, 7, 8, 11, 14, 14, 12, 6]
  const RightShift1: ShiftRow := [9, 13, 15, 7, 12, 8, 9, 11, 7, 7, 12, 7, 6, 15, 13, 11]
  const RightShift2: ShiftRow := [9, 7, 15, 11, 8, 6, 6, 14, 12, 13, 5, 14, 13, 13, 7, 5]
  const RightShift3: ShiftRow := [15, 5, 8, 11, 14, 14, 6, 14, 6, 9, 12, 9, 12, 5, 15, 8]
  const RightShift4: ShiftRow := [8, 5, 12, 9, 12, 5, 14, 6, 8, 13, 6, 5, 15, 13, 11, 11]

  /** The left lane's message word in round i. */
  function LeftWordIndex(i: Round): WordIndex {
    if i < 16 then i
    else if i < 32 then LeftIndex1[i - 16]
    else if i < 48 then LeftIndex2[i - 32]
    else if i < 64 then LeftIndex3[i - 48]
    else LeftIndex4[i - 64]
  }

  /** The left lane's rotation amount in round i. */
  function LeftShift(i: Round): Word {
    if i < 16 then LeftShift0[i]
    else if i < 32 then LeftShift1[i - 16]
    else if i < 48 then LeftShift2[i - 32]
    else if i < 64 then LeftShift3[i - 48]
    else LeftShift4[i - 64]
  }

  /** The left lane's additive constant in round i. */
  function LeftConstant(i: Round): Word {
    if i < 16 then 0x0000_0000
    else if i < 32 then 0x5a82_7999
    else if i < 48 then 0x6ed9_eba1
    else if i < 64 then 0x8f1b_bcdc
    else 0xa953_fd4e
  }

  /** The left lane applies F, G, H, I, J in quintets 0..4. */
  function LeftSelect(i: Round, x: Word, y: Word, z: Word): Word {
    if i < 16 then F(x, y, z)
    else if i < 32 then G(x, y, z)
    else if i < 48 then H(x, y, z)
    else if i < 64 then I(x, y, z)
    else J(x, y, z)
  }

  /** The right lane's message word in round i. */
  function RightWordIndex(i: Round): WordIndex {
    if i < 16 then RightIndex0[i]
    else if i < 32 then RightIndex1[i - 16]
    else if i < 48 then RightIndex2[i - 32]
    else if i < 64 then RightIndex3[i - 48]
    else RightIndex4[i - 64]
  }

  /** The right lane's rotation amount in round i. */
  function RightShift(i: Round): Word {
    if i < 16 then RightShift0[i]
    else if i < 32 then RightShift1[i - 16]
    else if i < 48 then RightShift2[i - 32]
    else if i < 64 then RightShift3[i - 48]
    else RightShift4[i - 64]
  }

  /** The right lane's additive constant in round i. */
  function RightConstant(i: Round): Word {
    if i < 16 then 0x50a2_8be6
    else if i < 32 then 0x5c4d_d124
    else if i < 48 then 0x6d70_3ef3
    else if i < 64 then 0x7a6d_76e9
    else 0x0000_0000
  }

  /** The right lane applies J, I, H, G, F in quintets 0..4. */
  function RightSelect(i: Round, x: Word, y: Word, z: Word): Word {
    if i < 16 then J(x, y, z)
    else if i < 32 then I(x, y, z)
    else if i < 48 then H(x, y, z)
    else if i < 64 then G(x, y, z)
    else F(x, y, z)
  }

  /** A 16-entry row that holds every index 0..15 once. */
  predicate IsPermutationRow(row: IndexRow) {
    forall k: WordIndex :: k in row
  }

  /** Each quintet of either lane reads every message word exactly once. */
  lemma IndexRowsArePermutations()
    ensures IsPermutationRow(LeftIndex1) && IsPermutationRow(LeftIndex2)
    ensures IsPermutationRow(LeftIndex3) && IsPermutationRow(LeftIndex4)
    ensures IsPermutationRow(RightIndex0) && IsPermutationRow(RightIndex1)
    ensures IsPermutationRow(RightIndex2) && IsPermutationRow(RightIndex3)
    ensures IsPermutationRow(RightIndex4)
  {
  }

  /** Every entry of a row of rotation amounts lies in 5..15. */
  predicate ShiftsBetween5And15(row: ShiftRow) {
    forall x :: x in row ==> 5 <= x <= 15
  }

  /** A row whose entries all lie in 5..15 has each entry in 5..15. */
  lemma ShiftAt(row: ShiftRow, i: nat, base: nat)
    requires ShiftsBetween5And15(row) && base <= i < base + 16
    ensures 5 <= row[i - base] <= 15
  {
    assert row[i - base] in row;
  }

  /** Each row of rotation amounts, entry by entry. */
  lemma LeftShift0InRange()
    ensures ShiftsBetween5And15(LeftShift0)
  {
  }

  lemma LeftShift1InRange()
    ensures ShiftsBetween5And15(LeftShift1)
  {
  }

  lemma LeftShift2InRange()
    ensures ShiftsBetween5And15(LeftShift2)
  {
  }

  lemma LeftShift3InRange()
    ensures ShiftsBetween5And15(LeftShift3)
  {
  }

  lemma LeftShift4InRange()
    ensures ShiftsBetween5And15(LeftShift4)
  {
  }

  lemma RightShift0InRange()
    ensures ShiftsBetween5And15(RightShift0)
  {
  }

  lemma RightShift1InRange()
    ensures ShiftsBetween5And15(RightShift1)
  {
  }

  lemma RightShift2InRange()
    ensures ShiftsBetween5And15(RightShift2)
  {
  }

  lemma RightShift3InRange()
    ensures ShiftsBetween5And15(RightShift3)
  {
  }

  lemma RightShift4InRange()
    ensures ShiftsBetween5And15(RightShift4)
  {
  }

  /** Every rotation amount of either lane lies in 5..15, so it is never 0 and never
      reaches 32. */
  lemma ShiftsInRange(i: Round)
    ensures 5 <= LeftShift(i) <= 15 && 5 <= RightShift(i) <= 15
  {
    LeftShiftInRange(i);
    RightShiftInRange(i);
  }

  lemma LeftShiftInRange(i: Round)
    ensures 5 <= LeftShift(i) <= 15
  {
    if i < 16 {
      LeftShift0InRange();
      ShiftAt(LeftShift0, i, 0);
    } else if i < 32 {
      LeftShift1InRange();
      ShiftAt(LeftShift1, i, 16);
    } else if i < 48 {
      LeftShift2InRange();
      ShiftAt(LeftShift2, i, 32);
    } else if i < 64 {
      LeftShift3InRange();
      ShiftAt(LeftShift3, i, 48);
    } else {
      LeftShift4InRange();
      ShiftAt(LeftShift4, i, 64);
    }
  }

  lemma RightShiftInRange(i: Round)
    ensures 5 <= RightShift(i) <= 15
  {
    if i < 16 {
      RightShift0InRange();
      ShiftAt(RightShift0, i, 0);
    } else if i < 32 {
      RightShift1InRange();
      ShiftAt(RightShift1, i, 16);
    } else if i < 48 {
      RightShift2InRange();
      ShiftAt(RightShift2, i, 32);
    } else if i < 64 {
      RightShift3InRange();
      ShiftAt(RightShift3, i, 48);
    } else {
      RightShift4InRange();
      ShiftAt(RightShift4, i, 64);
    }
  }
}
