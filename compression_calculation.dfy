/** The round panel of the compression view (`RipemdCompressionCalculation.js`): for the
    round it shows, the names of the two lanes' selection functions, their additive
    constants as hexadecimal text and the message words they read.  The round is a
    JavaScript number and is modelled as an integer; an index past either end of one of
    the panel's literal tables, which gives `undefined` in JavaScript, is `None`. */
module CompressionCalculation {
  import opened Bits
  import opened Schedule
  import Visualizer
  import VisualizerFacts
  import RipemdFunction

  type Option<T> = RipemdFunction.Option<T>

  /** `getFunctionName(round)`: the left lane's selection function by quintet. */
  function GetFunctionName(round: int): string {
    if round < 16 then "F"
    else if round < 32 then "G"
    else if round < 48 then "H"
    else if round < 64 then "I"
    else "J"
  }

  /** `getConstantName(round)`: the left lane's constant as the panel writes it. */
  function GetConstantName(round: int): string {
    if round < 16 then "0x00000000"
    else if round < 32 then "0x5a827999"
    else if round < 48 then "0x6ed9eba1"
    else if round < 64 then "0x8f1bbcdc"
    else "0xa953fd4e"
  }

  /** `getRightConstantName(round)`: the right lane's constant as the panel writes it. */
  function GetRightConstantName(round: int): string {
    if round < 16 then "0x50a28be6"
    else if round < 32 then "0x5c4dd124"
    else if round < 48 then "0x6d703ef3"
    else if round < 64 then "0x7a6d76e9"
    else "0x00000000"
  }

  /** `getRightFunctionName(round)`: the right lane's selection function by quintet. */
  function GetRightFunctionName(round: int): string {
    if round < 16 then "J"
    else if round < 32 then "I"
    else if round < 48 then "H"
    else if round < 64 then "G"
    else "F"
  }

  /** JavaScript `table[k]` on an array literal: the entry, or `undefined` off either end. */
  function Lookup(table: seq<int>, k: int): (r: Option<int>)
    ensures r.Some? <==> 0 <= k < |table|
    ensures r.Some? ==> r.value == table[k]
  {
    if 0 <= k < |table| then RipemdFunction.Some(table[k]) else RipemdFunction.None
  }

  /** `getLeftWordIndex(round)`: the round itself in the first quintet, then the panel's
      four literal tables. */
  function GetLeftWordIndex(round: int): Option<int> {
    if round < 16 then RipemdFunction.Some(round)
    else if round < 32 then Lookup([7, 4, 13, 1, 10, 6, 15, 3, 12, 0, 9, 5, 2, 14, 11, 8], round - 16)
    else if round < 48 then Lookup([3, 10, 14, 4, 9, 15, 8, 1, 2, 7, 0, 6, 13, 11, 5, 12], round - 32)
    else if round < 64 then Lookup([1, 9, 11, 10, 0, 8, 12, 4, 13, 3, 7, 15, 14, 5, 6, 2], round - 48)
    else Lookup([4, 0, 5, 9, 7, 12, 2, 10, 14, 1, 3, 8, 11, 6, 15, 13], round - 64)
  }

  /** `getRightWordIndex(round)`: the panel's five literal tables. */
  function GetRightWordIndex(round: int): Option<int> {
    if round < 16 then Lookup([5, 14, 7, 0, 9, 2, 11, 4, 13, 6, 15, 8, 1, 10, 3, 12], round)
    else if round < 32 then Lookup([6, 11, 3, 7, 0, 13, 5, 10, 14, 15, 8, 12, 4, 9, 1, 2], round - 16)
    else if round < 48 then Lookup([15, 5, 1, 3, 7, 14, 6, 9, 11, 8, 12, 2, 10, 0, 4, 13], round - 32)
    else if round < 64 then Lookup([8, 6, 4, 1, 3, 11, 15, 0, 5, 12, 2, 13, 9, 7, 10, 14], round - 48)
    else Lookup([12, 15, 10, 4, 1, 5, 8, 7, 6, 2, 13, 14, 0, 3, 9, 11], round - 64)
  }

  // ---------------------------------------------------------------------------
  // Reference definitions

  /** The quintet whose names and constants the panel shows: rounds below 0 fall in the
      first `if`, rounds from 64 on in the last. */
  function Quintet(round: int): (q: nat)
    ensures q < 5
  {
    if round < 0 then 0 else if round / 16 < 4 then round / 16 else 4
  }

  /** The round of the hash's schedule in the same quintet as `round`. */
  function Representative(round: int): (i: Round)
    ensures Visualizer.RoundOf(i) == Quintet(round)
  {
    16 * Quintet(round)
  }

  /** The four bytes of a word, most-significant byte first. */
  function BE32(w: Word): (s: seq<Byte>)
    ensures |s| == 4
  {
    [Lo8(w >> 24), Lo8(w >> 16), Lo8(w >> 8), Lo8(w)]
  }

  /** A word as JavaScript writes `'0x' + w.toString(16).padStart(8, '0')`. */
  function HexWord(w: Word): (s: string)
    ensures |s| == 10
  {
    "0x" + Hex(BE32(w))
  }

  // ---------------------------------------------------------------------------
  // Properties

  /** Both function names follow the visualiser's quintet table, the right lane in
      mirror order, for every round the panel can be given. */
  lemma FunctionNamesMirror(round: int)
    ensures GetFunctionName(round) == Visualizer.Functions[Quintet(round)]
    ensures GetRightFunctionName(round) == Visualizer.Functions[4 - Quintet(round)]
  {
  }

  /** The panel's function names select the functions the hash applies in that round:
      the selection panel, given the name, evaluates the lane's selection function. */
  lemma FunctionNamesSelect(i: Round, x: Word, y: Word, z: Word)
    ensures RipemdFunction.CalculateFunction(GetFunctionName(i), x, y, z) == LeftSelect(i, x, y, z)
    ensures RipemdFunction.CalculateFunction(GetRightFunctionName(i), x, y, z) == RightSelect(i, x, y, z)
  {
  }

  /** The text of four bytes is the text of each in turn. */
  lemma {:induction false} HexOfFour(s: seq<Byte>)
    requires |s| == 4
    ensures Hex(s) == HexByte(s[0]) + HexByte(s[1]) + HexByte(s[2]) + HexByte(s[3])
  {
    var t1, t2, t3 := s[1..], s[2..], s[3..];
    assert t1[1..] == t2 && t2[1..] == t3 && t3[1..] == [];
    assert Hex(t3) == HexByte(s[3]) + Hex([]);
    assert Hex(t2) == HexByte(s[2]) + Hex(t3);
    assert Hex(t1) == HexByte(s[1]) + Hex(t2);
  }

  /** A word whose big-endian bytes are known is written as those bytes' digit pairs. */
  lemma HexWordOf(w: Word, b0: Byte, b1: Byte, b2: Byte, b3: Byte)
    requires BE32(w) == [b0, b1, b2, b3]
    ensures HexWord(w) == "0x" + HexByte(b0) + HexByte(b1) + HexByte(b2) + HexByte(b3)
  {
    HexOfFour(BE32(w));
  }

  // The nine constants of the schedule written out, one lemma each so that every
  // proof stays small.

  lemma TextOf00000000()
    ensures HexWord(0x0000_0000) == "0x00000000"
  {
    HexWordOf(0x0000_0000, 0x00, 0x00, 0x00, 0x00);
  }

  lemma TextOf5a827999()
    ensures HexWord(0x5a82_7999) == "0x5a827999"
  {
    HexWordOf(0x5a82_7999, 0x5a, 0x82, 0x79, 0x99);
  }

  lemma TextOf6ed9eba1()
    ensures HexWord(0x6ed9_eba1) == "0x6ed9eba1"
  {
    HexWordOf(0x6ed9_eba1, 0x6e, 0xd9, 0xeb, 0xa1);
  }

  lemma TextOf8f1bbcdc()
    ensures HexWord(0x8f1b_bcdc) == "0x8f1bbcdc"
  {
    HexWordOf(0x8f1b_bcdc, 0x8f, 0x1b, 0xbc, 0xdc);
  }

  lemma TextOfa953fd4e()
    ensures HexWord(0xa953_fd4e) == "0xa953fd4e"
  {
    HexWordOf(0xa953_fd4e, 0xa9, 0x53, 0xfd, 0x4e);
  }

  lemma TextOf50a28be6()
    ensures HexWord(0x50a2_8be6) == "0x50a28be6"
  {
    HexWordOf(0x50a2_8be6, 0x50, 0xa2, 0x8b, 0xe6);
  }

  lemma TextOf5c4dd124()
    ensures HexWord(0x5c4d_d124) == "0x5c4dd124"
  {
    HexWordOf(0x5c4d_d124, 0x5c, 0x4d, 0xd1, 0x24);
  }

  lemma TextOf6d703ef3()
    ensures HexWord(0x6d70_3ef3) == "0x6d703ef3"
  {
    HexWordOf(0x6d70_3ef3, 0x6d, 0x70, 0x3e, 0xf3);
  }

  lemma TextOf7a6d76e9()
    ensures HexWord(0x7a6d_76e9) == "0x7a6d76e9"
  {
    HexWordOf(0x7a6d_76e9, 0x7a, 0x6d, 0x76, 0xe9);
  }

  /** The left constant's text is the hash's left constant of the same quintet, as
      eight hexadecimal digits after `0x`. */
  lemma LeftConstantNameIsHex(round: int)
    ensures GetConstantName(round) == HexWord(LeftConstant(Representative(round)))
  {
    var q, i := Quintet(round), Representative(round);
    if q == 0 {
      assert LeftConstant(i) == 0x0000_0000;
      TextOf00000000();
    } else if q == 1 {
      assert LeftConstant(i) == 0x5a82_7999;
      TextOf5a827999();
    } else if q == 2 {
      assert LeftConstant(i) == 0x6ed9_eba1;
      TextOf6ed9eba1();
    } else if q == 3 {
      assert LeftConstant(i) == 0x8f1b_bcdc;
      TextOf8f1bbcdc();
    } else {
      assert LeftConstant(i) == 0xa953_fd4e;
      TextOfa953fd4e();
    }
  }

  /** The right constant's text is the hash's right constant of the same quintet. */
  lemma RightConstantNameIsHex(round: int)
    ensures GetRightConstantName(round) == HexWord(RightConstant(Representative(round)))
  {
    var q, i := Quintet(round), Representative(round);
    if q == 0 {
      assert RightConstant(i) == 0x50a2_8be6;
      TextOf50a28be6();
    } else if q == 1 {
      assert RightConstant(i) == 0x5c4d_d124;
      TextOf5c4dd124();
    } else if q == 2 {
      assert RightConstant(i) == 0x6d70_3ef3;
      TextOf6d703ef3();
    } else if q == 3 {
      assert RightConstant(i) == 0x7a6d_76e9;
      TextOf7a6d76e9();
    } else {
      assert RightConstant(i) == 0x0000_0000;
      TextOf00000000();
    }
  }

  /** Reading the eight digits after `0x` back as bytes gives the word's bytes,
      most-significant first, so the text of a constant names exactly that word. */
  lemma HexWordReadsBack(w: Word)
    ensures HexWord(w)[..2] == "0x"
    ensures UnHex(HexWord(w)[2..]) == BE32(w)
  {
    assert HexWord(w)[2..] == Hex(BE32(w));
    UnHexHex(BE32(w));
  }

  /** For the 80 rounds of a block the panel's word indices are the visualiser's
      `rl[round]` and `rr[round]`, and the hash's schedule. */
  lemma WordIndicesAgree(i: Round)
    ensures GetLeftWordIndex(i) == RipemdFunction.Some(Visualizer.Rl[i] as int)
    ensures GetRightWordIndex(i) == RipemdFunction.Some(Visualizer.Rr[i] as int)
    ensures GetLeftWordIndex(i) == RipemdFunction.Some(LeftWordIndex(i) as int)
    ensures GetRightWordIndex(i) == RipemdFunction.Some(RightWordIndex(i) as int)
  {
    VisualizerFacts.TablesAgree(i);
  }

  /** The left index of a first-quintet round is the round itself, and from round 0 on
      either helper gives a word index 0..15 exactly while the round is below 80; below
      round 0 the right table has no entry and the left helper returns the round. */
  lemma WordIndicesInRange(round: int)
    ensures round < 16 ==> GetLeftWordIndex(round) == RipemdFunction.Some(round)
    ensures 0 <= round ==> (GetLeftWordIndex(round).Some? <==> round < 80)
    ensures GetRightWordIndex(round).Some? <==> 0 <= round < 80
    ensures 0 <= round && GetLeftWordIndex(round).Some? ==> 0 <= GetLeftWordIndex(round).value < 16
    ensures GetRightWordIndex(round).Some? ==> 0 <= GetRightWordIndex(round).value < 16
  {
    if 0 <= round < 80 {
      WordIndicesAgree(round);
    }
  }
}
