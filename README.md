# RIPEMD-160 in ripemdVis, modelled in Dafny

ripemdVis is a web visualiser for the RIPEMD-160 hash function. This project models its
hash pipeline: padding, the split into 16-word little-endian blocks, the two-lane
80-round compression, the permuted-addition combine and the little-endian digest. The
repository implements that pipeline twice, and both copies are modelled. The small
lookup helpers its React panels use to label a round are modelled as well.

- `src/classes/ripemd160.js` is the hash module. It provides:
  - `rotateLeft` and `F`..`J` (module `Selection`);
  - the round schedule (module `Schedule`);
  - `ripemd160Padding` in text and binary mode (module `Padding`);
  - `ripemd160` (modules `Compression` and `Ripemd160`);
  - the trace-producing `ripemd160Stepped` (module `Stepped`).
- `ripemd160-visualizer.js` provides `padMessage`, `createMessageBlocks`,
  `ripemd160WithSteps` and `compressWithSteps` with their tables, `f`..`j` and
  `rotateLeft` (module `Visualizer`). Their proofs are in `VisualizerFacts` and
  `VisualizerRecords`.
- `src/components/RipemdCompressionCalculation.js` provides the round panel's
  function-name, constant and word-index helpers (module `CompressionCalculation`).
- `src/components/RipemdFunction.js` provides the selection-function panel's
  `calculateFunction` and `getFormulaDisplay` (module `RipemdFunction`).

How the model represents the code:
- Words are `bv32`. JavaScript's bitwise operators work on the 32-bit two's-complement
  value of a number, and every sum is reduced with `>>> 0`. A signed int32 result and
  its unsigned reading are therefore the same 32 bits, and the model treats them as
  one `Word`.
- Shift counts are masked to five bits, as JavaScript does (`Bits.Shl`, `Bits.Ushr`).
- The imperative code is written as Dafny methods, each proved against a specification
  function:
  - the push loops of the padding;
  - the chunk loop and the 80-round loop over the ten lane registers;
  - the `w` array refilled in place;
  - the `Uint8Array` that `padMessage` writes;
  - the caller-owned `steps` array, a class `StepLog` whose `steps` field the methods
    extend.
- Module `Induction` holds one induction principle, used for block-by-block proofs.

Three places where the code's behaviour is narrower than its comments or than
RIPEMD-160 itself. The model follows the code each time:
- The comment at `src/classes/ripemd160.js:71` says the length is added "in bits as
  64-bit little-endian", as RIPEMD-160's padding (MD4's, section 3.2 of RFC 1320)
  requires. The code writes the low 32 bits twice (first row under Findings).
- Text mode handles ASCII only; the comment at line 49 defers multi-byte UTF-8. Any
  code unit of 128 or more throws "Non-ASCII characters not supported yet", which is
  `Padding.NonAsciiError`.
- Binary mode is marked "for now" at line 54. It parses each slice of eight digits with
  `parseInt(…, 2)`, so a short last slice of k digits becomes a byte below 2^k rather
  than an error (`Padding.BinaryValueIsNumber`, `Padding.BinaryBytesAt`). That is
  modelled for strings of '0' and '1'.

## Model

| member | source | states |
|---|---|---|
| Selection.RotateLeftIsRotation | src/classes/ripemd160.js:7-15 | for an amount k = r & 31 that is not 0, `rotateLeft` is the 32-bit rotation (v << k) \| (v >> (32 - k)) |
| Selection.RotateLeftByZero | src/classes/ripemd160.js:7-15 | an amount that is a multiple of 32 returns the value's bits unchanged |
| Selection.RotateLeftModulo | src/classes/ripemd160.js:9 | only the amount mod 32 matters |
| Selection.RotatedArguments | src/classes/ripemd160.js:30-36 | I(x, y, z) = G(z, x, y) and J(x, y, z) = H(y, z, x) |
| Schedule.IndexRowsArePermutations | src/classes/ripemd160.js:117-147 | every 16-entry word-index table of either lane holds each index 0..15 |
| Schedule.ShiftsInRange | src/classes/ripemd160.js:115-148 | every rotation amount of either lane, in all 80 rounds, lies in 5..15 |
| Bits.WordOfLE32 | src/classes/ripemd160.js:98-102 | serialising a word little-endian and reading it back with the `b0 \| b1<<8 \| b2<<16 \| b3<<24` formula gives the word |
| Bits.LE32OfWord | src/classes/ripemd160.js:98-102 | reading four bytes as a word and serialising it gives the four bytes back |
| Bits.HexByte | src/classes/ripemd160.js:171 | `b.toString(16).padStart(2, '0')` is two lowercase hex digits that denote b, high nibble first |
| Bits.UnHexHex | src/classes/ripemd160.js:171 | the hex text of a byte string reads back to the same bytes |
| Bits.HexAppend | src/classes/ripemd160.js:174 | the text of two byte strings one after the other is the texts one after the other |
| Padding.AsciiBytes | src/classes/ripemd160.js:44-52 | text mode gives one byte per code unit, with the code unit's value |
| Padding.TextModeBytes | src/classes/ripemd160.js:42-52 | the push loop gives the text-mode bytes, or the error at the first code unit of 128 or more, before any byte is returned |
| Padding.BinaryModeBytes | src/classes/ripemd160.js:53-59 | the push loop gives one byte per slice `message.slice(i, i + 8)` of a '0'/'1' string |
| Padding.BinaryValueIsNumber | src/classes/ripemd160.js:57 | `parseInt(digits, 2)` of at most eight '0'/'1' digits is the number they write in base 2, most significant first, and k digits give a value below 2^k |
| Padding.BinaryBytesLength | src/classes/ripemd160.js:56-58 | binary mode gives ceil(n / 8) bytes for n digits, one per started slice of eight |
| Padding.BinaryBytesAt | src/classes/ripemd160.js:56-58 | byte j of binary mode is the base-2 number written by the slice starting at digit 8j, which ends at 8j + 8 or at the end of the message |
| Padding.ZeroCountLeast | src/classes/ripemd160.js:67-69 | the zero loop stops at the first length ≡ 56 (mod 64): for j up to the count, L + 1 + j ≡ 56 exactly when j is the count |
| Padding.PushMarkerAndZeros | src/classes/ripemd160.js:63-69 | the loop appends 0x80 and then the zero bytes |
| Padding.PushLength | src/classes/ripemd160.js:71-75 | the length loop appends the eight bytes `(lengthInBits >>> (i * 8)) & 0xFF` |
| Padding.AppendPadding | src/classes/ripemd160.js:61-77 | the three loops together build the padded message |
| Padding.RipemdPadding | src/classes/ripemd160.js:39-78 | `ripemd160Padding` fails exactly in text mode on a non-ASCII message, with the code's message, and otherwise returns the padding of the message's bytes |
| Padding.PadLength | src/classes/ripemd160.js:61-78 | the padded length is a multiple of 64, at least L + 9 and under L + 73, and its chunk count is ceil((L + 9) / 64) |
| Padding.PadChunks | src/classes/ripemd160.js:92 | the chunk loop over the padded message runs ceil((L + 9) / 64) times |
| Padding.PadContents | src/classes/ripemd160.js:61-75 | the input is a prefix of the padded message, 0x80 is at index L, zeros follow up to the last eight bytes, and those hold the length field |
| Padding.LengthFieldRepeats | src/classes/ripemd160.js:71-75 | the length field is LE32(8·L mod 2^32) twice, because the shift count is taken mod 32 |
| Padding.UpperLengthWordNonZero | src/classes/ripemd160.js:71-75 | for 0 < L < 2^29 the upper four bytes of the length field are not all zero |
| Padding.StandardLengthFieldAgreement | src/classes/ripemd160.js:71-75 | the standard field is LE32 of the bit length followed by four zero bytes, and it equals the code's field exactly when L = 0 |
| Padding.StandardFieldHoldsLength | src/classes/ripemd160.js:71-75 | the standard field, read as a 64-bit little-endian number, is the bit length |
| Padding.CodeFieldMisstatesLength | src/classes/ripemd160.js:71-75 | the code's field, read as a 64-bit number, is (2^32 + 1) times the bit length, which equals the bit length exactly when L = 0 |
| Padding.StandardPadAgreement | src/classes/ripemd160.js:39-78 | the standard padding has the same length and agrees with the code's except in the last four bytes, and the two are equal exactly for the empty message |
| Compression.DigestBytesDetermineState | src/classes/ripemd160.js:163-174 | the 20 digest bytes (h0..h4, least-significant byte first) read back as little-endian words give h0..h4 |
| Ripemd160.ToHexLEIsHex | src/classes/ripemd160.js:164-172 | `toHexLE(value)` is the hex text of the word's little-endian bytes |
| Ripemd160.HexDigestIsHexOfDigestBytes | src/classes/ripemd160.js:174 | the returned string is the 40-character hex text of the 20 digest bytes, and it reads back to them |
| Ripemd160.Ripemd160 | src/classes/ripemd160.js:81-175 | `ripemd160(message)` is the error for a non-ASCII message and otherwise the hex text of the state after the chunk loop over the padded bytes |
| Ripemd160.HashChunks | src/classes/ripemd160.js:92-161 | after the chunk loop, h0..h4 is the state after all chunks |
| Ripemd160.ProcessChunk | src/classes/ripemd160.js:92-161 | one chunk takes the state after chunk c to the state after chunk c + 1 |
| Ripemd160.ReadChunk | src/classes/ripemd160.js:94-103 | `w` holds the 16 little-endian words of the chunk |
| Ripemd160.CompressChunk | src/classes/ripemd160.js:105-160 | the 80 rounds of both lanes and the combine give the compression of the state by the block |
| Stepped.Ripemd160Stepped | src/classes/ripemd160.js:178-301 | `ripemd160Stepped` fails exactly in text mode on a non-ASCII message, and otherwise returns the trace of the cut-short loop over the padded message |
| Stepped.SteppedLoop | src/classes/ripemd160.js:186-300 | the chunk loop with its trace arrays produces the trace the specification functions give |
| Stepped.NextChunk | src/classes/ripemd160.js:196-275 | one chunk extends `hsBefore` by the new state and `lettersBefore` by one register pair per round run, and leaves the chunk's words in `w` |
| Stepped.SteppedChunk | src/classes/ripemd160.js:197-272 | the chunk reads its words and runs `maxRounds + 1` rounds (80 before the last chunk) before combining |
| Stepped.FillWords | src/classes/ripemd160.js:199-211 | `w` is refilled with the chunk's words, 0 where the four bytes are not all there |
| Stepped.SteppedRounds | src/classes/ripemd160.js:219-264 | the round loop `i <= maxRounds` leaves the lanes after `maxRounds + 1` rounds and records each round's registers |
| Stepped.TraceAtEnd | src/classes/ripemd160.js:277-300 | the returned object is the hex hash, the last letters (or the state twice when none were recorded), both trace arrays, the last state and `w` |
| Stepped.StartOfLoop | src/classes/ripemd160.js:186-193 | before any chunk the state is the IV, `hsBefore` is [IV] and `lettersBefore` is the IV twice |
| Stepped.SteppedStatesShape | src/classes/ripemd160.js:274 | after k chunks `hsBefore` has k + 1 entries, starts with the IV and ends with the current state, which the trace returns as `hs` |
| Stepped.LettersShape | src/classes/ripemd160.js:263 | for k ≤ chunksLoop, `lettersBefore` has 1 + 80·k entries, less the rounds the last chunk skips, and its first entry is the IV twice |
| Stepped.RoundLettersEntries | src/classes/ripemd160.js:263 | entry j of a chunk's letters is the two lanes after j + 1 rounds |
| Stepped.ChunkWordsPastEnd | src/classes/ripemd160.js:202-210 | words of a chunk beyond the padded data are 0 |
| Stepped.PartialCompressAll | src/classes/ripemd160.js:218-219 | a chunk that runs all 80 rounds is the full compression |
| Stepped.FullRunIsStateAfter | src/classes/ripemd160.js:218 | with `secondLoop = 79` every chunk runs 80 rounds, and the stepped state is the hash module's state |
| Stepped.SteppedAgreesWithRipemd160 | src/classes/ripemd160.js:288 | with `chunksLoop` equal to the block count and `secondLoop = 79`, the stepped `hash` is `ripemd160(message)` |
| Visualizer.PadMessage | ripemd160-visualizer.js:176-198 | `padMessage` returns a fresh array holding the same padded message as the hash module, with its duplicated length field |
| Visualizer.PaddedLength | ripemd160-visualizer.js:180-184 | the length loop stops at L + 1 + the zero count + 8 |
| Visualizer.WriteLength | ripemd160-visualizer.js:193-195 | the last eight bytes become the length field and the rest is unchanged |
| Visualizer.LengthByteAt | ripemd160-visualizer.js:194 | each written byte extends the length field by its next byte |
| Visualizer.PaddedHead | ripemd160-visualizer.js:186-190 | a zeroed array with the message copied in and 0x80 after it is the message, 0x80 and the zeros |
| Visualizer.BlocksAt | ripemd160-visualizer.js:205-215 | block c of the list is the 16 little-endian words of chunk c |
| Visualizer.CreateMessageBlocks | ripemd160-visualizer.js:200-218 | `createMessageBlocks` returns padded.length / 64 blocks, each the chunk's little-endian words |
| Visualizer.SplitBlocks | ripemd160-visualizer.js:204-217 | the block loop gives the blocks of every 64-byte chunk |
| Visualizer.StepLog.constructor | ripemd160-visualizer.js:259 | the steps array starts empty |
| Visualizer.CompressWithSteps | ripemd160-visualizer.js:317-412 | the returned lanes are the lanes after 80 steps, and `steps` gains exactly the 80 records of the block after its old contents |
| Visualizer.StepsNext | ripemd160-visualizer.js:354-406 | one more step extends the lanes by one step and the records by that step's record |
| Visualizer.Step | ripemd160-visualizer.js:354-406 | one loop iteration updates both lanes by one step and pushes that step's record |
| Visualizer.LeftLane | ripemd160-visualizer.js:358-369 | the left lane's `switch` and update give the left step and the fields its record shows |
| Visualizer.RightLane | ripemd160-visualizer.js:372-383 | the right lane's `switch` and update give the right step and the fields its record shows |
| Visualizer.Ripemd160WithSteps | ripemd160-visualizer.js:248-304 | the hash is the 20 little-endian bytes of the state after all blocks, and `steps` is the 80 records of every block in order |
| Visualizer.HashBlocks | ripemd160-visualizer.js:262-291 | the block loop gives the state after all blocks and all their records |
| Visualizer.NextBlock | ripemd160-visualizer.js:262-291 | one block iteration, labelled `blockIndex / 64`, advances the state and the records by one block |
| Visualizer.NextBlockOutcome | ripemd160-visualizer.js:276-290 | compressing block b from the state after b blocks, and appending its records, gives the state and records after b + 1 blocks |
| Visualizer.BlocksAfterNext | ripemd160-visualizer.js:276-290 | the state after b + 1 blocks is the block compression of the state after b, and the records grow by block b's 80 |
| Visualizer.BlockWithSteps | ripemd160-visualizer.js:272-290 | both lanes start from h0..h4, run `compressWithSteps` and are combined with the permuted-addition formula |
| Visualizer.WordsLEDigest | ripemd160-visualizer.js:294-301 | the bytes of h0..h4 written least-significant first are the digest bytes |
| Visualizer.HashBytes | ripemd160-visualizer.js:293-301 | the 20-byte hash is h0..h4 least-significant byte first |
| Visualizer.WriteWord | ripemd160-visualizer.js:297-300 | bytes 4i..4i+3 receive the word's little-endian bytes and no other byte changes |
| Visualizer.StepsAfter | ripemd160-visualizer.js:259-303 | after n blocks there are 80·n records |
| VisualizerFacts.RotateLeftIsRotation | ripemd160-visualizer.js:313-315 | for amounts 1..31 the visualiser's `rotateLeft` is the 32-bit rotation and agrees with the hash module's |
| VisualizerFacts.RlRows | ripemd160-visualizer.js:319-323 | `rl` is the identity row followed by the hash module's four left index tables |
| VisualizerFacts.RrRows | ripemd160-visualizer.js:325-329 | `rr` is the hash module's five right index tables |
| VisualizerFacts.SlRows | ripemd160-visualizer.js:331-335 | `sl` is the hash module's five left rotation tables |
| VisualizerFacts.SrRows | ripemd160-visualizer.js:337-341 | `sr` is the hash module's five right rotation tables |
| VisualizerFacts.TablesAgree | ripemd160-visualizer.js:319-341 | in every step the four tables give the hash module's word index and rotation for both lanes |
| VisualizerFacts.IdentityRow | ripemd160-visualizer.js:319 | the first 16 entries of `rl` are 0..15 in order |
| VisualizerFacts.WordTablesArePermutations | ripemd160-visualizer.js:319-329 | each of the five 16-entry groups of `rl` and `rr` holds every index 0..15 |
| VisualizerFacts.ShiftTablesInRange | ripemd160-visualizer.js:331-341 | every entry of `sl` and `sr` lies in 5..15 |
| VisualizerFacts.CasesAgree | ripemd160-visualizer.js:359-379 | both `switch (round)` statements give the hash module's selection function and constant of the quintet |
| VisualizerFacts.LeftRotatedIsT | ripemd160-visualizer.js:367-369 | the left lane's rotated sum is the hash module's |
| VisualizerFacts.RightRotatedIsT | ripemd160-visualizer.js:381-383 | the right lane's rotated sum is the hash module's |
| VisualizerFacts.CorrectedStepIsRound | ripemd160-visualizer.js:367-369 | with B set to the rotated sum plus the old E, a visualiser step is a round of the hash module, in both lanes |
| VisualizerFacts.CorrectedStepsAreRounds | ripemd160-visualizer.js:354-384 | the corrected steps, taken n at a time, are the hash module's first n rounds |
| VisualizerFacts.CorrectedBlockIsCompress | ripemd160-visualizer.js:276-290 | a corrected block is the hash module's compression |
| VisualizerFacts.CorrectedNextState | ripemd160-visualizer.js:262-291 | one more block keeps the corrected state equal to the hash module's |
| VisualizerFacts.CorrectedStateIsStateAfter | ripemd160-visualizer.js:262-291 | after any number of blocks the corrected state is the hash module's |
| VisualizerFacts.CorrectedDigestIsRipemd160 | ripemd160-visualizer.js:248-304 | the corrected visualiser's 20 bytes are the hash module's digest bytes, and `ripemd160` returns their hex text |
| VisualizerFacts.AsWrittenStepDiffers | ripemd160-visualizer.js:368-369 | a step as written equals the corrected step exactly when the lane's D equals its E, in both lanes |
| VisualizerRecords.StepRecords | ripemd160-visualizer.js:386-405 | record i of a block has step i + 1, round floor(i/16) + 1, the block number, `functions[round]` on the left and `functions[4 - round]` on the right, and both lanes after i + 1 steps |
| VisualizerRecords.StepsOfEntry | ripemd160-visualizer.js:386-405 | record i is built from the lanes after the first i steps |
| VisualizerRecords.StepsAfterEntry | ripemd160-visualizer.js:276-282 | record 80·b + j of the whole run is record j of block b |
| VisualizerRecords.StepsAfterRecord | ripemd160-visualizer.js:262-303 | record 80·b + j shows block b, step j + 1 and the lanes after j + 1 steps from the state before block b |
| VisualizerRecords.FirstStepDiffers | ripemd160-visualizer.js:368-369 | from the IV, the first left step as written is not round 0 of the algorithm, whatever the block |
| VisualizerRecords.FirstBlockRecordDiffers | ripemd160-visualizer.js:386-391 | for any padded message with a block, the first record's left registers are not the algorithm's round 0 |
| VisualizerRecords.FirstRecordDiffers | ripemd160-visualizer.js:248-304 | for every message, including the empty one, the first record `ripemd160WithSteps` makes shows registers that differ from RIPEMD-160's |
| RipemdFunction.OrZero | src/components/RipemdFunction.js:48 | `operand \|\| 0`: an absent operand gives 0 and a present one its own value |
| RipemdFunction.PanelResult | src/components/RipemdFunction.js:48 | each operand is defaulted on its own: the result is the named function of the present operands' values, with 0 in place of each absent one (mixed cases included) |
| RipemdFunction.CalculationIsEvaluated | src/components/RipemdFunction.js:26-35 | `calculateFunction` evaluates, for 'F'..'J', the formula the panel displays for that name, and returns 0 for any other name |
| RipemdFunction.DisplayIsRendered | src/components/RipemdFunction.js:37-46 | exactly the five names have a formula; their display string is that formula written out, and any other name shows '' |
| RipemdFunction.RenderF | src/components/RipemdFunction.js:39 | 'x ⊕ y ⊕ z' is the written form of F's formula |
| RipemdFunction.RenderG | src/components/RipemdFunction.js:40 | '(x ∧ y) ∨ (¬x ∧ z)' is the written form of G's formula |
| RipemdFunction.RenderH | src/components/RipemdFunction.js:41 | '(x ∨ ¬y) ⊕ z' is the written form of H's formula |
| RipemdFunction.RenderI | src/components/RipemdFunction.js:42 | '(x ∧ z) ∨ (y ∧ ¬z)' is the written form of I's formula |
| RipemdFunction.RenderJ | src/components/RipemdFunction.js:43 | 'x ⊕ (y ∨ ¬z)' is the written form of J's formula |
| RipemdFunction.FAsApply | src/components/RipemdFunction.js:6-8 | F is the xor of x, y and z, which the formula evaluates |
| RipemdFunction.GAsApply | src/components/RipemdFunction.js:10-12 | G is (x ∧ y) ∨ (¬x ∧ z) |
| RipemdFunction.HAsApply | src/components/RipemdFunction.js:14-16 | H is (x ∨ ¬y) ⊕ z |
| RipemdFunction.IAsApply | src/components/RipemdFunction.js:18-20 | I is (x ∧ z) ∨ (y ∧ ¬z) |
| RipemdFunction.JAsApply | src/components/RipemdFunction.js:22-24 | J is x ⊕ (y ∨ ¬z) |
| CompressionCalculation.Lookup | src/components/RipemdCompressionCalculation.js:47-58 | a literal-table lookup has a value exactly when the index is in the table, and the value is the entry |
| CompressionCalculation.FunctionNamesMirror | src/components/RipemdCompressionCalculation.js:12-42 | for every round, `getFunctionName` is F..J by quintet and `getRightFunctionName` is the mirror J..F, rounds below 0 in the first quintet and rounds from 64 on in the last |
| CompressionCalculation.FunctionNamesSelect | src/components/RipemdCompressionCalculation.js:12-18 | for rounds 0..79 the two names select, through `calculateFunction`, the selection functions the hash applies in that round |
| CompressionCalculation.LeftConstantNameIsHex | src/components/RipemdCompressionCalculation.js:20-26 | `getConstantName` is '0x' and the eight hex digits of the hash's left constant of the round's quintet |
| CompressionCalculation.RightConstantNameIsHex | src/components/RipemdCompressionCalculation.js:28-34 | `getRightConstantName` is '0x' and the eight hex digits of the hash's right constant of the round's quintet |
| CompressionCalculation.HexWordReadsBack | src/components/RipemdCompressionCalculation.js:20-34 | the eight digits after '0x' read back to the constant's bytes, so each text names exactly one word |
| CompressionCalculation.WordIndicesAgree | src/components/RipemdCompressionCalculation.js:45-59 | for rounds 0..79 the two word indices are `rl[round]` and `rr[round]`, and the hash module's schedule |
| CompressionCalculation.WordIndicesInRange | src/components/RipemdCompressionCalculation.js:45-59 | `getLeftWordIndex(r) = r` for r < 16. From round 0 on, either helper has a value exactly below round 80, and the value lies in 0..15 |

## Left out

- The DOM, timers and animation of `ripemd160-visualizer.js` are not modelled. These
  are the constructor, the element setup, the event listeners, `reset`, the display
  methods and the step and play methods. The JSX of both React components is left out
  too. All of it is user-interface code.
- `TextEncoder` is a library UTF-8 encoder. The visualiser's methods therefore take the
  message bytes as their input.
- `parseInt` on a malformed binary string is not modelled: JavaScript parsing turns it
  into NaN and later into 0. Binary mode is modelled for strings of '0' and '1' only.
  `stringToBinary` and `decimalToBinary` in `utils.js` are not part of this model.
- The unused `firstLoop` parameter of `ripemd160Stepped` is dropped.
- `secondLoop ≥ 80` is excluded by a precondition: it indexes past the tables and
  yields `undefined`/NaN. A negative `secondLoop` is modelled, and the last chunk then
  runs no round.
- The text fields of the step records are not modelled (`operation`, `word`,
  `constant`, which are `toString(16)` text). Neither is the binary text of `w` in the
  stepped trace. The records keep the numbers those texts print.
- `Stepped.Ripemd160Stepped` takes `chunksLoop` as a `nat`. A negative count, which
  JavaScript accepts, runs no chunk exactly like 0, so it is left out of the type.
- Registers are one `Word` each, so the model gives the unsigned reading of every
  register. The hash module's `rotateLeft` has no `>>> 0`, so in the stepped trace the
  `lettersBefore`/`letters` entries for D, E and A can be negative JavaScript numbers
  with the same 32 bits. The model's trace arrays hold their unsigned reading.
- Messages of 2^29 bytes or more are not modelled by the length-field lemmas. Their bit
  length does not fit in the 32 bits `>>>` keeps.
- The known-answer vectors of the test script are not proved by evaluation: 160 rounds
  of 32-bit arithmetic per block are beyond what the verifier evaluates in reasonable
  time. What the vectors show about the length field is stated as the first row under
  Findings.
- Padding.StandardFieldHoldsLength: states the bit length as `BitLength(L)`, that is
  8·L mod 2^32, rather than 8·L itself. The two are equal for L < 2^29, but that step
  from the integer to its 32-bit reduction is not proved here.
- The React panels' inputs (`clock`, `letters`, `base`) and the "Final Combination"
  caption are display state and display text.

## Findings

| source | as written | input that shows it | evidently intended | confidence | as-written member | corrected member |
|---|---|---|---|---|---|---|
| src/classes/ripemd160.js:73-75 (and ripemd160-visualizer.js:193-195) | `(lengthInBits >>> (i * 8)) & 0xFF` for i = 0..7. JavaScript takes the shift count mod 32, so bytes 4..7 repeat bytes 0..3 | any non-empty message, e.g. "a": bit length 8, field 08 00 00 00 08 00 00 00 | the 64-bit bit length, low word first (section 3.2 of RFC 1320): 08 00 00 00 00 00 00 00. The test script's "a" and "abc" digests assume this | not executed | Padding.LengthFieldRepeats, Padding.UpperLengthWordNonZero, Padding.CodeFieldMisstatesLength | Padding.StandardPad, Padding.StandardFieldHoldsLength, Padding.StandardPadAgreement |
| ripemd160-visualizer.js:368-369 (and 382-383) | `el = dl` runs before `bl = (rotateLeft(tl, sl[i]) + el) >>> 0`, so B receives the rotated sum plus the old D | the first step of every message from the IV, where D = 0x10325476 and E = 0xc3d2e1f0 | B = rotated sum + old E, as in src/classes/ripemd160.js:129-130 | not executed | VisualizerFacts.AsWrittenStepDiffers, VisualizerRecords.FirstRecordDiffers | VisualizerFacts.CorrectedStepIsRound, VisualizerFacts.CorrectedDigestIsRipemd160 |

The hash methods model the code as written, so they use `Padding.Pad` and the
visualiser's `AsWritten` step. The corrected definitions sit beside them:
- `Padding.StandardPad` is proved to equal `Pad` except in the last four bytes.
- The `Corrected` variant of the visualiser's step is proved to compute the hash
  module's digest.
