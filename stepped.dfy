/** `ripemd160Stepped` of the hash module: the same chunk loop as `ripemd160`, cut short
    after `chunksLoop` chunks and, in the last of them, after round `secondLoop`, with
    a trace of the ten lane registers after every round (`lettersBefore`) and of the
    chaining state after every chunk (`hsBefore`). */
module Stepped {
  import opened Bits
  import opened Schedule
  import opened Selection
  import opened Padding
  import opened Compression
  import opened Ripemd160
  import opened Induction

  /** One entry of `lettersBefore`: `[al, bl, cl, dl, el, ar, br, cr, dr, er]`. */
  datatype Letters = Letters(left: Regs, right: Regs)

  /** The object `ripemd160Stepped` returns, with the words `w` kept as numbers. */
  datatype Trace = Trace(hash: string, letters: Letters, lettersBefore: seq<Letters>,
                         hs: State, hsBefore: seq<State>, w: seq<Word>)

  /** Both lanes holding the chaining state, as at the start of every chunk. */
  function StartLetters(h: State): Letters {
    Letters(Lanes(h), Lanes(h))
  }

  /** `maxRounds + 1` for chunk `chunkIndex`: all 80 rounds before the last chunk,
      rounds 0..secondLoop in it (none when secondLoop is negative). */
  function RoundsRun(chunkIndex: nat, chunksLoop: nat, secondLoop: int): (n: nat)
    requires secondLoop <= 79
    ensures n <= 80
  {
    if chunkIndex < chunksLoop - 1 then 80
    else if secondLoop < 0 then 0
    else secondLoop + 1
  }

  /** A chunk cut short after n rounds of both lanes, then combined as usual. */
  function PartialCompress(h: State, x: Block, n: nat): State
    requires n <= 80
  {
    Combine(h, LeftRounds(n, Lanes(h), x), RightRounds(n, Lanes(h), x))
  }

  /** Running all 80 rounds is the full compression. */
  lemma PartialCompressAll(h: State, x: Block)
    ensures PartialCompress(h, x, 80) == Compress(h, x)
  {
  }

  /** The register pairs recorded during the first n rounds of a chunk. */
  function RoundLetters(h: State, x: Block, n: nat): (s: seq<Letters>)
    requires n <= 80
    ensures |s| == n
  {
    if n == 0 then []
    else RoundLetters(h, x, n - 1) + [Letters(LeftRounds(n, Lanes(h), x), RightRounds(n, Lanes(h), x))]
  }

  /** The chaining state after the first k chunks of the stepped loop. */
  function SteppedState(padded: seq<Byte>, k: nat, chunksLoop: nat, secondLoop: int): State
    requires secondLoop <= 79
    decreases k, 1
  {
    if k == 0 then IV else ChunkRun(padded, k - 1, chunksLoop, secondLoop)
  }

  /** The chaining state once chunk c has run its rounds and been combined. */
  function ChunkRun(padded: seq<Byte>, c: nat, chunksLoop: nat, secondLoop: int): State
    requires secondLoop <= 79
    decreases c + 1, 0
  {
    PartialCompress(SteppedState(padded, c, chunksLoop, secondLoop),
                    ChunkWords(padded, c), RoundsRun(c, chunksLoop, secondLoop))
  }

  /** `hsBefore` after the first k chunks. */
  function SteppedStates(padded: seq<Byte>, k: nat, chunksLoop: nat, secondLoop: int): seq<State>
    requires secondLoop <= 79
  {
    if k == 0 then [IV]
    else SteppedStates(padded, k - 1, chunksLoop, secondLoop) + [SteppedState(padded, k, chunksLoop, secondLoop)]
  }

  /** `lettersBefore` after the first k chunks. */
  function SteppedLetters(padded: seq<Byte>, k: nat, chunksLoop: nat, secondLoop: int): seq<Letters>
    requires secondLoop <= 79
  {
    if k == 0 then [StartLetters(IV)]
    else SteppedLetters(padded, k - 1, chunksLoop, secondLoop)
         + RoundLetters(SteppedState(padded, k - 1, chunksLoop, secondLoop), ChunkWords(padded, k - 1),
                        RoundsRun(k - 1, chunksLoop, secondLoop))
  }

  /** The words left in `w`: those of the last chunk read, or the initial zeros. */
  function LastWords(padded: seq<Byte>, chunksLoop: nat): Block {
    if chunksLoop == 0 then [0, 0, 0, 0, 0, 0, 0, 0, 0, 0, 0, 0, 0, 0, 0, 0]
    else ChunkWords(padded, chunksLoop - 1)
  }

  /** What `ripemd160Stepped` returns once the message is padded. */
  function TraceOfPadded(padded: seq<Byte>, secondLoop: int, chunksLoop: nat): Trace
    requires secondLoop <= 79
  {
    var h := SteppedState(padded, chunksLoop, chunksLoop, secondLoop);
    var lettersBefore := SteppedLetters(padded, chunksLoop, chunksLoop, secondLoop);
    Trace(HexDigest(h),
          if |lettersBefore| > 1 then lettersBefore[|lettersBefore| - 1] else StartLetters(h),
          lettersBefore, h, SteppedStates(padded, chunksLoop, chunksLoop, secondLoop),
          LastWords(padded, chunksLoop))
  }

  /** What `ripemd160Stepped` returns for the message bytes. */
  function TraceOf(bytes: seq<Byte>, secondLoop: int, chunksLoop: nat): Trace
    requires secondLoop <= 79
  {
    TraceOfPadded(Pad(bytes), secondLoop, chunksLoop)
  }

  // ---------------------------------------------------------------------------
  // The imperative function

  /** `ripemd160Stepped(message, firstLoop, secondLoop, chunksLoop, inputBase)`; the
      unused `firstLoop` is dropped. */
  method Ripemd160Stepped(message: seq<CodeUnit>, secondLoop: int, chunksLoop: nat, inputBase: Base)
    returns (r: Result<Trace>)
    requires inputBase == Binary ==> IsBinaryString(message)
    requires secondLoop <= 79
    ensures r.Failure? <==> inputBase == Text && !IsAscii(message)
    ensures r.Failure? ==> r.error == NonAsciiError
    ensures r.Success? ==> r.value == TraceOf(InputBytes(message, inputBase).value, secondLoop, chunksLoop)
  {
    var padding := RipemdPadding(message, inputBase);
    if padding.Failure? {
      return Failure(padding.error);
    }
    var trace := SteppedLoop(padding.value, secondLoop, chunksLoop);
    r := Success(trace);
  }

  /** Everything `ripemd160Stepped` does after padding: the chunk loop with its traces,
      then the returned object. */
  method SteppedLoop(paddedBytes: seq<Byte>, secondLoop: int, chunksLoop: nat) returns (trace: Trace)
    requires secondLoop <= 79
    ensures trace == TraceOfPadded(paddedBytes, secondLoop, chunksLoop)
  {
    var h0, h1, h2, h3, h4: Word := 0x6745_2301, 0xefcd_ab89, 0x98ba_dcfe, 0x1032_5476, 0xc3d2_e1f0;
    var hsBefore := [State(h0, h1, h2, h3, h4)];
    var lettersBefore := [StartLetters(State(h0, h1, h2, h3, h4))];
    var w := new Word[16](_ => 0);
    StartOfLoop(paddedBytes, chunksLoop, secondLoop);

    for chunkIndex := 0 to chunksLoop
      invariant w.Length == 16
      invariant State(h0, h1, h2, h3, h4) == SteppedState(paddedBytes, chunkIndex, chunksLoop, secondLoop)
      invariant hsBefore == SteppedStates(paddedBytes, chunkIndex, chunksLoop, secondLoop)
      invariant lettersBefore == SteppedLetters(paddedBytes, chunkIndex, chunksLoop, secondLoop)
      invariant w[..] == LastWords(paddedBytes, chunkIndex)
    {
      h0, h1, h2, h3, h4, hsBefore, lettersBefore :=
        NextChunk(h0, h1, h2, h3, h4, hsBefore, lettersBefore, paddedBytes, chunkIndex, chunksLoop, secondLoop, w);
    }

    trace := TraceAtEnd(h0, h1, h2, h3, h4, hsBefore, lettersBefore, w[..], paddedBytes, chunksLoop, secondLoop);
  }

  /** Before the loop: the initial state, one state and one letters entry recorded, and
      `w` all zeros. */
  lemma StartOfLoop(padded: seq<Byte>, chunksLoop: nat, secondLoop: int)
    requires secondLoop <= 79
    ensures SteppedState(padded, 0, chunksLoop, secondLoop) == IV
    ensures SteppedStates(padded, 0, chunksLoop, secondLoop) == [IV]
    ensures SteppedLetters(padded, 0, chunksLoop, secondLoop) == [StartLetters(IV)]
    ensures LastWords(padded, 0) == [0, 0, 0, 0, 0, 0, 0, 0, 0, 0, 0, 0, 0, 0, 0, 0]
  {
  }

  /** The body of the chunk loop, together with the two trace appends. */
  method NextChunk(h0: Word, h1: Word, h2: Word, h3: Word, h4: Word, hsBefore: seq<State>,
                   lettersBefore: seq<Letters>, paddedBytes: seq<Byte>, chunkIndex: nat,
                   chunksLoop: nat, secondLoop: int, w: array<Word>)
    returns (n0: Word, n1: Word, n2: Word, n3: Word, n4: Word, hsAfter: seq<State>, lettersAfter: seq<Letters>)
    requires secondLoop <= 79 && w.Length == 16
    requires State(h0, h1, h2, h3, h4) == SteppedState(paddedBytes, chunkIndex, chunksLoop, secondLoop)
    requires hsBefore == SteppedStates(paddedBytes, chunkIndex, chunksLoop, secondLoop)
    requires lettersBefore == SteppedLetters(paddedBytes, chunkIndex, chunksLoop, secondLoop)
    modifies w
    ensures State(n0, n1, n2, n3, n4) == SteppedState(paddedBytes, chunkIndex + 1, chunksLoop, secondLoop)
    ensures hsAfter == SteppedStates(paddedBytes, chunkIndex + 1, chunksLoop, secondLoop)
    ensures lettersAfter == SteppedLetters(paddedBytes, chunkIndex + 1, chunksLoop, secondLoop)
    ensures w[..] == LastWords(paddedBytes, chunkIndex + 1)
  {
    var chunkLetters;
    n0, n1, n2, n3, n4, chunkLetters := SteppedChunk(h0, h1, h2, h3, h4, paddedBytes, chunkIndex, chunksLoop, secondLoop, w);
    lettersAfter := lettersBefore + chunkLetters;
    hsAfter := hsBefore + [State(n0, n1, n2, n3, n4)];
  }

  /** After the loop: the hexadecimal hash of h0..h4, the last recorded letters (or the
      state's own when no round ran), `hsBefore`'s last entry, and the traces. */
  method TraceAtEnd(h0: Word, h1: Word, h2: Word, h3: Word, h4: Word, hsBefore: seq<State>,
                    lettersBefore: seq<Letters>, w: seq<Word>, paddedBytes: seq<Byte>,
                    chunksLoop: nat, secondLoop: int)
    returns (trace: Trace)
    requires secondLoop <= 79
    requires State(h0, h1, h2, h3, h4) == SteppedState(paddedBytes, chunksLoop, chunksLoop, secondLoop)
    requires hsBefore == SteppedStates(paddedBytes, chunksLoop, chunksLoop, secondLoop)
    requires lettersBefore == SteppedLetters(paddedBytes, chunksLoop, chunksLoop, secondLoop)
    requires w == LastWords(paddedBytes, chunksLoop)
    ensures trace == TraceOfPadded(paddedBytes, secondLoop, chunksLoop)
  {
    SteppedStatesShape(paddedBytes, chunksLoop, chunksLoop, secondLoop);
    var hash := ToHexLE(h0) + ToHexLE(h1) + ToHexLE(h2) + ToHexLE(h3) + ToHexLE(h4);
    var finalLetters := if |lettersBefore| > 1 then lettersBefore[|lettersBefore| - 1]
                        else StartLetters(State(h0, h1, h2, h3, h4));
    trace := Trace(hash, finalLetters, lettersBefore, hsBefore[|hsBefore| - 1], hsBefore, w);
  }

  /** `hsBefore` holds the initial state and then one state per chunk run, and ends with
      the current state. */
  lemma {:induction false} SteppedStatesShape(padded: seq<Byte>, k: nat, chunksLoop: nat, secondLoop: int)
    requires secondLoop <= 79
    ensures |SteppedStates(padded, k, chunksLoop, secondLoop)| == k + 1
    ensures SteppedStates(padded, k, chunksLoop, secondLoop)[0] == IV
    ensures SteppedStates(padded, k, chunksLoop, secondLoop)[k] == SteppedState(padded, k, chunksLoop, secondLoop)
  {
    if k > 0 {
      SteppedStatesShape(padded, k - 1, chunksLoop, secondLoop);
    }
  }

  /** One pass of the chunk loop: refill `w`, run rounds 0..maxRounds on both lanes,
      recording the registers after each, then combine into h0..h4. */
  method SteppedChunk(h0: Word, h1: Word, h2: Word, h3: Word, h4: Word, paddedBytes: seq<Byte>,
                      chunkIndex: nat, chunksLoop: nat, secondLoop: int, w: array<Word>)
    returns (n0: Word, n1: Word, n2: Word, n3: Word, n4: Word, letters: seq<Letters>)
    requires secondLoop <= 79 && w.Length == 16
    modifies w
    ensures w[..] == ChunkWords(paddedBytes, chunkIndex)
    ensures State(n0, n1, n2, n3, n4)
            == PartialCompress(State(h0, h1, h2, h3, h4), w[..], RoundsRun(chunkIndex, chunksLoop, secondLoop))
    ensures letters == RoundLetters(State(h0, h1, h2, h3, h4), w[..], RoundsRun(chunkIndex, chunksLoop, secondLoop))
  {
    FillWords(paddedBytes, chunkIndex * 64, chunkIndex, w);
    var maxRounds := if chunkIndex < chunksLoop - 1 then 79 else secondLoop;
    n0, n1, n2, n3, n4, letters := SteppedRounds(h0, h1, h2, h3, h4, w, maxRounds);
  }

  /** The word loop of the stepped function: `w` is refilled in place, and a word whose
      four bytes are not all inside the padded message is 0. */
  method FillWords(paddedBytes: seq<Byte>, chunkStart: nat, ghost chunkIndex: nat, w: array<Word>)
    requires w.Length == 16 && chunkStart == chunkIndex * 64
    modifies w
    ensures w[..] == ChunkWords(paddedBytes, chunkIndex)
  {
    for i := 0 to 16
      invariant forall k :: 0 <= k < i ==> w[k] == WordAt(paddedBytes, chunkStart + 4 * k)
    {
      var byteOffset := chunkStart + i * 4;
      if byteOffset + 3 < |paddedBytes| {
        w[i] := WordLE(paddedBytes[byteOffset], paddedBytes[byteOffset + 1],
                       paddedBytes[byteOffset + 2], paddedBytes[byteOffset + 3]);
      } else {
        w[i] := 0;
      }
    }
  }

  /** Rounds 0..maxRounds of both lanes from the chaining state, each followed by a push
      of the ten registers, then the combine. */
  method SteppedRounds(h0: Word, h1: Word, h2: Word, h3: Word, h4: Word, w: array<Word>, maxRounds: int)
    returns (n0: Word, n1: Word, n2: Word, n3: Word, n4: Word, letters: seq<Letters>)
    requires w.Length == 16 && maxRounds <= 79
    ensures State(n0, n1, n2, n3, n4) == PartialCompress(State(h0, h1, h2, h3, h4), w[..], RunLength(maxRounds))
    ensures letters == RoundLetters(State(h0, h1, h2, h3, h4), w[..], RunLength(maxRounds))
  {
    var al, bl, cl, dl, el := h0, h1, h2, h3, h4;
    var ar, br, cr, dr, er := h0, h1, h2, h3, h4;
    ghost var h := State(h0, h1, h2, h3, h4);
    letters := [];
    var i := 0;
    while i <= maxRounds
      invariant 0 <= i <= RunLength(maxRounds)
      invariant Regs(al, bl, cl, dl, el) == LeftRounds(i, Lanes(h), w[..])
      invariant Regs(ar, br, cr, dr, er) == RightRounds(i, Lanes(h), w[..])
      invariant letters == RoundLetters(h, w[..], i)
      decreases maxRounds - i
    {
      var t := LeftT(i, Regs(al, bl, cl, dl, el), w[..]);
      t := Add(t, el);
      al, el, dl, cl, bl := el, dl, RotateLeft(cl, 10), bl, t;
      t := RightT(i, Regs(ar, br, cr, dr, er), w[..]);
      t := Add(t, er);
      ar, er, dr, cr, br := er, dr, RotateLeft(cr, 10), br, t;
      letters := letters + [Letters(Regs(al, bl, cl, dl, el), Regs(ar, br, cr, dr, er))];
      i := i + 1;
    }
    RunEnds(i, maxRounds);
    var t := Add3(h1, cl, dr);
    n1 := Add3(h2, dl, er);
    n2 := Add3(h3, el, ar);
    n3 := Add3(h4, al, br);
    n4 := Add3(h0, bl, cr);
    n0 := t;
  }

  /** The round loop stops after exactly `RunLength(maxRounds)` passes. */
  lemma RunEnds(i: int, maxRounds: int)
    requires maxRounds <= 79 && 0 <= i <= RunLength(maxRounds) && !(i <= maxRounds)
    ensures i == RunLength(maxRounds)
  {
  }

  /** The number of passes of `for (i = 0; i <= maxRounds; i++)`. */
  function RunLength(maxRounds: int): (n: nat)
    requires maxRounds <= 79
    ensures n <= 80
  {
    if maxRounds < 0 then 0 else maxRounds + 1
  }

  // ---------------------------------------------------------------------------
  // What the trace holds

  /** With `secondLoop` 79 every chunk runs all 80 rounds, so the stepped loop keeps the
      same chaining state as the chunk loop of `ripemd160`. */
  lemma FullRunIsStateAfter(padded: seq<Byte>, k: nat, chunksLoop: nat)
    ensures SteppedState(padded, k, chunksLoop, 79) == StateAfter(padded, k)
  {
    var agree := (j: nat) => SteppedState(padded, j, chunksLoop, 79) == StateAfter(padded, j);
    forall j: nat | agree(j)
      ensures agree(j + 1)
    {
      FullRunNext(padded, j, chunksLoop);
    }
    NatInduction(agree, k);
  }

  /** One more chunk of 80 rounds keeps them equal. */
  lemma FullRunNext(padded: seq<Byte>, j: nat, chunksLoop: nat)
    requires SteppedState(padded, j, chunksLoop, 79) == StateAfter(padded, j)
    ensures SteppedState(padded, j + 1, chunksLoop, 79) == StateAfter(padded, j + 1)
  {
    assert RoundsRun(j, chunksLoop, 79) == 80;
  }

  /** Run over every chunk with `secondLoop` 79, `ripemd160Stepped` in text mode returns
      the same hash as `ripemd160`, and `hs` is its chaining state. */
  lemma SteppedAgreesWithRipemd160(message: seq<CodeUnit>)
    requires IsAscii(message)
    ensures var bytes := AsciiBytes(message);
            var trace := TraceOf(bytes, 79, ChunkCount(Pad(bytes)));
            trace.hs == DigestOfBytes(bytes) && Ripemd160Hex(message) == Success(trace.hash)
  {
    var bytes := AsciiBytes(message);
    var padded := Pad(bytes);
    FullRunIsStateAfter(padded, ChunkCount(padded), ChunkCount(padded));
  }

  /** `lettersBefore` starts with the initial registers and gains 80 entries per chunk,
      except the last chunk, which adds one per round run (secondLoop + 1, or none). */
  lemma {:induction false} LettersShape(padded: seq<Byte>, k: nat, chunksLoop: nat, secondLoop: int)
    requires secondLoop <= 79 && k <= chunksLoop
    ensures |SteppedLetters(padded, k, chunksLoop, secondLoop)|
            == 1 + 80 * k - (if k == chunksLoop && k > 0 then 80 - RunLength(secondLoop) else 0)
    ensures SteppedLetters(padded, k, chunksLoop, secondLoop)[0] == StartLetters(IV)
  {
    if k > 0 {
      LettersShape(padded, k - 1, chunksLoop, secondLoop);
    }
  }

  /** Entry j of a chunk's letters is the pair of lanes after round j. */
  lemma {:induction false} RoundLettersEntries(h: State, x: Block, n: nat, j: nat)
    requires j < n <= 80
    ensures RoundLetters(h, x, n)[j] == Letters(LeftRounds(j + 1, Lanes(h), x), RightRounds(j + 1, Lanes(h), x))
  {
    if j < n - 1 {
      RoundLettersEntries(h, x, n - 1, j);
    }
  }

  /** A chunk past the end of the padded message reads as sixteen zero words. */
  lemma ChunkWordsPastEnd(padded: seq<Byte>, c: nat)
    requires |padded| <= 64 * c
    ensures forall k :: 0 <= k < 16 ==> ChunkWords(padded, c)[k] == 0
  {
  }
}
