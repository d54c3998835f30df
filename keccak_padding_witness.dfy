/** The Keccak padding component's witness values and its zero filler cells.
    The message arrives as 64-bit words, most significant first. Each word after the
    first is split at bit `shift`: its high part completes the previous word's low part
    (the relay) into an output word, its low part is relayed on. The configurations
    after the block and padding ones hold zeros wired to a zero constant. */
module KeccakPaddingWitness {
  import opened Arith
  import opened Plonk
  import opened KeccakPadding

  // ---------------------------------------------------------------------
  // Split and relay arithmetic

  /** `{chunk >> shift, chunk & ((1 << shift) - 1)}` on a nonnegative integer: the bits
      from `shift` up and the bits below it. */
  function ChunkParts(chunk: nat, shift: nat): (parts: (nat, nat))
    ensures chunk == parts.0 * Pow2(shift) + parts.1
    ensures parts.1 < Pow2(shift)
  {
    DivMod(chunk, Pow2(shift))
  }

  /** `(relay << (64 - shift)) + high`: the relayed low bits on top of the next high part. */
  function FirstChunk(relay: nat, high: nat, shift: nat): nat
    requires shift <= BitsPerBlock
  {
    relay * Pow2(BitsPerBlock - shift) + high
  }

  /** `relay << (64 - shift)`: the last relay alone, shifted to the top of a word. */
  function LastChunk(relay: nat, shift: nat): nat
    requires shift <= BitsPerBlock
  {
    relay * Pow2(BitsPerBlock - shift)
  }

  /** `relay - 2^shift + 2^64`: below 2^64 exactly when the relay fits in `shift` bits. */
  function RelayRangeCheck(relay: int, shift: nat): int
  {
    relay - Pow2(shift) + Pow2(BitsPerBlock)
  }

  /** The values one block writes: the word read, its two parts, the range-checked relay
      and the output word. */
  datatype BlockWitness = BlockWitness(chunk: nat, high: nat, low: nat, rangeCheck: int, firstChunk: nat)

  function SplitBlock(relay: nat, chunk: nat, shift: nat): (b: BlockWitness)
    requires shift <= BitsPerBlock
  {
    var parts := ChunkParts(chunk, shift);
    BlockWitness(chunk, parts.0, parts.1, RelayRangeCheck(relay, shift), FirstChunk(relay, parts.0, shift))
  }

  /** The relay in force before block `k`: the first word, then each word's low part. */
  function RelayBefore(first: nat, chunks: seq<nat>, shift: nat, k: nat): nat
    requires k <= |chunks|
  {
    if k == 0 then first else ChunkParts(chunks[k - 1], shift).1
  }

  /** The block values for the words after the first. */
  function Blocks(first: nat, chunks: seq<nat>, shift: nat): (bs: seq<BlockWitness>)
    requires shift <= BitsPerBlock
    ensures |bs| == |chunks|
  {
    seq(|chunks|, k requires 0 <= k < |chunks| => SplitBlock(RelayBefore(first, chunks, shift, k), chunks[k], shift))
  }

  /** The output words: one per block, then the last relay shifted up. */
  function PaddedWords(first: nat, chunks: seq<nat>, shift: nat): (ws: seq<nat>)
    requires shift <= BitsPerBlock
    ensures |ws| == |chunks| + 1
  {
    var bs := Blocks(first, chunks, shift);
    seq(|chunks|, k requires 0 <= k < |chunks| => bs[k].firstChunk)
      + [LastChunk(RelayBefore(first, chunks, shift, |chunks|), shift)]
  }

  /** The number a list of 64-bit words spells, most significant word first. */
  function WordsValue(ws: seq<nat>): nat
  {
    if ws == [] then 0 else ws[0] * Pow2(BitsPerBlock * (|ws| - 1)) + WordsValue(ws[1..])
  }

  lemma WordsValueCons(w: nat, ws: seq<nat>)
    ensures WordsValue([w] + ws) == w * Pow2(BitsPerBlock * |ws|) + WordsValue(ws)
  {
    assert ([w] + ws)[1..] == ws;
  }

  /** The output words after the first are the output words of the rest of the message,
      relaying the first word's low part. */
  lemma PaddedWordsTail(first: nat, chunks: seq<nat>, shift: nat)
    requires shift <= BitsPerBlock && |chunks| > 0
    ensures PaddedWords(first, chunks, shift)
         == [FirstChunk(first, ChunkParts(chunks[0], shift).0, shift)]
            + PaddedWords(ChunkParts(chunks[0], shift).1, chunks[1..], shift)
  {
    var low := ChunkParts(chunks[0], shift).1;
    var tail := chunks[1..];
    var ws := PaddedWords(first, chunks, shift);
    var rest := PaddedWords(low, tail, shift);
    PaddedWordAt(first, chunks, shift, 0);
    BlockAt(first, chunks, shift, 0);
    forall k | 1 <= k < |ws|
      ensures ws[k] == rest[k - 1]
    {
      assert k > 1 ==> chunks[k - 1] == tail[k - 2];
      assert RelayBefore(first, chunks, shift, k) == RelayBefore(low, tail, shift, k - 1);
      PaddedWordAt(first, chunks, shift, k);
      PaddedWordAt(low, tail, shift, k - 1);
      if k < |chunks| {
        assert chunks[k] == tail[k - 1];
        BlockAt(first, chunks, shift, k);
        BlockAt(low, tail, shift, k - 1);
      }
    }
  }

  /** Output word k: block k's output word, or the last relay shifted up after the last block. */
  lemma PaddedWordAt(first: nat, chunks: seq<nat>, shift: nat, k: nat)
    requires shift <= BitsPerBlock && k <= |chunks|
    ensures PaddedWords(first, chunks, shift)[k]
         == if k < |chunks| then Blocks(first, chunks, shift)[k].firstChunk
            else LastChunk(RelayBefore(first, chunks, shift, |chunks|), shift)
  {
  }

  /** One step of the round trip, on plain numbers: `x` spells the output words and `t`
      all but the first (`t0` before the shift by `up`), `w` the message words, `wc` the
      words after the first and `r` the words after the second; `f` is the first output
      word, `c = high * q + low` the second word's split, and `q * up = b`. */
  lemma RoundTripStep(x: int, t: int, t0: int, w: int, wc: int, r: int, f: int,
                      first: int, high: int, low: int, c: int, q: int, up: int, a: int, b: int, ab: int)
    requires x == f * ab + t && f == first * up + high
    requires t == t0 * up && t0 == low * a + r
    requires w == first * ab + wc && wc == c * a + r
    requires ab == a * b && c == high * q + low && q * up == b
    ensures x == w * up
  {
    calc {
      x;
      (first * up + high) * (a * b) + (low * a + r) * up;
      first * (a * b) * up + high * a * b + low * a * up + r * up;
      { assert high * a * b == high * a * (q * up); }
      first * (a * b) * up + high * q * a * up + low * a * up + r * up;
      (first * (a * b) + (high * q + low) * a + r) * up;
      w * up;
    }
  }

  /** 2^shift * 2^(64 - shift) = 2^64. */
  lemma Pow2Shift(shift: nat)
    requires shift <= BitsPerBlock
    ensures Pow2(shift) * Pow2(BitsPerBlock - shift) == Pow2(BitsPerBlock)
  {
    Pow2Add(shift, BitsPerBlock - shift);
  }

  /** One more word multiplies a word position's weight by 2^64. */
  lemma Pow2Word(n: nat)
    ensures Pow2(BitsPerBlock * (n + 1)) == Pow2(BitsPerBlock * n) * Pow2(BitsPerBlock)
  {
    Pow2Add(BitsPerBlock * n, BitsPerBlock);
    assert BitsPerBlock * (n + 1) == BitsPerBlock * n + BitsPerBlock;
  }

  /** The split is lossless: the output words spell the message followed by
      `64 - shift` zero bits. */
  lemma {:induction false} PaddingRoundTrip(first: nat, chunks: seq<nat>, shift: nat)
    requires shift <= BitsPerBlock
    ensures WordsValue(PaddedWords(first, chunks, shift))
         == WordsValue([first] + chunks) * Pow2(BitsPerBlock - shift)
    decreases |chunks|
  {
    if chunks == [] {
      assert ([first] + chunks)[1..] == [];
    } else {
      PaddingRoundTrip(ChunkParts(chunks[0], shift).1, chunks[1..], shift);
      RoundTripCons(first, chunks, shift);
    }
  }

  /** The round trip for a message with a second word follows from the round trip for
      the message that starts with that word's low part. */
  lemma RoundTripCons(first: nat, chunks: seq<nat>, shift: nat)
    requires shift <= BitsPerBlock && |chunks| > 0
    requires var low := ChunkParts(chunks[0], shift).1;
      WordsValue(PaddedWords(low, chunks[1..], shift))
        == WordsValue([low] + chunks[1..]) * Pow2(BitsPerBlock - shift)
    ensures WordsValue(PaddedWords(first, chunks, shift))
         == WordsValue([first] + chunks) * Pow2(BitsPerBlock - shift)
  {
    var c := chunks[0];
    var n := |chunks| - 1;
    var parts := ChunkParts(c, shift);
    var rest := chunks[1..];
    PaddedWordsTail(first, chunks, shift);
    Pow2Word(n);
    Pow2Shift(shift);
    var f := FirstChunk(first, parts.0, shift);
    var tail := PaddedWords(parts.1, rest, shift);
    WordsValueCons(f, tail);
    WordsValueCons(parts.1, rest);
    WordsValueCons(first, chunks);
    RoundTripStep(WordsValue(PaddedWords(first, chunks, shift)), WordsValue(tail),
                  WordsValue([parts.1] + rest), WordsValue([first] + chunks), WordsValue(chunks),
                  WordsValue(rest), f, first, parts.0, parts.1, c, Pow2(shift),
                  Pow2(BitsPerBlock - shift), Pow2(BitsPerBlock * n), Pow2(BitsPerBlock),
                  Pow2(BitsPerBlock * (n + 1)));
  }

  /** On plain numbers: a relay below q and a word below q * up leave the output word below q * up. */
  lemma SplitFits(relay: int, high: int, low: int, q: int, up: int)
    requires q >= 1 && up >= 1 && 0 <= relay < q && 0 <= high && 0 <= low
    requires high * q + low < q * up
    ensures relay * up + high < q * up
  {
    assert (up - high) * q > 0;
    assert relay * up <= (q - 1) * up;
  }

  /** A relay that fits in `shift` bits and a word below 2^64 give an output word below 2^64. */
  lemma FirstChunkFits(relay: nat, chunk: nat, shift: nat)
    requires shift <= BitsPerBlock && relay < Pow2(shift) && chunk < Pow2(BitsPerBlock)
    ensures FirstChunk(relay, ChunkParts(chunk, shift).0, shift) < Pow2(BitsPerBlock)
  {
    Pow2Add(shift, BitsPerBlock - shift);
    var parts := ChunkParts(chunk, shift);
    SplitFits(relay, parts.0, parts.1, Pow2(shift), Pow2(BitsPerBlock - shift));
  }

  /** The range-check cell is nonnegative, and below 2^64 exactly when the relay fits in
      `shift` bits: the lookup on it bounds the relay. */
  lemma RangeCheckBoundsRelay(relay: nat, shift: nat)
    requires shift <= BitsPerBlock
    ensures RelayRangeCheck(relay, shift) >= 0
    ensures RelayRangeCheck(relay, shift) < Pow2(BitsPerBlock) <==> relay < Pow2(shift)
  {
    Pow2Monotone(shift, BitsPerBlock);
  }

  /** Block k holds the split of word k under the relay in force before it. */
  lemma BlockAt(first: nat, chunks: seq<nat>, shift: nat, k: nat)
    requires shift <= BitsPerBlock && k < |chunks|
    ensures Blocks(first, chunks, shift)[k] == SplitBlock(RelayBefore(first, chunks, shift, k), chunks[k], shift)
    ensures RelayBefore(first, chunks, shift, k + 1) == ChunkParts(chunks[k], shift).1
  {
  }

  /** Block k's word is its high part times 2^shift plus its low part. */
  lemma BlockChunkSplit(first: nat, chunks: seq<nat>, shift: nat, k: nat)
    requires shift <= BitsPerBlock && k < |chunks|
    ensures Blocks(first, chunks, shift)[k].chunk
         == Blocks(first, chunks, shift)[k].high * Pow2(shift) + Blocks(first, chunks, shift)[k].low
  {
    BlockAt(first, chunks, shift, k);
  }

  /** One block's output word and range-check cell fit in 64 bits when its relay fits in
      `shift` bits and its word in 64. */
  lemma BlockFits(first: nat, chunks: seq<nat>, shift: nat, k: nat)
    requires shift <= BitsPerBlock && k < |chunks|
    requires RelayBefore(first, chunks, shift, k) < Pow2(shift) && chunks[k] < Pow2(BitsPerBlock)
    ensures Blocks(first, chunks, shift)[k].firstChunk < Pow2(BitsPerBlock)
    ensures 0 <= Blocks(first, chunks, shift)[k].rangeCheck < Pow2(BitsPerBlock)
  {
    var relay := RelayBefore(first, chunks, shift, k);
    BlockAt(first, chunks, shift, k);
    FirstChunkFits(relay, chunks[k], shift);
    RangeCheckBoundsRelay(relay, shift);
  }

  /** Every relay after the first word fits in `shift` bits, and so does every output word
      when the words are 64-bit and the first word fits in `shift` bits. */
  lemma BlocksFit(first: nat, chunks: seq<nat>, shift: nat)
    requires shift <= BitsPerBlock && first < Pow2(shift)
    requires forall k :: 0 <= k < |chunks| ==> chunks[k] < Pow2(BitsPerBlock)
    ensures forall k :: 0 <= k <= |chunks| ==> RelayBefore(first, chunks, shift, k) < Pow2(shift)
    ensures forall k :: 0 <= k < |chunks| ==> Blocks(first, chunks, shift)[k].firstChunk < Pow2(BitsPerBlock)
    ensures forall k :: 0 <= k < |chunks| ==>
              0 <= Blocks(first, chunks, shift)[k].rangeCheck < Pow2(BitsPerBlock)
  {
    forall k | 0 <= k < |chunks|
      ensures Blocks(first, chunks, shift)[k].firstChunk < Pow2(BitsPerBlock)
      ensures 0 <= Blocks(first, chunks, shift)[k].rangeCheck < Pow2(BitsPerBlock)
    {
      BlockFits(first, chunks, shift, k);
    }
  }

  /** The first batching constraint, `value - first * 2^shift - second`, on the values block
      `b` writes: the word itself and its two parts reduced mod p. */
  predicate SplitConstraintHolds(p: int, b: BlockWitness, shift: nat)
    requires p > 0
  {
    (b.chunk - (b.high % p) * Pow2(shift) - b.low % p) % p == 0
  }

  /** The first batching constraint vanishes in F_p on every block's values. */
  lemma BlockSplitHolds(p: int, first: nat, chunks: seq<nat>, shift: nat)
    requires p > 0 && shift <= BitsPerBlock
    ensures forall k :: 0 <= k < |chunks| ==> SplitConstraintHolds(p, Blocks(first, chunks, shift)[k], shift)
  {
    forall k | 0 <= k < |chunks|
      ensures SplitConstraintHolds(p, Blocks(first, chunks, shift)[k], shift)
    {
      BlockChunkSplit(first, chunks, shift, k);
      BlockSplitVanishes(p, Blocks(first, chunks, shift)[k], shift);
    }
  }

  /** A block whose word is its high part times 2^shift plus its low part satisfies the
      first batching constraint. */
  lemma BlockSplitVanishes(p: int, b: BlockWitness, shift: nat)
    requires p > 0 && b.chunk == b.high * Pow2(shift) + b.low
    ensures SplitConstraintHolds(p, b, shift)
  {
    ReducedSplit(b.chunk, b.high, b.low, Pow2(shift), p);
  }

  lemma ReducedSplit(c: int, h: int, l: int, q: int, p: int)
    requires p > 0 && c == h * q + l
    ensures (c - (h % p) * q - l % p) % p == 0
  {
    var k := (h / p) * q + l / p;
    assert h == (h / p) * p + h % p;
    assert l == (l / p) * p + l % p;
    assert (h % p) * q == h * q - (h / p) * p * q;
    assert c - (h % p) * q - l % p == k * p;
    ModMultiple(k, p);
  }

  // ---------------------------------------------------------------------
  // The component and the cells it writes

  /** The witness and constant columns the component owns, and what its constructor
      computed: `shift`, `num_blocks` and `full_configuration`. */
  datatype Component = Component(
    witnesses: seq<nat>,
    constants: seq<nat>,
    shift: nat,
    numBlocks: nat,
    configurations: seq<Configuration>)

  /** `message[0]` is the most significant word. */
  datatype Input = Input(message: seq<Var>)

  /** `result_type`: its constructor leaves `padded_message` empty. */
  datatype Output = Output(paddedMessage: seq<Var>)

  predicate Addressable(comp: Component, x: Coord)
  {
    x.row < |comp.witnesses|
  }

  /** `W(x.row), x.column`: a coordinate's row picks the witness column and its column
      becomes the table row, exactly as the writes and the copy constraints spell it. */
  function CellOf(comp: Component, x: Coord): (c: Cell)
    requires Addressable(comp, x)
    ensures c.kind == Witness
  {
    Cell(Witness, comp.witnesses[x.row], x.column)
  }

  function VarOf(comp: Component, x: Coord): (v: Var)
    requires Addressable(comp, x)
    ensures AbsCell(v) == CellOf(comp, x)
  {
    Var(comp.witnesses[x.row], x.column, false, Witness)
  }

  /** The cells a block reads from its configuration exist. */
  predicate BlockShaped(comp: Component, cf: Configuration)
  {
    && |cf.copyTo| >= 1 && |cf.constraints| >= 3
    && |cf.constraints[0]| >= 3 && |cf.constraints[1]| >= 1 && |cf.constraints[2]| >= 1
    && Addressable(comp, cf.copyTo[0])
    && Addressable(comp, cf.constraints[0][0])
    && Addressable(comp, cf.constraints[0][1])
    && Addressable(comp, cf.constraints[0][2])
    && Addressable(comp, cf.constraints[1][0])
    && Addressable(comp, cf.constraints[2][0])
  }

  predicate FillerShaped(comp: Component, cf: Configuration)
  {
    |cf.copyTo| >= 1 && Addressable(comp, cf.copyTo[0])
  }

  /** A block's cells: the word, its high and low parts, the range check and the output word. */
  function BlockCells(comp: Component, cf: Configuration): (cs: seq<Cell>)
    requires BlockShaped(comp, cf)
    ensures |cs| == 5
  {
    [CellOf(comp, cf.constraints[0][0]), CellOf(comp, cf.constraints[0][1]),
     CellOf(comp, cf.constraints[0][2]), CellOf(comp, cf.constraints[1][0]),
     CellOf(comp, cf.constraints[2][0])]
  }

  /** The last block's cells: the relay, the last output word and the range check. */
  function FinalCells(comp: Component, cf: Configuration): (cs: seq<Cell>)
    requires BlockShaped(comp, cf)
    ensures |cs| == 3
  {
    [CellOf(comp, cf.copyTo[0]), CellOf(comp, cf.constraints[0][0]), CellOf(comp, cf.constraints[1][0])]
  }

  function FillerTarget(comp: Component, cf: Configuration): Cell
    requires FillerShaped(comp, cf)
  {
    CellOf(comp, cf.copyTo[0])
  }

  /** The first configuration that only receives a zero. */
  function FillerStart(comp: Component): nat
  {
    if comp.shift != 0 then comp.numBlocks else 0
  }

  /** What the generators demand of the configuration list: with a nonzero shift, one
      block configuration per message word and a shift of at most 64; afterwards, a
      target cell in every configuration. */
  predicate Shaped(comp: Component)
  {
    && (comp.shift != 0 ==>
          && comp.shift <= BitsPerBlock
          && 1 <= comp.numBlocks <= |comp.configurations|
          && forall k :: 0 <= k < comp.numBlocks ==> BlockShaped(comp, comp.configurations[k]))
    && FillerStart(comp) <= |comp.configurations|
    && forall k :: FillerStart(comp) <= k < |comp.configurations| ==> FillerShaped(comp, comp.configurations[k])
  }

  /** The cells the blocks and the last relay may write. */
  predicate BatchWritten(comp: Component, c: Cell)
    requires Shaped(comp) && comp.shift != 0
  {
    || (exists k :: 0 <= k < comp.numBlocks - 1 && c in BlockCells(comp, comp.configurations[k]))
    || c in FinalCells(comp, comp.configurations[comp.numBlocks - 1])
  }

  /** The cells `generate_assignments` may write. */
  predicate Written(comp: Component, c: Cell)
    requires Shaped(comp)
  {
    || (comp.shift != 0 && BatchWritten(comp, c))
    || (exists k :: FillerStart(comp) <= k < |comp.configurations|
                  && c == FillerTarget(comp, comp.configurations[k]))
  }

  // ---------------------------------------------------------------------
  // The writes, as a log replayed over the table

  datatype Put = Put(cell: Cell, value: int)

  /** The table after the writes of `log`, in order: a later write to a cell wins. */
  function Apply(m: map<Cell, int>, log: seq<Put>): map<Cell, int>
    decreases |log|
  {
    if log == [] then m
    else Apply(m, log[..|log| - 1])[log[|log| - 1].cell := log[|log| - 1].value]
  }

  lemma ApplySnoc(m: map<Cell, int>, log: seq<Put>, w: Put)
    ensures Apply(m, log + [w]) == Apply(m, log)[w.cell := w.value]
  {
    assert (log + [w])[..|log|] == log;
  }

  function BlockWrites(p: int, comp: Component, cf: Configuration, b: BlockWitness): (ws: seq<Put>)
    requires p > 0 && BlockShaped(comp, cf)
    ensures |ws| == 5
  {
    var cs := BlockCells(comp, cf);
    [Put(cs[0], b.chunk), Put(cs[1], b.high % p), Put(cs[2], b.low % p),
     Put(cs[3], b.rangeCheck % p), Put(cs[4], b.firstChunk % p)]
  }

  function FinalWrites(p: int, comp: Component, cf: Configuration, relay: nat, shift: nat): seq<Put>
    requires p > 0 && BlockShaped(comp, cf) && shift <= BitsPerBlock
  {
    var cs := FinalCells(comp, cf);
    [Put(cs[0], relay % p), Put(cs[1], LastChunk(relay, shift) % p),
     Put(cs[2], RelayRangeCheck(relay, shift) % p)]
  }

  /** The writes of the first |bs| blocks, block k into configuration k. */
  function BatchWrites(p: int, comp: Component, bs: seq<BlockWitness>): (ws: seq<Put>)
    requires p > 0 && Shaped(comp) && comp.shift != 0 && |bs| < comp.numBlocks
    ensures |ws| == 5 * |bs|
  {
    if bs == [] then []
    else BatchWrites(p, comp, bs[..|bs| - 1])
           + BlockWrites(p, comp, comp.configurations[|bs| - 1], bs[|bs| - 1])
  }

  /** Zeros into the target cells of configurations `lo` up to `hi`. */
  function FillerWrites(comp: Component, lo: nat, hi: nat): (ws: seq<Put>)
    requires Shaped(comp) && FillerStart(comp) <= lo <= hi <= |comp.configurations|
    ensures |ws| == hi - lo
    decreases hi
  {
    if hi == lo then []
    else FillerWrites(comp, lo, hi - 1) + [Put(FillerTarget(comp, comp.configurations[hi - 1]), 0)]
  }

  /** The writes of the blocks and of the last relay: none when the shift is zero. */
  function BlockPhaseWrites(p: int, comp: Component, words: seq<nat>): seq<Put>
    requires p > 0 && Shaped(comp)
    requires |words| == if comp.shift != 0 then comp.numBlocks else 0
  {
    if comp.shift != 0 then
      var chunks := words[1..];
      BatchWrites(p, comp, Blocks(words[0], chunks, comp.shift))
        + FinalWrites(p, comp, comp.configurations[comp.numBlocks - 1],
                      RelayBefore(words[0], chunks, comp.shift, |chunks|), comp.shift)
    else
      []
  }

  /** Everything `generate_assignments` writes, given the message words it read: the
      blocks, then a zero into each later configuration's target. */
  function AssignmentWrites(p: int, comp: Component, words: seq<nat>): seq<Put>
    requires p > 0 && Shaped(comp)
    requires |words| == if comp.shift != 0 then comp.numBlocks else 0
  {
    BlockPhaseWrites(p, comp, words) + FillerWrites(comp, FillerStart(comp), |comp.configurations|)
  }

  /** The values the message variables name in a table. */
  function MessageWords(m: map<Cell, int>, input: Input): (ws: seq<int>)
    ensures |ws| == |input.message|
  {
    seq(|input.message|, k requires 0 <= k < |input.message| => ValueIn(m, AbsCell(input.message[k])))
  }

  lemma MessageWordsSnoc(m: map<Cell, int>, input: Input, index: nat)
    requires index < |input.message|
    ensures MessageWords(m, input)[..index + 1]
         == MessageWords(m, input)[..index] + [ValueIn(m, AbsCell(input.message[index]))]
  {
  }

  /** The relay after one more word is that word's low part. */
  lemma RelayAfter(first: nat, chunks: seq<nat>, c: nat, shift: nat)
    ensures RelayBefore(first, chunks + [c], shift, |chunks| + 1) == ChunkParts(c, shift).1
  {
    assert (chunks + [c])[|chunks|] == c;
  }

  /** None of the message words lies in a cell the component writes. */
  predicate MessageOutside(comp: Component, input: Input)
    requires Shaped(comp)
  {
    CellsOutside(comp, input.message)
  }

  /** None of the variables names a written cell, checked from the last one back. */
  predicate CellsOutside(comp: Component, vs: seq<Var>)
    requires Shaped(comp)
    decreases |vs|
  {
    vs == [] || (!Written(comp, AbsCell(vs[|vs| - 1])) && CellsOutside(comp, vs[..|vs| - 1]))
  }

  /** `CellsOutside` holds exactly when no variable of the list names a written cell. */
  lemma {:induction false} CellsOutsideIff(comp: Component, vs: seq<Var>)
    requires Shaped(comp)
    ensures CellsOutside(comp, vs) <==> forall k :: 0 <= k < |vs| ==> !Written(comp, AbsCell(vs[k]))
    decreases |vs|
  {
    if vs != [] {
      var init := vs[..|vs| - 1];
      CellsOutsideIff(comp, init);
      assert forall k :: 0 <= k < |init| ==> init[k] == vs[k];
    }
  }

  lemma BlocksSnoc(first: nat, chunks: seq<nat>, c: nat, shift: nat)
    requires shift <= BitsPerBlock
    ensures Blocks(first, chunks + [c], shift)
         == Blocks(first, chunks, shift) + [SplitBlock(RelayBefore(first, chunks, shift, |chunks|), c, shift)]
  {
    var l, r := Blocks(first, chunks + [c], shift), Blocks(first, chunks, shift);
    forall k | 0 <= k < |chunks|
      ensures l[k] == r[k]
    {
      assert RelayBefore(first, chunks + [c], shift, k) == RelayBefore(first, chunks, shift, k);
    }
    assert RelayBefore(first, chunks + [c], shift, |chunks|) == RelayBefore(first, chunks, shift, |chunks|);
  }

  // ---------------------------------------------------------------------
  // generate_assignments

  /** `var_value(assignment, v)`: a table value, which is a field element. */
  method ReadWord(p: int, a: Assignment, v: Var) returns (r: nat)
    requires p > 0 && a.InFieldValues(p)
    ensures r == a.Value(AbsCell(v)) && r < p
  {
    r := a.Value(AbsCell(v));
  }

  /** One `assignment.witness(...) = value` of the component, recorded in the log. */
  method Record(p: int, a: Assignment, w: Put, ghost m0: map<Cell, int>, ghost log: seq<Put>)
    returns (ghost log': seq<Put>)
    requires 0 <= w.value < p && a.InFieldValues(p) && a.cells == Apply(m0, log)
    modifies a
    ensures a.InFieldValues(p) && log' == log + [w] && a.cells == Apply(m0, log')
  {
    ApplySnoc(m0, log, w);
    a.Write(w.cell, w.value);
    log' := log + [w];
  }

  /** A cell no write of the log names keeps its value. */
  lemma {:induction false} ApplyOutside(comp: Component, m: map<Cell, int>, log: seq<Put>, c: Cell)
    requires Shaped(comp) && !Written(comp, c)
    requires forall i :: 0 <= i < |log| ==> Written(comp, log[i].cell)
    ensures ValueIn(Apply(m, log), c) == ValueIn(m, c)
    decreases |log|
  {
    if log != [] {
      ApplyOutside(comp, m, log[..|log| - 1], c);
    }
  }

  lemma BatchWritesWritten(p: int, comp: Component, bs: seq<BlockWitness>)
    requires p > 0 && Shaped(comp) && comp.shift != 0 && |bs| < comp.numBlocks
    ensures AllWritten(comp, BatchWrites(p, comp, bs))
  {
    if bs != [] {
      BatchWritesWritten(p, comp, bs[..|bs| - 1]);
      var k := |bs| - 1;
      var cs := BlockCells(comp, comp.configurations[k]);
      assert forall j :: 0 <= j < 5 ==> cs[j] in cs;
    }
  }

  lemma FillerWritesWritten(comp: Component, lo: nat, hi: nat)
    requires Shaped(comp) && FillerStart(comp) <= lo <= hi <= |comp.configurations|
    ensures AllWritten(comp, FillerWrites(comp, lo, hi))
    decreases hi
  {
    if hi > lo {
      FillerWritesWritten(comp, lo, hi - 1);
      assert Written(comp, FillerTarget(comp, comp.configurations[hi - 1]));
    }
  }

  /** Every write of `ws` lands in a cell `Written` names. */
  predicate AllWritten(comp: Component, ws: seq<Put>)
    requires Shaped(comp)
  {
    forall i :: 0 <= i < |ws| ==> Written(comp, ws[i].cell)
  }

  lemma AllWrittenConcat(comp: Component, xs: seq<Put>, ys: seq<Put>)
    requires Shaped(comp) && AllWritten(comp, xs) && AllWritten(comp, ys)
    ensures AllWritten(comp, xs + ys)
  {
    forall i | 0 <= i < |xs + ys|
      ensures Written(comp, (xs + ys)[i].cell)
    {
      if i >= |xs| {
        assert (xs + ys)[i] == ys[i - |xs|];
      }
    }
  }

  /** The three writes after the last block land in its relay and output cells. */
  lemma FinalWritesWritten(p: int, comp: Component, relay: nat)
    requires p > 0 && Shaped(comp) && comp.shift != 0
    ensures AllWritten(comp, FinalWrites(p, comp, comp.configurations[comp.numBlocks - 1], relay, comp.shift))
  {
    var cs := FinalCells(comp, comp.configurations[comp.numBlocks - 1]);
    assert forall j :: 0 <= j < 3 ==> cs[j] in cs;
  }

  /** Every write of `generate_assignments` lands in a cell `Written` names. */
  lemma AssignmentWritesWritten(p: int, comp: Component, words: seq<nat>)
    requires p > 0 && Shaped(comp)
    requires |words| == if comp.shift != 0 then comp.numBlocks else 0
    ensures forall i :: 0 <= i < |AssignmentWrites(p, comp, words)| ==>
              Written(comp, AssignmentWrites(p, comp, words)[i].cell)
  {
    var fill := FillerWrites(comp, FillerStart(comp), |comp.configurations|);
    if comp.shift != 0 {
      var chunks := words[1..];
      var batch := BatchWrites(p, comp, Blocks(words[0], chunks, comp.shift));
      var relay := RelayBefore(words[0], chunks, comp.shift, |chunks|);
      var fin := FinalWrites(p, comp, comp.configurations[comp.numBlocks - 1], relay, comp.shift);
      BatchWritesWritten(p, comp, Blocks(words[0], chunks, comp.shift));
      FinalWritesWritten(p, comp, relay);
      AllWrittenConcat(comp, batch, fin);
    }
    FillerWritesWritten(comp, FillerStart(comp), |comp.configurations|);
    AllWrittenConcat(comp, BlockPhaseWrites(p, comp, words), fill);
  }

  /** One more word adds one block's writes, in the next configuration. */
  lemma BatchWritesSnoc(p: int, comp: Component, first: nat, chunks: seq<nat>, c: nat)
    requires p > 0 && Shaped(comp) && comp.shift != 0 && |chunks| < comp.numBlocks - 1
    ensures BatchWrites(p, comp, Blocks(first, chunks + [c], comp.shift))
         == BatchWrites(p, comp, Blocks(first, chunks, comp.shift))
            + BlockWrites(p, comp, comp.configurations[|chunks|],
                          SplitBlock(RelayBefore(first, chunks, comp.shift, |chunks|), c, comp.shift))
  {
    BlocksSnoc(first, chunks, c, comp.shift);
    var bs := Blocks(first, chunks + [c], comp.shift);
    assert bs[..|bs| - 1] == Blocks(first, chunks, comp.shift);
  }

  /** The five writes of the block in configuration `configIndex`. */
  method AssignBlock(p: int, comp: Component, a: Assignment, configIndex: nat, relay: nat, chunk: nat,
                     ghost m0: map<Cell, int>, ghost log: seq<Put>)
    returns (ghost log': seq<Put>)
    requires p > 0 && Shaped(comp) && comp.shift != 0 && configIndex < comp.numBlocks - 1 && chunk < p
    requires a.InFieldValues(p) && a.cells == Apply(m0, log)
    modifies a
    ensures a.InFieldValues(p) && a.cells == Apply(m0, log')
    ensures log' == log + BlockWrites(p, comp, comp.configurations[configIndex], SplitBlock(relay, chunk, comp.shift))
  {
    var shift := comp.shift;
    var chunkParts := ChunkParts(chunk, shift);
    var firstChunk := FirstChunk(relay, chunkParts.0, shift);
    var relayRangeCheck := RelayRangeCheck(relay, shift);
    var cur := comp.configurations[configIndex];
    var w0 := Put(CellOf(comp, cur.constraints[0][0]), chunk);
    var w1 := Put(CellOf(comp, cur.constraints[0][1]), chunkParts.0 % p);
    var w2 := Put(CellOf(comp, cur.constraints[0][2]), chunkParts.1 % p);
    var w3 := Put(CellOf(comp, cur.constraints[1][0]), relayRangeCheck % p);
    var w4 := Put(CellOf(comp, cur.constraints[2][0]), firstChunk % p);
    BlockWritesSpelled(p, comp, cur, relay, chunk, shift);
    log' := Record(p, a, w0, m0, log);
    log' := Record(p, a, w1, m0, log');
    log' := Record(p, a, w2, m0, log');
    log' := Record(p, a, w3, m0, log');
    log' := Record(p, a, w4, m0, log');
    FiveSnoc(log, w0, w1, w2, w3, w4);
  }

  /** A block's writes, one by one. */
  lemma BlockWritesSpelled(p: int, comp: Component, cf: Configuration, relay: nat, chunk: nat, shift: nat)
    requires p > 0 && BlockShaped(comp, cf) && shift <= BitsPerBlock
    ensures BlockWrites(p, comp, cf, SplitBlock(relay, chunk, shift))
         == [Put(CellOf(comp, cf.constraints[0][0]), chunk),
             Put(CellOf(comp, cf.constraints[0][1]), ChunkParts(chunk, shift).0 % p),
             Put(CellOf(comp, cf.constraints[0][2]), ChunkParts(chunk, shift).1 % p),
             Put(CellOf(comp, cf.constraints[1][0]), RelayRangeCheck(relay, shift) % p),
             Put(CellOf(comp, cf.constraints[2][0]), FirstChunk(relay, ChunkParts(chunk, shift).0, shift) % p)]
  {
  }

  lemma FiveSnoc(log: seq<Put>, w0: Put, w1: Put, w2: Put, w3: Put, w4: Put)
    ensures log + [w0] + [w1] + [w2] + [w3] + [w4] == log + [w0, w1, w2, w3, w4]
  {
  }

  lemma ThreeSnoc(log: seq<Put>, w0: Put, w1: Put, w2: Put)
    ensures log + [w0] + [w1] + [w2] == log + [w0, w1, w2]
  {
  }

  /** The three writes of the last relay, into the configuration of the last block. */
  method AssignFinal(p: int, comp: Component, a: Assignment, relay: nat, ghost m0: map<Cell, int>, ghost log: seq<Put>)
    returns (ghost log': seq<Put>)
    requires p > 0 && Shaped(comp) && comp.shift != 0
    requires a.InFieldValues(p) && a.cells == Apply(m0, log)
    modifies a
    ensures a.InFieldValues(p) && a.cells == Apply(m0, log')
    ensures log' == log + FinalWrites(p, comp, comp.configurations[comp.numBlocks - 1], relay, comp.shift)
  {
    var shift := comp.shift;
    var lastChunk := LastChunk(relay, shift);
    var relayRangeCheck := RelayRangeCheck(relay, shift);
    var cur := comp.configurations[comp.numBlocks - 1];
    var w0 := Put(CellOf(comp, cur.copyTo[0]), relay % p);
    var w1 := Put(CellOf(comp, cur.constraints[0][0]), lastChunk % p);
    var w2 := Put(CellOf(comp, cur.constraints[1][0]), relayRangeCheck % p);
    FinalWritesSpelled(p, comp, cur, relay, shift);
    log' := Record(p, a, w0, m0, log);
    log' := Record(p, a, w1, m0, log');
    log' := Record(p, a, w2, m0, log');
    ThreeSnoc(log, w0, w1, w2);
  }

  /** The last relay's writes, one by one. */
  lemma FinalWritesSpelled(p: int, comp: Component, cf: Configuration, relay: nat, shift: nat)
    requires p > 0 && BlockShaped(comp, cf) && shift <= BitsPerBlock
    ensures FinalWrites(p, comp, cf, relay, shift)
         == [Put(CellOf(comp, cf.copyTo[0]), relay % p),
             Put(CellOf(comp, cf.constraints[0][0]), LastChunk(relay, shift) % p),
             Put(CellOf(comp, cf.constraints[1][0]), RelayRangeCheck(relay, shift) % p)]
  {
  }

  /** While the blocks are written, a message word outside the written cells keeps its value. */
  lemma MessageWordKept(p: int, comp: Component, input: Input, first: nat, chunks: seq<nat>, m0: map<Cell, int>, index: nat)
    requires p > 0 && Shaped(comp) && comp.shift != 0 && |chunks| < comp.numBlocks - 1
    requires index < |input.message|
    ensures MessageOutside(comp, input) ==>
              ValueIn(Apply(m0, BatchWrites(p, comp, Blocks(first, chunks, comp.shift))), AbsCell(input.message[index]))
                == ValueIn(m0, AbsCell(input.message[index]))
  {
    if MessageOutside(comp, input) {
      CellsOutsideIff(comp, input.message);
      BatchWritesWritten(p, comp, Blocks(first, chunks, comp.shift));
      ApplyOutside(comp, m0, BatchWrites(p, comp, Blocks(first, chunks, comp.shift)), AbsCell(input.message[index]));
    }
  }

  /** The closing loop: a zero into the target cell of every configuration from `lo` on. */
  method AssignFillers(p: int, comp: Component, a: Assignment, lo: nat, ghost m0: map<Cell, int>, ghost log: seq<Put>)
    returns (ghost log': seq<Put>)
    requires p > 0 && Shaped(comp) && lo == FillerStart(comp)
    requires a.InFieldValues(p) && a.cells == Apply(m0, log)
    modifies a
    ensures a.InFieldValues(p) && a.cells == Apply(m0, log')
    ensures log' == log + FillerWrites(comp, lo, |comp.configurations|)
  {
    var configs := comp.configurations;
    var configIndex := lo;
    log' := log;
    while configIndex < |configs|
      invariant lo <= configIndex <= |configs|
      invariant log' == log + FillerWrites(comp, lo, configIndex)
      invariant a.InFieldValues(p) && a.cells == Apply(m0, log')
    {
      var cur := configs[configIndex];
      var w := Put(CellOf(comp, cur.copyTo[0]), 0);
      assert FillerWrites(comp, lo, configIndex + 1) == FillerWrites(comp, lo, configIndex) + [w];
      log' := Record(p, a, w, m0, log');
      assert log' == log + (FillerWrites(comp, lo, configIndex) + [w]);
      configIndex := configIndex + 1;
    }
  }

  /** One more word read and kept: the words so far stay the prefix of the message values. */
  lemma MessagePrefixSnoc(m: map<Cell, int>, input: Input, first: nat, chunks: seq<nat>, c: nat, index: nat)
    requires index < |input.message| && |chunks| + 1 == index
    requires [first] + chunks == MessageWords(m, input)[..index]
    requires c == ValueIn(m, AbsCell(input.message[index]))
    ensures [first] + (chunks + [c]) == MessageWords(m, input)[..index + 1]
  {
    MessageWordsSnoc(m, input, index);
    assert [first] + (chunks + [c]) == ([first] + chunks) + [c];
  }

  /** What one pass of the block loop does to the ghost state: the new block's writes
      extend the batch writes, its low part becomes the relay, and the word read extends
      the prefix of the message values. */
  lemma BatchStepFacts(p: int, comp: Component, input: Input, m0: map<Cell, int>, first: nat,
                       chunks: seq<nat>, chunk: nat, log: seq<Put>, log': seq<Put>, index: nat)
    requires p > 0 && Shaped(comp) && comp.shift != 0 && index < |input.message|
    requires 1 <= index < comp.numBlocks && |chunks| == index - 1
    requires log == BatchWrites(p, comp, Blocks(first, chunks, comp.shift))
    requires log' == log + BlockWrites(p, comp, comp.configurations[index - 1],
                                       SplitBlock(RelayBefore(first, chunks, comp.shift, index - 1), chunk, comp.shift))
    requires MessageOutside(comp, input) ==> [first] + chunks == MessageWords(m0, input)[..index]
    requires MessageOutside(comp, input) ==> chunk == ValueIn(m0, AbsCell(input.message[index]))
    ensures log' == BatchWrites(p, comp, Blocks(first, chunks + [chunk], comp.shift))
    ensures RelayBefore(first, chunks + [chunk], comp.shift, index) == ChunkParts(chunk, comp.shift).1
    ensures MessageOutside(comp, input) ==> [first] + (chunks + [chunk]) == MessageWords(m0, input)[..index + 1]
  {
    if MessageOutside(comp, input) {
      MessagePrefixSnoc(m0, input, first, chunks, chunk, index);
    }
    BatchWritesSnoc(p, comp, first, chunks, chunk);
    RelayAfter(first, chunks, chunk, comp.shift);
  }

  /** One pass of the block loop: reads word `index`, writes its block into configuration
      `index - 1` and relays its low part on. */
  method BatchStep(p: int, comp: Component, a: Assignment, input: Input, ghost m0: map<Cell, int>,
                   ghost first: nat, ghost chunks: seq<nat>, relay: nat, ghost log: seq<Put>, index: nat)
    returns (relay': nat, ghost chunks': seq<nat>, ghost log': seq<Put>)
    requires p > 0 && Shaped(comp) && comp.shift != 0 && |input.message| >= comp.numBlocks
    requires 1 <= index < comp.numBlocks && |chunks| == index - 1
    requires relay == RelayBefore(first, chunks, comp.shift, index - 1)
    requires log == BatchWrites(p, comp, Blocks(first, chunks, comp.shift))
    requires a.InFieldValues(p) && a.cells == Apply(m0, log)
    requires MessageOutside(comp, input) ==> [first] + chunks == MessageWords(m0, input)[..index]
    modifies a
    ensures |chunks'| == index && chunks'[..index - 1] == chunks
    ensures relay' == RelayBefore(first, chunks', comp.shift, index)
    ensures log' == BatchWrites(p, comp, Blocks(first, chunks', comp.shift))
    ensures a.InFieldValues(p) && a.cells == Apply(m0, log')
    ensures MessageOutside(comp, input) ==> [first] + chunks' == MessageWords(m0, input)[..index + 1]
  {
    MessageWordKept(p, comp, input, first, chunks, m0, index);
    var chunk := ReadWord(p, a, input.message[index]);
    log' := AssignBlock(p, comp, a, index - 1, relay, chunk, m0, log);
    relay' := ChunkParts(chunk, comp.shift).1;
    chunks' := chunks + [chunk];
    BatchStepFacts(p, comp, input, m0, first, chunks, chunk, log, log', index);
  }

  /** The block loop of `generate_assignments`: reads the first word as the relay, then
      for each later word writes its block and relays its low part on. */
  method AssignBatching(p: int, comp: Component, a: Assignment, input: Input, ghost m0: map<Cell, int>)
    returns (relay: nat, ghost words: seq<nat>, ghost log: seq<Put>)
    requires p > 0 && Shaped(comp) && comp.shift != 0 && |input.message| >= comp.numBlocks
    requires a.InFieldValues(p) && a.cells == m0
    modifies a
    ensures |words| == comp.numBlocks
    ensures relay == RelayBefore(words[0], words[1..], comp.shift, comp.numBlocks - 1)
    ensures log == BatchWrites(p, comp, Blocks(words[0], words[1..], comp.shift))
    ensures a.InFieldValues(p) && a.cells == Apply(m0, log)
    ensures MessageOutside(comp, input) ==> words == MessageWords(m0, input)[..comp.numBlocks]
  {
    log := [];
    relay := ReadWord(p, a, input.message[0]);
    ghost var first: nat, chunks: seq<nat> := relay, [];
    var index := 1;
    while index < comp.numBlocks
      invariant 1 <= index <= comp.numBlocks && |chunks| == index - 1
      invariant relay == RelayBefore(first, chunks, comp.shift, index - 1)
      invariant log == BatchWrites(p, comp, Blocks(first, chunks, comp.shift))
      invariant a.InFieldValues(p) && a.cells == Apply(m0, log)
      invariant MessageOutside(comp, input) ==> [first] + chunks == MessageWords(m0, input)[..index]
    {
      relay, chunks, log := BatchStep(p, comp, a, input, m0, first, chunks, relay, log, index);
      index := index + 1;
    }
    words := [first] + chunks;
    assert words[0] == first && words[1..] == chunks;
  }

  /** `generate_assignments`: with a nonzero shift, splits each word after the first
      and writes its block, then the last relay; then zeros every remaining target cell.
      `words` are the message values read; when the message lies outside the written
      cells they are the values the table held on entry. */
  method GenerateAssignments(p: int, comp: Component, a: Assignment, input: Input, start: nat)
    returns (out: Output, ghost words: seq<nat>, ghost log: seq<Put>)
    requires p > 0 && Shaped(comp) && a.InFieldValues(p)
    requires comp.shift != 0 ==> |input.message| >= comp.numBlocks
    modifies a
    ensures out == Output([])
    ensures a.InFieldValues(p)
    ensures |words| == if comp.shift != 0 then comp.numBlocks else 0
    ensures log == AssignmentWrites(p, comp, words)
    ensures a.cells == Apply(old(a.cells), log)
    ensures forall c :: !Written(comp, c) ==> a.Value(c) == old(a.Value(c))
    ensures MessageOutside(comp, input) ==> words == MessageWords(old(a.cells), input)[..|words|]
  {
    ghost var m0 := a.cells;
    log := [];
    words := [];
    var configIndex := 0;
    var configs := comp.configurations;
    var shift := comp.shift;
    if shift != 0 {
      var relay: nat;
      relay, words, log := AssignBatching(p, comp, a, input, m0);
      configIndex := comp.numBlocks - 1;
      // padding
      log := AssignFinal(p, comp, a, relay, m0, log);
      configIndex := configIndex + 1;
    }
    log := AssignFillers(p, comp, a, configIndex, m0, log);
    assert log == AssignmentWrites(p, comp, words);
    AssignmentWritesWritten(p, comp, words);
    forall c | !Written(comp, c)
      ensures ValueIn(a.cells, c) == ValueIn(m0, c)
    {
      ApplyOutside(comp, m0, log, c);
    }
    out := Output([]);
  }

  // ---------------------------------------------------------------------
  // What the writes leave in the table

  /** After the filler writes of `lo .. hi`, each of their target cells reads zero,
      whatever came before and however the targets overlap. */
  lemma {:induction false} FillerWritesZero(comp: Component, m: map<Cell, int>, prefix: seq<Put>, lo: nat, hi: nat, k: nat)
    requires Shaped(comp) && FillerStart(comp) <= lo <= k < hi <= |comp.configurations|
    ensures ValueIn(Apply(m, prefix + FillerWrites(comp, lo, hi)), FillerTarget(comp, comp.configurations[k])) == 0
    decreases hi
  {
    var w := Put(FillerTarget(comp, comp.configurations[hi - 1]), 0);
    assert prefix + FillerWrites(comp, lo, hi) == (prefix + FillerWrites(comp, lo, hi - 1)) + [w];
    ApplySnoc(m, prefix + FillerWrites(comp, lo, hi - 1), w);
    if k < hi - 1 && FillerTarget(comp, comp.configurations[k]) != w.cell {
      FillerWritesZero(comp, m, prefix, lo, hi - 1, k);
    }
  }

  /** `generate_assignments` leaves a zero in the target cell of every configuration
      from `FillerStart` on. */
  lemma FillersZeroed(p: int, comp: Component, words: seq<nat>, m: map<Cell, int>, k: nat)
    requires p > 0 && Shaped(comp)
    requires |words| == if comp.shift != 0 then comp.numBlocks else 0
    requires FillerStart(comp) <= k < |comp.configurations|
    ensures ValueIn(Apply(m, AssignmentWrites(p, comp, words)), FillerTarget(comp, comp.configurations[k])) == 0
  {
    FillerWritesZero(comp, m, BlockPhaseWrites(p, comp, words), FillerStart(comp), |comp.configurations|, k);
  }

  /** The output words the blocks write (each block's first chunk, then the last
      chunk) are the padded words, reduced into the field. */
  lemma OutputWordsWritten(p: int, comp: Component, words: seq<nat>, k: nat)
    requires p > 0 && Shaped(comp) && comp.shift != 0 && |words| == comp.numBlocks
    requires k < comp.numBlocks
    ensures var ws := AssignmentWrites(p, comp, words);
      var padded := PaddedWords(words[0], words[1..], comp.shift);
      var cf := comp.configurations[k];
      && |padded| == comp.numBlocks
      && (k < comp.numBlocks - 1 ==> ws[5 * k + 4] == Put(CellOf(comp, cf.constraints[2][0]), padded[k] % p))
      && (k == comp.numBlocks - 1 ==> ws[5 * k + 1] == Put(CellOf(comp, cf.constraints[0][0]), padded[k] % p))
  {
    var chunks := words[1..];
    var bs := Blocks(words[0], chunks, comp.shift);
    var batch := BatchWrites(p, comp, bs);
    if k < comp.numBlocks - 1 {
      BatchWritesBlock(p, comp, bs, k);
    }
  }

  /** Block k's writes sit at positions 5k .. 5k+4 of the batch writes. */
  lemma {:induction false} BatchWritesBlock(p: int, comp: Component, bs: seq<BlockWitness>, k: nat)
    requires p > 0 && Shaped(comp) && comp.shift != 0 && k < |bs| < comp.numBlocks
    ensures BatchWrites(p, comp, bs)[5 * k + 4] == BlockWrites(p, comp, comp.configurations[k], bs[k])[4]
    decreases |bs|
  {
    if k < |bs| - 1 {
      BatchWritesBlock(p, comp, bs[..|bs| - 1], k);
    }
  }

  // ---------------------------------------------------------------------
  // What the presets' final tables keep of the padded words

  /** A write that no later write of the log names decides the cell's value. */
  lemma {:induction false} ApplyLastWrite(m: map<Cell, int>, log: seq<Put>, i: nat, w: Put)
    requires i < |log| && log[i] == w
    requires forall j :: i < j < |log| ==> log[j].cell != w.cell
    ensures ValueIn(Apply(m, log), w.cell) == w.value
    decreases |log|
  {
    if i < |log| - 1 {
      ApplyLastWrite(m, log[..|log| - 1], i, w);
    }
  }

  /** Filler write t zeroes the target of configuration lo + t. */
  lemma {:induction false} FillerWriteAt(comp: Component, lo: nat, hi: nat, t: nat)
    requires Shaped(comp) && FillerStart(comp) <= lo <= hi <= |comp.configurations| && t < hi - lo
    ensures FillerWrites(comp, lo, hi)[t] == Put(FillerTarget(comp, comp.configurations[lo + t]), 0)
    decreases hi
  {
    if t < hi - 1 - lo {
      FillerWriteAt(comp, lo, hi - 1, t);
    }
  }

  /** The witness columns the component owns are pairwise different. */
  predicate DistinctColumns(comp: Component)
  {
    forall i, j :: 0 <= i < j < |comp.witnesses| ==> comp.witnesses[i] != comp.witnesses[j]
  }

  /** The cells of the nine-column slot-0 configuration. */
  lemma NineColumnCoords()
    ensures var cf := FirstBlock(9);
      && cf.copyTo[0] == Coord(0, 0) && cf.constraints[0][0] == Coord(0, 1)
      && cf.constraints[1][0] == Coord(0, 2) && cf.constraints[2][0] == Coord(2, 4)
  {
    Arith.ModSmall(0, SizeTModulus);
    Arith.ModSmall(2, SizeTModulus);
  }

  /** The cells of the fifteen-column slot-0 configuration. */
  lemma FifteenColumnCoords()
    ensures var cf := FirstBlock(15);
      && cf.copyTo[0] == Coord(0, 11) && cf.constraints[0][0] == Coord(1, 0)
      && cf.constraints[1][0] == Coord(1, 3) && cf.constraints[2][0] == Coord(1, 12)
  {
    Arith.ModSmall(0, SizeTModulus);
    Arith.ModSmall(1, SizeTModulus);
  }

  /** The nine-column list as `generate_assignments` sees it: no leading configurations,
      so block k goes through configuration k, the slot-0 one for every k; padding
      configuration m targets `FillerCell(1, m)`. */
  predicate NineColumnList(comp: Component)
  {
    && |comp.configurations| == comp.numBlocks + PaddingCount(comp.numBlocks)
    && (forall k :: 0 <= k < comp.numBlocks ==> comp.configurations[k] == FirstBlock(9))
    && (forall m :: 0 <= m < PaddingCount(comp.numBlocks) ==>
          comp.configurations[comp.numBlocks + m].copyTo == [FillerCell(1, m)])
  }

  /** `configure_all`'s nine-column list is laid out that way. */
  lemma NineColumnListHolds(comp: Component)
    requires comp.configurations == AllConfigurations(9, comp.numBlocks)
    ensures NineColumnList(comp)
  {
    var blocks := BlockConfigurations(9, comp.numBlocks);
    ConfigureAllFillers(9, comp.numBlocks);
    PaddingStartRowValue(9);
    assert |blocks| == comp.numBlocks;
    forall k | 0 <= k < comp.numBlocks
      ensures comp.configurations[k] == FirstBlock(9)
    {
      assert comp.configurations[k] == comp.configurations[..|blocks|][k] == blocks[k];
    }
  }

  /** The fifteen-column list as `generate_assignments` sees it: the two leading
      configurations come first, so configurations 2 up to `num_blocks + 1` are the slot-0
      one; padding configuration m targets `FillerCell(2, m)`. */
  predicate FifteenColumnList(comp: Component)
  {
    && |comp.configurations| == comp.numBlocks + 2 + PaddingCount(comp.numBlocks + 2)
    && (forall k :: 2 <= k < comp.numBlocks + 2 ==> comp.configurations[k] == FirstBlock(15))
    && (forall m :: 0 <= m < PaddingCount(comp.numBlocks + 2) ==>
          comp.configurations[comp.numBlocks + 2 + m].copyTo == [FillerCell(2, m)])
  }

  /** `configure_all`'s fifteen-column list is laid out that way. */
  lemma FifteenColumnListHolds(comp: Component)
    requires comp.configurations == AllConfigurations(15, comp.numBlocks)
    ensures FifteenColumnList(comp)
  {
    var blocks := BlockConfigurations(15, comp.numBlocks);
    ConfigureAllFillers(15, comp.numBlocks);
    PaddingStartRowValue(15);
    assert |blocks| == comp.numBlocks + 2;
    forall k | 2 <= k < comp.numBlocks + 2
      ensures comp.configurations[k] == FirstBlock(15)
    {
      assert comp.configurations[k] == comp.configurations[..|blocks|][k] == blocks[k];
    }
  }

  /** The cells of a nine-column block configuration. */
  lemma NineColumnCells(comp: Component, k: nat)
    requires Shaped(comp) && comp.shift != 0 && NineColumnList(comp) && k < comp.numBlocks
    ensures BlockCells(comp, comp.configurations[k])[4] == Cell(Witness, comp.witnesses[2], 4)
    ensures FinalCells(comp, comp.configurations[k])
              == [Cell(Witness, comp.witnesses[0], 0), Cell(Witness, comp.witnesses[0], 1),
                  Cell(Witness, comp.witnesses[0], 2)]
  {
    NineColumnCoords();
  }

  /** The cells of a fifteen-column block configuration after the leading two. */
  lemma FifteenColumnCells(comp: Component, k: nat)
    requires Shaped(comp) && comp.shift != 0 && FifteenColumnList(comp) && 2 <= k < comp.numBlocks
    ensures BlockCells(comp, comp.configurations[k])[4] == Cell(Witness, comp.witnesses[1], 12)
    ensures FinalCells(comp, comp.configurations[k])
              == [Cell(Witness, comp.witnesses[0], 11), Cell(Witness, comp.witnesses[1], 0),
                  Cell(Witness, comp.witnesses[1], 3)]
  {
    FifteenColumnCoords();
  }

  /** Unless the block count is 1 to 5 modulo 17, fewer than 12 padding configurations
      follow the blocks. */
  lemma ShortPadding(n: nat)
    requires !(1 <= n % ConfigurationsMultiple <= 5)
    ensures PaddingCount(n) <= 11
  {
  }

  /** With nine columns, padding configuration t after the blocks targets row `t % 7`
      of witness column `1 + t / 7`. */
  lemma NineColumnFiller(comp: Component, t: nat)
    requires Shaped(comp) && comp.shift != 0 && NineColumnList(comp)
    requires t < |comp.configurations| - comp.numBlocks
    ensures 1 + t / 7 < |comp.witnesses|
    ensures FillerTarget(comp, comp.configurations[comp.numBlocks + t])
              == Cell(Witness, comp.witnesses[1 + t / 7], t % 7)
  {
    assert comp.configurations[comp.numBlocks + t].copyTo == [FillerCell(1, t)];
  }

  /** With fifteen columns and at least two blocks, padding configurations 0 and 1 after
      the blocks are slot-0 ones and target row 11 of witness column 0; configuration t
      from 2 on targets row `(t - 2) % 7` of column `2 + (t - 2) / 7`. */
  lemma FifteenColumnFiller(comp: Component, t: nat)
    requires Shaped(comp) && comp.shift != 0 && comp.numBlocks >= 2 && FifteenColumnList(comp)
    requires t < |comp.configurations| - comp.numBlocks
    ensures t < 2 ==> FillerTarget(comp, comp.configurations[comp.numBlocks + t])
                        == Cell(Witness, comp.witnesses[0], 11)
    ensures t >= 2 ==> 2 + (t - 2) / 7 < |comp.witnesses|
    ensures t >= 2 ==> FillerTarget(comp, comp.configurations[comp.numBlocks + t])
                         == Cell(Witness, comp.witnesses[2 + (t - 2) / 7], (t - 2) % 7)
  {
    var n := comp.numBlocks;
    if t < 2 {
      FifteenColumnCoords();
      assert comp.configurations[n + t] == FirstBlock(15);
    } else {
      assert comp.configurations[n + 2 + (t - 2)].copyTo == [FillerCell(2, t - 2)];
    }
  }

  /** After the blocks, `generate_assignments` writes the three final cells of the last
      block's configuration, then a zero into the target of every configuration from
      `num_blocks` on. */
  lemma WritesAfterBlocks(p: int, comp: Component, words: seq<nat>, j: nat)
    requires p > 0 && Shaped(comp) && comp.shift != 0 && |words| == comp.numBlocks
    requires 5 * (comp.numBlocks - 1) <= j < |AssignmentWrites(p, comp, words)|
    ensures |AssignmentWrites(p, comp, words)| == 5 * (comp.numBlocks - 1) + 3 + |comp.configurations| - comp.numBlocks
    ensures j < 5 * (comp.numBlocks - 1) + 3 ==>
      AssignmentWrites(p, comp, words)[j].cell
        == FinalCells(comp, comp.configurations[comp.numBlocks - 1])[j - 5 * (comp.numBlocks - 1)]
    ensures j >= 5 * (comp.numBlocks - 1) + 3 ==>
      AssignmentWrites(p, comp, words)[j].cell
        == FillerTarget(comp, comp.configurations[j - 5 * (comp.numBlocks - 1) - 3 + comp.numBlocks])
  {
    var n := comp.numBlocks;
    BlockPhaseLength(p, comp, words);
    if j < 5 * (n - 1) + 3 {
      FinalWriteCell(p, comp, words, j - 5 * (n - 1));
    } else {
      FillerWriteAt(comp, n, |comp.configurations|, j - 5 * (n - 1) - 3);
    }
  }

  /** The blocks and the last relay make `5 * (num_blocks - 1) + 3` writes. */
  lemma BlockPhaseLength(p: int, comp: Component, words: seq<nat>)
    requires p > 0 && Shaped(comp) && comp.shift != 0 && |words| == comp.numBlocks
    ensures |BlockPhaseWrites(p, comp, words)| == 5 * (comp.numBlocks - 1) + 3
  {
  }

  /** Write q of the three after the blocks goes to final cell q of the last block's
      configuration. */
  lemma FinalWriteCell(p: int, comp: Component, words: seq<nat>, q: nat)
    requires p > 0 && Shaped(comp) && comp.shift != 0 && |words| == comp.numBlocks && q < 3
    ensures 5 * (comp.numBlocks - 1) + q < |BlockPhaseWrites(p, comp, words)|
    ensures BlockPhaseWrites(p, comp, words)[5 * (comp.numBlocks - 1) + q].cell
              == FinalCells(comp, comp.configurations[comp.numBlocks - 1])[q]
  {
    var n := comp.numBlocks;
    var batch := BatchWrites(p, comp, Blocks(words[0], words[1..], comp.shift));
    var fin := FinalWrites(p, comp, comp.configurations[n - 1],
                           RelayBefore(words[0], words[1..], comp.shift, n - 1), comp.shift);
    assert BlockPhaseWrites(p, comp, words) == batch + fin;
    assert (batch + fin)[|batch| + q] == fin[q];
  }

  /** The final table keeps the last padded word in the final configuration's word cell
      whenever the range-check cell after it and every padding target lie elsewhere. */
  lemma LastWordKept(p: int, comp: Component, words: seq<nat>, m: map<Cell, int>)
    requires p > 0 && Shaped(comp) && comp.shift != 0 && |words| == comp.numBlocks
    requires FinalCells(comp, comp.configurations[comp.numBlocks - 1])[2]
               != FinalCells(comp, comp.configurations[comp.numBlocks - 1])[1]
    requires forall k :: comp.numBlocks <= k < |comp.configurations| ==>
               FillerTarget(comp, comp.configurations[k]) != FinalCells(comp, comp.configurations[comp.numBlocks - 1])[1]
    ensures var padded := PaddedWords(words[0], words[1..], comp.shift);
      && |padded| == comp.numBlocks
      && ValueIn(Apply(m, AssignmentWrites(p, comp, words)),
                 FinalCells(comp, comp.configurations[comp.numBlocks - 1])[1])
           == padded[comp.numBlocks - 1] % p
  {
    var n := comp.numBlocks;
    var ws := AssignmentWrites(p, comp, words);
    var i := 5 * (n - 1) + 1;
    var w := Put(FinalCells(comp, comp.configurations[n - 1])[1],
                 PaddedWords(words[0], words[1..], comp.shift)[n - 1] % p);
    OutputWordsWritten(p, comp, words, n - 1);
    assert ws[i] == w;
    forall j | i < j < |ws|
      ensures ws[j].cell != w.cell
    {
      WritesAfterBlocks(p, comp, words, j);
    }
    ApplyLastWrite(m, ws, i, w);
  }

  /** The final table keeps the output word of the last block before the final one in that
      block's output cell whenever neither a final write nor a padding target names it. */
  lemma LastBlockOutputKept(p: int, comp: Component, words: seq<nat>, m: map<Cell, int>)
    requires p > 0 && Shaped(comp) && comp.shift != 0 && |words| == comp.numBlocks >= 2
    requires BlockCells(comp, comp.configurations[comp.numBlocks - 2])[4]
               !in FinalCells(comp, comp.configurations[comp.numBlocks - 1])
    requires forall k :: comp.numBlocks <= k < |comp.configurations| ==>
               FillerTarget(comp, comp.configurations[k]) != BlockCells(comp, comp.configurations[comp.numBlocks - 2])[4]
    ensures var padded := PaddedWords(words[0], words[1..], comp.shift);
      && |padded| == comp.numBlocks
      && ValueIn(Apply(m, AssignmentWrites(p, comp, words)),
                 BlockCells(comp, comp.configurations[comp.numBlocks - 2])[4])
           == padded[comp.numBlocks - 2] % p
  {
    var n := comp.numBlocks;
    var ws := AssignmentWrites(p, comp, words);
    var i := 5 * (n - 2) + 4;
    var w := Put(BlockCells(comp, comp.configurations[n - 2])[4],
                 PaddedWords(words[0], words[1..], comp.shift)[n - 2] % p);
    OutputWordsWritten(p, comp, words, n - 2);
    assert ws[i] == w;
    forall j | i < j < |ws|
      ensures ws[j].cell != w.cell
    {
      WritesAfterBlocks(p, comp, words, j);
    }
    ApplyLastWrite(m, ws, i, w);
  }

  /** With nine columns the final table keeps the last padded word in the final
      configuration's word cell, row 1 of witness column 0. */
  lemma NineColumnLastWordKept(p: int, comp: Component, words: seq<nat>, m: map<Cell, int>)
    requires p > 0 && Shaped(comp) && DistinctColumns(comp) && comp.shift != 0 && |words| == comp.numBlocks
    requires NineColumnList(comp)
    ensures var padded := PaddedWords(words[0], words[1..], comp.shift);
      && |padded| == comp.numBlocks
      && FinalCells(comp, comp.configurations[comp.numBlocks - 1])[1] == Cell(Witness, comp.witnesses[0], 1)
      && ValueIn(Apply(m, AssignmentWrites(p, comp, words)), Cell(Witness, comp.witnesses[0], 1))
           == padded[comp.numBlocks - 1] % p
  {
    var n := comp.numBlocks;
    NineColumnCells(comp, n - 1);
    forall k | n <= k < |comp.configurations|
      ensures FillerTarget(comp, comp.configurations[k]) != Cell(Witness, comp.witnesses[0], 1)
    {
      NineColumnFiller(comp, k - n);
      assert k == n + (k - n);
    }
    LastWordKept(p, comp, words, m);
  }

  /** With nine columns every block's output word goes to the same cell, row 4 of witness
      column 2. That cell is also the twelfth padding target, `FillerCell(1, 11)`, which
      exists when the block count is 1 to 5 modulo 17: then the final table holds zero
      there, and no block's output word survives in it. */
  lemma NineColumnOutputZeroed(p: int, comp: Component, words: seq<nat>, m: map<Cell, int>, k: nat)
    requires p > 0 && Shaped(comp) && comp.shift != 0 && |words| == comp.numBlocks
    requires NineColumnList(comp) && k < comp.numBlocks
    requires 1 <= comp.numBlocks % ConfigurationsMultiple <= 5
    ensures BlockCells(comp, comp.configurations[k])[4] == Cell(Witness, comp.witnesses[2], 4)
    ensures ValueIn(Apply(m, AssignmentWrites(p, comp, words)), Cell(Witness, comp.witnesses[2], 4)) == 0
  {
    NineColumnCells(comp, k);
    NineColumnFiller(comp, 11);
    FillersZeroed(p, comp, words, m, comp.numBlocks + 11);
  }

  /** Otherwise the shared output cell keeps only the word of the last block before the
      final one: the earlier blocks' words are overwritten. */
  lemma NineColumnOutputKept(p: int, comp: Component, words: seq<nat>, m: map<Cell, int>, k: nat)
    requires p > 0 && Shaped(comp) && DistinctColumns(comp) && comp.shift != 0 && |words| == comp.numBlocks
    requires NineColumnList(comp) && k < comp.numBlocks - 1
    requires !(1 <= comp.numBlocks % ConfigurationsMultiple <= 5)
    ensures var padded := PaddedWords(words[0], words[1..], comp.shift);
      && |padded| == comp.numBlocks
      && BlockCells(comp, comp.configurations[k])[4] == Cell(Witness, comp.witnesses[2], 4)
      && ValueIn(Apply(m, AssignmentWrites(p, comp, words)), Cell(Witness, comp.witnesses[2], 4))
           == padded[comp.numBlocks - 2] % p
  {
    var n := comp.numBlocks;
    var c := Cell(Witness, comp.witnesses[2], 4);
    NineColumnCells(comp, k);
    NineColumnCells(comp, n - 2);
    NineColumnCells(comp, n - 1);
    ShortPadding(n);
    forall j | n <= j < |comp.configurations|
      ensures FillerTarget(comp, comp.configurations[j]) != c
    {
      NineColumnFiller(comp, j - n);
      assert j == n + (j - n);
    }
    LastBlockOutputKept(p, comp, words, m);
  }

  /** With fifteen columns and at least three blocks, the last block and the first
      padding configuration after it are both slot-0 ones, so the zero written into the
      latter's target overwrites the relay the final write put into the former's relay
      cell. */
  lemma FifteenColumnRelayZeroed(p: int, comp: Component, words: seq<nat>, m: map<Cell, int>)
    requires p > 0 && Shaped(comp) && comp.shift != 0 && |words| == comp.numBlocks >= 3
    requires FifteenColumnList(comp)
    ensures ValueIn(Apply(m, AssignmentWrites(p, comp, words)),
                    FinalCells(comp, comp.configurations[comp.numBlocks - 1])[0]) == 0
  {
    var n := comp.numBlocks;
    assert comp.configurations[n] == comp.configurations[n - 1];
    FillersZeroed(p, comp, words, m, n);
  }

  /** With fifteen columns and at least three blocks, the final table keeps the last
      padded word in the final configuration's word cell, row 0 of witness column 1. */
  lemma FifteenColumnLastWordKept(p: int, comp: Component, words: seq<nat>, m: map<Cell, int>)
    requires p > 0 && Shaped(comp) && DistinctColumns(comp) && comp.shift != 0 && |words| == comp.numBlocks >= 3
    requires FifteenColumnList(comp)
    ensures var padded := PaddedWords(words[0], words[1..], comp.shift);
      && |padded| == comp.numBlocks
      && FinalCells(comp, comp.configurations[comp.numBlocks - 1])[1] == Cell(Witness, comp.witnesses[1], 0)
      && ValueIn(Apply(m, AssignmentWrites(p, comp, words)), Cell(Witness, comp.witnesses[1], 0))
           == padded[comp.numBlocks - 1] % p
  {
    var n := comp.numBlocks;
    FifteenColumnCells(comp, n - 1);
    forall k | n <= k < |comp.configurations|
      ensures FillerTarget(comp, comp.configurations[k]) != Cell(Witness, comp.witnesses[1], 0)
    {
      FifteenColumnFiller(comp, k - n);
      assert k == n + (k - n);
    }
    LastWordKept(p, comp, words, m);
  }

  /** With fifteen columns, blocks 2 up to the last one before the final are slot-0 ones,
      so their output words go to one cell, row 12 of witness column 1, and the final
      table holds there only the word of the last of them. */
  lemma FifteenColumnBlockOutputs(p: int, comp: Component, words: seq<nat>, m: map<Cell, int>, k: nat)
    requires p > 0 && Shaped(comp) && DistinctColumns(comp) && comp.shift != 0 && |words| == comp.numBlocks
    requires FifteenColumnList(comp) && 2 <= k < comp.numBlocks - 1
    ensures var padded := PaddedWords(words[0], words[1..], comp.shift);
      && |padded| == comp.numBlocks
      && BlockCells(comp, comp.configurations[k])[4] == Cell(Witness, comp.witnesses[1], 12)
      && ValueIn(Apply(m, AssignmentWrites(p, comp, words)), Cell(Witness, comp.witnesses[1], 12))
           == padded[comp.numBlocks - 2] % p
  {
    var n := comp.numBlocks;
    FifteenColumnCells(comp, k);
    FifteenColumnCells(comp, n - 2);
    FifteenColumnCells(comp, n - 1);
    forall j | n <= j < |comp.configurations|
      ensures FillerTarget(comp, comp.configurations[j]) != Cell(Witness, comp.witnesses[1], 12)
    {
      FifteenColumnFiller(comp, j - n);
      assert j == n + (j - n);
    }
    LastBlockOutputKept(p, comp, words, m);
  }

  // ---------------------------------------------------------------------
  // generate_assignments_constant, generate_copy_constraints, generate_circuit

  /** `C(0)` at the start row: the constant cell that holds the zero the padding
      cells are tied to. */
  function ZeroVar(comp: Component, start: nat): (v: Var)
    requires |comp.constants| >= 1
    ensures v.kind == Constant && !v.relative
  {
    Var(comp.constants[0], start, false, Constant)
  }

  /** The first configuration whose target is tied to the zero: past the blocks and the
      one after them when the shift is nonzero, the very first otherwise. */
  function CopyStart(comp: Component): nat
  {
    if comp.shift > 0 then comp.numBlocks + 1 else 0
  }

  /** The copy constraint of configuration k: its target cell equals `C(0)`. */
  function FillerCopy(comp: Component, start: nat, k: nat): (cc: CopyConstraint)
    requires Shaped(comp) && |comp.constants| >= 1 && FillerStart(comp) <= k < |comp.configurations|
    ensures cc.a == ZeroVar(comp, start) && !cc.b.relative
    ensures AbsCell(cc.b) == FillerTarget(comp, comp.configurations[k])
  {
    Copy(ZeroVar(comp, start), VarOf(comp, comp.configurations[k].copyTo[0]))
  }

  /** The copy constraints of configurations `lo` up to `hi`, in order. */
  function FillerCopies(comp: Component, start: nat, lo: nat, hi: nat): (cs: seq<CopyConstraint>)
    requires Shaped(comp) && |comp.constants| >= 1 && FillerStart(comp) <= lo <= hi <= |comp.configurations|
    ensures |cs| == hi - lo
    ensures forall i :: 0 <= i < |cs| ==> cs[i].a == ZeroVar(comp, start)
    ensures forall i :: 0 <= i < |cs| ==> AbsCell(cs[i].b) == FillerTarget(comp, comp.configurations[lo + i])
    decreases hi
  {
    if hi == lo then []
    else FillerCopies(comp, start, lo, hi - 1) + [FillerCopy(comp, start, hi - 1)]
  }

  /** The copy constraints `generate_copy_constraints` adds: none when `CopyStart` is
      past the list. */
  function CircuitCopies(comp: Component, start: nat): (cs: seq<CopyConstraint>)
    requires Shaped(comp) && |comp.constants| >= 1
    ensures CopyStart(comp) <= |comp.configurations| ==> |cs| == |comp.configurations| - CopyStart(comp)
    ensures CopyStart(comp) > |comp.configurations| ==> cs == []
  {
    if CopyStart(comp) <= |comp.configurations| then
      FillerCopies(comp, start, CopyStart(comp), |comp.configurations|)
    else []
  }

  /** `generate_assignments_constant`: a zero into `C(0)` at the start row. */
  method GenerateAssignmentsConstant(comp: Component, a: Assignment, start: nat)
    requires |comp.constants| >= 1
    modifies a
    ensures a.cells == old(a.cells)[AbsCell(ZeroVar(comp, start)) := 0]
  {
    a.Write(AbsCell(ZeroVar(comp, start)), 0);
  }

  /** `generate_copy_constraints`: ties the target cell of each configuration from
      `CopyStart` on to `C(0)`. */
  method GenerateCopyConstraints(comp: Component, bp: Circuit, start: nat)
    requires Shaped(comp) && |comp.constants| >= 1
    modifies bp
    ensures bp.copies == old(bp.copies) + CircuitCopies(comp, start)
    ensures bp.gates == old(bp.gates)
  {
    var configs := comp.configurations;
    var lo := CopyStart(comp);
    if lo > |configs| {
      return;
    }
    var configIndex := lo;
    while configIndex < |configs|
      invariant lo <= configIndex <= |configs|
      invariant bp.copies == old(bp.copies) + FillerCopies(comp, start, lo, configIndex)
      invariant bp.gates == old(bp.gates)
    {
      bp.AddCopyConstraint(FillerCopy(comp, start, configIndex));
      configIndex := configIndex + 1;
    }
  }

  /** `generate_circuit`: the copy constraints, then the zero constant. The component
      declares no gate here. */
  method GenerateCircuit(comp: Component, bp: Circuit, a: Assignment, input: Input, start: nat)
    returns (out: Output)
    requires Shaped(comp) && |comp.constants| >= 1
    modifies bp, a
    ensures out == Output([])
    ensures bp.copies == old(bp.copies) + CircuitCopies(comp, start)
    ensures bp.gates == old(bp.gates)
    ensures a.cells == old(a.cells)[AbsCell(ZeroVar(comp, start)) := 0]
  {
    GenerateCopyConstraints(comp, bp, start);
    GenerateAssignmentsConstant(comp, a, start);
    out := Output([]);
  }

  /** The witness `generate_assignments` writes, together with the zero constant, satisfies
      every copy constraint `generate_circuit` adds, whatever the table held before. */
  lemma FillerCopiesHold(p: int, comp: Component, words: seq<nat>, m: map<Cell, int>, start: nat)
    requires p > 0 && Shaped(comp) && |comp.constants| >= 1
    requires |words| == if comp.shift != 0 then comp.numBlocks else 0
    ensures var cells := Apply(m, AssignmentWrites(p, comp, words))[AbsCell(ZeroVar(comp, start)) := 0];
      forall i :: 0 <= i < |CircuitCopies(comp, start)| ==> CopyHolds(CircuitCopies(comp, start)[i], cells)
  {
    var before := Apply(m, AssignmentWrites(p, comp, words));
    forall k | FillerStart(comp) <= k < |comp.configurations|
      ensures ValueIn(before, FillerTarget(comp, comp.configurations[k])) == 0
    {
      FillersZeroed(p, comp, words, m, k);
    }
    ZeroCopiesHold(comp, start, before);
  }

  /** When every target from `FillerStart` on reads zero, writing the zero constant
      satisfies every copy constraint `generate_copy_constraints` adds. */
  lemma ZeroCopiesHold(comp: Component, start: nat, before: map<Cell, int>)
    requires Shaped(comp) && |comp.constants| >= 1
    requires forall k :: FillerStart(comp) <= k < |comp.configurations| ==>
               ValueIn(before, FillerTarget(comp, comp.configurations[k])) == 0
    ensures forall i :: 0 <= i < |CircuitCopies(comp, start)| ==>
              CopyHolds(CircuitCopies(comp, start)[i], before[AbsCell(ZeroVar(comp, start)) := 0])
  {
    var zero := AbsCell(ZeroVar(comp, start));
    var cs := CircuitCopies(comp, start);
    forall i | 0 <= i < |cs|
      ensures CopyHolds(cs[i], before[zero := 0])
    {
      var target := FillerTarget(comp, comp.configurations[CopyStart(comp) + i]);
      assert target.kind == Witness && zero.kind == Constant;
      assert AbsCell(cs[i].b) == target;
      ZeroCopyHolds(cs[i], before, zero);
    }
  }

  /** A copy from the zero cell to a cell holding zero holds once the zero is written. */
  lemma ZeroCopyHolds(cc: CopyConstraint, before: map<Cell, int>, zero: Cell)
    requires AbsCell(cc.a) == zero && AbsCell(cc.b) != zero && ValueIn(before, AbsCell(cc.b)) == 0
    ensures CopyHolds(cc, before[zero := 0])
  {
  }

  /** `configure_all`'s list, with as many witness columns as the preset has, is what the
      generators demand of a component whose shift is at most 64. */
  lemma ConfigureAllShaped(witnesses: seq<nat>, constants: seq<nat>, shift: nat, numBlocks: nat)
    requires |witnesses| == 9 || |witnesses| == 15
    requires numBlocks >= 1 && shift <= BitsPerBlock
    ensures Shaped(Component(witnesses, constants, shift, numBlocks, AllConfigurations(|witnesses|, numBlocks)))
  {
    var w := |witnesses|;
    var all := AllConfigurations(w, numBlocks);
    var comp := Component(witnesses, constants, shift, numBlocks, all);
    var blocks := BlockConfigurations(w, numBlocks);
    ConfigureAllFillers(w, numBlocks);
    BlockConfigurationsShaped(comp, w, numBlocks);
    PaddingTargetsInRows(w, numBlocks);
    forall k | 0 <= k < |blocks|
      ensures BlockShaped(comp, all[k])
    {
      assert all[k] == all[..|blocks|][k];
    }
  }

  /** The leading configurations and the block template address only rows of the witness
      list. */
  lemma BlockConfigurationsShaped(comp: Component, w: nat, numBlocks: nat)
    requires w == |comp.witnesses| && (w == 9 || w == 15)
    ensures forall k :: 0 <= k < |BlockConfigurations(w, numBlocks)| ==>
              BlockShaped(comp, BlockConfigurations(w, numBlocks)[k])
  {
    var lead := LeadingConfigurations(w);
    var blocks := BlockConfigurations(w, numBlocks);
    assert BlockShaped(comp, FirstBlock(w));
    assert forall k :: 0 <= k < |lead| ==> BlockShaped(comp, lead[k]);
    forall k | 0 <= k < |blocks|
      ensures BlockShaped(comp, blocks[k])
    {
      if k >= |lead| {
        assert blocks[k] == FirstBlock(w);
      } else {
        assert blocks[k] == lead[k];
      }
    }
  }
}
