/** How wide `message[0]` may be. `get_shift` and the input's documentation give the first
    word `64 - shift` bits; the split in `generate_assignments` is lossless in 64-bit words
    only for a first word of `shift` bits. This module states both sides and the split
    that the documented width calls for. */
module KeccakPaddingWidth {
  import opened Arith
  import opened KeccakPadding
  import opened KeccakPaddingWitness

  /** Every output word fits in 64 bits when the words are 64-bit and the first word fits
      in `shift` bits: the blocks' words by `BlocksFit`, the last one because its relay
      fits in `shift` bits. */
  lemma PaddedWordsFit(first: nat, chunks: seq<nat>, shift: nat)
    requires shift <= BitsPerBlock && first < Pow2(shift)
    requires forall k :: 0 <= k < |chunks| ==> chunks[k] < Pow2(BitsPerBlock)
    ensures forall k :: 0 <= k <= |chunks| ==> PaddedWords(first, chunks, shift)[k] < Pow2(BitsPerBlock)
  {
    BlocksFit(first, chunks, shift);
    Pow2Shift(shift);
    SplitFits(RelayBefore(first, chunks, shift, |chunks|), 0, 0, Pow2(shift), Pow2(BitsPerBlock - shift));
    forall k | 0 <= k <= |chunks|
      ensures PaddedWords(first, chunks, shift)[k] < Pow2(BitsPerBlock)
    {
      PaddedWordAt(first, chunks, shift, k);
    }
  }

  /** A first word of 2^shift or more pushes the first output word to 2^64 or more. */
  lemma FirstWordOverflows(first: nat, chunks: seq<nat>, shift: nat)
    requires shift <= BitsPerBlock && Pow2(shift) <= first
    ensures PaddedWords(first, chunks, shift)[0] >= Pow2(BitsPerBlock)
  {
    PaddedWordAt(first, chunks, shift, 0);
    if chunks != [] {
      BlockAt(first, chunks, shift, 0);
    }
    Pow2Shift(shift);
    ScaleAtLeast(PaddedWords(first, chunks, shift)[0], Pow2(shift), first,
                 Pow2(BitsPerBlock - shift), Pow2(BitsPerBlock));
  }

  /** On plain numbers: a word of at least `b * c` with `a <= b` is at least `a * c`. */
  lemma ScaleAtLeast(word: int, a: int, b: int, c: int, ac: int)
    requires 0 <= a <= b && c > 0 && word >= b * c && ac == a * c
    ensures word >= ac
  {
    if a < b {
      MulAtLeast(b - a, c);
      assert (b - a) * c == b * c - a * c;
    }
  }

  /** The code as written. `get_shift` and the input's documentation give `message[0]`
      `num_bits - 64 * (num_blocks - 1) = 64 - shift` bits, while the split is lossless
      in 64-bit words only for a first word below 2^shift. When the shift is below 32 the
      largest documented first word, `2^(64 - shift) - 1`, is 2^shift or more, and it
      makes the first output word 2^64 or more. */
  lemma DocumentedFirstWordOverflows(numBlocks: nat, numBits: nat, shift: nat, chunks: seq<nat>)
    requires numBlocks == |chunks| + 1
    requires BitsPerBlock * (numBlocks - 1) <= numBits && numBits + shift == BitsPerBlock * numBlocks
    requires shift < 32
    ensures Pow2(shift) <= Pow2(numBits - BitsPerBlock * (numBlocks - 1)) - 1
    ensures PaddedWords(Pow2(numBits - BitsPerBlock * (numBlocks - 1)) - 1, chunks, shift)[0] >= Pow2(BitsPerBlock)
  {
    Pow2Monotone(shift + 1, numBits - BitsPerBlock * (numBlocks - 1));
    assert Pow2(shift + 1) == 2 * Pow2(shift);
    FirstWordOverflows(Pow2(numBits - BitsPerBlock * (numBlocks - 1)) - 1, chunks, shift);
  }

  /** The code as written, the other way round: from a shift of 32 on, every documented
      first word is below 2^shift, so every output word fits in 64 bits. */
  lemma DocumentedFirstWordFits(numBlocks: nat, numBits: nat, shift: nat, first: nat, chunks: seq<nat>)
    requires numBlocks == |chunks| + 1
    requires BitsPerBlock * (numBlocks - 1) <= numBits && numBits + shift == BitsPerBlock * numBlocks
    requires first < Pow2(numBits - BitsPerBlock * (numBlocks - 1))
    requires forall k :: 0 <= k < |chunks| ==> chunks[k] < Pow2(BitsPerBlock)
    requires shift >= 32
    ensures forall k :: 0 <= k < numBlocks ==>
              PaddedWords(first, chunks, shift)[k] < Pow2(BitsPerBlock)
  {
    Pow2Monotone(numBits - BitsPerBlock * (numBlocks - 1), shift);
    PaddedWordsFit(first, chunks, shift);
  }

  /** The evidently intended split: each word is cut at bit `64 - shift`, so that the
      first word may carry `64 - shift` bits; an output word is
      `(relay << shift) + (chunk >> (64 - shift))`. */
  function CorrectedPaddedWords(first: nat, chunks: seq<nat>, shift: nat): (ws: seq<nat>)
    requires shift <= BitsPerBlock
    ensures |ws| == |chunks| + 1
  {
    PaddedWords(first, chunks, BitsPerBlock - shift)
  }

  /** The number 64-bit words spell is below 2^(64 * count). */
  lemma {:induction false} WordsValueBound(ws: seq<nat>)
    requires forall k :: 0 <= k < |ws| ==> ws[k] < Pow2(BitsPerBlock)
    ensures WordsValue(ws) < Pow2(BitsPerBlock * |ws|)
  {
    if ws != [] {
      var n := |ws| - 1;
      WordsValueBound(ws[1..]);
      Pow2Add(BitsPerBlock, BitsPerBlock * n);
      assert BitsPerBlock * |ws| == BitsPerBlock + BitsPerBlock * n;
      LeadingWordBound(WordsValue(ws), ws[0], WordsValue(ws[1..]),
                       Pow2(BitsPerBlock), Pow2(BitsPerBlock * n), Pow2(BitsPerBlock * |ws|));
    }
  }

  /** On plain numbers: a leading digit below `top` over a tail below `low` stays below `top * low`. */
  lemma LeadingWordBound(x: int, w: int, rest: int, top: int, low: int, all: int)
    requires 0 <= w < top && 0 <= rest < low
    requires x == w * low + rest && all == top * low
    ensures x < all
  {
    MulAtLeast(top - w, low);
    assert (top - w) * low == top * low - w * low;
  }

  /** A message of `num_bits` bits as documented (a first word of `64 - shift` bits and
      64-bit words after it) is spelled by the corrected words, each of 64 bits, followed
      by `shift` zero bits: the padded message fills the blocks exactly. */
  lemma CorrectedPadding(numBlocks: nat, numBits: nat, shift: nat, first: nat, chunks: seq<nat>)
    requires numBlocks == |chunks| + 1
    requires BitsPerBlock * (numBlocks - 1) <= numBits && numBits + shift == BitsPerBlock * numBlocks
    requires first < Pow2(numBits - BitsPerBlock * (numBlocks - 1))
    requires forall k :: 0 <= k < |chunks| ==> chunks[k] < Pow2(BitsPerBlock)
    ensures WordsValue([first] + chunks) < Pow2(numBits)
    ensures forall k :: 0 <= k < numBlocks ==>
              CorrectedPaddedWords(first, chunks, shift)[k] < Pow2(BitsPerBlock)
    ensures WordsValue(CorrectedPaddedWords(first, chunks, shift))
         == WordsValue([first] + chunks) * Pow2(shift)
  {
    assert numBits - BitsPerBlock * (numBlocks - 1) == BitsPerBlock - shift;
    assert numBits == (numBits - BitsPerBlock * (numBlocks - 1)) + BitsPerBlock * |chunks|;
    assert BitsPerBlock - (numBits - BitsPerBlock * (numBlocks - 1)) == shift;
    PaddingOfWidth(first, chunks, numBits - BitsPerBlock * (numBlocks - 1));
  }

  /** `CorrectedPadding` for a first word of `width` bits, split at bit `width`. */
  lemma PaddingOfWidth(first: nat, chunks: seq<nat>, width: nat)
    requires width <= BitsPerBlock && first < Pow2(width)
    requires forall k :: 0 <= k < |chunks| ==> chunks[k] < Pow2(BitsPerBlock)
    ensures WordsValue([first] + chunks) < Pow2(width + BitsPerBlock * |chunks|)
    ensures forall k :: 0 <= k <= |chunks| ==> PaddedWords(first, chunks, width)[k] < Pow2(BitsPerBlock)
    ensures WordsValue(PaddedWords(first, chunks, width))
         == WordsValue([first] + chunks) * Pow2(BitsPerBlock - width)
  {
    PaddedWordsFit(first, chunks, width);
    PaddingRoundTrip(first, chunks, width);
    MessageBound(first, chunks, width);
  }

  /** A first word of `width` bits over 64-bit words spells a number of
      `width + 64 * |chunks|` bits. */
  lemma MessageBound(first: nat, chunks: seq<nat>, width: nat)
    requires first < Pow2(width)
    requires forall k :: 0 <= k < |chunks| ==> chunks[k] < Pow2(BitsPerBlock)
    ensures WordsValue([first] + chunks) < Pow2(width + BitsPerBlock * |chunks|)
  {
    WordsValueBound(chunks);
    WordsValueCons(first, chunks);
    Pow2Add(width, BitsPerBlock * |chunks|);
    LeadingWordBound(WordsValue([first] + chunks), first, WordsValue(chunks),
                     Pow2(width), Pow2(BitsPerBlock * |chunks|), Pow2(width + BitsPerBlock * |chunks|));
  }
}
