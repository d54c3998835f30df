/** Layout of the Keccak padding component: the coordinate templates of the two
    column presets, the per-block configurations, the padding configurations that
    round the configuration list up to a multiple of 17, and the row count.
    Coordinates are `size_t` values, so offsets such as `-1 + row` wrap modulo 2^64. */
module KeccakPadding {
  import opened Wrappers
  import Arith

  const SizeTModulus: nat := 0x1_0000_0000_0000_0000
  const BitsPerBlock: nat := 64
  /** Columns from this one on are not used for padding cells. */
  const LimitPermutationColumn: nat := 7
  /** `configure_all` pads the configuration list to a multiple of this. */
  const ConfigurationsMultiple: nat := 17

  /** An integer brought into `size_t` range. */
  function SizeT(x: int): (r: nat)
    ensures r < SizeTModulus
  {
    x % SizeTModulus
  }

  /** `get_shift()`: how far the message falls short of filling its blocks. */
  function GetShift(numBlocks: nat, numBits: nat): (s: nat)
    ensures s < SizeTModulus
    ensures SizeT(numBits + s) == SizeT(numBlocks * BitsPerBlock)
    ensures numBits <= numBlocks * BitsPerBlock < SizeTModulus ==> numBits + s == numBlocks * BitsPerBlock
  {
    Arith.ModAddRight(numBits, numBlocks * BitsPerBlock - numBits, SizeTModulus);
    if numBits <= numBlocks * BitsPerBlock < SizeTModulus then
      Arith.ModSmall(numBlocks * BitsPerBlock - numBits, SizeTModulus);
      SizeT(numBlocks * BitsPerBlock - numBits)
    else
      SizeT(numBlocks * BitsPerBlock - numBits)
  }

  // ---------------------------------------------------------------------
  // Coordinate templates

  datatype Coord = Coord(row: nat, column: nat)

  /** The template coordinate `{offset + row, column}`. */
  function At(row: nat, offset: int, column: nat): Coord
  {
    Coord(SizeT(row + offset), column)
  }

  datatype PaddingGate = PaddingGate(
    relay: Coord,
    value: seq<Coord>,
    sum: seq<Coord>,
    rangeCheck: seq<Coord>,
    first: seq<Coord>,
    second: seq<Coord>)

  datatype Error = Unsupported(message: string)

  /** Every cell of a template, relay first. */
  function GateCells(g: PaddingGate): seq<Coord>
  {
    [g.relay] + g.value + g.sum + g.first + g.second + g.rangeCheck
  }

  /** Entry k of `GateCells(g)`, by the list it falls in. */
  lemma GateCellsAt(g: PaddingGate, k: nat)
    requires k < |GateCells(g)|
    ensures var a := 1 + |g.value|;
      var b := a + |g.sum|;
      var c := b + |g.first|;
      var d := c + |g.second|;
      GateCells(g)[k] == if k == 0 then g.relay
                         else if k < a then g.value[k - 1]
                         else if k < b then g.sum[k - a]
                         else if k < c then g.first[k - b]
                         else if k < d then g.second[k - c]
                         else g.rangeCheck[k - d]
  {
    var xs := [g.relay] + g.value;
    var ys := xs + g.sum;
    var zs := ys + g.first;
    var ws := zs + g.second;
    assert GateCells(g) == ws + g.rangeCheck;
    if k < |ws| {
      assert GateCells(g)[k] == ws[k];
      if k < |zs| {
        assert ws[k] == zs[k];
        if k < |ys| {
          assert zs[k] == ys[k];
          if k < |xs| {
            assert ys[k] == xs[k];
          }
        }
      }
    }
  }

  /** Each of the five cell lists has an entry for each of the five block slots. */
  predicate Sized(g: PaddingGate)
  {
    |g.value| >= 5 && |g.sum| >= 5 && |g.first| >= 5 && |g.second| >= 5 && |g.rangeCheck| >= 5
  }

  /** The nine-column preset: three rows around `row`. */
  function Padding9(row: nat): PaddingGate
  {
    PaddingGate(
      At(row, -1, 0),
      [At(row, -1, 1), At(row, -1, 3), At(row, 0, 0), At(row, 0, 2), At(row, 1, 0)],
      [At(row, -1, 2), At(row, -1, 4), At(row, 0, 1), At(row, 0, 3), At(row, 1, 1)],
      [At(row, 1, 4), At(row, 1, 5), At(row, 1, 6), At(row, 1, 7), At(row, 1, 8)],
      [At(row, -1, 5), At(row, -1, 7), At(row, 0, 4), At(row, 0, 6), At(row, 1, 2)],
      [At(row, -1, 6), At(row, -1, 8), At(row, 0, 5), At(row, 0, 7), At(row, 1, 3)])
  }

  /** The fifteen-column preset: the relay in the row above, the rest in two rows. */
  function Padding15(row: nat): PaddingGate
  {
    PaddingGate(
      At(row, -1, 11),
      [At(row, 0, 0), At(row, 0, 1), At(row, 0, 2), At(row, 1, 0), At(row, 1, 1), At(row, 1, 2)],
      [At(row, 0, 3), At(row, 0, 4), At(row, 0, 5), At(row, 1, 3), At(row, 1, 4), At(row, 1, 5)],
      [At(row, 0, 12), At(row, 0, 13), At(row, 0, 14), At(row, 1, 12), At(row, 1, 13), At(row, 1, 14)],
      [At(row, 0, 6), At(row, 0, 7), At(row, 0, 8), At(row, 1, 6), At(row, 1, 7), At(row, 1, 8)],
      [At(row, 0, 9), At(row, 0, 10), At(row, 0, 11), At(row, 1, 9), At(row, 1, 10), At(row, 1, 11)])
  }

  /** `padding<WitnessesAmount>(row)`: only the 9- and 15-column presets exist. */
  function Padding(witnesses: nat, row: nat): (r: Result<PaddingGate, Error>)
    ensures r.Ok? <==> witnesses == 9 || witnesses == 15
    ensures r.Err? ==> r.error == Unsupported("Unsupported number of witnesses")
    ensures r.Ok? ==> Sized(r.value)
  {
    if witnesses == 9 then Ok(Padding9(row))
    else if witnesses == 15 then Ok(Padding15(row))
    else Err(Unsupported("Unsupported number of witnesses"))
  }

  /** The rows `row - 1`, `row` and `row + 1` are three different `size_t` values. */
  predicate DistinctNeighbours(row: nat)
  {
    SizeT(row - 1) != SizeT(row) && SizeT(row) != SizeT(row + 1) && SizeT(row - 1) != SizeT(row + 1)
  }

  lemma NeighbourRowsDistinct(row: nat)
    ensures DistinctNeighbours(row)
  {
  }

  /** Neither preset uses a cell twice. */
  lemma TemplateDistinct(witnesses: nat, row: nat)
    requires witnesses == 9 || witnesses == 15
    ensures var cells := GateCells(Padding(witnesses, row).value);
      forall i, j :: 0 <= i < j < |cells| ==> cells[i] != cells[j]
  {
    NeighbourRowsDistinct(row);
    if witnesses == 9 {
      Template9Distinct(row);
    } else {
      Template15Distinct(row);
    }
  }

  lemma Template9Distinct(row: nat)
    requires DistinctNeighbours(row)
    ensures var cells := GateCells(Padding9(row));
      forall i, j :: 0 <= i < j < |cells| ==> cells[i] != cells[j]
  {
    var g := Padding9(row);
    var cells := GateCells(g);
    assert Slot9(row, g.relay) == 0;
    Slots9Value(row);
    Slots9Sum(row);
    Slots9First(row);
    Slots9Second(row);
    Slots9RangeCheck(row);
    forall k | 0 <= k < |cells|
      ensures Slot9(row, cells[k]) == k
    {
      GateCellsAt(g, k);
    }
  }

  /** Each list of the nine-column preset fills consecutive slots, in list order. */
  lemma Slots9Value(row: nat)
    requires DistinctNeighbours(row)
    ensures forall k :: 0 <= k < 5 ==> Slot9(row, Padding9(row).value[k]) == 1 + k
  {
  }

  lemma Slots9Sum(row: nat)
    requires DistinctNeighbours(row)
    ensures forall k :: 0 <= k < 5 ==> Slot9(row, Padding9(row).sum[k]) == 6 + k
  {
  }

  lemma Slots9First(row: nat)
    requires DistinctNeighbours(row)
    ensures forall k :: 0 <= k < 5 ==> Slot9(row, Padding9(row).first[k]) == 11 + k
  {
  }

  lemma Slots9Second(row: nat)
    requires DistinctNeighbours(row)
    ensures forall k :: 0 <= k < 5 ==> Slot9(row, Padding9(row).second[k]) == 16 + k
  {
  }

  lemma Slots9RangeCheck(row: nat)
    requires DistinctNeighbours(row)
    ensures forall k :: 0 <= k < 5 ==> Slot9(row, Padding9(row).rangeCheck[k]) == 21 + k
  {
  }

  /** The position in `GateCells(Padding9(row))` of the cell at a coordinate, row by row
      (-1 for a coordinate the template does not use). Two cells with different
      positions differ. */
  function Slot9(row: nat, c: Coord): int
  {
    var above: seq<int> := [0, 1, 6, 2, 7, 11, 16, 12, 17];
    var middle: seq<int> := [3, 8, 4, 9, 13, 18, 14, 19];
    var below: seq<int> := [5, 10, 15, 20, 21, 22, 23, 24, 25];
    if c.row == SizeT(row - 1) && c.column < |above| then above[c.column]
    else if c.row == SizeT(row) && c.column < |middle| then middle[c.column]
    else if c.row == SizeT(row + 1) && c.column < |below| then below[c.column]
    else -1
  }

  /** The position in `GateCells(Padding15(row))` of the cell at a coordinate. */
  function Slot15(row: nat, c: Coord): int
  {
    var middle: seq<int> := [1, 2, 3, 7, 8, 9, 13, 14, 15, 19, 20, 21, 25, 26, 27];
    var below: seq<int> := [4, 5, 6, 10, 11, 12, 16, 17, 18, 22, 23, 24, 28, 29, 30];
    if c.row == SizeT(row - 1) && c.column == 11 then 0
    else if c.row == SizeT(row) && c.column < |middle| then middle[c.column]
    else if c.row == SizeT(row + 1) && c.column < |below| then below[c.column]
    else -1
  }

  lemma Template15Distinct(row: nat)
    requires DistinctNeighbours(row)
    ensures var cells := GateCells(Padding15(row));
      forall i, j :: 0 <= i < j < |cells| ==> cells[i] != cells[j]
  {
    var g := Padding15(row);
    var cells := GateCells(g);
    assert Slot15(row, g.relay) == 0;
    Slots15Value(row);
    Slots15Sum(row);
    Slots15First(row);
    Slots15Second(row);
    Slots15RangeCheck(row);
    forall k | 0 <= k < |cells|
      ensures Slot15(row, cells[k]) == k
    {
      GateCellsAt(g, k);
    }
  }

  /** Each list of the fifteen-column preset fills consecutive slots, in list order. */
  lemma Slots15Value(row: nat)
    requires DistinctNeighbours(row)
    ensures forall k :: 0 <= k < 6 ==> Slot15(row, Padding15(row).value[k]) == 1 + k
  {
  }

  lemma Slots15Sum(row: nat)
    requires DistinctNeighbours(row)
    ensures forall k :: 0 <= k < 6 ==> Slot15(row, Padding15(row).sum[k]) == 7 + k
  {
  }

  lemma Slots15First(row: nat)
    requires DistinctNeighbours(row)
    ensures forall k :: 0 <= k < 6 ==> Slot15(row, Padding15(row).first[k]) == 13 + k
  {
  }

  lemma Slots15Second(row: nat)
    requires DistinctNeighbours(row)
    ensures forall k :: 0 <= k < 6 ==> Slot15(row, Padding15(row).second[k]) == 19 + k
  {
  }

  lemma Slots15RangeCheck(row: nat)
    requires DistinctNeighbours(row)
    ensures forall k :: 0 <= k < 6 ==> Slot15(row, Padding15(row).rangeCheck[k]) == 25 + k
  {
  }

  /** Both presets keep every cell inside the component's columns; the nine-column
      preset has five cells per list, the fifteen-column one six. */
  lemma TemplateColumns(witnesses: nat, row: nat)
    requires witnesses == 9 || witnesses == 15
    ensures var g := Padding(witnesses, row).value;
      && |g.value| == |g.sum| == |g.first| == |g.second| == |g.rangeCheck| == (if witnesses == 9 then 5 else 6)
      && forall k :: 0 <= k < |GateCells(g)| ==> GateCells(g)[k].column < witnesses
  {
  }

  /** The nine-column preset spans the rows `row - 1 .. row + 1`; the fifteen-column one
      has its relay in `row - 1` and every other cell in `row .. row + 1`. */
  lemma TemplateRows(witnesses: nat, row: nat)
    requires witnesses == 9 || witnesses == 15
    ensures var cells := GateCells(Padding(witnesses, row).value);
      && (witnesses == 9 ==>
            forall k :: 0 <= k < |cells| ==>
              cells[k].row == SizeT(row - 1) || cells[k].row == SizeT(row) || cells[k].row == SizeT(row + 1))
      && (witnesses == 15 ==>
            && cells[0].row == SizeT(row - 1)
            && forall k :: 1 <= k < |cells| ==> cells[k].row == SizeT(row) || cells[k].row == SizeT(row + 1))
  {
  }

  // ---------------------------------------------------------------------
  // Configurations

  /** A configuration: the cell after which the next one starts, the cells copied in,
      the cells of each constraint (result first), the lookup arguments and the cell
      copied out. */
  datatype Configuration = Configuration(
    last: Coord,
    copyTo: seq<Coord>,
    constraints: seq<seq<Coord>>,
    lookups: seq<seq<Coord>>,
    copyFrom: Coord)

  /** The configuration of block slot 0 of a template: the relay and the first value cell
      are copied in, the sum cell is copied out, the range-check cell is looked up. */
  function SlotZeroConfiguration(g: PaddingGate): Configuration
    requires Sized(g)
  {
    Configuration(
      g.second[0],
      [g.relay, g.value[0]],
      [[g.value[0], g.first[0], g.second[0]], [g.sum[0], g.relay, g.first[0]], [g.rangeCheck[0], g.relay]],
      [[g.rangeCheck[0]]],
      g.sum[0])
  }

  /** The configuration every block receives: slot 0 of the template at row 1. */
  function FirstBlock(witnesses: nat): Configuration
    requires witnesses == 9 || witnesses == 15
  {
    SlotZeroConfiguration(Padding(witnesses, 1).value)
  }

  /** `configure_batching()`: one configuration per block, each with a single lookup on
      its range-check cell and copying out its sum cell. The slot-0 iteration ends with
      `continue`, which skips the update of the slot counter, so the counter never leaves
      0, the template row stays 1 and the slot-advancing branch is dead: every block gets
      the same configuration. */
  method ConfigureBatching(witnesses: nat, numBlocks: nat) returns (r: Result<seq<Configuration>, Error>)
    ensures r.Ok? <==> numBlocks == 0 || witnesses == 9 || witnesses == 15
    ensures r.Err? ==> r.error == Unsupported("Unsupported number of witnesses")
    ensures r.Ok? ==> |r.value| == numBlocks
    ensures r.Ok? && numBlocks > 0 ==>
      && (witnesses == 9 || witnesses == 15)
      && forall k :: 0 <= k < numBlocks ==>
           && r.value[k] == FirstBlock(witnesses)
           && |r.value[k].lookups| == 1
           && r.value[k].copyFrom == Padding(witnesses, 1).value.sum[0]
  {
    var result: seq<Configuration> := [];
    var i: nat := 0;
    var row: nat := 1;
    var j := 0;
    while j < numBlocks
      invariant j <= numBlocks && i == 0 && row == 1 && |result| == j
      invariant j > 0 ==> witnesses == 9 || witnesses == 15
      invariant j > 0 ==> forall k :: 0 <= k < j ==> result[k] == FirstBlock(witnesses)
    {
      var pg := Padding(witnesses, row);
      if pg.Err? {
        return Err(pg.error);
      }
      if i == 0 {
        result := result + [SlotZeroConfiguration(pg.value)];
        j := j + 1;
        continue;
      }
      assert false;
    }
    return Ok(result);
  }

  /** `configure_padding(row, column)`: one padding cell, whose copy source is the cell
      itself (`generate_copy_constraints` is what ties it to the zero constant). Columns from `LimitPermutationColumn` on are skipped by moving to the next row. */
  function ConfigurePadding(witnesses: nat, row: nat, column: nat): (c: Configuration)
    requires witnesses > 0
    ensures c.constraints == [] && c.lookups == []
    ensures |c.copyTo| == 1 && c.copyFrom == c.copyTo[0]
    ensures column >= LimitPermutationColumn ==>
      c.copyTo[0] == Coord(SizeT(row + 1), 0) && c.last == Coord(SizeT(row + 1), 1)
    ensures column < LimitPermutationColumn ==> c.copyTo[0] == Coord(row, column)
  {
    if column >= LimitPermutationColumn then
      Configuration(Coord(SizeT(row + 1), 1), [Coord(SizeT(row + 1), 0)], [], [], Coord(SizeT(row + 1), 0))
    else
      var lastColumn := column + 1;
      var lastRow := SizeT(row + lastColumn / witnesses);
      Configuration(Coord(lastRow, lastColumn % witnesses), [Coord(row, column)], [], [], Coord(row, column))
  }

  /** Below the column limit, the next configuration starts at the following cell of a
      row-major grid `witnesses` wide. */
  lemma PaddingAdvances(witnesses: nat, row: nat, column: nat)
    requires witnesses > 0 && column < LimitPermutationColumn && row + column + 1 < SizeTModulus
    ensures var c := ConfigurePadding(witnesses, row, column);
      && c.last.row * witnesses + c.last.column == row * witnesses + column + 1
      && c.last.column < witnesses
  {
    var x := column + 1;
    var q := x / witnesses;
    assert x == q * witnesses + x % witnesses;
    GridStep(row, x, witnesses, q, x % witnesses);
    Arith.ModSmall(row + q, SizeTModulus);
    var c := ConfigurePadding(witnesses, row, column);
    assert c.last == Coord(row + q, x % witnesses);
  }

  /** Row-major arithmetic on plain numbers: `x = q * w + m` cells past the start of
      `row` is `m` cells past the start of `row + q`, and q is at most x. */
  lemma GridStep(row: int, x: int, w: int, q: int, m: int)
    requires w > 0 && x == q * w + m && 0 <= m && 0 <= q
    ensures (row + q) * w + m == row * w + x && q <= x
  {
    if q >= 1 {
      Arith.MulAtLeast(q, w);
    }
  }

  /** The padding configurations that follow one another from `(row, column)`: each
      starts where the previous one says the next cell is. */
  function PaddingChain(witnesses: nat, row: nat, column: nat, count: nat): (r: seq<Configuration>)
    requires witnesses > 0
    ensures |r| == count
    decreases count
  {
    if count == 0 then []
    else
      var c := ConfigurePadding(witnesses, row, column);
      [c] + PaddingChain(witnesses, c.last.row, c.last.column, count - 1)
  }

  predicate MultipleOfSeventeen(n: nat)
  {
    n % ConfigurationsMultiple == 0
  }

  /** How many configurations `configure_all` appends to a list of `size`: the fewest
      that make the count a multiple of 17. */
  function PaddingCount(size: nat): (k: nat)
    ensures k < ConfigurationsMultiple && MultipleOfSeventeen(size + k)
  {
    (ConfigurationsMultiple - size % ConfigurationsMultiple) % ConfigurationsMultiple
  }

  /** No count between `size` and `size + PaddingCount(size)` is a multiple of 17, so the
      padding loop stops exactly there. */
  lemma PaddingCountLeast(size: nat, n: nat)
    requires size <= n < size + PaddingCount(size)
    ensures !MultipleOfSeventeen(n)
  {
  }

  /** The two fixed configurations `configure_all` puts first when the column count is a
      multiple of 15. Their last coordinate is never set; the model gives them (0, 0). */
  function LeadingConfigurations(witnesses: nat): seq<Configuration>
  {
    if witnesses % 15 == 0 then
      [Configuration(
         Coord(0, 0),
         [Coord(0, 0), Coord(0, 1)],
         [[Coord(0, 1), Coord(0, 5), Coord(0, 7)], [Coord(0, 3), Coord(0, 0), Coord(0, 5)], [Coord(0, 8), Coord(0, 0)]],
         [[Coord(0, 8)]],
         Coord(0, 3)),
       Configuration(
         Coord(0, 0),
         [Coord(0, 2)],
         [[Coord(0, 2), Coord(0, 6), Coord(0, 11)], [Coord(0, 4), Coord(0, 7), Coord(0, 6)], [Coord(0, 9), Coord(0, 7)]],
         [[Coord(0, 9)]],
         Coord(0, 4))]
    else
      []
  }

  /** The leading and per-block configurations, before padding. */
  function BlockConfigurations(witnesses: nat, numBlocks: nat): seq<Configuration>
    requires witnesses == 9 || witnesses == 15
  {
    LeadingConfigurations(witnesses) + seq(numBlocks, _ => FirstBlock(witnesses))
  }

  /** The row the padding configurations start in: the one after the last block's. */
  function PaddingStartRow(witnesses: nat): nat
    requires witnesses == 9 || witnesses == 15
  {
    SizeT(FirstBlock(witnesses).last.row + 1)
  }

  /** The whole configuration list `configure_all` returns for a supported preset. */
  function AllConfigurations(witnesses: nat, numBlocks: nat): seq<Configuration>
    requires witnesses == 9 || witnesses == 15
  {
    var blocks := BlockConfigurations(witnesses, numBlocks);
    blocks + PaddingChain(witnesses, PaddingStartRow(witnesses), 0, PaddingCount(|blocks|))
  }

  /** `configure_all()`: the leading configurations, one per block, then padding
      configurations until the count is a multiple of 17. At least one block is needed:
      the padding starts after the last configuration's last cell. */
  method ConfigureAll(witnesses: nat, numBlocks: nat) returns (r: Result<seq<Configuration>, Error>)
    requires numBlocks >= 1
    ensures r.Ok? <==> witnesses == 9 || witnesses == 15
    ensures r.Err? ==> r.error == Unsupported("Unsupported number of witnesses")
    ensures r.Ok? ==> r.value == AllConfigurations(witnesses, numBlocks)
    ensures r.Ok? ==>
      && MultipleOfSeventeen(|r.value|)
      && |BlockConfigurations(witnesses, numBlocks)| <= |r.value|
      && |r.value| < |BlockConfigurations(witnesses, numBlocks)| + ConfigurationsMultiple
  {
    var result := LeadingConfigurations(witnesses);
    var batch := ConfigureBatching(witnesses, numBlocks);
    if batch.Err? {
      return Err(batch.error);
    }
    result := result + batch.value;
    ghost var blocks := BlockConfigurations(witnesses, numBlocks);
    assert result == blocks;
    assert result[|result| - 1] == FirstBlock(witnesses);
    assert SizeT(result[|result| - 1].last.row + 1) == PaddingStartRow(witnesses);
    result := PadConfigurations(witnesses, result);
    AllConfigurationsSize(witnesses, numBlocks);
    return Ok(result);
  }

  /** The list `configure_all` builds has a multiple of 17 entries, fewer than 17 of them
      padding. */
  lemma AllConfigurationsSize(witnesses: nat, numBlocks: nat)
    requires witnesses == 9 || witnesses == 15
    ensures var n := |BlockConfigurations(witnesses, numBlocks)|;
      && |AllConfigurations(witnesses, numBlocks)| == n + PaddingCount(n)
      && MultipleOfSeventeen(|AllConfigurations(witnesses, numBlocks)|)
      && n <= |AllConfigurations(witnesses, numBlocks)| < n + ConfigurationsMultiple
  {
  }

  /** The padding loop of `configure_all`: starting in the row after the last
      configuration's last cell, appends padding configurations while the count is not
      a multiple of 17. */
  method PadConfigurations(witnesses: nat, blocks: seq<Configuration>) returns (result: seq<Configuration>)
    requires witnesses > 0 && |blocks| > 0
    ensures result == blocks + PaddingChain(witnesses, SizeT(blocks[|blocks| - 1].last.row + 1), 0, PaddingCount(|blocks|))
  {
    result := blocks;
    var row := SizeT(result[|result| - 1].last.row + 1);
    var column: nat := 0;
    var size := |result|;
    ghost var count := PaddingCount(|blocks|);
    ghost var whole := blocks + PaddingChain(witnesses, row, column, count);
    while size % ConfigurationsMultiple != 0
      invariant |blocks| <= size == |result| <= |blocks| + count
      invariant result + PaddingChain(witnesses, row, column, |blocks| + count - size) == whole
      decreases |blocks| + count - size
    {
      var c := ConfigurePadding(witnesses, row, column);
      ghost var rest := PaddingChain(witnesses, c.last.row, c.last.column, |blocks| + count - size - 1);
      assert result + ([c] + rest) == (result + [c]) + rest;
      result := result + [c];
      row := result[|result| - 1].last.row;
      column := result[|result| - 1].last.column;
      size := size + 1;
    }
    if size < |blocks| + count {
      PaddingCountLeast(|blocks|, size);
    }
    assert result + [] == result;
  }

  /** `rows()`: one past the row of the last configuration's last cell. */
  function Rows(configurations: seq<Configuration>): nat
    requires |configurations| > 0
  {
    SizeT(configurations[|configurations| - 1].last.row + 1)
  }

  /** Where the padding walk stands after `k` configurations when it starts at
      `(start, 0)`: seven cells per row, then the skipped column 7. */
  function WalkState(start: nat, k: nat): Coord
  {
    if k == 0 then Coord(start, 0)
    else if k % 7 == 0 then Coord(start + k / 7 - 1, LimitPermutationColumn)
    else Coord(start + k / 7, k % 7)
  }

  /** The k-th padding cell: row `start + k / 7`, column `k % 7`. */
  function FillerCell(start: nat, k: nat): Coord
  {
    Coord(start + k / 7, k % 7)
  }

  /** One padding configuration fills the walk's current cell and moves it on by one. */
  lemma WalkStep(witnesses: nat, start: nat, k: nat, row: nat, column: nat)
    requires witnesses > LimitPermutationColumn && start + k + 1 < SizeTModulus
    requires Coord(row, column) == WalkState(start, k)
    ensures ConfigurePadding(witnesses, row, column).copyTo == [FillerCell(start, k)]
    ensures ConfigurePadding(witnesses, row, column).last == WalkState(start, k + 1)
  {
    SevenStep(k);
    if k == 0 || k % 7 != 0 {
      Arith.DivModUnique(column + 1, witnesses, 0, column + 1);
      Arith.ModSmall(row, SizeTModulus);
    } else {
      Arith.ModSmall(row + 1, SizeTModulus);
    }
  }

  /** Counting on by one moves to the next column of seven, or to the next row. */
  lemma SevenStep(k: nat)
    ensures k % 7 != 6 ==> (k + 1) / 7 == k / 7 && (k + 1) % 7 == k % 7 + 1
    ensures k % 7 == 6 ==> (k + 1) / 7 == k / 7 + 1 && (k + 1) % 7 == 0
  {
    assert k == 7 * (k / 7) + k % 7;
    if k % 7 != 6 {
      Arith.DivModUnique(k + 1, 7, k / 7, k % 7 + 1);
    } else {
      Arith.DivModUnique(k + 1, 7, k / 7 + 1, 0);
    }
  }

  /** Started at `(start, 0)`, the padding walk fills `(start + m / 7, m % 7)` with its
      m-th configuration and ends where `WalkState` says; here it is picked up after `k`
      configurations, at `(row, column)`. */
  lemma {:induction false} Walk(witnesses: nat, start: nat, k: nat, count: nat, row: nat, column: nat)
    requires witnesses > LimitPermutationColumn && start + k + count < SizeTModulus
    requires Coord(row, column) == WalkState(start, k)
    ensures forall m :: 0 <= m < count ==>
              PaddingChain(witnesses, row, column, count)[m].copyTo == [FillerCell(start, k + m)]
    ensures count > 0 ==>
              PaddingChain(witnesses, row, column, count)[count - 1].last == WalkState(start, k + count)
    decreases count
  {
    if count > 0 {
      WalkStep(witnesses, start, k, row, column);
      var c := ConfigurePadding(witnesses, row, column);
      Walk(witnesses, start, k + 1, count - 1, c.last.row, c.last.column);
      WalkCons(witnesses, start, k, count, row, column, c.last.row, c.last.column, count - 1);
    }
  }

  /** The inductive step of `Walk`: its first configuration, then the rest of the walk. */
  lemma WalkCons(witnesses: nat, start: nat, k: nat, count: nat, row: nat, column: nat,
                 nextRow: nat, nextColumn: nat, restCount: nat)
    requires witnesses > LimitPermutationColumn && count == restCount + 1
    requires ConfigurePadding(witnesses, row, column).copyTo == [FillerCell(start, k)]
    requires ConfigurePadding(witnesses, row, column).last == Coord(nextRow, nextColumn)
    requires Coord(nextRow, nextColumn) == WalkState(start, k + 1)
    requires forall m :: 0 <= m < restCount ==>
               PaddingChain(witnesses, nextRow, nextColumn, restCount)[m].copyTo
                 == [FillerCell(start, k + 1 + m)]
    requires restCount > 0 ==>
               PaddingChain(witnesses, nextRow, nextColumn, restCount)[restCount - 1].last
                 == WalkState(start, k + 1 + restCount)
    ensures forall m :: 0 <= m < count ==>
              PaddingChain(witnesses, row, column, count)[m].copyTo == [FillerCell(start, k + m)]
    ensures PaddingChain(witnesses, row, column, count)[count - 1].last == WalkState(start, k + count)
  {
    var chain := PaddingChain(witnesses, row, column, count);
    var c := ConfigurePadding(witnesses, row, column);
    var rest := PaddingChain(witnesses, nextRow, nextColumn, restCount);
    assert chain == [c] + rest;
    if restCount > 0 {
      assert chain[count - 1] == rest[restCount - 1];
    }
    forall m | 0 <= m < count
      ensures chain[m].copyTo == [FillerCell(start, k + m)]
    {
      if m > 0 {
        assert chain[m] == rest[m - 1];
        assert k + 1 + (m - 1) == k + m;
      }
    }
  }

  /** The blocks' last cell is in row 0 with nine columns and in row 1 with fifteen. */
  lemma PaddingStartRowValue(witnesses: nat)
    requires witnesses == 9 || witnesses == 15
    ensures PaddingStartRow(witnesses) == if witnesses == 9 then 1 else 2
  {
    Arith.ModSmall(0, SizeTModulus);
    Arith.ModSmall(1, SizeTModulus);
    Arith.ModSmall(2, SizeTModulus);
  }

  /** After any prefix, a padding walk from `(start, 0)` puts its m-th cell at
      `FillerCell(start, m)`. */
  lemma ChainFillers(witnesses: nat, prefix: seq<Configuration>, start: nat, count: nat)
    requires witnesses > LimitPermutationColumn && start + count < SizeTModulus
    ensures var all := prefix + PaddingChain(witnesses, start, 0, count);
      forall m :: 0 <= m < count ==> all[|prefix| + m].copyTo == [FillerCell(start, m)]
  {
    Walk(witnesses, start, 0, count, start, 0);
  }

  /** After a nonempty walk from `(start, 0)`, the next free row is `start + ceil(count / 7)`. */
  lemma ChainRows(witnesses: nat, prefix: seq<Configuration>, start: nat, count: nat)
    requires witnesses > LimitPermutationColumn && start + count + 1 < SizeTModulus && count > 0
    ensures Rows(prefix + PaddingChain(witnesses, start, 0, count)) == start + (count + 6) / 7
  {
    Walk(witnesses, start, 0, count, start, 0);
    var chain := PaddingChain(witnesses, start, 0, count);
    var all := prefix + chain;
    assert all[|all| - 1] == chain[count - 1];
    WalkRow(start, count);
    Arith.ModSmall(start + (count + 6) / 7, SizeTModulus);
  }

  /** A nonempty walk ends in row `start + ceil(count / 7) - 1`. */
  lemma WalkRow(start: nat, count: nat)
    requires count > 0
    ensures WalkState(start, count).row + 1 == start + (count + 6) / 7
    ensures (count + 6) / 7 <= count
  {
    var q, r := count / 7, count % 7;
    assert count == 7 * q + r;
    if r == 0 {
      Arith.DivModUnique(count + 6, 7, q, 6);
    } else {
      Arith.DivModUnique(count + 6, 7, q + 1, r - 1);
    }
  }

  /** The padding configurations of `configure_all` fill columns 0..6 row by row, starting
      in the row after the blocks. */
  lemma ConfigureAllFillers(witnesses: nat, numBlocks: nat)
    requires witnesses == 9 || witnesses == 15
    ensures var all := AllConfigurations(witnesses, numBlocks);
      var blocks := BlockConfigurations(witnesses, numBlocks);
      var start := PaddingStartRow(witnesses);
      && |all| == |blocks| + PaddingCount(|blocks|)
      && all[..|blocks|] == blocks
      && forall m :: 0 <= m < PaddingCount(|blocks|) ==> all[|blocks| + m].copyTo == [FillerCell(start, m)]
  {
    var blocks := BlockConfigurations(witnesses, numBlocks);
    PaddingStartRowValue(witnesses);
    ChainFillers(witnesses, blocks, PaddingStartRow(witnesses), PaddingCount(|blocks|));
  }

  /** Every padding configuration of the `configure_all` list has one target, in a row
      below the preset's column count: fewer than 17 cells, seven per row, from row 1 or 2. */
  lemma PaddingTargetsInRows(witnesses: nat, numBlocks: nat)
    requires witnesses == 9 || witnesses == 15
    ensures forall k :: |BlockConfigurations(witnesses, numBlocks)| <= k < |AllConfigurations(witnesses, numBlocks)| ==>
              |AllConfigurations(witnesses, numBlocks)[k].copyTo| == 1
              && AllConfigurations(witnesses, numBlocks)[k].copyTo[0].row < witnesses
  {
    var all := AllConfigurations(witnesses, numBlocks);
    var n := |BlockConfigurations(witnesses, numBlocks)|;
    var start := PaddingStartRow(witnesses);
    ConfigureAllFillers(witnesses, numBlocks);
    PaddingStartRowValue(witnesses);
    forall k | n <= k < |all|
      ensures |all[k].copyTo| == 1 && all[k].copyTo[0].row < witnesses
    {
      var m := k - n;
      assert all[n + m].copyTo == [FillerCell(start, m)];
      SeventhOfPadding(m);
    }
  }

  /** Fewer than 17 padding cells, seven per row, reach at most two rows further. */
  lemma SeventhOfPadding(m: nat)
    requires m < ConfigurationsMultiple
    ensures m / 7 <= 2
  {
  }

  /** `rows()` of the `configure_all` list: the padding start row plus the rows the
      padding cells reach, seven per row. */
  lemma ConfigureAllRows(witnesses: nat, numBlocks: nat)
    requires witnesses == 9 || witnesses == 15
    requires numBlocks >= 1
    ensures var all := AllConfigurations(witnesses, numBlocks);
      var count := PaddingCount(|BlockConfigurations(witnesses, numBlocks)|);
      Rows(all) == PaddingStartRow(witnesses) + (count + 6) / 7
  {
    var blocks := BlockConfigurations(witnesses, numBlocks);
    var count := PaddingCount(|blocks|);
    PaddingStartRowValue(witnesses);
    if count > 0 {
      ChainRows(witnesses, blocks, PaddingStartRow(witnesses), count);
    } else {
      var all := AllConfigurations(witnesses, numBlocks);
      assert all == blocks;
      assert all[|all| - 1] == FirstBlock(witnesses);
    }
  }
}
