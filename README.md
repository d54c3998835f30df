# Verified model of three zkllvm-blueprint components

This project models three pieces of the zkllvm blueprint library and proves properties of them.

- **`division_or_zero`** is a PLONK component. For inputs `x` and `y` over a prime field it computes `z = x / y`, or `z = 0` when `y = 0`. It does this with one gate of four polynomial constraints over one row of five witness cells (`x`, `y`, `z`, an inverse of `y` and a non-zero flag), plus two copy constraints that tie `x` and `y` to the caller's variables.
- **The R1CS `blueprint`** allocates variable indices in bump order (index 0 is the constant 1). It stores the values of the allocated variables and of linear combinations, and collects the rank-1 constraints that gadgets add.
- **`keccak_padding`** lays out the Keccak padding component. The layout has three parts:
  - the 9- and 15-column coordinate templates;
  - one configuration per message block;
  - padding configurations up to a multiple of 17, which fill columns 0..6 row by row.

  It also covers how `generate_assignments` writes the witness. Each 64-bit message word is split at `shift` bits. The low part is relayed into the next output word, and the relay that remains after the last word is written shifted up. Every padding target receives a zero, and `generate_copy_constraints` ties each padding target to the zero constant `C(0)`.

## Modules and files

- `arith.dfy` (`Arith`): Euclidean division and powers of two, on plain integers.
- `field.dfy` (`PrimeField`): the field F_p for a prime `p` passed as a parameter.
  - Addition, subtraction and multiplication are taken mod `p`.
  - The inverse is computed by the extended Euclidean algorithm.
  - The file proves that F_p has no zero divisors and that inverses are unique.
- `plonk.dfy` (`Wrappers`, `Plonk`): the PLONK containers the components touch.
  - Variables, cells and constraint expressions.
  - The assignment table, a class over `map<Cell, int>` in which an unwritten cell reads 0.
  - The circuit, a class with the gate and copy-constraint lists.
- `r1cs.dfy` (`R1cs`): `blueprint` as a class.
  - `Valid()` ties the counters to the vectors.
  - Every method states its whole new state.
- `division_or_zero.dfy` (`DivisionOrZero`): the component, its generators, and completeness and soundness of its gate.
- `keccak_padding.dfy` (`KeccakPadding`): the coordinate templates, `configure_batching`, `configure_padding`, `configure_all` and `rows()`.
- `keccak_padding_width.dfy` (`KeccakPaddingWidth`): how wide `message[0]` may be. It proves that the split as written overflows 64 bits for documented inputs when shift < 32, and it gives the split the documented width calls for, with its round trip.
- `keccak_padding_witness.dfy` (`KeccakPaddingWitness`): `generate_assignments` and its split arithmetic, `generate_assignments_constant`, `generate_copy_constraints` and `generate_circuit`.
  - Writes to the table are recorded in a ghost log of `Put`s.
  - `Apply` replays the log, and every method states its effect as the log it appends.

### How the code is read where it is unusual

- **`configure_batching`.** The `continue` at `keccak_padding.hpp:214` skips the `i = (i + 1) % 5` update. So `i` stays 0 and every block gets the slot-0 configuration of the template at row 1. `KeccakPadding.ConfigureBatching` states exactly this, and the witness model keeps that list as it is.
- **Blocks in the 15-column layout.** The two leading configurations come before the blocks. `generate_assignments` indexes the list from 0, so block `k` is written through configuration `k` of the whole list, and the model does the same.
- **The 5-argument `configuration(...)` constructor** at `:237` and `:242` is read as (last coordinate, copy targets, constraints, lookups, copy source).
- **`last_row` and `last_column`** at `:276-277` are read as the last coordinate's row and column.
- **`congif_index` and `config[i]`** at `:424-425` and `:526` are read as `config_index` and `full_configuration[config_index]`, which is what the surrounding loops evidently mean.
- **`W(x.row), x.column`.** A coordinate's row selects the witness column and its column becomes the table row. Both the writes (`:503-528`) and the copy constraints (`:425`) spell cells this way, and the model follows them.
- **`(1 << shift)` and `(1 << 64)`** at `:500` and `:516` are `int` shifts, and the second one is undefined behaviour in C++. They are modelled as the intended 2^shift and 2^64.
- **`value_type(...)`** of an integer reduces it mod `p`. The word read from the table is written back unreduced, since it is already a field element.
- **`{component.C(0), var(...)}`** at `keccak_padding.hpp:425` names constant column `C(0)` with no row of its own. The model reads it as the constant cell at the start row (`ZeroVar`), which is the cell `generate_assignments_constant` at `:537-556` fills with zero.
- **`size_t`.** Template rows such as `-1 + row` and `get_shift`'s subtraction wrap modulo 2^64, as `SizeT` spells out.
- **The R1CS constructor's defaults.** `blueprint()` at `r1cs.hpp:68-73` leaves `constraint_system` default-constructed. The model reads that as no primary inputs, no auxiliary inputs and no constraints: `ConstraintSystem(0, 0, [])`.
- **The leading configurations' last coordinate.** `conf0` and `conf1` at `keccak_padding.hpp:247-262` never set `last_coordinate`. The model gives them `(0, 0)`. Nothing reads it, since `configure_all` reads only the last block configuration's coordinate and the model demands at least one block.
- **What the final table keeps of the padded message.** Every block goes through the slot-0 configuration, so later writes overwrite earlier ones. The final table therefore does not hold the padded message:
  - With nine columns, all block output words go to one cell. That cell ends up with the word of the last block before the final one (`NineColumnOutputKept`). When the block count is 1 to 5 modulo 17, the cell is also a padding target and ends up zero (`NineColumnOutputZeroed`).
  - With fifteen columns, blocks 2 onwards share one output cell, which keeps only the last of their words (`FifteenColumnBlockOutputs`). With three or more blocks, the first filler zeroes the relay cell that the final write filled (`FifteenColumnRelayZeroed`).
  - In both presets the last padded word survives in the final configuration's word cell (`NineColumnLastWordKept`, `FifteenColumnLastWordKept`).

  These lemmas assume pairwise different witness columns (`DistinctColumns`), which the source does not check.

## Model

| member | source | states |
|---|---|---|
| PrimeField.Inverse | include/nil/blueprint/components/algebra/fields/plonk/division_or_zero.hpp:169-170 | every nonzero field element has an inverse `r` with `0 < r < p` and `y * r = 1` in F_p |
| PrimeField.InverseUnique | include/nil/blueprint/components/algebra/fields/plonk/division_or_zero.hpp:169-170 | any `b` with `a * b = 1` is the inverse, so `inversed()` is determined by `y` |
| PrimeField.NoZeroDivisors | include/nil/blueprint/components/algebra/fields/plonk/division_or_zero.hpp:200-202 | a product of two field elements is zero only when one of them is, which is what lets the gate force the flag and the quotient |
| Plonk.Assignment.Write | include/nil/blueprint/components/algebra/fields/plonk/division_or_zero.hpp:161 | `assignment.witness(col, row) = v` changes exactly that cell and keeps every value in the field when `v` is one |
| Plonk.Assignment.EnableSelector | include/nil/blueprint/components/algebra/fields/plonk/division_or_zero.hpp:236 | enabling a selector sets only its cell at that row to one |
| Plonk.Circuit.AddGate | include/nil/blueprint/components/algebra/fields/plonk/division_or_zero.hpp:205 | `add_gate` appends the gate and returns its position as the selector index; the copy constraints are unchanged |
| Plonk.Circuit.AddCopyConstraint | include/nil/blueprint/components/algebra/fields/plonk/division_or_zero.hpp:221-222 | `add_copy_constraint` appends one copy constraint and leaves the gates unchanged |
| R1cs.Blueprint.constructor | include/nil/crypto3/zk/blueprint/r1cs.hpp:68-73 | a fresh blueprint has constant term 1, next free variable 1, next free combination 0, no values and no constraints, and is valid; `num_constraints()` and `num_variables()` are 0 |
| R1cs.Blueprint.ClearValues | include/nil/crypto3/zk/blueprint/r1cs.hpp:75-77 | every variable value becomes zero and keeps its position; nothing else changes |
| R1cs.Blueprint.Val | include/nil/crypto3/zk/blueprint/r1cs.hpp:84-87 | `val(var)` is entry `var.index` of the vector `1 :: values`: index 0 is the constant term |
| R1cs.Blueprint.SetVal | include/nil/crypto3/zk/blueprint/r1cs.hpp:79-82 | assigning through `val(var)` makes `val(var)` the new value and leaves every other variable, the combinations, the counters and the constraints unchanged |
| R1cs.Blueprint.LcVal | include/nil/crypto3/zk/blueprint/r1cs.hpp:99-107 | a variable combination reads the variable's value; any other combination reads its own slot |
| R1cs.Blueprint.SetLcVal | include/nil/crypto3/zk/blueprint/r1cs.hpp:89-97 | assigning through `lc_val(lc)` makes `lc_val(lc)` the new value; a combination changes only its own slot, and a variable changes only that variable (no other variable, slot, counter or constraint) |
| R1cs.Blueprint.AddR1csConstraint | include/nil/crypto3/zk/blueprint/r1cs.hpp:109-111 | appends the constraint after the earlier ones, so `num_constraints()` (`r1cs.hpp:117-119`) grows by exactly one; input sizes, values and counters are unchanged |
| R1cs.Blueprint.NumVariables | include/nil/crypto3/zk/blueprint/r1cs.hpp:125-127 | `next_free_var - 1` is the number of values and the primary plus auxiliary input size |
| R1cs.Blueprint.SetInputSizes | include/nil/crypto3/zk/blueprint/r1cs.hpp:129-133 | the first `n` variables become primary and the rest auxiliary; constraints and values are unchanged |
| R1cs.Blueprint.PrimaryInput | include/nil/crypto3/zk/blueprint/r1cs.hpp:139-142 | the first `num_inputs()` values, a prefix of the full assignment |
| R1cs.Blueprint.AuxiliaryInput | include/nil/crypto3/zk/blueprint/r1cs.hpp:144-147 | the rest of the values; primary followed by auxiliary is the full assignment, and its length is the auxiliary input size |
| R1cs.Blueprint.AllocateVarIndex | include/nil/crypto3/zk/blueprint/r1cs.hpp:157-161 | returns the old next free index, which becomes `num_variables()`; a zero value is appended and counted as auxiliary; the blueprint stays valid |
| R1cs.Blueprint.AllocateLcIndex | include/nil/crypto3/zk/blueprint/r1cs.hpp:163-166 | returns 0, 1, 2, ... in turn, each backed by a fresh zero slot; the variables are unchanged |
| DivisionOrZero.MakeInput | include/nil/blueprint/components/algebra/fields/plonk/division_or_zero.hpp:98-104 | succeeds exactly for two variables, which become x and y in order; otherwise it fails with the out-of-range message |
| DivisionOrZero.Calculate | include/nil/blueprint/components/algebra/fields/plonk/division_or_zero.hpp:140-143 | zero for a zero divisor, otherwise the `z` with `z * y = x` in F_p |
| DivisionOrZero.DivTimesDivisor | include/nil/blueprint/components/algebra/fields/plonk/division_or_zero.hpp:164-165 | `(x / y) * y = x` for a nonzero `y` |
| DivisionOrZero.AssignedRow | include/nil/blueprint/components/algebra/fields/plonk/division_or_zero.hpp:159-171 | the row written holds x, y, `calculate(x, y)`, the inverse of y (0 when y is 0) and the flag `y * inv`, which is 1 for a nonzero y and 0 otherwise |
| DivisionOrZero.GateEvaluatesRow | include/nil/blueprint/components/algebra/fields/plonk/division_or_zero.hpp:200-205 | evaluating the four gate polynomials at a table row is evaluating them on that row's five cells; the gate holds exactly when the row satisfies them |
| DivisionOrZero.Completeness | include/nil/blueprint/components/algebra/fields/plonk/division_or_zero.hpp:200-203 | the row `generate_assignments` writes satisfies all four constraints |
| DivisionOrZero.Soundness | include/nil/blueprint/components/algebra/fields/plonk/division_or_zero.hpp:200-203 | any row of field elements satisfying the constraints has `z = calculate(x, y)`, a 0/1 flag that is 1 exactly when `y != 0`, and the inverse of `y` in its inverse cell |
| DivisionOrZero.CorruptedOutputRejected | include/nil/blueprint/components/algebra/fields/plonk/division_or_zero.hpp:200-203 | an output cell other than `calculate(x, y)` makes some constraint nonzero |
| DivisionOrZero.ReadField | include/nil/blueprint/components/algebra/fields/plonk/division_or_zero.hpp:161 | `var_value` returns the table value, a field element |
| DivisionOrZero.GenerateAssignments | include/nil/blueprint/components/algebra/fields/plonk/division_or_zero.hpp:153-174 | writes the five row cells and nothing else; when the inputs lie outside the row, the row is the assigned row of the inputs' old values and both the gate and the copy constraints hold |
| DivisionOrZero.GenerateEmptyAssignments | include/nil/blueprint/components/algebra/fields/plonk/division_or_zero.hpp:178-189 | writes only W2 at the start row, with `calculate` of the inputs |
| DivisionOrZero.GenerateGates | include/nil/blueprint/components/algebra/fields/plonk/division_or_zero.hpp:192-206 | adds the one gate of four constraints and returns its selector |
| DivisionOrZero.GenerateCopyConstraints | include/nil/blueprint/components/algebra/fields/plonk/division_or_zero.hpp:209-223 | appends `x = W0` and `W1 = y` at the start row |
| DivisionOrZero.GenerateCircuit | include/nil/blueprint/components/algebra/fields/plonk/division_or_zero.hpp:227-241 | the gate, its selector enabled at the start row only, the two copy constraints, and W2 at the start row as the result |
| KeccakPadding.GetShift | include/nil/blueprint/components/hashes/keccak/keccak_padding.hpp:165-167 | `num_bits + shift = 64 * num_blocks` in `size_t`, exactly so when the message fits its blocks |
| KeccakPadding.Padding | include/nil/blueprint/components/hashes/keccak/keccak_padding.hpp:169-195 | only the 9- and 15-column presets exist, and any other count fails with the unsupported message; each preset has a cell for every block slot |
| KeccakPadding.TemplateDistinct | include/nil/blueprint/components/hashes/keccak/keccak_padding.hpp:174-195 | neither preset uses a cell twice |
| KeccakPadding.Template9Distinct | include/nil/blueprint/components/hashes/keccak/keccak_padding.hpp:174-184 | the 26 cells of the nine-column preset are pairwise different |
| KeccakPadding.Template15Distinct | include/nil/blueprint/components/hashes/keccak/keccak_padding.hpp:185-195 | the 31 cells of the fifteen-column preset are pairwise different |
| KeccakPadding.TemplateColumns | include/nil/blueprint/components/hashes/keccak/keccak_padding.hpp:174-195 | each list has 5 (nine columns) or 6 (fifteen columns) entries, and every cell's column is below the column count |
| KeccakPadding.TemplateRows | include/nil/blueprint/components/hashes/keccak/keccak_padding.hpp:174-195 | the nine-column preset spans rows `row - 1 .. row + 1`; the fifteen-column one has its relay in `row - 1` and the rest in `row` and `row + 1` |
| KeccakPadding.ConfigureBatching | include/nil/blueprint/components/hashes/keccak/keccak_padding.hpp:197-232 | one configuration per block, each the template's slot-0 configuration at row 1 with a single lookup, copied from `sum[0]`; unsupported column counts fail |
| KeccakPadding.ConfigurePadding | include/nil/blueprint/components/hashes/keccak/keccak_padding.hpp:234-243 | one target copied from itself, no constraints or lookups; at or past column 7 it moves to column 0 of the next row |
| KeccakPadding.PaddingAdvances | include/nil/blueprint/components/hashes/keccak/keccak_padding.hpp:239-242 | below column 7 the next configuration starts at the following cell of the row-major grid |
| KeccakPadding.PaddingCount | include/nil/blueprint/components/hashes/keccak/keccak_padding.hpp:274-279 | fewer than 17 configurations are appended, bringing the size to a multiple of 17 |
| KeccakPadding.PaddingCountLeast | include/nil/blueprint/components/hashes/keccak/keccak_padding.hpp:274-279 | no smaller count reaches a multiple of 17, so the loop stops at the first one |
| KeccakPadding.ConfigureAll | include/nil/blueprint/components/hashes/keccak/keccak_padding.hpp:245-281 | the list is the leading and block configurations followed by the padding walk; its size is a multiple of 17 and less than 17 past the unpadded size; unsupported column counts fail |
| KeccakPadding.AllConfigurationsSize | include/nil/blueprint/components/hashes/keccak/keccak_padding.hpp:272-279 | the padded list has `n + PaddingCount(n)` entries, a multiple of 17 |
| KeccakPadding.PadConfigurations | include/nil/blueprint/components/hashes/keccak/keccak_padding.hpp:270-279 | the loop appends the padding chain that starts in the row after the last configuration's last cell |
| KeccakPadding.Walk | include/nil/blueprint/components/hashes/keccak/keccak_padding.hpp:274-279 | started at column 0, the m-th padding configuration targets row `start + m / 7`, column `m % 7`, and the walk ends one cell further on |
| KeccakPadding.ChainFillers | include/nil/blueprint/components/hashes/keccak/keccak_padding.hpp:270-279 | after any prefix, padding entry m targets `(start + m / 7, m % 7)` |
| KeccakPadding.ChainRows | include/nil/blueprint/components/hashes/keccak/keccak_padding.hpp:48-50 | after a nonempty padding walk, `rows()` is `start + ceil(count / 7)` |
| KeccakPadding.PaddingStartRowValue | include/nil/blueprint/components/hashes/keccak/keccak_padding.hpp:270 | padding starts in row 1 with nine columns and in row 2 with fifteen |
| KeccakPadding.ConfigureAllFillers | include/nil/blueprint/components/hashes/keccak/keccak_padding.hpp:245-281 | the list starts with the block configurations, and its padding entries fill columns 0..6 row by row from the padding start row |
| KeccakPadding.PaddingTargetsInRows | include/nil/blueprint/components/hashes/keccak/keccak_padding.hpp:270-279 | every padding configuration has one target, in a row below the column count, so `W(row)` exists |
| KeccakPadding.ConfigureAllRows | include/nil/blueprint/components/hashes/keccak/keccak_padding.hpp:48-50 | `rows()` of the list is the padding start row plus `ceil(count / 7)` |
| KeccakPaddingWitness.ChunkParts | include/nil/blueprint/components/hashes/keccak/keccak_padding.hpp:497-498 | `chunk = high * 2^shift + low` with `low < 2^shift` |
| KeccakPaddingWitness.PaddingRoundTrip | include/nil/blueprint/components/hashes/keccak/keccak_padding.hpp:492-516 | as an integer identity, the output words (each block's first chunk, then the last relay shifted up) spell the message words times 2^(64 - shift); they are a 64-bit spelling only under `BlocksFit`'s bound on the first word, which the documented input does not meet when shift < 32 (see Findings) |
| KeccakPaddingWitness.FirstChunkFits | include/nil/blueprint/components/hashes/keccak/keccak_padding.hpp:499 | a relay below 2^shift and a word below 2^64 give an output word below 2^64 |
| KeccakPaddingWitness.RangeCheckBoundsRelay | include/nil/blueprint/components/hashes/keccak/keccak_padding.hpp:500 | the range-check value is nonnegative, and below 2^64 exactly when the relay fits in `shift` bits |
| KeccakPaddingWitness.BlocksFit | include/nil/blueprint/components/hashes/keccak/keccak_padding.hpp:494-512 | for 64-bit words and a first word below 2^shift (the width the split itself assumes, narrower than the documented `64 - shift` bits when shift < 32), every relay fits in `shift` bits and every output word and range check in 64 bits |
| KeccakPaddingWidth.PaddedWordsFit | include/nil/blueprint/components/hashes/keccak/keccak_padding.hpp:494-516 | under the same bound every output word, the last one included, is below 2^64 |
| KeccakPaddingWidth.FirstWordOverflows | include/nil/blueprint/components/hashes/keccak/keccak_padding.hpp:499 | a first word of 2^shift or more makes the first output word 2^64 or more |
| KeccakPaddingWidth.DocumentedFirstWordOverflows | include/nil/blueprint/components/hashes/keccak/keccak_padding.hpp:151-153 | with `num_bits + shift = 64 * num_blocks` and shift < 32, the largest first word the documentation allows, `2^(64 - shift) - 1`, is at least 2^shift and the first output word it gives is 2^64 or more |
| KeccakPaddingWidth.DocumentedFirstWordFits | include/nil/blueprint/components/hashes/keccak/keccak_padding.hpp:165-167 | with `num_bits + shift = 64 * num_blocks` and shift >= 32, every documented message gives output words below 2^64 |
| KeccakPaddingWidth.WordsValueBound | include/nil/blueprint/components/hashes/keccak/keccak_padding.hpp:151-152 | 64-bit words spell a number below 2^(64 * count) |
| KeccakPaddingWidth.MessageBound | include/nil/blueprint/components/hashes/keccak/keccak_padding.hpp:151-153 | a first word of `width` bits over 64-bit words spells a number below 2^(width + 64 * (count of the other words)) |
| KeccakPaddingWidth.CorrectedPadding | include/nil/blueprint/components/hashes/keccak/keccak_padding.hpp:151-153 | for a documented message of `num_bits` bits (`num_bits + shift = 64 * num_blocks`), the message is below 2^num_bits and the split at bit `64 - shift` gives `num_blocks` words, each below 2^64, that spell the message followed by `shift` zero bits |
| KeccakPaddingWitness.BlockSplitHolds | include/nil/blueprint/components/hashes/keccak/keccak_padding.hpp:371-373 | `value - first * 2^shift - second` vanishes in F_p on every block's written values |
| KeccakPaddingWitness.ReadWord | include/nil/blueprint/components/hashes/keccak/keccak_padding.hpp:495 | `var_value` returns the table value, below `p` |
| KeccakPaddingWitness.AssignBlock | include/nil/blueprint/components/hashes/keccak/keccak_padding.hpp:495-508 | writes the block's five cells (word, high, low, range check, output word) in source order, and the table is the old one with those writes applied |
| KeccakPaddingWitness.BatchStep | include/nil/blueprint/components/hashes/keccak/keccak_padding.hpp:494-512 | one loop pass: the block of word `index` is written into configuration `index - 1`, and its low part becomes the relay |
| KeccakPaddingWitness.AssignBatching | include/nil/blueprint/components/hashes/keccak/keccak_padding.hpp:492-512 | the block loop writes the blocks of all words after the first; the final relay is the last word's low part; the words read are the message values when the message lies outside the written cells |
| KeccakPaddingWitness.AssignFinal | include/nil/blueprint/components/hashes/keccak/keccak_padding.hpp:514-523 | writes the relay, the last output word and the range check into the last block's configuration |
| KeccakPaddingWitness.AssignFillers | include/nil/blueprint/components/hashes/keccak/keccak_padding.hpp:526-530 | writes a zero into the target of every configuration from the filler start to the end, in order |
| KeccakPaddingWitness.GenerateAssignments | include/nil/blueprint/components/hashes/keccak/keccak_padding.hpp:470-533 | the table is the old one with exactly the component's writes applied; a cell the component does not own keeps its value; the words read are the message values when the message is outside; the result is empty |
| KeccakPaddingWitness.AssignmentWritesWritten | include/nil/blueprint/components/hashes/keccak/keccak_padding.hpp:492-530 | every write of `generate_assignments` lands in a cell of the component's configurations |
| KeccakPaddingWitness.FillersZeroed | include/nil/blueprint/components/hashes/keccak/keccak_padding.hpp:526-530 | afterwards every padding target reads zero |
| KeccakPaddingWitness.OutputWordsWritten | include/nil/blueprint/components/hashes/keccak/keccak_padding.hpp:499-520 | in the write log, output word k (the padded message) is the write into block k's output cell, and the last one the write into the final configuration's word cell; later writes may overwrite them |
| KeccakPaddingWitness.NineColumnListHolds | include/nil/blueprint/components/hashes/keccak/keccak_padding.hpp:245-281 | in the nine-column list `configure_all` builds, every block configuration is the slot-0 one and padding configuration m targets row `m % 7` of column `1 + m / 7` |
| KeccakPaddingWitness.FifteenColumnListHolds | include/nil/blueprint/components/hashes/keccak/keccak_padding.hpp:245-281 | in the fifteen-column list, configurations 2 to `num_blocks + 1` are the slot-0 one and padding configuration m targets row `m % 7` of column `2 + m / 7` |
| KeccakPaddingWitness.LastWordKept | include/nil/blueprint/components/hashes/keccak/keccak_padding.hpp:514-530 | the final table holds the last padded word in the final configuration's word cell whenever neither the range-check write after it nor any filler names that cell |
| KeccakPaddingWitness.LastBlockOutputKept | include/nil/blueprint/components/hashes/keccak/keccak_padding.hpp:494-530 | the final table holds the output word of the last block before the final one in its output cell whenever neither a final write nor a filler names that cell |
| KeccakPaddingWitness.NineColumnLastWordKept | include/nil/blueprint/components/hashes/keccak/keccak_padding.hpp:514-530 | with nine columns, the last padded word survives in row 1 of witness column 0 |
| KeccakPaddingWitness.NineColumnOutputZeroed | include/nil/blueprint/components/hashes/keccak/keccak_padding.hpp:494-530 | with nine columns and a block count of 1 to 5 modulo 17, every block's output cell is row 4 of witness column 2, and the final table holds zero there |
| KeccakPaddingWitness.NineColumnOutputKept | include/nil/blueprint/components/hashes/keccak/keccak_padding.hpp:494-530 | with nine columns and any other block count, every earlier block's output cell holds the word of the last block before the final one, so the earlier words are lost |
| KeccakPaddingWitness.FifteenColumnRelayZeroed | include/nil/blueprint/components/hashes/keccak/keccak_padding.hpp:514-530 | with fifteen columns and at least three blocks, the relay cell of the final configuration reads zero in the final table |
| KeccakPaddingWitness.FifteenColumnLastWordKept | include/nil/blueprint/components/hashes/keccak/keccak_padding.hpp:514-530 | with fifteen columns and at least three blocks, the last padded word survives in row 0 of witness column 1 |
| KeccakPaddingWitness.FifteenColumnBlockOutputs | include/nil/blueprint/components/hashes/keccak/keccak_padding.hpp:494-530 | with fifteen columns, the output cell of every block from 2 to the last before the final is row 12 of witness column 1, which holds only the last of their words |
| KeccakPaddingWitness.FillerCopy | include/nil/blueprint/components/hashes/keccak/keccak_padding.hpp:425 | the copy constraint of configuration k ties `C(0)` to that configuration's target cell |
| KeccakPaddingWitness.FillerCopies | include/nil/blueprint/components/hashes/keccak/keccak_padding.hpp:424-427 | one copy constraint per configuration in order, each from `C(0)` to that configuration's target |
| KeccakPaddingWitness.CircuitCopies | include/nil/blueprint/components/hashes/keccak/keccak_padding.hpp:419-427 | one copy constraint for every configuration from `num_blocks + 1` on (from 0 with a zero shift), and none when that start is past the end |
| KeccakPaddingWitness.GenerateAssignmentsConstant | include/nil/blueprint/components/hashes/keccak/keccak_padding.hpp:537-556 | writes zero into `C(0)` at the start row and nothing else |
| KeccakPaddingWitness.GenerateCopyConstraints | include/nil/blueprint/components/hashes/keccak/keccak_padding.hpp:400-428 | appends exactly those copy constraints, in order, and adds no gate |
| KeccakPaddingWitness.GenerateCircuit | include/nil/blueprint/components/hashes/keccak/keccak_padding.hpp:434-464 | the copy constraints, then the zero constant; the result is empty |
| KeccakPaddingWitness.FillerCopiesHold | include/nil/blueprint/components/hashes/keccak/keccak_padding.hpp:424-427 | on the table `generate_assignments` leaves, with the zero constant written, every copy constraint `generate_copy_constraints` adds holds |
| KeccakPaddingWitness.ConfigureAllShaped | include/nil/blueprint/components/hashes/keccak/keccak_padding.hpp:245-281 | the list `configure_all` builds for 9 or 15 columns addresses only existing witness columns, as the generators require |

## Left out

- `generate_gates` of the Keccak padding component (`keccak_padding.hpp:333-396`) is not modelled. It reads `gates_configuration`, which this file neither defines nor fills. Its second and third constraints use `constraints[1][1]`, `constraints[2][1]` and `constraints[2][2]`, which the batching configurations do not lay out consistently. `KeccakPaddingWitness.BlockSplitHolds` states only the value of its first constraint on the written blocks.
- Lookups and selectors of the Keccak padding component are not modelled. This covers `lookups`, `calculate_gates_rows`, `calculate_last_gate`, `gates()`, `find_selector` and `first_selector_index`. The initialiser macro at `keccak_padding.hpp:283-293` names them, but the file does not define them.
- The `BOOST_ASSERT` at `keccak_padding.hpp:458` is left out. It compares a row that is never advanced.
- The component constructors (`keccak_padding.hpp:295-320`, `division_or_zero.hpp:122-138`) are not modelled. The models take the component's columns and parameters as a value.
- The constant manifests and row counts (`division_or_zero.hpp:61-92`) are plain functions without contracts.
- `is_satisfied` (`r1cs.hpp:113-115`) and `get_constraint_system` are left out. The constraint system's own evaluation is not part of this model.
- `R1cs.Blueprint`: values are unbounded integers. The blueprint only stores values and never computes with them.
- `R1cs.Blueprint.Val` and `R1cs.Blueprint.LcVal`: `val` and `lc_val` return a reference. They are modelled as a reader function plus the writer methods `SetVal` and `SetLcVal`. The `assert`s at `r1cs.hpp:80`, `:85`, `:94` and `:104` become `requires` clauses.
- `R1cs.Blueprint.SetInputSizes`: the `assert` at `r1cs.hpp:130` becomes the `requires` clause `primaryInputSize <= NumVariables()`.
- `DivisionOrZero.GenerateAssignments`: the result row and the constraints are stated only when the input variables lie outside the five cells of the component's row. When they alias, the source re-reads cells it has just overwritten.
- `KeccakPaddingWitness.GenerateAssignments`: the words read are tied to the message values only when the message lies outside every cell the component writes. Likewise, a later block may overwrite a word it reads.
- `KeccakPaddingWitness.GenerateAssignments` requires the configuration list to be `Shaped`: every cell it addresses exists, and the shift is at most 64. `KeccakPaddingWitness.ConfigureAllShaped` proves that `configure_all`'s list meets this for 9 and 15 columns. A shift above 64 makes `64 - shift` wrap, and the source does not guard against it.
- `KeccakPadding.ConfigureAll` requires at least one block. With nine columns and no block, `result.back()` at `keccak_padding.hpp:270` reads an empty vector.
- `KeccakPadding.Walk` and `KeccakPadding.ChainRows` require the padding rows to stay below 2^64. They do not model `size_t` wrap-around of the row counter.
- `KeccakPadding.ConfigureBatching` follows the `continue` at `keccak_padding.hpp:214`. It does not model the slot rotation that the skipped `i = (i + 1) % 5` and the row advance at `:224-228` would perform.
- `KeccakPaddingWitness.PaddingRoundTrip` states the split's integer identity, not that the output words spell the message of `num_bits` bits as 64-bit words: as written they do not when shift < 32 (see Findings).
- `KeccakPaddingWitness.BlocksFit` bounds the words only for a first word below 2^shift, which is narrower than the documented `64 - shift` bits when shift < 32 (see Findings).
- `KeccakPaddingWitness.AssignBatching` and the rest of the witness model keep the split as written, with the corrected split stated beside it in `KeccakPaddingWidth`. The batching gate at `keccak_padding.hpp:368-393` checks the split as written, so replacing the split only in the witness would leave the witness and the gate disagreeing.
- `result_type` of the Keccak padding component leaves `padded_message` empty (`keccak_padding.hpp:157-163`), so the output is `Output([])`. `KeccakPaddingWitness.OutputWordsWritten` states where the padded words are written instead. As explained under "How the code is read", the final table does not keep them all.
- `KeccakPaddingWitness.NineColumnOutputKept`, `KeccakPaddingWitness.FifteenColumnBlockOutputs` and the two `LastWordKept` lemmas for the presets assume pairwise different witness columns (`DistinctColumns`), which the source never checks. The fifteen-column lemmas about the final configuration assume at least three blocks, so that the last block uses the slot-0 configuration. The first two blocks' cells in the fifteen-column table are not stated.
- `DivisionOrZero.GenerateAssignments` assumes that the five witness columns are pairwise different (`WellFormed`), which the source never checks. Without that assumption, two of the five cells could be one cell. The other generators need only five columns (`HasColumns`).
- The context files of the repository are not part of this model: the tests, `fri_array_swap.hpp` and the R1CS `sha256.hpp`.

## Findings

| source | as written | input that shows it | evidently intended | confidence | as-written member | corrected member |
|---|---|---|---|---|---|---|
| include/nil/blueprint/components/hashes/keccak/keccak_padding.hpp:497-499 | each word is split at bit `shift`, and the first word is shifted up by `64 - shift`, which fits 64 bits only for a first word below 2^shift; `get_shift` (`:165-167`) and the input's documentation (`:151-153`) give that word `64 - shift` bits | `num_blocks = 2`, `num_bits = 120`, so shift = 8; `message[0] = 2^56 - 1` (56 bits, as documented) gives a first output word of `(2^56 - 1) * 2^56`, far above 2^64 | split each word at bit `64 - shift` and shift the relay up by `shift`, so that the words spell the message followed by `shift` zero bits | medium, not executed | KeccakPaddingWidth.DocumentedFirstWordOverflows | KeccakPaddingWidth.CorrectedPadding |
