/** The "native field division or zero" PLONK component: z = x / y when y != 0 and
    z = 0 when y == 0, laid out on one table row of five witness cells
    W0 = x, W1 = y, W2 = z, W3 = inv, W4 = y * inv, with one gate of four degree-2
    constraints and two copy constraints wiring x and y to the caller's variables. */
module DivisionOrZero {
  import opened Wrappers
  import opened PrimeField
  import opened Plonk

  // ---------------------------------------------------------------------
  // Shape

  datatype Manifest = Manifest(witnessAmount: nat, needsLookup: bool)

  /** One gate, one row (also in the empty-assignment mode), five witness columns. */
  const GatesAmount: nat := 1

  function GetManifest(): Manifest
  {
    Manifest(5, false)
  }

  function GetRowsAmount(witnessAmount: nat): nat
  {
    1
  }

  function GetEmptyRowsAmount(): nat
  {
    1
  }

  // ---------------------------------------------------------------------
  // Component, inputs and result

  /** The component is bound to the witness columns W(0), W(1), ... it was built over. */
  datatype Component = Component(witnesses: seq<nat>)

  /** The component has as many witness columns as its manifest asks for. */
  predicate HasColumns(c: Component)
  {
    |c.witnesses| >= GetManifest().witnessAmount
  }

  /** Besides, the five columns are pairwise different, so the row's five cells are
      five cells; the source never checks this, and only the row `generate_assignments`
      leaves behind depends on it. */
  predicate WellFormed(c: Component)
  {
    HasColumns(c) &&
    forall i, j :: 0 <= i < j < GetManifest().witnessAmount ==> c.witnesses[i] != c.witnesses[j]
  }

  function W(c: Component, i: nat): nat
    requires i < |c.witnesses|
  {
    c.witnesses[i]
  }

  /** Witness cell W(i) at an absolute row, and the absolute variable naming it. */
  function WCell(c: Component, i: nat, row: int): Cell
    requires i < |c.witnesses|
  {
    Cell(Witness, W(c, i), row)
  }

  function WVar(c: Component, i: nat, row: int): Var
    requires i < |c.witnesses|
  {
    Var(W(c, i), row, false, Witness)
  }

  datatype Input = Input(x: Var, y: Var)

  datatype Error = OutOfRange(message: string)

  /** `input_type(input_vect)`: exactly two variables, x then y. */
  function MakeInput(vars: seq<Var>): (r: Result<Input, Error>)
    ensures r.Ok? <==> |vars| == 2
    ensures r.Ok? ==> AllVars(r.value) == vars
    ensures r.Err? ==> r.error == OutOfRange("Vector size does not match input size")
  {
    if |vars| != 2 then Err(OutOfRange("Vector size does not match input size"))
    else Ok(Input(vars[0], vars[1]))
  }

  function AllVars(input: Input): seq<Var>
  {
    [input.x, input.y]
  }

  datatype Output = Output(output: Var)

  /** `result_type(component, start_row_index)`: the result is W(2) at the start row. */
  function ResultOf(c: Component, start: nat): Output
    requires HasColumns(c)
  {
    Output(WVar(c, 2, start))
  }

  // ---------------------------------------------------------------------
  // Arithmetic

  /** `calculate(x, y)`: the quotient, or zero for a zero divisor. */
  function Calculate(p: int, x: int, y: int): (z: int)
    requires IsPrime(p) && InField(p, x) && InField(p, y)
    ensures InField(p, z)
    ensures y == 0 ==> z == 0
    ensures y != 0 ==> Mul(p, z, y) == x
  {
    if y == 0 then 0
    else
      var z := Div(p, x, y);
      DivTimesDivisor(p, x, y);
      z
  }

  /** Field division x / y = x * y^-1. */
  function Div(p: int, x: int, y: int): int
    requires IsPrime(p) && 0 < y < p
  {
    Mul(p, x, Inverse(p, y))
  }

  lemma DivTimesDivisor(p: int, x: int, y: int)
    requires IsPrime(p) && InField(p, x) && 0 < y < p
    ensures Mul(p, Div(p, x, y), y) == x
  {
    var i := Inverse(p, y);
    MulAssociative(p, x, i, y);
    assert Mul(p, i, y) == 1 by { assert i * y == y * i; }
    MulOne(p, x);
  }

  // ---------------------------------------------------------------------
  // The row and the gate

  /** The five cells of the component's row: W0..W4. */
  datatype Row = Row(x: int, y: int, z: int, inv: int, nonZero: int)

  /** What `generate_assignments` writes for inputs x and y. */
  function AssignedRow(p: int, x: int, y: int): (r: Row)
    requires IsPrime(p) && InField(p, x) && InField(p, y)
    ensures r.x == x && r.y == y
    ensures r.z == Calculate(p, x, y)
    ensures r.nonZero == (if y == 0 then 0 else 1)
    ensures y == 0 ==> r.inv == 0
    ensures y != 0 ==> Mul(p, y, r.inv) == 1 && r.inv == Inverse(p, y)
    ensures r.nonZero == Mul(p, y, r.inv)
  {
    var z := if y != 0 then Div(p, x, y) else 0;
    var inv := if y == 0 then 0 else Inverse(p, y);
    Row(x, y, z, inv, Mul(p, y, inv))
  }

  /** The gate's four constraints, on relative variables at rotation 0. */
  function GateConstraints(c: Component): seq<Expr>
    requires HasColumns(c)
  {
    [ Minus(Times(Cur(c, 1), Cur(c, 3)), Cur(c, 4)),
      Times(Cur(c, 4), Minus(Cur(c, 4), Const(1))),
      Times(Minus(Cur(c, 3), Cur(c, 1)), Minus(Cur(c, 4), Const(1))),
      Minus(Times(Cur(c, 0), Cur(c, 3)), Cur(c, 2)) ]
  }

  /** `var(W(i), 0)`: column W(i) at the row the gate is evaluated at. */
  function Cur(c: Component, i: nat): Expr
    requires i < |c.witnesses|
  {
    Ref(Var(W(c, i), 0, true, Witness))
  }

  /** The values of the four constraints on a row, in F_p. */
  function RowConstraintValues(p: int, r: Row): seq<int>
    requires p >= 2
  {
    [ Sub(p, Mul(p, r.y, r.inv), r.nonZero),
      Mul(p, r.nonZero, Sub(p, r.nonZero, 1)),
      Mul(p, Sub(p, r.inv, r.y), Sub(p, r.nonZero, 1)),
      Sub(p, Mul(p, r.x, r.inv), r.z) ]
  }

  predicate Satisfies(p: int, r: Row)
    requires p >= 2
  {
    forall k :: 0 <= k < 4 ==> RowConstraintValues(p, r)[k] == 0
  }

  predicate RowInField(p: int, r: Row)
  {
    InField(p, r.x) && InField(p, r.y) && InField(p, r.z) && InField(p, r.inv) && InField(p, r.nonZero)
  }

  /** The row of W0..W4 at a table row, read as field elements. */
  function RowAt(p: int, c: Component, cells: map<Cell, int>, row: int): (r: Row)
    requires p >= 2 && HasColumns(c)
    ensures RowInField(p, r)
  {
    Row(ValueIn(cells, WCell(c, 0, row)) % p, ValueIn(cells, WCell(c, 1, row)) % p,
        ValueIn(cells, WCell(c, 2, row)) % p, ValueIn(cells, WCell(c, 3, row)) % p,
        ValueIn(cells, WCell(c, 4, row)) % p)
  }

  /** Evaluating the gate at a table row is evaluating the four polynomials on that row's cells. */
  lemma GateEvaluatesRow(p: int, c: Component, cells: map<Cell, int>, row: int)
    requires p >= 2 && HasColumns(c)
    ensures |GateConstraints(c)| == 4
    ensures forall k :: 0 <= k < 4 ==>
              Eval(p, GateConstraints(c)[k], cells, row) == RowConstraintValues(p, RowAt(p, c, cells, row))[k]
    ensures ConstraintsHold(p, GateConstraints(c), cells, row) <==> Satisfies(p, RowAt(p, c, cells, row))
  {
    var r := RowAt(p, c, cells, row);
    var cs := GateConstraints(c);
    forall i | 0 <= i < 5
      ensures Eval(p, Cur(c, i), cells, row) == ValueIn(cells, WCell(c, i, row)) % p
    {
      assert CellAt(Var(W(c, i), 0, true, Witness), row) == WCell(c, i, row);
    }
    assert Eval(p, Const(1), cells, row) == 1 by { Arith.ModSmall(1, p); }
    assert Eval(p, cs[0], cells, row) == RowConstraintValues(p, r)[0];
    assert Eval(p, cs[1], cells, row) == RowConstraintValues(p, r)[1];
    assert Eval(p, cs[2], cells, row) == RowConstraintValues(p, r)[2];
    assert Eval(p, cs[3], cells, row) == RowConstraintValues(p, r)[3];
  }

  /** Completeness: the row `generate_assignments` writes satisfies all four constraints. */
  lemma Completeness(p: int, x: int, y: int)
    requires IsPrime(p) && InField(p, x) && InField(p, y)
    ensures Satisfies(p, AssignedRow(p, x, y))
  {
    var r := AssignedRow(p, x, y);
    Arith.ModSmall(1, p);
    if y == 0 {
      assert r.inv == 0 && r.nonZero == 0 && r.z == 0;
    } else {
      assert r.nonZero == 1;
      assert Sub(p, r.nonZero, 1) == 0;
      assert Mul(p, r.y, r.inv) == 1;
      assert Mul(p, r.x, r.inv) == r.z;
    }
  }

  /** Soundness: any row of field elements satisfying the four constraints carries
      z = calculate(x, y), W4 is boolean and W4 = 1 exactly when y != 0. */
  lemma Soundness(p: int, r: Row)
    requires IsPrime(p) && RowInField(p, r) && Satisfies(p, r)
    ensures r.z == Calculate(p, r.x, r.y)
    ensures r.nonZero == 0 || r.nonZero == 1
    ensures r.nonZero == 1 <==> r.y != 0
    ensures r.y != 0 ==> r.inv == Inverse(p, r.y)
  {
    var cv := RowConstraintValues(p, r);
    assert cv[0] == 0 && cv[1] == 0 && cv[2] == 0 && cv[3] == 0;
    Arith.ModSmall(1, p);
    // W4 * (W4 - 1) = 0 makes W4 boolean.
    NoZeroDivisors(p, r.nonZero, Sub(p, r.nonZero, 1));
    SubZero(p, r.nonZero, 1);
    // x * inv - z = 0 pins z.
    SubZero(p, Mul(p, r.x, r.inv), r.z);
    if r.y == 0 {
      MulZero(p, r.inv);
      SubZero(p, 0, r.nonZero);
      assert r.nonZero == 0;
      assert Sub(p, 0, 1) != 0 by { Arith.ModSmall(p - 1, p); }
      NoZeroDivisors(p, Sub(p, r.inv, r.y), Sub(p, r.nonZero, 1));
      SubZero(p, r.inv, r.y);
      MulZero(p, r.x);
    } else {
      if r.nonZero == 0 {
        assert Sub(p, 0, 1) != 0 by { Arith.ModSmall(p - 1, p); }
        NoZeroDivisors(p, Sub(p, r.inv, r.y), Sub(p, r.nonZero, 1));
        SubZero(p, r.inv, r.y);
        SubZero(p, Mul(p, r.y, r.y), 0);
        NoZeroDivisors(p, r.y, r.y);
        assert false;
      }
      SubZero(p, Mul(p, r.y, r.inv), 1);
      InverseUnique(p, r.y, r.inv);
    }
  }

  /** A corrupted output cell (anything but calculate(x, y)) makes some constraint nonzero. */
  lemma CorruptedOutputRejected(p: int, x: int, y: int, z: int, inv: int, nonZero: int)
    requires IsPrime(p) && RowInField(p, Row(x, y, z, inv, nonZero))
    requires z != Calculate(p, x, y)
    ensures exists k :: 0 <= k < 4 && RowConstraintValues(p, Row(x, y, z, inv, nonZero))[k] != 0
  {
    if Satisfies(p, Row(x, y, z, inv, nonZero)) {
      Soundness(p, Row(x, y, z, inv, nonZero));
    }
  }

  // ---------------------------------------------------------------------
  // Table and circuit generation

  /** The five cells the component's row occupies. */
  function RowCells(c: Component, row: int): set<Cell>
    requires HasColumns(c)
  {
    {WCell(c, 0, row), WCell(c, 1, row), WCell(c, 2, row), WCell(c, 3, row), WCell(c, 4, row)}
  }

  /** The caller's input variables are not among the cells the component writes. */
  predicate InputsOutside(c: Component, input: Input, row: int)
    requires HasColumns(c)
  {
    AbsCell(input.x) !in RowCells(c, row) && AbsCell(input.y) !in RowCells(c, row)
  }

  /** The copy constraints `generate_copy_constraints` adds. */
  function CopyConstraints(c: Component, input: Input, start: nat): seq<CopyConstraint>
    requires HasColumns(c)
  {
    [Copy(input.x, WVar(c, 0, start)), Copy(WVar(c, 1, start), input.y)]
  }

  /** `generate_assignments`: fills W0..W4 of the start row, reading the inputs from the table. */
  method GenerateAssignments(p: int, c: Component, a: Assignment, input: Input, start: nat)
    returns (out: Output)
    requires IsPrime(p) && WellFormed(c) && a.InFieldValues(p)
    modifies a
    ensures out == ResultOf(c, start)
    ensures a.InFieldValues(p)
    ensures RowCells(c, start) <= a.cells.Keys
    ensures a.cells - RowCells(c, start) == old(a.cells) - RowCells(c, start)
    ensures InputsOutside(c, input, start) ==>
              RowAt(p, c, a.cells, start)
                == AssignedRow(p, old(a.Value(AbsCell(input.x))), old(a.Value(AbsCell(input.y))))
    ensures InputsOutside(c, input, start) ==> ConstraintsHold(p, GateConstraints(c), a.cells, start)
    ensures InputsOutside(c, input, start) ==>
              forall cc :: cc in CopyConstraints(c, input, start) ==> CopyHolds(cc, a.cells)
  {
    ghost var x0, y0 := a.Value(AbsCell(input.x)), a.Value(AbsCell(input.y));
    ghost var outside := InputsOutside(c, input, start);
    ghost var region, m0 := RowCells(c, start), a.cells;
    var j := start;
    var v := ReadField(p, a, input.x);
    UpdateWithin(a.cells, WCell(c, 0, j), v, region);
    a.Write(WCell(c, 0, j), v);
    v := ReadField(p, a, input.y);
    UpdateWithin(a.cells, WCell(c, 1, j), v, region);
    a.Write(WCell(c, 1, j), v);
    assert outside ==> a.Value(AbsCell(input.x)) == x0 && a.Value(AbsCell(input.y)) == y0;
    var y := ReadField(p, a, input.y);
    if y != 0 {
      var x := ReadField(p, a, input.x);
      y := ReadField(p, a, input.y);
      UpdateWithin(a.cells, WCell(c, 2, j), Div(p, x, y), region);
      a.Write(WCell(c, 2, j), Div(p, x, y));
    } else {
      UpdateWithin(a.cells, WCell(c, 2, j), 0, region);
      a.Write(WCell(c, 2, j), 0);
    }
    assert outside ==> a.Value(AbsCell(input.x)) == x0 && a.Value(AbsCell(input.y)) == y0;
    y := ReadField(p, a, input.y);
    UpdateWithin(a.cells, WCell(c, 3, j), if y == 0 then 0 else Inverse(p, y), region);
    a.Write(WCell(c, 3, j), if y == 0 then 0 else Inverse(p, y));
    assert outside ==> a.Value(AbsCell(input.x)) == x0 && a.Value(AbsCell(input.y)) == y0;
    y := ReadField(p, a, input.y);
    var inv := ReadField(p, a, WVar(c, 3, j));
    UpdateWithin(a.cells, WCell(c, 4, j), Mul(p, y, inv), region);
    a.Write(WCell(c, 4, j), Mul(p, y, inv));
    out := Output(WVar(c, 2, start));
    if outside {
      OutsideRowFacts(p, c, a, input, start, x0, y0);
    }
  }

  lemma OutsideRowFacts(p: int, c: Component, a: Assignment, input: Input, start: nat, x0: int, y0: int)
    requires IsPrime(p) && WellFormed(c) && InputsOutside(c, input, start)
    requires InField(p, x0) && InField(p, y0)
    requires a.Value(AbsCell(input.x)) == x0 && a.Value(AbsCell(input.y)) == y0
    requires a.Value(WCell(c, 0, start)) == x0 && a.Value(WCell(c, 1, start)) == y0
    requires a.Value(WCell(c, 2, start)) == (if y0 != 0 then Div(p, x0, y0) else 0)
    requires a.Value(WCell(c, 3, start)) == (if y0 == 0 then 0 else Inverse(p, y0))
    requires a.Value(WCell(c, 4, start)) == Mul(p, y0, a.Value(WCell(c, 3, start)))
    ensures RowAt(p, c, a.cells, start) == AssignedRow(p, x0, y0)
    ensures ConstraintsHold(p, GateConstraints(c), a.cells, start)
    ensures forall cc :: cc in CopyConstraints(c, input, start) ==> CopyHolds(cc, a.cells)
  {
    RowValuesReduced(p, c, a.cells, start);
    Completeness(p, x0, y0);
    GateEvaluatesRow(p, c, a.cells, start);
  }

  /** `var_value(assignment, v)`: a table value, which is a field element. */
  method ReadField(p: int, a: Assignment, v: Var) returns (r: int)
    requires p > 0 && a.InFieldValues(p)
    ensures r == a.Value(AbsCell(v)) && InField(p, r)
  {
    r := a.Value(AbsCell(v));
  }

  lemma RowValuesReduced(p: int, c: Component, cells: map<Cell, int>, row: int)
    requires p >= 2 && HasColumns(c)
    requires forall i :: 0 <= i < 5 ==> InField(p, ValueIn(cells, WCell(c, i, row)))
    ensures RowAt(p, c, cells, row)
              == Row(ValueIn(cells, WCell(c, 0, row)), ValueIn(cells, WCell(c, 1, row)),
                     ValueIn(cells, WCell(c, 2, row)), ValueIn(cells, WCell(c, 3, row)),
                     ValueIn(cells, WCell(c, 4, row)))
  {
    forall i | 0 <= i < 5 {
      Arith.ModSmall(ValueIn(cells, WCell(c, i, row)), p);
    }
  }

  /** `generate_empty_assignments`: writes only the output cell W2, with `calculate`. */
  method GenerateEmptyAssignments(p: int, c: Component, a: Assignment, input: Input, start: nat)
    returns (out: Output)
    requires IsPrime(p) && HasColumns(c) && a.InFieldValues(p)
    modifies a
    ensures out == ResultOf(c, start)
    ensures a.cells == old(a.cells)[WCell(c, 2, start) :=
              Calculate(p, old(a.Value(AbsCell(input.x))), old(a.Value(AbsCell(input.y))))]
    ensures a.InFieldValues(p)
  {
    var x := ReadField(p, a, input.x);
    var y := ReadField(p, a, input.y);
    a.Write(WCell(c, 2, start), Calculate(p, x, y));
    out := Output(WVar(c, 2, start));
  }

  /** `generate_gates`: adds the one gate and returns its selector. */
  method GenerateGates(c: Component, bp: Circuit) returns (selector: nat)
    requires HasColumns(c)
    modifies bp
    ensures selector == |old(bp.gates)|
    ensures bp.gates == old(bp.gates) + [Gate(selector, GateConstraints(c))]
    ensures bp.copies == old(bp.copies)
  {
    selector := bp.AddGate(GateConstraints(c));
  }

  /** `generate_copy_constraints`: x to W0 and W1 to y, at the start row. */
  method GenerateCopyConstraints(c: Component, bp: Circuit, input: Input, start: nat)
    requires HasColumns(c)
    modifies bp
    ensures bp.copies == old(bp.copies) + CopyConstraints(c, input, start)
    ensures bp.gates == old(bp.gates)
  {
    var j := start;
    var componentX := WVar(c, 0, j);
    var componentY := WVar(c, 1, j);
    bp.AddCopyConstraint(Copy(input.x, componentX));
    bp.AddCopyConstraint(Copy(componentY, input.y));
  }

  /** `generate_circuit`: the gate, its selector enabled at the start row only, and the copy constraints. */
  method GenerateCircuit(c: Component, bp: Circuit, a: Assignment, input: Input, start: nat)
    returns (out: Output)
    requires HasColumns(c)
    modifies bp, a
    ensures out == ResultOf(c, start)
    ensures bp.gates == old(bp.gates) + [Gate(|old(bp.gates)|, GateConstraints(c))]
    ensures bp.copies == old(bp.copies) + CopyConstraints(c, input, start)
    ensures a.cells == old(a.cells)[Cell(Selector, |old(bp.gates)|, start) := 1]
  {
    var selector := GenerateGates(c, bp);
    a.EnableSelector(selector, start);
    GenerateCopyConstraints(c, bp, input, start);
    out := ResultOf(c, start);
  }
}
