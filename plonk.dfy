/** Failure-compatible result values shared by the components. */
module Wrappers {
  datatype Result<+T, +E> = Ok(value: T) | Err(error: E)
}

/** The PLONK containers the components write into: a variable names one table
    position, the assignment table maps positions to field elements, and the
    circuit holds gates (a selector plus polynomial constraints) and copy
    constraints. Only the parts the components use are modelled. */
module Plonk {
  import opened PrimeField

  datatype ColumnType = Witness | PublicInput | Constant | Selector

  /** `var(index, rotation, relative, type)`: for an absolute variable the rotation
      is the row; for a relative one (inside a gate) it is an offset from the row
      the gate is evaluated at. */
  datatype Var = Var(index: nat, rotation: int, relative: bool, kind: ColumnType)

  /** An absolute position in the table. */
  datatype Cell = Cell(kind: ColumnType, column: nat, row: int)

  /** The position an absolute variable names (what `var_value` reads). */
  function AbsCell(v: Var): Cell
  {
    Cell(v.kind, v.index, v.rotation)
  }

  /** The position a gate variable names when the gate is evaluated at `row`. */
  function CellAt(v: Var, row: int): Cell
  {
    Cell(v.kind, v.index, if v.relative then row + v.rotation else v.rotation)
  }

  /** Polynomial constraint expressions over variables and constants. */
  datatype Expr =
    | Ref(v: Var)
    | Const(c: int)
    | Plus(l: Expr, r: Expr)
    | Minus(l: Expr, r: Expr)
    | Times(l: Expr, r: Expr)

  /** A cell that was never written reads as zero. */
  function ValueIn(cells: map<Cell, int>, c: Cell): int
  {
    if c in cells then cells[c] else 0
  }

  /** Evaluates a constraint in F_p at one row of the table. */
  function Eval(p: int, e: Expr, cells: map<Cell, int>, row: int): (r: int)
    requires p > 0
    ensures InField(p, r)
  {
    match e
    case Ref(v) => ValueIn(cells, CellAt(v, row)) % p
    case Const(c) => c % p
    case Plus(l, r) => Add(p, Eval(p, l, cells, row), Eval(p, r, cells, row))
    case Minus(l, r) => Sub(p, Eval(p, l, cells, row), Eval(p, r, cells, row))
    case Times(l, r) => Mul(p, Eval(p, l, cells, row), Eval(p, r, cells, row))
  }

  datatype Gate = Gate(selector: nat, constraints: seq<Expr>)

  /** A gate's constraints hold at a row when each evaluates to zero there. */
  ghost predicate ConstraintsHold(p: int, constraints: seq<Expr>, cells: map<Cell, int>, row: int)
    requires p > 0
  {
    forall k :: 0 <= k < |constraints| ==> Eval(p, constraints[k], cells, row) == 0
  }

  datatype CopyConstraint = Copy(a: Var, b: Var)

  /** A copy constraint holds when both of its variables read the same value. */
  predicate CopyHolds(cc: CopyConstraint, cells: map<Cell, int>)
  {
    ValueIn(cells, AbsCell(cc.a)) == ValueIn(cells, AbsCell(cc.b))
  }

  ghost predicate AllInField(p: int, cells: map<Cell, int>)
  {
    forall c :: c in cells ==> InField(p, cells[c])
  }

  /** Writing a cell inside a region leaves everything outside the region as it was. */
  lemma UpdateWithin(m: map<Cell, int>, k: Cell, v: int, region: set<Cell>)
    requires k in region
    ensures m[k := v] - region == m - region
  {
    assert (m[k := v] - region).Keys == (m - region).Keys;
  }

  /** The assignment table. */
  class Assignment {
    var cells: map<Cell, int>

    constructor ()
      ensures cells == map[]
    {
      cells := map[];
    }

    function Value(c: Cell): int
      reads this
    {
      ValueIn(cells, c)
    }

    /** Every stored value is a field element. */
    ghost predicate InFieldValues(p: int)
      reads this
    {
      AllInField(p, cells)
    }

    /** `assignment.witness(column, row) = v` and its constant / selector analogues. */
    method Write(c: Cell, v: int)
      modifies this
      ensures cells == old(cells)[c := v]
      ensures forall p :: old(AllInField(p, cells)) && InField(p, v) ==> AllInField(p, cells)
    {
      cells := cells[c := v];
    }

    /** `enable_selector(selector, row)`: sets the selector cell to one. */
    method EnableSelector(selector: nat, row: int)
      modifies this
      ensures cells == old(cells)[Cell(Selector, selector, row) := 1]
    {
      cells := cells[Cell(Selector, selector, row) := 1];
    }
  }

  /** The circuit: gates, each owning the selector column numbered by its position,
      and copy constraints. */
  class Circuit {
    var gates: seq<Gate>
    var copies: seq<CopyConstraint>

    constructor ()
      ensures gates == [] && copies == []
    {
      gates, copies := [], [];
    }

    method AddGate(constraints: seq<Expr>) returns (selector: nat)
      modifies this
      ensures selector == |old(gates)|
      ensures gates == old(gates) + [Gate(selector, constraints)]
      ensures copies == old(copies)
    {
      selector := |gates|;
      gates := gates + [Gate(selector, constraints)];
    }

    method AddCopyConstraint(cc: CopyConstraint)
      modifies this
      ensures copies == old(copies) + [cc]
      ensures gates == old(gates)
    {
      copies := copies + [cc];
    }
  }
}
