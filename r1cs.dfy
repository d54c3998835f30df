/** The R1CS blueprint: a bump allocator for variable indices (index 0 is the
    constant 1), the values of the allocated variables, a store of values for
    linear combinations, and the constraint system the gadgets append to. */
module R1cs {

  /** `variable.index`: 0 names the constant term, i > 0 the i-th allocated variable. */
  datatype Variable = Variable(index: nat)

  /** A linear combination either stands for one variable or owns a slot of `lc_values`. */
  datatype LinearCombination = LinearCombination(isVariable: bool, index: nat)

  datatype Term = Term(index: nat, coeff: int)

  /** `a * b = c` over linear combinations of variables. */
  datatype R1csConstraint = R1csConstraint(a: seq<Term>, b: seq<Term>, c: seq<Term>)

  /** The parts of `r1cs_constraint_system` the blueprint touches. */
  datatype ConstraintSystem = ConstraintSystem(
    primaryInputSize: nat,
    auxiliaryInputSize: nat,
    constraints: seq<R1csConstraint>)
  {
    function NumInputs(): nat
    {
      primaryInputSize
    }
  }

  class Blueprint {
    /** values[0] holds the first allocated variable (index 1), not the constant. */
    var values: seq<int>
    var constantTerm: int
    var nextFreeVar: nat
    var nextFreeLc: nat
    var lcValues: seq<int>
    var constraintSystem: ConstraintSystem

    /** The counters agree with the vectors, and the primary/auxiliary split covers
        every allocated variable. */
    ghost predicate Valid()
      reads this
    {
      && nextFreeVar >= 1
      && |values| == nextFreeVar - 1
      && |lcValues| == nextFreeLc
      && constraintSystem.primaryInputSize + constraintSystem.auxiliaryInputSize == nextFreeVar - 1
    }

    constructor ()
      ensures Valid()
      ensures constantTerm == 1 && nextFreeVar == 1 && nextFreeLc == 0
      ensures values == [] && lcValues == []
      ensures constraintSystem == ConstraintSystem(0, 0, [])
      ensures NumConstraints() == 0 && NumVariables() == 0
    {
      values, lcValues := [], [];
      constraintSystem := ConstraintSystem(0, 0, []);
      constantTerm := 1;
      nextFreeVar := 1;
      nextFreeLc := 0;
    }

    /** `num_variables()`: the variables allocated so far, which is the length of `values`. */
    function NumVariables(): (n: nat)
      requires Valid()
      reads this
      ensures n == |values|
      ensures n == constraintSystem.primaryInputSize + constraintSystem.auxiliaryInputSize
    {
      nextFreeVar - 1
    }

    function NumInputs(): nat
      reads this
    {
      constraintSystem.NumInputs()
    }

    /** `num_constraints()`: the constraints added so far. */
    function NumConstraints(): nat
      reads this
    {
      |constraintSystem.constraints|
    }

    /** `val(var)`: variable i is entry i of the vector 1 :: values. */
    function Val(v: Variable): (r: int)
      requires v.index <= |values|
      reads this
      ensures r == ([constantTerm] + values)[v.index]
    {
      if v.index == 0 then constantTerm else values[v.index - 1]
    }

    predicate LcInRange(lc: LinearCombination)
      reads this
    {
      if lc.isVariable then lc.index <= |values| else lc.index < |lcValues|
    }

    /** `lc_val(lc)`: the variable's value, or the combination's own slot. */
    function LcVal(lc: LinearCombination): (r: int)
      requires LcInRange(lc)
      reads this
      ensures lc.isVariable ==> r == ([constantTerm] + values)[lc.index]
      ensures !lc.isVariable ==> r == lcValues[lc.index]
    {
      if lc.isVariable then Val(Variable(lc.index)) else lcValues[lc.index]
    }

    function FullVariableAssignment(): seq<int>
      reads this
    {
      values
    }

    /** `primary_input()`: the first `num_inputs()` values. */
    function PrimaryInput(): (r: seq<int>)
      requires Valid()
      reads this
      ensures |r| == NumInputs() && r <= FullVariableAssignment()
    {
      values[..NumInputs()]
    }

    /** `auxiliary_input()`: the rest; together with the primary input it is the full assignment. */
    function AuxiliaryInput(): (r: seq<int>)
      requires Valid()
      reads this
      ensures PrimaryInput() + r == FullVariableAssignment()
      ensures |r| == constraintSystem.auxiliaryInputSize
    {
      values[NumInputs()..]
    }

    /** `clear_values()`: every value becomes zero; nothing else changes. */
    method ClearValues()
      requires Valid()
      modifies this
      ensures Valid()
      ensures |values| == |old(values)|
      ensures forall i :: 0 <= i < |values| ==> values[i] == 0
      ensures constantTerm == old(constantTerm) && lcValues == old(lcValues)
      ensures nextFreeVar == old(nextFreeVar) && nextFreeLc == old(nextFreeLc)
      ensures constraintSystem == old(constraintSystem)
    {
      values := seq(|values|, _ => 0);
    }

    /** Assigning through the reference `val(var)` returns: index 0 writes the constant term. */
    method SetVal(v: Variable, x: int)
      requires Valid() && v.index <= |values|
      modifies this
      ensures Valid()
      ensures |values| == |old(values)| && lcValues == old(lcValues)
      ensures Val(v) == x
      ensures forall u: Variable :: u.index <= |values| && u.index != v.index ==> Val(u) == old(Val(u))
      ensures nextFreeVar == old(nextFreeVar) && nextFreeLc == old(nextFreeLc)
      ensures constraintSystem == old(constraintSystem)
    {
      if v.index == 0 {
        constantTerm := x;
      } else {
        values := values[v.index - 1 := x];
      }
    }

    /** Assigning through the reference `lc_val(lc)` returns. */
    method SetLcVal(lc: LinearCombination, x: int)
      requires Valid() && LcInRange(lc)
      modifies this
      ensures Valid()
      ensures LcInRange(lc) && LcVal(lc) == x
      ensures |values| == |old(values)|
      ensures !lc.isVariable ==> values == old(values) && constantTerm == old(constantTerm)
      ensures !lc.isVariable ==> lcValues == old(lcValues)[lc.index := x]
      ensures lc.isVariable ==> lcValues == old(lcValues)
      ensures lc.isVariable ==>
        forall u: Variable :: u.index <= |values| && u.index != lc.index ==> Val(u) == old(Val(u))
      ensures nextFreeVar == old(nextFreeVar) && nextFreeLc == old(nextFreeLc)
      ensures constraintSystem == old(constraintSystem)
    {
      if lc.isVariable {
        SetVal(Variable(lc.index), x);
      } else {
        lcValues := lcValues[lc.index := x];
      }
    }

    /** `add_r1cs_constraint`: appends one constraint, leaving the earlier ones in place. */
    method AddR1csConstraint(constr: R1csConstraint)
      requires Valid()
      modifies this
      ensures Valid()
      ensures constraintSystem.constraints == old(constraintSystem.constraints) + [constr]
      ensures NumConstraints() == old(NumConstraints()) + 1
      ensures constraintSystem.primaryInputSize == old(constraintSystem.primaryInputSize)
      ensures constraintSystem.auxiliaryInputSize == old(constraintSystem.auxiliaryInputSize)
      ensures values == old(values) && lcValues == old(lcValues) && constantTerm == old(constantTerm)
      ensures nextFreeVar == old(nextFreeVar) && nextFreeLc == old(nextFreeLc)
    {
      constraintSystem := constraintSystem.(constraints := constraintSystem.constraints + [constr]);
    }

    /** `set_input_sizes(n)`: the first n variables are primary, the rest auxiliary. */
    method SetInputSizes(primaryInputSize: nat)
      requires Valid() && primaryInputSize <= NumVariables()
      modifies this
      ensures Valid()
      ensures NumInputs() == primaryInputSize
      ensures constraintSystem.auxiliaryInputSize == NumVariables() - primaryInputSize
      ensures constraintSystem.constraints == old(constraintSystem.constraints)
      ensures values == old(values) && lcValues == old(lcValues) && constantTerm == old(constantTerm)
      ensures nextFreeVar == old(nextFreeVar) && nextFreeLc == old(nextFreeLc)
    {
      constraintSystem := constraintSystem.(primaryInputSize := primaryInputSize,
                                            auxiliaryInputSize := NumVariables() - primaryInputSize);
    }

    /** `allocate_var_index()`: the next index, backed by a fresh zero value, counted as auxiliary. */
    method AllocateVarIndex() returns (index: nat)
      requires Valid()
      modifies this
      ensures Valid()
      ensures index == old(nextFreeVar) && nextFreeVar == index + 1
      ensures index == NumVariables() && Val(Variable(index)) == 0
      ensures values == old(values) + [0]
      ensures constraintSystem.auxiliaryInputSize == old(constraintSystem.auxiliaryInputSize) + 1
      ensures constraintSystem.primaryInputSize == old(constraintSystem.primaryInputSize)
      ensures constraintSystem.constraints == old(constraintSystem.constraints)
      ensures lcValues == old(lcValues) && nextFreeLc == old(nextFreeLc) && constantTerm == old(constantTerm)
    {
      constraintSystem := constraintSystem.(auxiliaryInputSize := constraintSystem.auxiliaryInputSize + 1);
      values := values + [0];
      index := nextFreeVar;
      nextFreeVar := nextFreeVar + 1;
    }

    /** `allocate_lc_index()`: 0, 1, 2, ... in order, each backed by a fresh zero slot. */
    method AllocateLcIndex() returns (index: nat)
      requires Valid()
      modifies this
      ensures Valid()
      ensures index == old(nextFreeLc) && nextFreeLc == index + 1
      ensures lcValues == old(lcValues) + [0] && lcValues[index] == 0
      ensures values == old(values) && constantTerm == old(constantTerm)
      ensures nextFreeVar == old(nextFreeVar) && constraintSystem == old(constraintSystem)
    {
      lcValues := lcValues + [0];
      index := nextFreeLc;
      nextFreeLc := nextFreeLc + 1;
    }
  }
}
