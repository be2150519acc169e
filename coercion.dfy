/**
 * The type-coercion choices of semdum.c's op2, opb and rel: which operand gets a conversion
 * (a `cv` quad), to which mode, and whether the operator is the 'f' or the 'i' variant.
 */
module Coercion {
  import opened Wrappers
  import opened Quads

  /** What an operator does to its operands before it is emitted. */
  datatype Plan = Plan(castX: bool, castY: bool, target: Mode, isFloat: bool)

  /** The mode of the left operand once the plan's conversion (if any) has been applied. */
  function XAfter(p: Plan, xm: Mode): Mode {
    if p.castX then p.target else xm
  }

  function YAfter(p: Plan, ym: Mode): Mode {
    if p.castY then p.target else ym
  }

  /** A plain int or double rvalue: the only modes the grammar hands to rel. */
  predicate IsArith(m: Mode) {
    m == INT || m == DOUBLE
  }

  /**
   * op2: an operand that is not exactly T_DOUBLE is converted to double when the other one is;
   * the operator is the float variant exactly when some operand is a double.
   */
  function Op2Rule(xm: Mode, ym: Mode): (p: Plan)
    ensures p.isFloat <==> (xm == DOUBLE || ym == DOUBLE)
    ensures p.castX <==> (xm != DOUBLE && ym == DOUBLE)
    ensures p.castY <==> (xm == DOUBLE && ym != DOUBLE)
    ensures p.isFloat ==> XAfter(p, xm) == DOUBLE && YAfter(p, ym) == DOUBLE
    ensures !p.isFloat ==> XAfter(p, xm) == xm && YAfter(p, ym) == ym
  {
    if xm != DOUBLE && ym == DOUBLE then Plan(true, false, DOUBLE, true)
    else if xm == DOUBLE && ym != DOUBLE then Plan(false, true, DOUBLE, true)
    else Plan(false, false, DOUBLE, xm == DOUBLE)
  }

  /**
   * opb: every operand that is exactly T_DOUBLE is converted to int, and the operator is
   * always the integer variant.
   */
  function OpbRule(xm: Mode, ym: Mode): (p: Plan)
    ensures !p.isFloat
    ensures p.castX <==> xm == DOUBLE
    ensures p.castY <==> ym == DOUBLE
    ensures XAfter(p, xm) != DOUBLE && YAfter(p, ym) != DOUBLE
  {
    Plan(xm == DOUBLE, ym == DOUBLE, INT, false)
  }

  /**
   * rel: the left operand is converted when it is exactly T_INT and the right one is not,
   * the right one when the left is exactly T_DOUBLE and the right one is not. On plain int and
   * double operands both sides end with the same mode and the comparison is the float one
   * exactly when some side is a double.
   */
  function RelRule(xm: Mode, ym: Mode): (p: Plan)
    ensures p.castX <==> (xm == INT && ym != INT)
    ensures p.castY <==> (xm == DOUBLE && ym != DOUBLE)
    ensures p.isFloat <==> (xm == DOUBLE || (xm == INT && ym != INT))
    ensures p.castX || p.castY ==> p.target == DOUBLE
    ensures IsArith(xm) && IsArith(ym) ==>
      (p.isFloat <==> (xm == DOUBLE || ym == DOUBLE)) && XAfter(p, xm) == YAfter(p, ym)
  {
    if xm == INT && ym != INT then Plan(true, false, DOUBLE, true)
    else if xm == DOUBLE && ym != DOUBLE then Plan(false, true, DOUBLE, true)
    else Plan(false, false, DOUBLE, xm == DOUBLE)
  }

  /** selectOp's two outcomes: OP2 routes an assignment operator to op2, OPB to opb. */
  datatype OpClass = OP2 | OPB

  /**
   * selectOp sends exactly the operators op2 implements to op2; everything else goes to opb,
   * which either implements it or reports it as not implemented.
   */
  function SelectOp(op: string): (c: OpClass)
    ensures c == OP2 <==> Op2Kind(op).Some?
    ensures OpbKind(op).Some? ==> c == OPB
  {
    var ch := FirstChar(op);
    if ch == '+' || ch == '-' || ch == '*' || ch == '/' || ch == '%' then OP2 else OPB
  }
}
