/**
 * The decisions of bitcodegen.cpp that depend only on type tags and operator lexemes: the
 * storage type of a global or a local, the instruction a binary or unary operator lowers to,
 * and the conversion inserted before a return.
 */
module LowerRules {
  import opened Wrappers

  /** The IR types the lowering builds: i8, i32, double and fixed-size arrays of them. */
  datatype LType = I8 | I32 | F64 | ArrayTy(elem: LType, len: nat)
  {
    /** LLVM's isIntegerTy. */
    predicate IsInteger() {
      this == I8 || this == I32
    }
  }

  /** What the symbol table says of a declared variable: T_INT or not, T_ARRAY or not, i_numelem. */
  datatype Decl = Decl(isInt: bool, isArray: bool, numElem: nat)

  /** The scalar a declaration's base type lowers to: i32 for T_INT, double otherwise. */
  function ScalarOf(isInt: bool): (t: LType)
    ensures t.IsInteger() <==> isInt
    ensures t == I32 || t == F64
  {
    if isInt then I32 else F64
  }

  /** The scalar cells a type is made of and how many of them it holds. */
  function BaseOf(t: LType): LType {
    if t.ArrayTy? then BaseOf(t.elem) else t
  }

  function Cells(t: LType): nat {
    if t.ArrayTy? then t.len * Cells(t.elem) else 1
  }

  /** createGlobal: an array of numElem ints or doubles for a T_ARRAY, a single one otherwise. */
  function GlobalLType(d: Decl): (t: LType)
    ensures t.ArrayTy? <==> d.isArray
  {
    if d.isArray then ArrayTy(ScalarOf(d.isInt), d.numElem) else ScalarOf(d.isInt)
  }

  /** A global holds numElem cells of its declared base type (one for a scalar). */
  lemma GlobalStorage(d: Decl)
    ensures BaseOf(GlobalLType(d)) == ScalarOf(d.isInt)
    ensures Cells(GlobalLType(d)) == if d.isArray then d.numElem else 1
  {
  }

  /** The type and element count of an alloca: CreateAlloca(type, count, name), count None for nullptr. */
  datatype Shape = Shape(ty: LType, count: Option<nat>)

  /** The cells an alloca reserves: count copies of its type. */
  function Reserved(s: Shape): nat {
    if s.count.Some? then s.count.value * Cells(s.ty) else Cells(s.ty)
  }

  /**
   * allocaLocals as written: an array local allocates the array type [n x T] with an element
   * count of n as well, so CreateAlloca reserves n arrays of n cells.
   */
  function LocalShapeAsWritten(d: Decl): (s: Shape)
    ensures s.ty == GlobalLType(d)
    ensures s.count.Some? <==> d.isArray
  {
    if d.isArray then Shape(ArrayTy(ScalarOf(d.isInt), d.numElem), Some(d.numElem))
    else Shape(ScalarOf(d.isInt), None)
  }

  /** `int a[1000];` as a local reserves a million ints rather than a thousand. */
  lemma LocalArrayOverAllocates(d: Decl)
    requires d.isArray
    ensures Reserved(LocalShapeAsWritten(d)) == d.numElem * d.numElem
    ensures d.numElem > 1 ==> Reserved(LocalShapeAsWritten(d)) > Cells(GlobalLType(d))
  {
    assert Cells(ScalarOf(d.isInt)) == 1;
    if d.numElem > 1 {
      assert d.numElem * d.numElem > d.numElem * 1;
    }
  }

  /** allocaLocals as intended: one array of numElem cells, or one scalar. */
  function LocalShape(d: Decl): (s: Shape)
    ensures s.ty == GlobalLType(d) && s.count == None
  {
    Shape(GlobalLType(d), None)
  }

  /** A local reserves exactly the storage of a global with the same declaration. */
  lemma LocalStorage(d: Decl)
    ensures BaseOf(LocalShape(d).ty) == ScalarOf(d.isInt)
    ensures Reserved(LocalShape(d)) == if d.isArray then d.numElem else 1
  {
    GlobalStorage(d);
  }

  /** The comparison predicates: signed for integers (icmp s..), ordered for doubles (fcmp o..). */
  datatype Pred = EQ | NE | LT | LE | GT | GE

  /** The instruction kinds binop and unary create. */
  datatype IrOp =
    | Add | FAdd | Sub | FSub | Mul | FMul | SDiv | FDiv
    | SRem | And | Or | Xor | Shl | AShr
    | ICmp(pred: Pred) | FCmp(pred: Pred)
    | Neg | FNeg | Not

  /** The instruction kinds that work on doubles. */
  predicate IsFloatOp(k: IrOp) {
    k == FAdd || k == FSub || k == FMul || k == FDiv || k.FCmp? || k == FNeg
  }

  /** `op[i]` in C on a NUL-terminated lexeme. */
  function CharAt(op: string, i: nat): char {
    if i < |op| then op[i] else '\0'
  }

  /** The comparison for a predicate: icmp when the left operand is an integer, fcmp otherwise. */
  function Compare(p: Pred, leftInt: bool): IrOp {
    if leftInt then ICmp(p) else FCmp(p)
  }

  /** The integer or the float variant of an arithmetic instruction. */
  function Variant(i: IrOp, f: IrOp, leftInt: bool): IrOp {
    if leftInt then i else f
  }

  /** binop's switch on the first character. */
  function SwitchOp(c: char, leftInt: bool): Option<IrOp> {
    match c
    case '+' => Some(Variant(Add, FAdd, leftInt))
    case '-' => Some(Variant(Sub, FSub, leftInt))
    case '*' => Some(Variant(Mul, FMul, leftInt))
    case '/' => Some(Variant(SDiv, FDiv, leftInt))
    case '%' => Some(SRem)
    case '&' => Some(And)
    case '|' => Some(Or)
    case '^' => Some(Xor)
    case _ => None
  }

  /**
   * binop's choice of instruction from the lexeme and whether the left operand is an integer:
   * the switch, then the tests on op[0] and op[1] for shifts and comparisons. None: no
   * instruction is created and the destination's value is left unset.
   */
  function BinopOp(op: string, leftInt: bool): (r: Option<IrOp>)
    ensures r.Some? && IsFloatOp(r.value) ==> !leftInt
    ensures r.Some? <==> CharAt(op, 0) in "+-*/%&|^<>" || (CharAt(op, 0) in "=!" && CharAt(op, 1) == '=')
  {
    var c0, c1 := CharAt(op, 0), CharAt(op, 1);
    if c0 == '<' then Some(if c1 == '<' then Shl else if c1 == '=' then Compare(LE, leftInt) else Compare(LT, leftInt))
    else if c0 == '>' then Some(if c1 == '>' then AShr else if c1 == '=' then Compare(GE, leftInt) else Compare(GT, leftInt))
    else if c0 == '=' && c1 == '=' then Some(Compare(EQ, leftInt))
    else if c0 == '!' && c1 == '=' then Some(Compare(NE, leftInt))
    else SwitchOp(c0, leftInt)
  }

  /** The operator lexemes the language has, and what each should lower to. */
  function OperatorTable(op: string, leftInt: bool): Option<IrOp> {
    if op == "+" then Some(if leftInt then Add else FAdd)
    else if op == "-" then Some(if leftInt then Sub else FSub)
    else if op == "*" then Some(if leftInt then Mul else FMul)
    else if op == "/" then Some(if leftInt then SDiv else FDiv)
    else if op == "%" then Some(SRem)
    else if op == "&" then Some(And)
    else if op == "|" then Some(Or)
    else if op == "^" then Some(Xor)
    else if op == "<<" then Some(Shl)
    else if op == ">>" then Some(AShr)
    else if op == "==" then Some(if leftInt then ICmp(EQ) else FCmp(EQ))
    else if op == "!=" then Some(if leftInt then ICmp(NE) else FCmp(NE))
    else if op == "<" then Some(if leftInt then ICmp(LT) else FCmp(LT))
    else if op == "<=" then Some(if leftInt then ICmp(LE) else FCmp(LE))
    else if op == ">" then Some(if leftInt then ICmp(GT) else FCmp(GT))
    else if op == ">=" then Some(if leftInt then ICmp(GE) else FCmp(GE))
    else None
  }

  /**
   * On every lexeme of the language binop picks the instruction of the table: + - * / by the
   * left operand's type, % & | ^ always integer, << shl, >> ashr, comparisons signed or ordered.
   */
  lemma BinopFollowsTable(op: string, leftInt: bool)
    requires OperatorTable(op, leftInt).Some?
    ensures BinopOp(op, leftInt) == OperatorTable(op, leftInt)
  {
  }

  /** The bitwise and remainder instructions do not depend on the operand type. */
  lemma IntegerOnlyOps(op: string)
    requires CharAt(op, 0) in "%&|^"
    ensures BinopOp(op, true) == BinopOp(op, false)
    ensures BinopOp(op, true).Some? && !IsFloatOp(BinopOp(op, true).value)
  {
  }

  /** unary: `-` is neg for an integer operand and fneg otherwise, `~` is not; anything else creates nothing. */
  function UnaryOp(op: string, isInt: bool): (r: Option<IrOp>)
    ensures r.Some? <==> CharAt(op, 0) == '-' || CharAt(op, 0) == '~'
    ensures r.Some? ==> (IsFloatOp(r.value) <==> !isInt && CharAt(op, 0) == '-')
  {
    if CharAt(op, 0) == '-' then Some(if isInt then Neg else FNeg)
    else if CharAt(op, 0) == '~' then Some(Not)
    else None
  }

  /** A conversion before a return: sitofp (to double) or fptosi (to i32). */
  datatype Conv = SIToFP | FPToSI

  /**
   * doReturn: a conversion exactly when the value's type differs from the function's return
   * type, to double when the function returns double and to i32 otherwise.
   */
  function ReturnConversion(retTy: LType, valTy: LType): (c: Option<Conv>)
    ensures c.Some? <==> retTy != valTy
  {
    if retTy == valTy then None
    else if retTy == F64 then Some(SIToFP)
    else Some(FPToSI)
  }

  /** The type a value has after an optional conversion. */
  function AfterConversion(valTy: LType, c: Option<Conv>): LType {
    match c
    case None => valTy
    case Some(SIToFP) => F64
    case Some(FPToSI) => I32
  }

  /** For an int or double function and an int or double value, the returned value has the function's type. */
  lemma ReturnTyped(retTy: LType, valTy: LType)
    requires retTy == I32 || retTy == F64
    ensures AfterConversion(valTy, ReturnConversion(retTy, valTy)) == retTy
  {
  }
}
