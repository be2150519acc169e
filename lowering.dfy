/**
 * The basic-block lowering of bitcodegen.cpp over abstract IR: globals and local storage,
 * string literals interned in the symbol table, instruction selection for binop and unary,
 * the coercion before a return, and how createBitcode, jump, doNoop and doEmptyFuncEnd close
 * every block. The LLVM builder is replaced by an instruction list `code` and a list of the
 * blocks created so far; the symbol table (sym.c) is a map from names to entries.
 */
module Lowering {
  import opened Wrappers
  import opened LowerRules
  import opened StringLiteral

  datatype Linkage = CommonLinkage | PrivateLinkage
  datatype Init = NoInit | ZeroAggregate | Bytes(data: seq<byte>)

  /** A module-level global: its name ("" for a literal), type, initializer, constness, linkage and alignment. */
  datatype GlobalVar = GlobalVar(name: string, ty: LType, init: Init, constant: bool, linkage: Linkage, align: nat)

  /** createGlobal's global: common linkage, 16-byte alignment, arrays zero-initialised. */
  function GlobalFor(name: string, d: Decl): (g: GlobalVar)
    ensures g.name == name && g.ty == GlobalLType(d)
    ensures g.init == ZeroAggregate <==> d.isArray
    ensures g.init != ZeroAggregate ==> g.init == NoInit
  {
    var t := GlobalLType(d);
    GlobalVar(name, t, if t.ArrayTy? then ZeroAggregate else NoInit, false, CommonLinkage, 16)
  }

  /** A literal's global: unnamed, private, constant, byte-aligned, an i8 array of its bytes. */
  function StringGlobal(chars: seq<byte>): GlobalVar {
    GlobalVar("", ArrayTy(I8, |chars|), Bytes(chars), true, PrivateLinkage, 1)
  }

  /** The fields of an id_entry the lowering reads or writes: the declaration, u.ltype and gvar. */
  datatype Entry = Entry(decl: Option<Decl>, ltype: Option<LType>, gvar: Option<nat>)

  /** What install hands back: an entry with nothing recorded yet. */
  const FRESH := Entry(None, None, None)

  /**
   * The quadline kinds processQuadLine and createBitcode tell apart, each with the items it
   * reads; Translated and Ignored stand for the others.
   */
  datatype LineKind =
    | BranchLine                                          // BRANCH
    | JumpLine(target: string)                            // JUMP: items[1]
    | ReturnLine(src: string)                             // RETURN: items[1]
    | BinopLine(left: string, op: string, right: string)  // BINOP: items[2], items[3], items[4]
    | UnaryLine(op: string, src: string)                  // UNARY: items[2], items[3]
    | StringLine(lit: seq<byte>)                          // STRING: items[2]
    | FuncEndLine                                         // FUNC_END
    | Translated(ty: Option<LType>)  // ASSIGN, a reference, an index, STORE, LOAD, a call or a cast,
                                     // with the u.ltype its routine gives the destination it installs
    | Ignored        // a kind processQuadLine's switch leaves alone

  /** A quadline: its kind and items[0], the destination (or `fend`). */
  datatype Line = Line(kind: LineKind, head: string)

  /** A basic block of the CFG: its lines, the next block in layout order and its successors. */
  datatype Blk = Blk(lines: seq<Line>, down: Option<string>, succs: seq<string>)

  /** The instructions the lowering creates. */
  datatype Instr =
    | Alloca(name: string, ty: LType, count: Option<nat>)
    | BinInstr(op: IrOp, dest: string, left: string, right: string)
    | UnInstr(op: IrOp, dest: string, src: string)
    | Convert(conv: Conv, src: string)
    | Ret(src: string)
    | RetZero(isInt: bool)
    | Jmp(target: string)
    | Lowered(line: Line)          // the instruction of a Translated or BRANCH line

  /** A block whose first line is `fend`. */
  predicate StartsWithFend(b: Blk) {
    |b.lines| > 0 && b.lines[0].head == "fend"
  }

  /** lineend: the last line of a block, if it has any. */
  function LastLine(b: Blk): Option<Line> {
    if b.lines == [] then None else Some(b.lines[|b.lines| - 1])
  }

  /** createBitcode's test for a fallthrough: a last quad that is not RETURN, JUMP or FUNC_END. */
  predicate NeedsFallthrough(last: Option<Line>) {
    last.Some? && !last.value.kind.ReturnLine? && !last.value.kind.JumpLine? && !last.value.kind.FuncEndLine?
  }

  /** How many lines createBitcode's while loop processes: up to and including the first BRANCH. */
  function StopAt(lines: seq<Line>): (n: nat)
    ensures n <= |lines|
    decreases |lines|
  {
    if lines == [] then 0
    else if lines[0].kind.BranchLine? then 1
    else 1 + StopAt(lines[1..])
  }

  /** The lines the loop processes. */
  function Processed(lines: seq<Line>): seq<Line> {
    lines[..StopAt(lines)]
  }

  /**
   * The loop stops right after the first BRANCH: no BRANCH comes before the last processed
   * line, and when lines are left over the last processed one is a BRANCH.
   */
  lemma {:induction false} StopsAtFirstBranch(lines: seq<Line>)
    ensures forall j :: 0 <= j < StopAt(lines) - 1 ==> !lines[j].kind.BranchLine?
    ensures StopAt(lines) < |lines| ==> lines[StopAt(lines) - 1].kind.BranchLine?
    ensures lines != [] ==> StopAt(lines) > 0
    decreases |lines|
  {
    if lines != [] && !lines[0].kind.BranchLine? {
      StopsAtFirstBranch(lines[1..]);
      forall j | 1 <= j < StopAt(lines) - 1
        ensures !lines[j].kind.BranchLine?
      {
        assert lines[1..][j - 1] == lines[j];
      }
      if StopAt(lines) < |lines| {
        assert lines[1..][StopAt(lines[1..]) - 1] == lines[StopAt(lines) - 1];
      }
    }
  }

  /** Before the stop, a line is the last one processed exactly when it is a BRANCH or the last line. */
  lemma {:induction false} StopWithin(lines: seq<Line>, i: nat)
    requires i < StopAt(lines)
    ensures StopAt(lines) == i + 1 <==> lines[i].kind.BranchLine? || i + 1 == |lines|
    decreases i
  {
    if i > 0 {
      assert !lines[0].kind.BranchLine?;
      assert lines[1..][i - 1] == lines[i];
      StopWithin(lines[1..], i - 1);
    }
  }

  /** Each byte of a literal's text as the character of the symbol-table key. */
  function Text(lit: seq<byte>): (s: string)
    ensures |s| == |lit|
  {
    seq(|lit|, i requires 0 <= i < |lit| => (lit[i] as int) as char)
  }

  /** The alloca for a local with declaration d: the intended shape. */
  function AllocaFor(name: string, d: Decl): Instr {
    Alloca(name, LocalShape(d).ty, LocalShape(d).count)
  }

  /** Every name is declared in the symbol table. */
  ghost predicate AllDeclared(names: seq<string>, syms: map<string, Entry>) {
    forall i :: 0 <= i < |names| ==> names[i] in syms && syms[names[i]].decl.Some?
  }

  /** The allocas allocaLocals creates, one per LOCAL_ALLOC line, in order. */
  function LocalAllocas(names: seq<string>, syms: map<string, Entry>): seq<Instr>
    requires AllDeclared(names, syms)
    decreases |names|
  {
    if names == [] then []
    else
      var n := names[|names| - 1];
      LocalAllocas(names[..|names| - 1], syms) + [AllocaFor(n, syms[n].decl.value)]
  }

  /** Each local gets one alloca, in order, reserving the storage its declaration calls for. */
  lemma {:induction false} AllocasPerLocal(names: seq<string>, syms: map<string, Entry>)
    requires AllDeclared(names, syms)
    ensures |LocalAllocas(names, syms)| == |names|
    ensures forall i :: 0 <= i < |names| ==>
      var a := LocalAllocas(names, syms)[i];
      var d := syms[names[i]].decl.value;
      && a.Alloca? && a.name == names[i]
      && Reserved(Shape(a.ty, a.count)) == (if d.isArray then d.numElem else 1)
    decreases |names|
  {
    if names != [] {
      var init := names[..|names| - 1];
      AllocasPerLocal(init, syms);
      LocalStorage(syms[names[|names| - 1]].decl.value);
      forall i | 0 <= i < |names| - 1
        ensures names[i] == init[i]
      {
      }
    }
  }

  /** The entry of a local after allocaLocals: u.ltype is recorded for an array, left as it was otherwise. */
  function Retyped(syms: map<string, Entry>, names: seq<string>): (r: map<string, Entry>)
    requires AllDeclared(names, syms)
    ensures r.Keys == syms.Keys
    ensures forall k :: k in syms ==> r[k].decl == syms[k].decl && r[k].gvar == syms[k].gvar
    decreases |names|
  {
    if names == [] then syms
    else
      var n := names[|names| - 1];
      var s := Retyped(syms, names[..|names| - 1]);
      var d := s[n].decl.value;
      if d.isArray then s[n := s[n].(ltype := Some(LocalShape(d).ty))] else s
  }

  /** One more local: its alloca follows the others' and its entry is the only one retyped. */
  lemma LocalStep(names: seq<string>, syms: map<string, Entry>, i: nat)
    requires AllDeclared(names, syms) && i < |names|
    ensures AllDeclared(names[..i], syms) && AllDeclared(names[..i + 1], syms)
    ensures var n, d := names[i], syms[names[i]].decl.value;
      && LocalAllocas(names[..i + 1], syms) == LocalAllocas(names[..i], syms) + [AllocaFor(n, d)]
      && var r := Retyped(syms, names[..i]);
         Retyped(syms, names[..i + 1]) == if d.isArray then r[n := r[n].(ltype := Some(LocalShape(d).ty))] else r
  {
    assert forall j :: 0 <= j <= i ==> names[..i + 1][j] == names[j];
    assert forall j :: 0 <= j < i ==> names[..i][j] == names[j];
    assert names[..i + 1][..i] == names[..i];
  }

  /** binop's instruction, if its lexeme selects one. */
  function OpCode(k: Option<IrOp>, dest: string, left: string, right: string): seq<Instr> {
    if k.Some? then [BinInstr(k.value, dest, left, right)] else []
  }

  function UnCode(k: Option<IrOp>, dest: string, src: string): seq<Instr> {
    if k.Some? then [UnInstr(k.value, dest, src)] else []
  }

  /** doReturn's instructions: the conversion, when one is needed, then the return. */
  function ReturnCode(c: Option<Conv>, src: string): seq<Instr> {
    if c.Some? then [Convert(c.value, src), Ret(src)] else [Ret(src)]
  }

  /** The type doReturn hands to `ret`: the function's return type, for an int or double value. */
  lemma ReturnCodeTyped(retTy: LType, valTy: LType, src: string)
    requires retTy == I32 || retTy == F64
    ensures var code := ReturnCode(ReturnConversion(retTy, valTy), src);
      && code[|code| - 1] == Ret(src)
      && (|code| == 2 <==> retTy != valTy)
      && AfterConversion(valTy, ReturnConversion(retTy, valTy)) == retTy
  {
    ReturnTyped(retTy, valTy);
  }

  /** What the lowering has built so far: the symbol table, the globals, the instructions and the blocks. */
  datatype LowerState = LowerState(symbols: map<string, Entry>, globals: seq<GlobalVar>, code: seq<Instr>, blocks: seq<string>)

  /**
   * What referenceString does to the state: the destination is installed; a literal text not in
   * the table gets a new global of its decoded bytes and terminator, shared with the destination;
   * otherwise the destination takes the literal's type and global.
   */
  function Interned(s: LowerState, dest: string, lit: seq<byte>): LowerState {
    var key := Text(lit);
    var s1 := s.symbols[dest := FRESH];
    if key !in s1 then
      var e := Entry(None, Some(ArrayTy(I8, |Decoded(lit)| + 1)), Some(|s.globals|));
      s.(globals := s.globals + [StringGlobal(Decoded(lit) + [NUL])], symbols := s1[key := e][dest := e])
    else
      s.(symbols := s1[dest := Entry(None, s1[key].ltype, s1[key].gvar)])
  }

  /** A list with no name twice. */
  ghost predicate Distinct(s: seq<string>) {
    forall i, j :: 0 <= i < j < |s| ==> s[i] != s[j]
  }

  class IrBuilder {
    /** The symbol table, name to entry. */
    var symbols: map<string, Entry>
    /** The module's globals, in creation order; an entry's gvar indexes this list. */
    var globals: seq<GlobalVar>
    /** The instructions created so far, in order. */
    var code: seq<Instr>
    /** The basic blocks created so far (an entry's v.b set), in creation order. */
    var blocks: seq<string>
    /** The name of the block the builder inserts into; set by Enter. */
    var current: string
    /** The CFG: each block label to its block. */
    const cfg: map<string, Blk>
    /** top->succs->ptr->label: the block the entry falls into. */
    const topSucc: string
    /** The function's return type, from createFunction. */
    const retTy: LType

    /** Every label the CFG mentions is one of its blocks. */
    ghost predicate CfgClosed() {
      && topSucc in cfg
      && (forall l {:trigger cfg[l]} :: l in cfg && cfg[l].down.Some? ==> cfg[l].down.value in cfg)
      && (forall l {:trigger cfg[l]} :: l in cfg ==> forall s :: s in cfg[l].succs ==> s in cfg)
    }

    /**
     * No block is created twice, every gvar names an existing global, the function returns
     * i32 or double and the CFG is closed.
     */
    ghost predicate Valid()
      reads this`symbols, this`globals, this`blocks
    {
      && Distinct(blocks)
      && (forall k :: k in symbols && symbols[k].gvar.Some? ==> symbols[k].gvar.value < |globals|)
      && (retTy == I32 || retTy == F64)
      && CfgClosed()
    }

    /**
     * The state once the function's signature and entry block exist: the declarations in the
     * symbol table, no globals, no instructions, one block named "entry" to insert into.
     */
    constructor (decls: map<string, Entry>, graph: map<string, Blk>, entrySucc: string, retInt: bool)
      requires forall k :: k in decls ==> decls[k].gvar == None
      requires entrySucc in graph
      requires forall l :: l in graph && graph[l].down.Some? ==> graph[l].down.value in graph
      requires forall l :: l in graph ==> forall s :: s in graph[l].succs ==> s in graph
      ensures Valid()
      ensures symbols == decls && globals == [] && code == [] && blocks == ["entry"] && current == "entry"
      ensures cfg == graph && topSucc == entrySucc && retTy == ScalarOf(retInt)
    {
      symbols, globals, code := decls, [], [];
      blocks, current := ["entry"], "entry";
      cfg, topSucc, retTy := graph, entrySucc, ScalarOf(retInt);
    }

    /** createGlobal: the global for the name's declaration; the entry records its type and global. */
    method CreateGlobal(name: string)
      requires Valid()
      requires name in symbols && symbols[name].decl.Some?
      requires forall i :: 0 <= i < |globals| ==> globals[i].name != name
      modifies this`symbols, this`globals
      ensures Valid()
      ensures var d := old(symbols)[name].decl.value;
        && globals == old(globals) + [GlobalFor(name, d)]
        && symbols == old(symbols)[name := old(symbols)[name].(ltype := Some(GlobalLType(d)), gvar := Some(|old(globals)|))]
    {
      var d := symbols[name].decl.value;
      var g := GlobalFor(name, d);
      globals := globals + [g];
      symbols := symbols[name := symbols[name].(ltype := Some(g.ty), gvar := Some(|globals| - 1))];
    }

    /** One LOCAL_ALLOC line: the local's alloca, and an array local's type recorded in its entry. */
    method AllocaLocal(n: string)
      requires Valid() && n in symbols && symbols[n].decl.Some?
      modifies this`code, this`symbols
      ensures Valid()
      ensures var d := old(symbols)[n].decl.value;
        && code == old(code) + [AllocaFor(n, d)]
        && symbols == if d.isArray then old(symbols)[n := old(symbols)[n].(ltype := Some(LocalShape(d).ty))] else old(symbols)
    {
      var d := symbols[n].decl.value;
      code := code + [AllocaFor(n, d)];
      if d.isArray {
        symbols := symbols[n := symbols[n].(ltype := Some(LocalShape(d).ty))];
      }
    }

    /**
     * allocaLocals over the LOCAL_ALLOC lines: one alloca per local, in order, and the array
     * type recorded in an array local's entry.
     */
    method AllocaLocals(names: seq<string>)
      requires Valid() && AllDeclared(names, symbols)
      modifies this`code, this`symbols
      ensures Valid()
      ensures code == old(code) + LocalAllocas(names, old(symbols))
      ensures symbols == Retyped(old(symbols), names)
    {
      var i := 0;
      while i < |names|
        invariant 0 <= i <= |names|
        invariant Valid() && AllDeclared(names[..i], old(symbols))
        invariant symbols == Retyped(old(symbols), names[..i])
        invariant code == old(code) + LocalAllocas(names[..i], old(symbols))
      {
        LocalStep(names, old(symbols), i);
        AllocaLocal(names[i]);
        i := i + 1;
      }
      assert names[..i] == names;
    }

    /**
     * referenceString: the destination is installed first; a literal not yet in the symbol
     * table is installed with a new constant global holding its decoded bytes and terminator;
     * the destination then shares the literal's global and type.
     */
    method ReferenceString(dest: string, lit: seq<byte>)
      requires Valid()
      modifies this`symbols, this`globals
      ensures Valid()
      ensures
        var key := Text(lit);
        var s1 := old(symbols)[dest := FRESH];
        && (key !in s1 ==>
              var e := Entry(None, Some(ArrayTy(I8, |Decoded(lit)| + 1)), Some(|old(globals)|));
              && globals == old(globals) + [StringGlobal(Decoded(lit) + [NUL])]
              && symbols == s1[key := e][dest := e])
        && (key in s1 ==>
              && globals == old(globals)
              && symbols == s1[dest := Entry(None, s1[key].ltype, s1[key].gvar)])
    {
      symbols := symbols[dest := FRESH];
      var key := Text(lit);
      if key !in symbols {
        var chars := DecodeLiteral(lit);
        var e := Entry(None, Some(ArrayTy(I8, |chars|)), Some(|globals|));
        globals := globals + [StringGlobal(chars)];
        symbols := symbols[key := e];
        symbols := symbols[dest := e];
      } else {
        symbols := symbols[dest := Entry(None, symbols[key].ltype, symbols[key].gvar)];
      }
    }

    /** Two references to the same literal text: at most one global is created and both share it. */
    method ReferenceTwice(d1: string, d2: string, lit: seq<byte>)
      requires Valid()
      requires d1 != Text(lit) && d2 != Text(lit) && d1 != d2
      modifies this`symbols, this`globals
      ensures Valid()
      ensures |globals| <= |old(globals)| + 1
      ensures d1 in symbols && d2 in symbols && Text(lit) in symbols
      ensures symbols[d1].gvar == symbols[d2].gvar == symbols[Text(lit)].gvar
      ensures Text(lit) !in old(symbols) ==> |globals| == |old(globals)| + 1 && symbols[d1].gvar == Some(|old(globals)|)
      ensures Text(lit) in old(symbols) ==> globals == old(globals)
    {
      ReferenceString(d1, lit);
      ReferenceString(d2, lit);
    }

    /**
     * binop: the instruction BinopOp selects from the lexeme and the left operand's type (none
     * for an unknown lexeme); the destination takes the left operand's type.
     */
    method Binop(dest: string, left: string, op: string, right: string)
      requires Valid()
      requires left in symbols && symbols[left].ltype.Some?
      modifies this`code, this`symbols
      ensures Valid()
      ensures
        var t := old(symbols)[left].ltype;
        && code == old(code) + OpCode(BinopOp(op, t.value.IsInteger()), dest, left, right)
        && symbols == old(symbols)[dest := Entry(None, t, None)]
    {
      var t := symbols[left].ltype;
      var k := BinopOp(op, t.value.IsInteger());
      if k.Some? {
        code := code + [BinInstr(k.value, dest, left, right)];
      }
      symbols := symbols[dest := Entry(None, t, None)];
    }

    /** unary: neg, fneg or not by UnaryOp; the destination takes the operand's type. */
    method Unary(dest: string, op: string, src: string)
      requires Valid()
      requires src in symbols && symbols[src].ltype.Some?
      modifies this`code, this`symbols
      ensures Valid()
      ensures
        var t := old(symbols)[src].ltype;
        && code == old(code) + UnCode(UnaryOp(op, t.value.IsInteger()), dest, src)
        && symbols == old(symbols)[dest := Entry(None, t, None)]
    {
      var t := symbols[src].ltype;
      var k := UnaryOp(op, t.value.IsInteger());
      if k.Some? {
        code := code + [UnInstr(k.value, dest, src)];
      }
      symbols := symbols[dest := Entry(None, t, None)];
    }

    /** doReturn: a conversion when the value's type is not the return type, then the return. */
    method DoReturn(src: string)
      requires Valid()
      requires src in symbols && symbols[src].ltype.Some?
      modifies this`code
      ensures Valid()
      ensures code == old(code) + ReturnCode(ReturnConversion(retTy, symbols[src].ltype.value), src)
    {
      var t := symbols[src].ltype.value;
      if retTy != t {
        if retTy == F64 {
          code := code + [Convert(SIToFP, src)];
        } else {
          code := code + [Convert(FPToSI, src)];
        }
      }
      code := code + [Ret(src)];
    }

    /** jump's instructions: none into a block whose first line is `fend`, a branch otherwise. */
    function JumpCode(dest: string): seq<Instr>
      requires dest in cfg
    {
      if StartsWithFend(cfg[dest]) then [] else [Jmp(dest)]
    }

    /** The block jump creates: the destination, unless it is skipped or already exists. */
    function NewBlock(dest: string, existing: seq<string>): seq<string>
      requires dest in cfg
    {
      if StartsWithFend(cfg[dest]) || dest in existing then [] else [dest]
    }

    /** jump: the destination block is created at most once; no branch into a `fend` block. */
    method Jump(dest: string)
      requires Valid() && dest in cfg
      modifies this`code, this`blocks
      ensures Valid()
      ensures code == old(code) + JumpCode(dest)
      ensures blocks == old(blocks) + NewBlock(dest, old(blocks))
      ensures dest in blocks || StartsWithFend(cfg[dest])
    {
      if StartsWithFend(cfg[dest]) {
        return;
      }
      if dest !in blocks {
        blocks := blocks + [dest];
      }
      code := code + [Jmp(dest)];
    }

    /** Where doNoop jumps: the entry's successor, or the next block in layout order. */
    function NoopTarget(cur: string): Option<string>
      requires cur == "entry" || cur in cfg
    {
      if cur == "entry" then Some(topSucc) else cfg[cur].down
    }

    function NoopCode(cur: string): seq<Instr>
      requires CfgClosed()
      requires cur == "entry" || cur in cfg
    {
      [Alloca("dummy-noop", I32, None)] + (if NoopTarget(cur).Some? then JumpCode(NoopTarget(cur).value) else [])
    }

    /** The block doNoop's jump creates, if it jumps. */
    function NoopBlocks(cur: string, existing: seq<string>): seq<string>
      requires CfgClosed()
      requires cur == "entry" || cur in cfg
    {
      if NoopTarget(cur).Some? then NewBlock(NoopTarget(cur).value, existing) else []
    }

    /** doNoop: a dummy alloca, then a jump to the block after the current one, if there is one. */
    method DoNoop()
      requires Valid() && (current == "entry" || current in cfg)
      modifies this`code, this`blocks
      ensures Valid()
      ensures code == old(code) + NoopCode(current)
      ensures blocks == old(blocks) + NoopBlocks(current, old(blocks))
    {
      code := code + [Alloca("dummy-noop", I32, None)];
      var next := NoopTarget(current);
      if next.Some? {
        Jump(next.value);
      }
    }

    /** doEmptyFuncEnd: a return of the zero of the function's type. */
    method DoEmptyFuncEnd()
      modifies this`code
      ensures code == old(code) + [RetZero(retTy.IsInteger())]
    {
      code := code + [RetZero(retTy.IsInteger())];
    }

    /**
     * The driver's step to the next block in layout order: its basic block is created unless a
     * jump already created it, and the builder inserts into it from then on.
     */
    method Enter(name: string)
      requires Valid() && name in cfg
      modifies this`blocks, this`current
      ensures Valid()
      ensures current == name
      ensures blocks == old(blocks) + (if name in old(blocks) then [] else [name])
    {
      if name !in blocks {
        blocks := blocks + [name];
      }
      current := name;
    }

    /** The symbol table, globals, instructions and blocks as one value. */
    function State(): LowerState
      reads this`symbols, this`globals, this`code, this`blocks
    {
      LowerState(symbols, globals, code, blocks)
    }

    /** What jump does to the state. */
    function JumpStep(s: LowerState, dest: string): LowerState
      requires dest in cfg
    {
      s.(code := s.code + JumpCode(dest), blocks := s.blocks + NewBlock(dest, s.blocks))
    }

    /**
     * What processQuadLine does with one line, through the routine its switch calls: None when
     * the line names a jump target outside the CFG, or a value that is not in the symbol table
     * or has no type, which the C code dereferences as a NULL entry.
     */
    function LineStep(s: LowerState, l: Line): Option<LowerState> {
      match l.kind
      case JumpLine(target) =>
        if target in cfg then Some(JumpStep(s, target)) else None
      case ReturnLine(src) =>
        if src in s.symbols && s.symbols[src].ltype.Some? then
          Some(s.(code := s.code + ReturnCode(ReturnConversion(retTy, s.symbols[src].ltype.value), src)))
        else None
      case BinopLine(left, op, right) =>
        if left in s.symbols && s.symbols[left].ltype.Some? then
          var t := s.symbols[left].ltype;
          Some(s.(code := s.code + OpCode(BinopOp(op, t.value.IsInteger()), l.head, left, right),
                  symbols := s.symbols[l.head := Entry(None, t, None)]))
        else None
      case UnaryLine(op, src) =>
        if src in s.symbols && s.symbols[src].ltype.Some? then
          var t := s.symbols[src].ltype;
          Some(s.(code := s.code + UnCode(UnaryOp(op, t.value.IsInteger()), l.head, src),
                  symbols := s.symbols[l.head := Entry(None, t, None)]))
        else None
      case StringLine(lit) => Some(Interned(s, l.head, lit))
      case BranchLine => Some(s.(code := s.code + [Lowered(l)]))
      case Translated(ty) =>
        Some(s.(code := s.code + [Lowered(l)], symbols := s.symbols[l.head := Entry(None, ty, None)]))
      case FuncEndLine => Some(s)
      case Ignored => Some(s)
    }

    /** The state after processing the lines in order; None once a line's step is None. */
    function Run(s: LowerState, lines: seq<Line>): Option<LowerState>
      decreases |lines|
    {
      if lines == [] then Some(s)
      else
        match Run(s, lines[..|lines| - 1])
        case None => None
        case Some(t) => LineStep(t, lines[|lines| - 1])
    }

    /** A step only adds: instructions, globals and blocks are extended, never rewritten. */
    lemma StepExtends(s: LowerState, l: Line)
      requires LineStep(s, l).Some?
      ensures var t := LineStep(s, l).value;
        s.code <= t.code && s.globals <= t.globals && s.blocks <= t.blocks
    {
    }

    /** Processing lines only adds instructions, globals and blocks. */
    lemma {:induction false} RunExtends(s: LowerState, lines: seq<Line>)
      requires Run(s, lines).Some?
      ensures var t := Run(s, lines).value;
        s.code <= t.code && s.globals <= t.globals && s.blocks <= t.blocks
      decreases |lines|
    {
      if lines != [] {
        var front := lines[..|lines| - 1];
        RunExtends(s, front);
        StepExtends(Run(s, front).value, lines[|lines| - 1]);
      }
    }

    /**
     * A block that computes its own operands: `t1` references a global (no u.ltype), `t2` loads
     * an int through it, `t3` adds `t2` to itself and is returned. Each line types the
     * destination the next one reads, so the run succeeds from any state.
     */
    lemma LoadedOperandTyped(s: LowerState)
      ensures
        var r := Run(s, [Line(Translated(None), "t1"), Line(Translated(Some(I32)), "t2"),
                         Line(BinopLine("t2", "+", "t2"), "t3"), Line(ReturnLine("t3"), "reti")]);
        && r.Some?
        && r.value.symbols["t3"].ltype == Some(I32)
        && r.value.code[|r.value.code| - 1] == Ret("t3")
        && BinInstr(Add, "t3", "t2", "t2") in r.value.code
    {
      var lines := [Line(Translated(None), "t1"), Line(Translated(Some(I32)), "t2"),
                    Line(BinopLine("t2", "+", "t2"), "t3"), Line(ReturnLine("t3"), "reti")];
      assert lines[..3][..2][..1][..0] == [];
      assert lines[..3][..2][..1] == lines[..1];
      assert lines[..3][..2] == lines[..2];
      assert lines[..3] == lines[..|lines| - 1];
      var s1 := LineStep(s, lines[0]).value;
      var s2 := LineStep(s1, lines[1]).value;
      var s3 := LineStep(s2, lines[2]).value;
      assert Run(s, lines[..1]) == Some(s1);
      assert Run(s, lines[..2]) == Some(s2);
      assert Run(s, lines[..3]) == Some(s3);
      assert s3.code == s2.code + [BinInstr(Add, "t3", "t2", "t2")];
    }

    /** One more line: the run over the first i + 1 lines is the run over the first i, then a step. */
    lemma RunStep(s: LowerState, lines: seq<Line>, i: nat)
      requires i < |lines|
      ensures Run(s, lines[..i + 1])
              == match Run(s, lines[..i]) case None => None case Some(t) => LineStep(t, lines[i])
    {
      assert lines[..i + 1][..i] == lines[..i];
      assert lines[..i + 1][i] == lines[i];
    }

    /** A run that succeeds over the first n lines succeeds over every shorter prefix. */
    lemma {:induction false} RunPrefix(s: LowerState, lines: seq<Line>, i: nat, n: nat)
      requires i <= n <= |lines| && Run(s, lines[..n]).Some?
      ensures Run(s, lines[..i]).Some?
      decreases n - i
    {
      if i < n {
        RunStep(s, lines, n - 1);
        RunPrefix(s, lines, i, n - 1);
      }
    }

    /** One more line of the loop: whether it is the last one processed, and its step succeeds. */
    lemma Advance(s: LowerState, lines: seq<Line>, i: nat)
      requires i < StopAt(lines) && Run(s, Processed(lines)).Some?
      ensures StopAt(lines) == i + 1 <==> lines[i].kind.BranchLine? || i + 1 == |lines|
      ensures Run(s, lines[..i + 1]).Some?
      ensures Run(s, lines[..i + 1])
              == match Run(s, lines[..i]) case None => None case Some(t) => LineStep(t, lines[i])
    {
      StopWithin(lines, i);
      RunPrefix(s, lines, i + 1, StopAt(lines));
      RunStep(s, lines, i);
    }

    /**
     * processQuadLine: JUMP through jump, RETURN through doReturn, BINOP through binop, UNARY
     * through unary and STRING through referenceString; another kind the switch handles installs
     * its destination and adds one instruction; FUNC_END and unhandled kinds do nothing.
     */
    method ProcessLine(l: Line)
      requires Valid() && LineStep(State(), l).Some?
      modifies this`code, this`blocks, this`symbols, this`globals
      ensures Valid()
      ensures State() == LineStep(old(State()), l).value
    {
      match l.kind
      case JumpLine(target) => Jump(target);
      case ReturnLine(src) => DoReturn(src);
      case BinopLine(left, op, right) => Binop(l.head, left, op, right);
      case UnaryLine(op, src) => Unary(l.head, op, src);
      case StringLine(lit) => ReferenceString(l.head, lit);
      case BranchLine => code := code + [Lowered(l)];
      case Translated(ty) =>
        code := code + [Lowered(l)];
        symbols := symbols[l.head := Entry(None, ty, None)];
      case FuncEndLine =>
      case Ignored =>
    }

    /** createBitcode's while loop: lines are processed in order until one is a BRANCH. */
    method ProcessLines(lines: seq<Line>)
      requires Valid() && Run(State(), Processed(lines)).Some?
      modifies this`code, this`blocks, this`symbols, this`globals
      ensures Valid()
      ensures State() == Run(old(State()), Processed(lines)).value
    {
      var i := 0;
      while i < |lines|
        invariant i <= StopAt(lines) && (i == StopAt(lines) ==> i == |lines|)
        invariant Valid() && Run(old(State()), lines[..i]) == Some(State())
      {
        Advance(old(State()), lines, i);
        ProcessLine(lines[i]);
        i := i + 1;
        if lines[i - 1].kind.BranchLine? {
          break;
        }
      }
      assert Processed(lines) == lines[..i];
    }

    /** The jump createBitcode adds after a block whose last line does not leave it. */
    function Fallthrough(s: LowerState, owner: Blk): LowerState
      requires NeedsFallthrough(LastLine(owner)) ==> |owner.succs| > 0 && owner.succs[0] in cfg
    {
      if NeedsFallthrough(LastLine(owner)) then JumpStep(s, owner.succs[0]) else s
    }

    /**
     * createBitcode on the lines from `lines` on, which belong to block `owner`: an empty block
     * gets doNoop, a block starting with `fend` gets doEmptyFuncEnd; otherwise the lines are
     * processed up to the first BRANCH and, when the block's last line is not RETURN, JUMP or
     * FUNC_END, a jump to its first successor follows.
     */
    method CreateBitcode(lines: seq<Line>, owner: Blk)
      requires Valid() && (current == "entry" || current in cfg)
      requires lines != [] && lines[0].head != "fend" ==> Run(State(), Processed(lines)).Some?
      requires lines != [] && lines[0].head != "fend" && NeedsFallthrough(LastLine(owner))
               ==> |owner.succs| > 0 && owner.succs[0] in cfg
      modifies this`code, this`blocks, this`symbols, this`globals
      ensures Valid()
      ensures lines == [] ==>
                && code == old(code) + NoopCode(current)
                && blocks == old(blocks) + NoopBlocks(current, old(blocks))
                && symbols == old(symbols) && globals == old(globals)
      ensures lines != [] && lines[0].head == "fend" ==>
                State() == old(State()).(code := old(code) + [RetZero(retTy.IsInteger())])
      ensures lines != [] && lines[0].head != "fend" ==>
                State() == Fallthrough(Run(old(State()), Processed(lines)).value, owner)
    {
      if lines == [] {
        DoNoop();
        return;
      }
      if lines[0].head == "fend" {
        DoEmptyFuncEnd();
        return;
      }
      ProcessLines(lines);
      if NeedsFallthrough(LastLine(owner)) {
        Jump(owner.succs[0]);
      }
    }
  }
}
