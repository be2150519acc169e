/**
 * The backpatch engine of semdum.c as a state machine: the label counters and the one-shot
 * label guard, the quads written so far, the forward-goto table and the two loop-scope stacks.
 * The parser drives it by calling one action per grammar reduction.
 */
module Semdum {
  import opened Wrappers
  import opened Quads
  import opened Coercion
  import opened Chains

  /** Capacity of each loop-scope stack. */
  const MAXRECS := 4096
  /** Number of entries in the forward-goto table. */
  const MAXLABELS := 50
  /** Number of pending blanks one goto entry can hold. */
  const MAXBLANKS := 256
  /** Size of a goto entry's name buffer, terminator included. */
  const NAMELEN := 256

  /** Messages written to stderr (directly or through yyerror). */
  datatype Diag =
    | BreakOutsideLoop
    | ContinueOutsideLoop
    | LabelRedeclared(name: string)
    | LabelTableFull
    | UnresolvedGoto(name: string)
    | StackEmpty
    | StackFull
    | ModOnFloat
    | Op2NotImplemented
    | OpbNotImplemented

  /**
   * One entry of bpArr: a label name, the blanks of the gotos waiting for it (labels[0..topLabel)),
   * and the patched flag: -1 while waiting, 1 once declared, 0 for an unused entry.
   */
  datatype GotoEntry = GotoEntry(name: string, blanks: seq<nat>, patched: int)

  /** An unused (or cleared) entry. */
  const EMPTY := GotoEntry("", [], 0)

  /** A symbol's i_offset; for a label, the concrete label number it was given. */
  type SymbolTable = map<string, int>

  /**
   * The first entry whose name equals `id`, as findLabel's scan over the whole table finds it.
   */
  function FirstNamed(entries: seq<GotoEntry>, id: string): (r: Option<nat>)
    ensures r.Some? ==> r.value < |entries| && entries[r.value].name == id
    ensures r.Some? ==> forall j :: 0 <= j < r.value ==> entries[j].name != id
    ensures r.None? <==> forall j :: 0 <= j < |entries| ==> entries[j].name != id
  {
    if entries == [] then None
    else if entries[0].name == id then Some(0)
    else match FirstNamed(entries[1..], id)
      case Some(k) => Some(k + 1)
      case None => None
  }

  /** The names checkUnpatchedLabels reports, in table order: entries still marked -1. */
  function Unresolved(entries: seq<GotoEntry>): (names: seq<string>)
    ensures |names| <= |entries|
    ensures forall x :: x in names <==>
      exists i :: 0 <= i < |entries| && entries[i].patched == -1 && entries[i].name == x
    decreases |entries|
  {
    if entries == [] then []
    else
      var last := entries[|entries| - 1];
      var before := Unresolved(entries[..|entries| - 1]);
      assert forall i :: 0 <= i < |entries| - 1 ==> entries[..|entries| - 1][i] == entries[i];
      before + (if last.patched == -1 then [last.name] else [])
  }

  /** One "referenced in goto, but never declared" message per name. */
  function Reports(names: seq<string>): (ds: seq<Diag>)
    ensures |ds| == |names|
    ensures forall i :: 0 <= i < |names| ==> ds[i] == UnresolvedGoto(names[i])
  {
    if names == [] then [] else [UnresolvedGoto(names[0])] + Reports(names[1..])
  }

  ghost predicate EntryValid(e: GotoEntry, symbols: SymbolTable) {
    && |e.name| > 0
    && 1 <= |e.blanks| <= MAXBLANKS
    && (e.patched == -1 || e.patched == 1)
    && (e.patched == 1 <==> e.name in symbols)
  }

  /**
   * The goto table's invariant: the first n entries are in use, each waiting (-1) exactly when
   * its name has not been declared, with distinct names; the rest are unused.
   */
  ghost predicate TableValid(entries: seq<GotoEntry>, n: nat, symbols: SymbolTable) {
    && |entries| == MAXLABELS
    && n <= MAXLABELS
    && (forall i :: n <= i < |entries| ==> entries[i] == EMPTY)
    && (forall i :: 0 <= i < n ==> EntryValid(entries[i], symbols))
    && (forall i, j :: 0 <= i < j < n ==> entries[i].name != entries[j].name)
  }

  /**
   * At function end the reported names are exactly the labels used by a goto and never
   * declared.
   */
  lemma UnresolvedAreUndeclared(entries: seq<GotoEntry>, n: nat, symbols: SymbolTable)
    requires TableValid(entries, n, symbols)
    ensures forall x :: x in Unresolved(entries) <==>
      exists i :: 0 <= i < n && entries[i].name == x && x !in symbols
  {
    forall x | x in Unresolved(entries)
      ensures exists i :: 0 <= i < n && entries[i].name == x && x !in symbols
    {
      var i :| 0 <= i < |entries| && entries[i].patched == -1 && entries[i].name == x;
      assert i < n;
    }
  }

  /**
   * The goto table after a jump to blank b for the undeclared name id: the blank joins the end
   * of the name's pending list, or starts a new entry at index n when the name has none and
   * there is room.
   */
  function GotoTable(entries: seq<GotoEntry>, n: nat, id: string, b: nat): seq<GotoEntry>
    requires |entries| == MAXLABELS
  {
    match FirstNamed(entries, id)
    case Some(i) => entries[i := entries[i].(blanks := entries[i].blanks + [b])]
    case None => if n < MAXLABELS then entries[n := GotoEntry(id, [b], -1)] else entries
  }

  /** The number of entries in use after that jump. */
  function GotoCount(entries: seq<GotoEntry>, n: nat, id: string): nat {
    if FirstNamed(entries, id).None? && n < MAXLABELS then n + 1 else n
  }

  /** addLabel's message when a new name finds the table full. */
  function GotoDiags(entries: seq<GotoEntry>, n: nat, id: string): seq<Diag> {
    if FirstNamed(entries, id).None? && n >= MAXLABELS then [LabelTableFull] else []
  }

  /**
   * A goto to an undeclared name keeps the table well formed, provided the name's pending list
   * has room (labels[] holds MAXBLANKS blanks and dogoto does not check).
   */
  lemma GotoKeepsTable(entries: seq<GotoEntry>, n: nat, symbols: SymbolTable, id: string, b: nat)
    requires TableValid(entries, n, symbols)
    requires |id| > 0 && id !in symbols
    requires forall i :: 0 <= i < n && entries[i].name == id ==> |entries[i].blanks| < MAXBLANKS
    ensures TableValid(GotoTable(entries, n, id, b), GotoCount(entries, n, id), symbols)
  {
    match FirstNamed(entries, id)
    case Some(i) =>
      assert i < n;
    case None =>
  }

  /** The goto table after labeldcl: the name's entry, if any, marked declared. */
  function DeclaredTable(entries: seq<GotoEntry>, id: string): seq<GotoEntry> {
    match FirstNamed(entries, id)
    case Some(i) => entries[i := entries[i].(patched := 1)]
    case None => entries
  }

  /** The equations labeldcl writes for the gotos waiting on id, resolved to lbl. */
  function WaitingEquations(entries: seq<GotoEntry>, id: string, lbl: nat): seq<Quad> {
    match FirstNamed(entries, id)
    case Some(i) => DfsBackpatch(entries[i].blanks, lbl)
    case None => []
  }

  /**
   * Declaring a name keeps the table well formed: its entry, the only one with that name, is
   * marked declared exactly as the name enters the symbol table.
   */
  lemma DeclareKeepsTable(entries: seq<GotoEntry>, n: nat, symbols: SymbolTable, id: string, lbl: int)
    requires TableValid(entries, n, symbols)
    requires |id| > 0 && id !in symbols
    ensures TableValid(DeclaredTable(entries, id), n, symbols[id := lbl])
  {
    match FirstNamed(entries, id)
    case Some(i) =>
      assert i < n;
    case None =>
  }

  /** The label line m() writes: one while the guard is set, none otherwise. */
  function LabelLine(guard: bool, lbl: nat): seq<Quad> {
    if guard then [LabelDef(lbl)] else []
  }

  /** The chain on top of a stack, or the empty chain of stackTop's dummy record when empty. */
  function TopOf(s: seq<seq<nat>>): seq<nat> {
    if s == [] then [] else s[|s| - 1]
  }

  /** A stack after stackPop: one record fewer, or still empty. */
  function PopOf(s: seq<seq<nat>>): seq<seq<nat>> {
    if s == [] then [] else s[..|s| - 1]
  }

  /** The branch quad that uses blank b: `bt t<c> B<b>` with a condition, `br B<b>` without. */
  function BranchTo(cond: Option<nat>, b: nat): Quad {
    if cond.Some? then Bt(cond.value, b) else Br(b)
  }

  /** The arithmetic quad op2 writes for a known operator, nothing for an unknown one. */
  function ArithLine(k: Option<ArithOp>, t: nat, isFloat: bool, xp: nat, yp: nat): seq<Quad> {
    if k.Some? then [Arith(t, k.value, isFloat, xp, yp)] else []
  }

  /** op2's reports: an unknown operator, or '%' with a double operand. */
  function Op2Diags(k: Option<ArithOp>, isFloat: bool): seq<Diag> {
    if k.None? then [Op2NotImplemented] else if k.value == Mod && isFloat then [ModOnFloat] else []
  }

  /** The bitwise quad opb writes for a known operator, nothing for an unknown one. */
  function BitwiseLine(k: Option<BitOp>, t: nat, xp: nat, yp: nat): seq<Quad> {
    if k.Some? then [Bitwise(t, k.value, xp, yp)] else []
  }

  /** 1 when a conversion happens: the temporaries it uses up. */
  function Used(c: bool): nat {
    if c then 1 else 0
  }

  /** An operand after `if (c) x = cast(x, t)`, with t0 the last temporary before the cast. */
  function Converted(c: bool, x: SemRec, t: Mode, t0: nat): SemRec {
    if c then x.(place := t0 + 1, mode := t) else x
  }

  /** The conversion quad that cast writes for it, or nothing. */
  function Conversion(c: bool, x: SemRec, t: Mode, t0: nat): seq<Quad> {
    if c then [Convert(t0 + 1, t != INT, x.place)] else []
  }

  /** A Stack: a fixed array of MAXRECS chains and a size. */
  class LoopStack {
    const data: array<seq<nat>>
    var size: nat

    ghost predicate Valid()
      reads this, data
    {
      data.Length == MAXRECS && size <= MAXRECS
    }

    /** The chains on the stack, bottom first. */
    ghost function Elements(): seq<seq<nat>>
      reads this, data
      requires Valid()
    {
      data[..size]
    }

    constructor ()
      ensures Valid() && Elements() == [] && fresh(data)
    {
      data := new seq<nat>[MAXRECS](_ => []);
      size := 0;
    }

    /** stackPush: refused, leaving the stack as it was, once MAXRECS records are on it. */
    method Push(chain: seq<nat>) returns (full: bool)
      requires Valid()
      modifies this, data
      ensures Valid()
      ensures full <==> old(size) == MAXRECS
      ensures Elements() == if full then old(Elements()) else old(Elements()) + [chain]
    {
      if size < MAXRECS {
        data[size] := chain;
        size := size + 1;
        full := false;
      } else {
        full := true;
      }
    }

    /** stackPop: on an empty stack nothing changes and the size stays 0. */
    method Pop() returns (empty: bool)
      requires Valid()
      modifies this
      ensures Valid()
      ensures empty <==> old(size) == 0
      ensures Elements() == PopOf(old(Elements()))
    {
      if size == 0 {
        empty := true;
      } else {
        size := size - 1;
        empty := false;
      }
    }

    /** stackTop: the top chain, or an empty chain (and an error) when the stack is empty. */
    method Top() returns (chain: seq<nat>, empty: bool)
      requires Valid()
      ensures empty <==> |Elements()| == 0
      ensures chain == TopOf(Elements())
    {
      if size == 0 {
        chain, empty := [], true;
      } else {
        chain, empty := data[size - 1], false;
      }
    }

    /** merge(stackTop(s), r): hangs one more blank at the end of the top chain. */
    method AppendTop(b: nat)
      requires Valid() && size > 0
      modifies data
      ensures Valid()
      ensures Elements() == PopOf(old(Elements())) + [TopOf(old(Elements())) + [b]]
    {
      data[size - 1] := data[size - 1] + [b];
    }
  }

  /**
   * The global state of semdum.c. Each action names in its `modifies` clause the fields it may
   * change and states their new values; every other field keeps its value.
   */
  class CodeGen {
    /** Last concrete label issued (labelNum). */
    var labelNum: nat
    /** Last blank issued (blankLabel). */
    var blankLabel: nat
    /** The label guard: m() emits a new label only while it is set. */
    var labelScope: bool
    /** Last temporary issued by nexttemp(). */
    var tempNum: nat
    /** Everything written to stdout, in order. */
    var out: seq<Quad>
    /** Everything written to stderr, in order. */
    var diags: seq<Diag>
    /** The symbol table, reduced to the offsets goto and label declarations use. */
    var symbols: SymbolTable
    /** bpArr and currBpArr. */
    const table: array<GotoEntry>
    var currBp: nat
    const continueStack: LoopStack
    const breakStack: LoopStack

    /**
     * The blanks in the output are exactly 1, 2, ..., blankLabel in order and the concrete labels
     * exactly 1, 2, ..., labelNum, so both are fresh and unique.
     */
    ghost predicate NumbersValid()
      reads this`out, this`blankLabel, this`labelNum
    {
      Counted(out, true, 0, blankLabel) && Counted(out, false, 0, labelNum)
    }

    /** The goto table is well formed (TableValid). */
    ghost predicate GotosValid()
      reads this`currBp, this`symbols, table
    {
      table.Length == MAXLABELS && TableValid(table[..], currBp, symbols)
    }

    /** The two loop stacks are separate and always have the same depth. */
    ghost predicate StacksValid()
      reads continueStack, continueStack.data, breakStack, breakStack.data
    {
      && continueStack != breakStack
      && continueStack.data != breakStack.data
      && continueStack.Valid() && breakStack.Valid()
      && continueStack.size == breakStack.size
    }

    ghost predicate Valid()
      reads this`out, this`blankLabel, this`labelNum, this`currBp, this`symbols, table
      reads continueStack, continueStack.data, breakStack, breakStack.data
    {
      NumbersValid() && GotosValid() && StacksValid()
    }

    /** The start state: nothing emitted, the guard set, an empty goto table and empty stacks. */
    constructor (decls: SymbolTable)
      ensures Valid()
      ensures labelNum == 0 && blankLabel == 0 && labelScope && tempNum == 0
      ensures out == [] && diags == [] && symbols == decls && currBp == 0
      ensures table[..] == seq(MAXLABELS, _ => EMPTY)
      ensures continueStack.Elements() == [] && breakStack.Elements() == []
    {
      labelNum, blankLabel, labelScope, tempNum := 0, 0, true, 0;
      out, diags, symbols := [], [], decls;
      table := new GotoEntry[MAXLABELS](_ => EMPTY);
      currBp := 0;
      continueStack := new LoopStack();
      breakStack := new LoopStack();
      new;
      assert table[..] == seq(MAXLABELS, _ => EMPTY);
    }

    /** nextBlankLabel: the previous counter plus one. */
    method NextBlankLabel() returns (b: nat)
      modifies this`blankLabel
      ensures b == old(blankLabel) + 1 && blankLabel == b
    {
      blankLabel := blankLabel + 1;
      b := blankLabel;
    }

    /** nexttemp: the previous temporary plus one. */
    method NextTemp() returns (t: nat)
      modifies this`tempNum
      ensures t == old(tempNum) + 1 && tempNum == t
    {
      tempNum := tempNum + 1;
      t := tempNum;
    }

    /** A printf of a quad that introduces no label and no blank. */
    method Emit(q: Quad)
      requires Valid() && Silent(q)
      modifies this`out
      ensures Valid()
      ensures out == old(out) + [q]
    {
      CountedPush(out, q, true, 0, blankLabel);
      CountedPush(out, q, false, 0, labelNum);
      out := out + [q];
    }

    /** The printf of a run of equations. */
    method EmitQuiet(qs: seq<Quad>)
      requires Valid() && Quiet(qs)
      modifies this`out
      ensures Valid()
      ensures out == old(out) + qs
    {
      CountedQuiet(out, qs, true, 0, blankLabel);
      CountedQuiet(out, qs, false, 0, labelNum);
      out := out + qs;
    }

    /** Messages on stderr (directly or through yyerror). */
    method Report(ds: seq<Diag>)
      requires Valid()
      modifies this`diags
      ensures Valid()
      ensures diags == old(diags) + ds
    {
      diags := diags + ds;
    }

    /**
     * nextBlankLabel followed by the branch that uses the new blank, `bt t<c> B<k>` when a
     * condition is given and `br B<k>` otherwise. The blank was never issued before.
     */
    method Branch(cond: Option<nat>) returns (b: nat)
      requires Valid()
      modifies this`blankLabel, this`out
      ensures Valid()
      ensures b == old(blankLabel) + 1
      ensures blankLabel == b && out == old(out) + [BranchTo(cond, b)]
    {
      CountedPush(out, BranchTo(cond, blankLabel + 1), true, 0, blankLabel);
      CountedPush(out, BranchTo(cond, blankLabel + 1), false, 0, labelNum);
      b := NextBlankLabel();
      out := out + [BranchTo(cond, b)];
    }

    /** n: a jump to a fresh blank; sets the guard. */
    method N() returns (b: nat)
      requires Valid()
      modifies this`blankLabel, this`out, this`labelScope
      ensures Valid()
      ensures b == old(blankLabel) + 1 && b !in Issued(old(out), true)
      ensures blankLabel == b && labelScope && out == old(out) + [Br(b)]
    {
      CountedBound(out, true, 0, blankLabel);
      b := Branch(None);
      labelScope := true;
    }

    /**
     * m: while the guard is set, emits a new label and clears the guard; otherwise emits nothing
     * and returns the current label, so calls with no action in between share one label.
     */
    method M() returns (lbl: nat)
      requires Valid()
      modifies this`labelNum, this`out, this`labelScope
      ensures Valid()
      ensures !labelScope && labelNum == lbl
      ensures old(labelScope) ==> lbl == old(labelNum) + 1 && lbl !in Issued(old(out), false)
      ensures !old(labelScope) ==> lbl == old(labelNum)
      ensures out == old(out) + LabelLine(old(labelScope), lbl)
    {
      if labelScope {
        CountedBound(out, false, 0, labelNum);
        CountedPush(out, LabelDef(labelNum + 1), true, 0, blankLabel);
        CountedPush(out, LabelDef(labelNum + 1), false, 0, labelNum);
        labelNum := labelNum + 1;
        out := out + [LabelDef(labelNum)];
      }
      labelScope := false;
      lbl := labelNum;
    }

    /** cast: a conversion into a new temporary, which the record then names, with mode t. */
    method Cast(x: SemRec, t: Mode) returns (r: SemRec)
      requires Valid()
      modifies this`tempNum, this`out
      ensures Valid()
      ensures r == x.(place := old(tempNum) + 1, mode := t)
      ensures tempNum == r.place && out == old(out) + [Convert(r.place, t != INT, x.place)]
    {
      var temp := NextTemp();
      Emit(Convert(temp, t != INT, x.place));
      r := x.(place := temp, mode := t);
    }

    /** `if (c) x = cast(x, t);` as op2, opb and rel write it. */
    method CastIf(c: bool, x: SemRec, t: Mode) returns (r: SemRec)
      requires Valid()
      modifies this`tempNum, this`out
      ensures Valid()
      ensures r == Converted(c, x, t, old(tempNum))
      ensures tempNum == old(tempNum) + Used(c)
      ensures out == old(out) + Conversion(c, x, t, old(tempNum))
    {
      if c {
        r := Cast(x, t);
      } else {
        r := x;
      }
    }

    /**
     * The common start of op2, opb and rel: the first operand, then the second, converted to
     * mode t when asked, then a fresh temporary for the result.
     */
    method Operands(c1: bool, x1: SemRec, c2: bool, x2: SemRec, t: Mode)
      returns (y1: SemRec, y2: SemRec, temp: nat)
      requires Valid()
      modifies this`tempNum, this`out
      ensures Valid()
      ensures y1 == Converted(c1, x1, t, old(tempNum))
      ensures y2 == Converted(c2, x2, t, old(tempNum) + Used(c1))
      ensures temp == old(tempNum) + Used(c1) + Used(c2) + 1 && tempNum == temp
      ensures out == old(out) + Conversion(c1, x1, t, old(tempNum))
                              + Conversion(c2, x2, t, old(tempNum) + Used(c1))
    {
      y1 := CastIf(c1, x1, t);
      y2 := CastIf(c2, x2, t);
      temp := NextTemp();
    }

    /**
     * op2: the conversion Op2Rule chooses, a fresh temporary, and the arithmetic quad of the
     * operator's first character; an unknown operator is reported and yields NULL, '%' on a
     * double is reported and still emitted.
     */
    method Op2(op: string, x: SemRec, y: SemRec) returns (r: Option<SemRec>)
      requires Valid()
      modifies this`tempNum, this`out, this`labelScope, this`diags
      ensures Valid()
      ensures
        var p := Op2Rule(x.mode, y.mode);
        var t0 := old(tempNum);
        var x' := Converted(p.castX, x, DOUBLE, t0);
        var y' := Converted(p.castY, y, DOUBLE, t0 + Used(p.castX));
        var t := t0 + Used(p.castX) + Used(p.castY) + 1;
        && (r.Some? <==> Op2Kind(op).Some?)
        && (r.Some? ==> r.value == SemRec(t, x'.mode, [], []))
        && tempNum == t
        && labelScope
        && out == old(out) + Conversion(p.castX, x, DOUBLE, t0)
                           + Conversion(p.castY, y, DOUBLE, t0 + Used(p.castX))
                           + ArithLine(Op2Kind(op), t, p.isFloat, x'.place, y'.place)
        && diags == old(diags) + Op2Diags(Op2Kind(op), p.isFloat)
    {
      labelScope := true;
      var p := Op2Rule(x.mode, y.mode);
      var x', y', temp := Operands(p.castX, x, p.castY, y, DOUBLE);
      r := Op2Switch(Op2Kind(op), temp, p.isFloat, x', y');
    }

    /**
     * op2's switch on the operator: the quad and the record for a known operator, the report
     * for '%' on doubles (after the conversion an operand is a double exactly when the plan is
     * the float one) and for an unknown operator.
     */
    method Op2Switch(k: Option<ArithOp>, temp: nat, isFloat: bool, x: SemRec, y: SemRec)
      returns (r: Option<SemRec>)
      requires Valid()
      requires isFloat <==> x.mode == DOUBLE || y.mode == DOUBLE
      modifies this`out, this`diags
      ensures Valid()
      ensures r.Some? <==> k.Some?
      ensures r.Some? ==> r.value == SemRec(temp, x.mode, [], [])
      ensures out == old(out) + ArithLine(k, temp, isFloat, x.place, y.place)
      ensures diags == old(diags) + Op2Diags(k, isFloat)
    {
      match k
      case Some(a) =>
        if a == Mod && (x.mode == DOUBLE || y.mode == DOUBLE) {
          Report([ModOnFloat]);
        }
        Emit(Arith(temp, a, isFloat, x.place, y.place));
        r := Some(SemRec(temp, x.mode, [], []));
      case None =>
        Report([Op2NotImplemented]);
        r := None;
    }

    /**
     * opb: the right operand, then the left, is converted to int when it is a double; the quad is
     * always the integer variant; an unknown operator is reported and yields NULL.
     */
    method Opb(op: string, x: SemRec, y: SemRec) returns (r: Option<SemRec>)
      requires Valid()
      modifies this`tempNum, this`out, this`labelScope, this`diags
      ensures Valid()
      ensures
        var p := OpbRule(x.mode, y.mode);
        var t0 := old(tempNum);
        var y' := Converted(p.castY, y, INT, t0);
        var x' := Converted(p.castX, x, INT, t0 + Used(p.castY));
        var t := t0 + Used(p.castY) + Used(p.castX) + 1;
        && (r.Some? <==> OpbKind(op).Some?)
        && (r.Some? ==> r.value == SemRec(t, x'.mode, [], []))
        && tempNum == t
        && labelScope
        && out == old(out) + Conversion(p.castY, y, INT, t0)
                           + Conversion(p.castX, x, INT, t0 + Used(p.castY))
                           + BitwiseLine(OpbKind(op), t, x'.place, y'.place)
        && diags == old(diags) + (if OpbKind(op).None? then [OpbNotImplemented] else [])
    {
      labelScope := true;
      var p := OpbRule(x.mode, y.mode);
      var y', x', temp := Operands(p.castY, y, p.castX, x, INT);
      r := OpbSwitch(OpbKind(op), temp, x', y');
    }

    /** opb's switch on the operator: the quad and the record, or the report and NULL. */
    method OpbSwitch(k: Option<BitOp>, temp: nat, x: SemRec, y: SemRec) returns (r: Option<SemRec>)
      requires Valid()
      modifies this`out, this`diags
      ensures Valid()
      ensures r.Some? <==> k.Some?
      ensures r.Some? ==> r.value == SemRec(temp, x.mode, [], [])
      ensures out == old(out) + BitwiseLine(k, temp, x.place, y.place)
      ensures diags == old(diags) + (if k.None? then [OpbNotImplemented] else [])
    {
      match k
      case Some(b) =>
        Emit(Bitwise(temp, b, x.place, y.place));
        r := Some(SemRec(temp, x.mode, [], []));
      case None =>
        Report([OpbNotImplemented]);
        r := None;
    }

    /**
     * rel: the conversion RelRule chooses, the comparison into a fresh temporary, then a
     * conditional branch to a fresh blank (the true chain) and a jump to the next fresh blank
     * (the false chain).
     */
    method Rel(op: string, x: SemRec, y: SemRec) returns (r: SemRec)
      requires Valid()
      modifies this`tempNum, this`out, this`blankLabel, this`labelScope
      ensures Valid()
      ensures
        var p := RelRule(x.mode, y.mode);
        var t0 := old(tempNum);
        var x' := Converted(p.castX, x, DOUBLE, t0);
        var y' := Converted(p.castY, y, DOUBLE, t0 + Used(p.castX));
        var t := t0 + Used(p.castX) + Used(p.castY) + 1;
        var b := old(blankLabel);
        && r == SemRec(t, x'.mode, [b + 1], [b + 2])
        && tempNum == t
        && blankLabel == b + 2
        && labelScope
        && out == old(out) + Conversion(p.castX, x, DOUBLE, t0)
                           + Conversion(p.castY, y, DOUBLE, t0 + Used(p.castX))
                           + [Compare(t, RelOpOf(op), p.isFloat, x'.place, y'.place)]
                           + [Bt(t, b + 1)] + [Br(b + 2)]
    {
      labelScope := true;
      var p := RelRule(x.mode, y.mode);
      var x', y', temp := Operands(p.castX, x, p.castY, y, DOUBLE);
      var trueLabel, falseLabel := RelTail(temp, RelOpOf(op), p.isFloat, x'.place, y'.place);
      r := SemRec(temp, x'.mode, [trueLabel], [falseLabel]);
    }

    /**
     * The end of rel: the comparison, then `bt` to one fresh blank and `br` to the next. rel
     * allocates both blanks before writing both branches; allocating each just before its
     * branch gives the same state.
     */
    method RelTail(temp: nat, rop: RelOp, isFloat: bool, xp: nat, yp: nat) returns (t: nat, f: nat)
      requires Valid()
      modifies this`out, this`blankLabel
      ensures Valid()
      ensures t == old(blankLabel) + 1 && f == old(blankLabel) + 2 && blankLabel == f
      ensures out == old(out) + [Compare(temp, rop, isFloat, xp, yp)] + [Bt(temp, t)] + [Br(f)]
    {
      Emit(Compare(temp, rop, isFloat, xp, yp));
      t := Branch(Some(temp));
      f := Branch(None);
    }

    /** ccand: e1's true chain is resolved to m; the result is AndOf(e1, e2). */
    method CcAnd(e1: SemRec, m: nat, e2: SemRec) returns (r: SemRec)
      requires Valid()
      modifies this`labelScope, this`out
      ensures Valid()
      ensures r == AndOf(e1, e2)
      ensures labelScope && out == old(out) + DfsBackpatch(e1.trueList, m)
    {
      labelScope := true;
      EquationsQuiet(e1.trueList, m);
      EmitQuiet(DfsBackpatch(e1.trueList, m));
      r := AndOf(e1, e2);
    }

    /** ccor: e1's false chain is resolved to m; the result is OrOf(e1, e2). */
    method CcOr(e1: SemRec, m: nat, e2: SemRec) returns (r: SemRec)
      requires Valid()
      modifies this`labelScope, this`out
      ensures Valid()
      ensures r == OrOf(e1, e2)
      ensures labelScope && out == old(out) + DfsBackpatch(e1.falseList, m)
    {
      labelScope := true;
      EquationsQuiet(e1.falseList, m);
      EmitQuiet(DfsBackpatch(e1.falseList, m));
      r := OrOf(e1, e2);
    }

    /** ccnot, with chains whose order does not depend on a link field: emits nothing. */
    method CcNot(e: SemRec) returns (r: SemRec)
      modifies this`labelScope
      ensures r == NotOf(e)
      ensures labelScope
    {
      labelScope := true;
      r := NotOf(e);
    }

    /** doif: resolves the condition's chains (IfEquations). */
    method DoIf(e: SemRec, m1: nat, m2: nat)
      requires Valid()
      modifies this`out
      ensures Valid()
      ensures out == old(out) + IfEquations(e, m1, m2)
    {
      IfQuiet(e, m1, m2);
      EmitQuiet(IfEquations(e, m1, m2));
    }

    /** doifelse: resolves the condition's chains and the then-branch's jump (IfElseEquations). */
    method DoIfElse(e: SemRec, m1: nat, n: nat, m2: nat, m3: nat)
      requires Valid()
      modifies this`out
      ensures Valid()
      ensures out == old(out) + IfElseEquations(e, m1, n, m2, m3)
    {
      IfElseQuiet(e, m1, n, m2, m3);
      EmitQuiet(IfElseEquations(e, m1, n, m2, m3));
    }

    /** The "stack empty" messages of `per` stack operations on empty stacks. */
    static function EmptyErrors(depth: nat, per: nat): seq<Diag> {
      if depth == 0 then seq(per, _ => StackEmpty) else []
    }

    /**
     * startloopscope: pushes an empty chain on each stack (both refused together when full).
     */
    method StartLoopScope()
      requires Valid()
      modifies this`diags, continueStack, breakStack, continueStack.data, breakStack.data
      ensures Valid()
      ensures continueStack.Elements() ==
        if old(continueStack.size) == MAXRECS then old(continueStack.Elements()) else old(continueStack.Elements()) + [[]]
      ensures breakStack.Elements() ==
        if old(breakStack.size) == MAXRECS then old(breakStack.Elements()) else old(breakStack.Elements()) + [[]]
      ensures diags == old(diags) + if old(continueStack.size) == MAXRECS then [StackFull, StackFull] else []
    {
      var full1 := continueStack.Push([]);
      var full2 := breakStack.Push([]);
      diags := diags + (if full1 then [StackFull] else []) + (if full2 then [StackFull] else []);
    }

    /** endloopscope: pops one record from each stack. */
    method EndLoopScope()
      requires Valid()
      modifies this`diags, continueStack, breakStack
      ensures Valid()
      ensures continueStack.Elements() == PopOf(old(continueStack.Elements()))
      ensures breakStack.Elements() == PopOf(old(breakStack.Elements()))
      ensures diags == old(diags) + EmptyErrors(old(continueStack.size), 2)
    {
      var empty1 := continueStack.Pop();
      var empty2 := breakStack.Pop();
      diags := diags + (if empty1 then [StackEmpty] else []) + (if empty2 then [StackEmpty] else []);
    }

    /**
     * stackTop on both stacks: the innermost loop's continue and break chains, with an error
     * for each stack that is empty.
     */
    method LoopChains() returns (continues: seq<nat>, breaks: seq<nat>)
      requires Valid()
      modifies this`diags
      ensures Valid()
      ensures continues == TopOf(continueStack.Elements()) && breaks == TopOf(breakStack.Elements())
      ensures diags == old(diags) + EmptyErrors(continueStack.size, 2)
    {
      var empty1, empty2;
      continues, empty1 := continueStack.Top();
      breaks, empty2 := breakStack.Top();
      diags := diags + (if empty1 then [StackEmpty] else []) + (if empty2 then [StackEmpty] else []);
    }

    /** The equations that close a loop, then endloopscope. */
    method CloseLoop(eqs: seq<Quad>)
      requires Valid() && Quiet(eqs)
      modifies this`out, this`diags, continueStack, breakStack
      ensures Valid()
      ensures continueStack.Elements() == PopOf(old(continueStack.Elements()))
      ensures breakStack.Elements() == PopOf(old(breakStack.Elements()))
      ensures out == old(out) + eqs
      ensures diags == old(diags) + EmptyErrors(old(continueStack.size), 2)
    {
      EmitQuiet(eqs);
      EndLoopScope();
    }

    /**
     * dowhile: resolves the condition, the body's back jump and the loop's pending continues and
     * breaks (WhileEquations), then leaves the loop scope.
     */
    method DoWhile(m1: nat, e: SemRec, m2: nat, n: nat, m3: nat)
      requires Valid()
      modifies this`out, this`diags, continueStack, breakStack
      ensures Valid()
      ensures continueStack.Elements() == PopOf(old(continueStack.Elements()))
      ensures breakStack.Elements() == PopOf(old(breakStack.Elements()))
      ensures out == old(out) + WhileEquations(m1, e, m2, n, m3,
                                  TopOf(old(continueStack.Elements())), TopOf(old(breakStack.Elements())))
      ensures diags == old(diags) + EmptyErrors(old(continueStack.size), 4)
    {
      var continues, breaks := LoopChains();
      WhileQuiet(m1, e, m2, n, m3, continues, breaks);
      CloseLoop(WhileEquations(m1, e, m2, n, m3, continues, breaks));
    }

    /**
     * dodo: resolves the condition and the loop's pending continues and breaks (DoEquations),
     * then leaves the loop scope.
     */
    method DoDo(m1: nat, m2: nat, e: SemRec, m3: nat)
      requires Valid()
      modifies this`out, this`diags, continueStack, breakStack
      ensures Valid()
      ensures continueStack.Elements() == PopOf(old(continueStack.Elements()))
      ensures breakStack.Elements() == PopOf(old(breakStack.Elements()))
      ensures out == old(out) + DoEquations(m1, m2, e, m3,
                                  TopOf(old(continueStack.Elements())), TopOf(old(breakStack.Elements())))
      ensures diags == old(diags) + EmptyErrors(old(continueStack.size), 4)
    {
      var continues, breaks := LoopChains();
      DoQuiet(m1, m2, e, m3, continues, breaks);
      CloseLoop(DoEquations(m1, m2, e, m3, continues, breaks));
    }

    /**
     * dofor: resolves the condition, the two jumps and the loop's pending continues and breaks
     * (ForEquations), then leaves the loop scope.
     */
    method DoFor(m1: nat, e2: SemRec, m2: nat, n1: nat, m3: nat, n2: nat, m4: nat)
      requires Valid()
      modifies this`out, this`diags, continueStack, breakStack
      ensures Valid()
      ensures continueStack.Elements() == PopOf(old(continueStack.Elements()))
      ensures breakStack.Elements() == PopOf(old(breakStack.Elements()))
      ensures out == old(out) + ForEquations(m1, e2, m2, n1, m3, n2, m4,
                                  TopOf(old(continueStack.Elements())), TopOf(old(breakStack.Elements())))
      ensures diags == old(diags) + EmptyErrors(old(continueStack.size), 4)
    {
      var continues, breaks := LoopChains();
      ForQuiet(m1, e2, m2, n1, m3, n2, m4, continues, breaks);
      CloseLoop(ForEquations(m1, e2, m2, n1, m3, n2, m4, continues, breaks));
    }

    /**
     * dobreak: inside a loop, a jump to a fresh blank that joins the innermost loop's break
     * chain; outside every loop, an error and no jump.
     */
    method DoBreak()
      requires Valid()
      modifies this`blankLabel, this`out, this`labelScope, this`diags, breakStack.data
      ensures Valid()
      ensures continueStack.Elements() == old(continueStack.Elements())
      ensures old(breakStack.size) > 0 ==>
        && breakStack.Elements() == PopOf(old(breakStack.Elements()))
                                    + [TopOf(old(breakStack.Elements())) + [old(blankLabel) + 1]]
        && blankLabel == old(blankLabel) + 1 && labelScope
        && out == old(out) + [Br(old(blankLabel) + 1)] && diags == old(diags)
      ensures old(breakStack.size) == 0 ==>
        && breakStack.Elements() == old(breakStack.Elements())
        && blankLabel == old(blankLabel) && labelScope == old(labelScope)
        && out == old(out) && diags == old(diags) + [BreakOutsideLoop]
    {
      if breakStack.size > 0 {
        var b := N();
        breakStack.AppendTop(b);
      } else {
        Report([BreakOutsideLoop]);
      }
    }

    /**
     * docontinue: inside a loop, a jump to a fresh blank that joins the innermost loop's
     * continue chain; outside every loop, an error and no jump.
     */
    method DoContinue()
      requires Valid()
      modifies this`blankLabel, this`out, this`labelScope, this`diags, continueStack.data
      ensures Valid()
      ensures breakStack.Elements() == old(breakStack.Elements())
      ensures old(continueStack.size) > 0 ==>
        && continueStack.Elements() == PopOf(old(continueStack.Elements()))
                                       + [TopOf(old(continueStack.Elements())) + [old(blankLabel) + 1]]
        && blankLabel == old(blankLabel) + 1 && labelScope
        && out == old(out) + [Br(old(blankLabel) + 1)] && diags == old(diags)
      ensures old(continueStack.size) == 0 ==>
        && continueStack.Elements() == old(continueStack.Elements())
        && blankLabel == old(blankLabel) && labelScope == old(labelScope)
        && out == old(out) && diags == old(diags) + [ContinueOutsideLoop]
    {
      if continueStack.size > 0 {
        var b := N();
        continueStack.AppendTop(b);
      } else {
        Report([ContinueOutsideLoop]);
      }
    }

    /** findLabel: scans all MAXLABELS entries for the first with this name. */
    method FindLabel(id: string) returns (r: Option<nat>)
      requires table.Length == MAXLABELS
      ensures r == FirstNamed(table[..], id)
    {
      var i := 0;
      while i < MAXLABELS
        invariant 0 <= i <= MAXLABELS
        invariant forall j :: 0 <= j < i ==> table[j].name != id
      {
        if table[i].name == id {
          return Some(i);
        }
        i := i + 1;
      }
      return None;
    }

    /**
     * addLabel: a new entry waiting (-1) with the one blank, at index currBpArr; refused with a
     * message once all MAXLABELS entries are in use.
     */
    method AddLabel(labelNo: nat, id: string)
      requires Valid()
      requires 0 < |id| < NAMELEN && id !in symbols
      requires FirstNamed(table[..], id).None?
      modifies this`currBp, this`diags, table
      ensures Valid()
      ensures old(currBp) < MAXLABELS ==>
        && table[..] == old(table[..])[old(currBp) := GotoEntry(id, [labelNo], -1)]
        && currBp == old(currBp) + 1 && diags == old(diags)
      ensures old(currBp) >= MAXLABELS ==>
        && table[..] == old(table[..])
        && currBp == old(currBp) && diags == old(diags) + [LabelTableFull]
    {
      if currBp >= MAXLABELS {
        diags := diags + [LabelTableFull];
        return;
      }
      table[currBp] := GotoEntry(id, [labelNo], -1);
      currBp := currBp + 1;
    }

    /**
     * dogoto: a declared name gives a jump straight to its label. Otherwise the jump goes to a
     * fresh blank, which joins the end of the name's pending list, or starts a new entry.
     */
    method DoGoto(id: string)
      requires Valid()
      requires 0 < |id| < NAMELEN
      requires forall i :: 0 <= i < currBp && table[i].name == id ==> |table[i].blanks| < MAXBLANKS
      modifies this`labelScope, this`blankLabel, this`out, this`currBp, this`diags, table
      ensures Valid()
      ensures labelScope
      ensures id in old(symbols) ==>
        && table[..] == old(table[..])
        && blankLabel == old(blankLabel) && currBp == old(currBp) && diags == old(diags)
        && out == old(out) + [BrLabel(old(symbols)[id])]
      ensures id !in old(symbols) ==>
        var b := old(blankLabel) + 1;
        && blankLabel == b && out == old(out) + [Br(b)]
        && table[..] == GotoTable(old(table[..]), old(currBp), id, b)
        && currBp == GotoCount(old(table[..]), old(currBp), id)
        && diags == old(diags) + GotoDiags(old(table[..]), old(currBp), id)
    {
      labelScope := true;
      if id !in symbols {
        var b := N();
        PendGoto(id, b);
      } else {
        Emit(BrLabel(symbols[id]));
      }
    }

    /** The table part of dogoto for an undeclared name: findLabel, then addLabel or a push. */
    method PendGoto(id: string, b: nat)
      requires Valid()
      requires 0 < |id| < NAMELEN && id !in symbols
      requires forall i :: 0 <= i < currBp && table[i].name == id ==> |table[i].blanks| < MAXBLANKS
      modifies this`currBp, this`diags, table
      ensures Valid()
      ensures table[..] == GotoTable(old(table[..]), old(currBp), id, b)
      ensures currBp == GotoCount(old(table[..]), old(currBp), id)
      ensures diags == old(diags) + GotoDiags(old(table[..]), old(currBp), id)
    {
      GotoKeepsTable(table[..], currBp, symbols, id, b);
      var found := FindLabel(id);
      match found
      case None =>
        AddLabel(b, id);
      case Some(i) =>
        table[i] := table[i].(blanks := table[i].blanks + [b]);
        assert forall j :: 0 <= j < MAXLABELS && j != i ==> table[j] == old(table[j]);
    }

    /** backpatchGotoLabels: one equation per pending blank, in the order the gotos appeared. */
    method BackpatchGotoLabels(blanks: seq<nat>, lbl: nat)
      modifies this`out
      ensures out == old(out) + DfsBackpatch(blanks, lbl)
    {
      var i := 0;
      while i < |blanks|
        invariant 0 <= i <= |blanks|
        invariant out == old(out) + DfsBackpatch(blanks[..i], lbl)
      {
        DfsBackpatchSnoc(blanks[..i], blanks[i], lbl);
        assert blanks[..i + 1] == blanks[..i] + [blanks[i]];
        out := out + [Patch(blanks[i], lbl)];
        i := i + 1;
      }
      assert blanks[..i] == blanks;
    }

    /** setBackpatchedLabel: marks the first entry with this name as declared. */
    method SetBackpatchedLabel(id: string)
      requires table.Length == MAXLABELS
      modifies table
      ensures table[..] == DeclaredTable(old(table[..]), id)
    {
      var i := 0;
      while i < MAXLABELS
        invariant 0 <= i <= MAXLABELS
        invariant forall j :: 0 <= j < i ==> table[j].name != id
        invariant table[..] == old(table[..])
      {
        if table[i].name == id {
          table[i] := table[i].(patched := 1);
          return;
        }
        i := i + 1;
      }
    }

    /**
     * labeldcl: a new label name gets m()'s label, every goto waiting for it is resolved to that
     * label in the order the gotos appeared, and its entry is marked declared; a name already in
     * the symbol table is reported and nothing else happens.
     */
    method LabelDcl(id: string)
      requires Valid()
      requires |id| > 0
      modifies this`labelNum, this`labelScope, this`out, this`symbols, this`diags, table
      ensures Valid()
      ensures id in old(symbols) ==>
        && table[..] == old(table[..])
        && labelNum == old(labelNum) && labelScope == old(labelScope) && out == old(out)
        && symbols == old(symbols) && diags == old(diags) + [LabelRedeclared(id)]
      ensures id !in old(symbols) ==>
        var lbl := if old(labelScope) then old(labelNum) + 1 else old(labelNum);
        && labelNum == lbl && labelScope && symbols == old(symbols)[id := lbl] && diags == old(diags)
        && table[..] == DeclaredTable(old(table[..]), id)
        && out == old(out) + LabelLine(old(labelScope), lbl) + WaitingEquations(old(table[..]), id, lbl)
    {
      if id !in symbols {
        // labeldcl installs the name before calling m(); m() does not look at the symbol table,
        // so installing it once the label is known gives the same state.
        var lbl := M();
        labelScope := true;
        DeclareLabel(id, lbl);
      } else {
        Report([LabelRedeclared(id)]);
      }
    }

    /**
     * The rest of labeldcl for a new name: the name is installed with its label, and the gotos
     * waiting for it are resolved and their entry marked declared.
     */
    method DeclareLabel(id: string, lbl: nat)
      requires Valid()
      requires |id| > 0 && id !in symbols
      modifies this`out, this`symbols, table
      ensures Valid()
      ensures symbols == old(symbols)[id := lbl]
      ensures table[..] == DeclaredTable(old(table[..]), id)
      ensures out == old(out) + WaitingEquations(old(table[..]), id, lbl)
    {
      DeclareKeepsTable(table[..], currBp, symbols, id, lbl);
      var found := FindLabel(id);
      if found.Some? {
        var o := out;
        var blanks := table[found.value].blanks;
        BackpatchGotoLabels(blanks, lbl);
        EquationsQuiet(blanks, lbl);
        CountedQuiet(o, DfsBackpatch(blanks, lbl), true, 0, blankLabel);
        CountedQuiet(o, DfsBackpatch(blanks, lbl), false, 0, labelNum);
        SetBackpatchedLabel(id);
      } else {
        assert out == old(out) + [];
      }
      symbols := symbols[id := lbl];
    }

    /** checkUnpatchedLabels: the names of all entries still waiting, in table order. */
    method CheckUnpatchedLabels() returns (names: seq<string>)
      requires table.Length == MAXLABELS
      ensures names == Unresolved(table[..])
    {
      names := [];
      var i := 0;
      while i < MAXLABELS
        invariant 0 <= i <= MAXLABELS
        invariant names == Unresolved(table[..i])
      {
        assert table[..i + 1][..i] == table[..i];
        if table[i].patched == -1 {
          names := names + [table[i].name];
        }
        i := i + 1;
      }
      assert table[..i] == table[..];
    }

    /** clearLabelArray: every entry unused again and currBpArr back to 0. */
    method ClearLabelArray()
      requires Valid()
      modifies this`currBp, table
      ensures Valid()
      ensures table[..] == seq(MAXLABELS, _ => EMPTY)
      ensures currBp == 0
    {
      var i := 0;
      while i < MAXLABELS
        invariant 0 <= i <= MAXLABELS
        invariant forall j :: 0 <= j < i ==> table[j] == EMPTY
        modifies table
      {
        table[i] := EMPTY;
        i := i + 1;
      }
      currBp := 0;
      assert table[..] == seq(MAXLABELS, _ => EMPTY);
    }

    /**
     * ftail: ends the function, reports every label used by a goto and never declared, and
     * empties the goto table for the next function.
     */
    method FTail()
      requires Valid()
      modifies this`out, this`diags, this`currBp, table
      ensures Valid()
      ensures table[..] == seq(MAXLABELS, _ => EMPTY) && currBp == 0
      ensures forall x :: x in Unresolved(old(table[..])) <==>
        exists i :: 0 <= i < old(currBp) && old(table[..])[i].name == x && x !in symbols
      ensures out == old(out) + [FuncEnd]
      ensures diags == old(diags) + Reports(Unresolved(old(table[..])))
    {
      Emit(FuncEnd);
      var names := CheckUnpatchedLabels();
      UnresolvedAreUndeclared(table[..], currBp, symbols);
      Report(Reports(names));
      ClearLabelArray();
    }
  }
}
