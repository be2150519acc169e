# C-Subset-Compiler core in Dafny

This project models two parts of the C-Subset-Compiler and proves properties of them.

The first part is the backpatch engine of `semdum.c`, which the parser drives one semantic action at a time. It
holds two label counters, the one-shot label guard, the forward-goto table and the two loop-scope stacks. It
writes three-address quads in which jumps go to "blanks" `B<k>`, and it later resolves each blank with an
equation `B<k>=L<j>`.

The second part is the block-by-block lowering of `bitcodegen.cpp` to LLVM IR. It covers:

- the storage shape of globals and locals;
- decoding and interning of string literals;
- the instruction chosen for each operator;
- the conversion before a return;
- the rules by which every basic block is closed.

How the pieces are modelled:

- Quads are abstract records (`Quads.Quad`), not printf text.
- A backpatch chain is the sequence of blank numbers met when walking it (module `Chains`).
- Module `LinkedChains` keeps the C code's linked nodes in an arena. It proves that `mergeFalse` on two
  separate acyclic lists walks as the concatenation `Chains` uses, and it exhibits the `ccnot` finding.
- The engine is the class `Semdum.CodeGen`. Each of its action methods states the complete new value of every
  field it may change.
- `CodeGen.Valid` is preserved by every action. It says three things:
  - the blanks in the output are exactly 1, 2, …, `blankLabel` in order, and the labels exactly 1, …,
    `labelNum`, so every number is fresh and unique;
  - the goto table is well formed (`Semdum.TableValid`);
  - the two loop stacks have the same depth.
- Rules that depend only on type tags and lexemes are pure functions, in modules `Coercion` and `LowerRules`.
- The lowering state is the class `Lowering.IrBuilder`. It holds the symbol table as a map, the globals and
  the created instructions as sequences, and the list of created blocks.
- The control-flow graph is an input (`cfg`).
- `processQuadLine` dispatches RETURN, BINOP, UNARY, STRING and JUMP lines to the modelled routines.
  `LineStep` is the effect of one line on the state, and `Run` its effect over a block's lines.
- Escape decoding is a loop proved against a recursive decoder (`StringLiteral`), with escaping as its
  inverse.

## Model

| member | source | states |
|---|---|---|
| Semdum.CodeGen.constructor | semdum.c:29-51 | Start state: no output, counters at 0, guard set, empty goto table, empty stacks; the invariant holds |
| Semdum.CodeGen.NextBlankLabel | semdum.c:59 | Returns the previous blank counter plus one and stores it |
| Semdum.CodeGen.Branch | semdum.c:59 | A fresh blank (old counter + 1) and exactly one branch quad to it; numbering invariant kept |
| Semdum.CodeGen.N | semdum.c:682-687 | Returns old counter + 1, a blank never issued before; sets the guard; emits exactly `br B<k>` |
| Semdum.CodeGen.M | semdum.c:671-677 | With the guard set: a new label never issued before, one label line, guard cleared. Without it: no output and the same label as before |
| Semdum.CodeGen.Cast | semdum.c:934-942 | One conversion into a new temporary; the record names it with the target mode |
| Semdum.CodeGen.Op2 | semdum.c:727-763 | Conversions chosen by Op2Rule, a fresh temporary, the arithmetic quad; unknown operator reported and yields NULL; `%` on doubles reported and still emitted |
| Semdum.CodeGen.Opb | semdum.c:770-801 | The right operand, then the left, converted to int when double; always the integer variant; unknown operator reported, NULL |
| Semdum.CodeGen.Rel | semdum.c:808-846 | Conversions by RelRule, the compare, then `bt` to blank b+1 and `br` to b+2; result chains are true [b+1] and false [b+2] |
| Semdum.CodeGen.CcAnd | semdum.c:143-153 | e1's true chain resolved to m; result true = e2.true, false = e1.false ++ e2.false |
| Semdum.CodeGen.CcOr | semdum.c:177-187 | e1's false chain resolved to m; result true = e1.true ++ e2.true, false = e2.false |
| Semdum.CodeGen.CcNot | semdum.c:168-171 | The two chains swap places and nothing is emitted (corrected form, see Findings) |
| Semdum.CodeGen.DoIf | semdum.c:274-279 | Appends the true chain's equations to m1, then the false chain's to m2 |
| Semdum.CodeGen.DoIfElse | semdum.c:317-322 | As DoIf, plus the then-branch jump n patched to m3 |
| Semdum.CodeGen.DoWhile | semdum.c:350-364 | Condition to body/exit, back jump to m1, innermost continues to m1, breaks to m3; both stacks popped |
| Semdum.CodeGen.DoDo | semdum.c:233-245 | Condition to body/exit, continues to m2, breaks to m3; both stacks popped |
| Semdum.CodeGen.DoFor | semdum.c:250-266 | Condition to m3/m4, continues to m2, n1 to m1, n2 to m2, breaks to m4; both stacks popped |
| Semdum.CodeGen.DoBreak | semdum.c:212-217 | In a loop: a jump to a fresh blank that joins the top break chain. Outside: an error, no jump, nothing else changes |
| Semdum.CodeGen.DoContinue | semdum.c:223-228 | The same for the continue stack |
| Semdum.CodeGen.StartLoopScope | semdum.c:902-909 | One empty chain pushed on each stack (each refused with a message when full); depths stay equal |
| Semdum.CodeGen.EndLoopScope | semdum.c:369-373 | One record popped from each stack; an empty stack stays empty and is reported |
| Semdum.LoopStack.Push | semdum.c:959-964 | Refused exactly when MAXRECS records are on the stack; otherwise the chain is on top |
| Semdum.LoopStack.Pop | semdum.c:966-971 | Empty exactly when the size was 0, in which case nothing changes; otherwise one record fewer |
| Semdum.LoopStack.Top | semdum.c:950-957 | The top chain, or an empty chain flagged as an error on an empty stack |
| Semdum.CodeGen.FindLabel | semdum.c:654-663 | The first table entry with the name, by a scan of all MAXLABELS entries |
| Semdum.CodeGen.AddLabel | semdum.c:581-597 | A new waiting entry (-1) with the one blank at index currBpArr; refused with a message once the table is full |
| Semdum.CodeGen.DoGoto | semdum.c:556-576 | Declared name: a jump straight to its label. Otherwise: a jump to a fresh blank, appended to the name's pending list or to a new entry |
| Semdum.CodeGen.PendGoto | semdum.c:567-572 | The table part of dogoto: push onto the found entry, or addLabel |
| Semdum.GotoKeepsTable | semdum.c:556-597 | A goto to an undeclared name keeps the goto table well formed |
| Semdum.CodeGen.BackpatchGotoLabels | semdum.c:637-642 | One equation per pending blank, in the order the gotos appeared |
| Semdum.CodeGen.SetBackpatchedLabel | semdum.c:644-652 | The first entry with that name is marked declared (1); nothing else changes |
| Semdum.CodeGen.LabelDcl | semdum.c:606-629 | New name: m()'s label, waiting gotos resolved in order, entry marked declared. Redeclared: an error and no label |
| Semdum.CodeGen.DeclareLabel | semdum.c:610-625 | The name installed with its label; the waiting equations emitted; the entry marked declared |
| Semdum.DeclareKeepsTable | semdum.c:606-652 | Declaring a name keeps the goto table well formed |
| Semdum.CodeGen.CheckUnpatchedLabels | semdum.c:469-475 | The names of exactly the entries still at -1, in table order |
| Semdum.UnresolvedAreUndeclared | semdum.c:469-475 | The reported names are exactly the labels used by a goto and never declared |
| Semdum.CodeGen.ClearLabelArray | semdum.c:480-494 | Every entry unused again and currBpArr = 0 |
| Semdum.CodeGen.FTail | semdum.c:454-463 | `fend`, one report per goto label never declared, then an empty goto table |
| Semdum.FirstNamed | semdum.c:654-663 | The index of the first entry with that name, if any, and none before it has the name |
| Semdum.Unresolved | semdum.c:469-475 | A name is listed exactly when some entry with it is still waiting |
| Quads.CountedMeans | semdum.c:59 | The numbering invariant means the numbers issued are exactly 1..n, in order |
| Quads.CountedPush | semdum.c:59 | Appending a branch to blank n+1 (or a quad with no number) keeps the numbering |
| Chains.DfsBackpatch | semdum.c:301-312 | One equation per chain node, in chain order, all with the same target; none for an empty chain |
| Chains.DfsBackpatchResolves | semdum.c:301-312 | Resolving a chain patches exactly its blanks, each once, in order |
| Chains.AndConserves | semdum.c:143-153 | ccand loses and duplicates no pending blank |
| Chains.OrConserves | semdum.c:177-187 | ccor loses and duplicates no pending blank |
| Chains.NotConserves | semdum.c:168-171 | Negation keeps every pending blank and is an involution on the chains |
| Chains.IfResolves | semdum.c:274-279 | doif patches every pending blank of the condition exactly once |
| Chains.IfElseResolves | semdum.c:317-322 | doifelse patches the condition's blanks and the jump n, each once |
| Chains.WhileResolves | semdum.c:350-364 | dowhile patches the condition, the back jump and every pending continue and break |
| Chains.DoResolves | semdum.c:233-245 | dodo patches the condition and every pending continue and break |
| Chains.ForResolves | semdum.c:250-266 | dofor patches the condition, both jumps and every pending continue and break |
| Coercion.Op2Rule | semdum.c:731-739 | Float variant exactly when an operand is a double; only the non-double side is converted; both sides end double |
| Coercion.OpbRule | semdum.c:771-778 | Exactly the double operands are converted to int; always the integer variant |
| Coercion.RelRule | semdum.c:809-818 | Which side is converted; on int/double operands both sides end in the same mode, float compare exactly when one is double |
| Coercion.SelectOp | semdum.c:848-850 | OP2 exactly for the operators op2 implements; every opb operator goes to OPB |
| LinkedChains.Walk | semdum.c:301-312 | A walk from NULL meets nothing; from a node it meets that node's blank first |
| LinkedChains.Rel | semdum.c:836-842 | rel's two nodes: the true chain is [t] and the false chain is [f] |
| LinkedChains.WalkFollows | semdum.c:301-312 | With fuel for every node, the walk along s_false meets exactly the list's blanks, in order |
| LinkedChains.LastFalseFinds | semdum.c:292 | mergeFalse's loop stops at the last node of p1's list |
| LinkedChains.ListAppend | semdum.c:292-293 | Setting the last node's s_false to p2 makes one list: p1's nodes, then p2's |
| LinkedChains.TrueWalkKeep | semdum.c:293 | Rewriting an s_false link changes no walk along back.s_true |
| LinkedChains.MergeFalseAppends | semdum.c:285-295 | On two separate lists without a cycle, the merged false chain walks p1's blanks and then p2's, which is Chains.Merge of the two walks; NULL on either side is an identity; no true chain changes |
| LinkedChains.NegatedConjunctionLosesBlank | semdum.c:168-171 | As written, `if (!(a<b && c<d))` patches B2 and B3 only; B4 never gets a target |
| LinkedChains.NegatedConjunctionResolved | semdum.c:143-171 | With chains as sequences and ccnot as NotOf, B1 is patched by ccand and B2, B4, B3 by doif |
| LowerRules.GlobalStorage | bitcodegen.cpp:133-149 | A global holds numElem cells of int or double for an array, one for a scalar |
| LowerRules.LocalArrayOverAllocates | bitcodegen.cpp:224-236 | As written, an array local of n elements reserves n*n cells, more than a global of the same declaration |
| LowerRules.LocalStorage | bitcodegen.cpp:216-249 | Corrected: a local reserves exactly the storage of a global with the same declaration |
| LowerRules.BinopOp | bitcodegen.cpp:558-654 | An instruction exactly for a lexeme starting with + - * / % & \| ^ < > or equal to == / !=; float instructions only for a double left operand |
| LowerRules.BinopFollowsTable | bitcodegen.cpp:563-653 | On every operator of the language binop picks the table's instruction: + - * / by type, % & \| ^ integer, << shl, >> ashr, signed or ordered compares |
| LowerRules.IntegerOnlyOps | bitcodegen.cpp:588-599 | % & \| ^ select the same integer instruction whatever the operand type |
| LowerRules.UnaryOp | bitcodegen.cpp:537-551 | An instruction exactly for `-` and `~`; fneg exactly for `-` on a double |
| LowerRules.ReturnConversion | bitcodegen.cpp:522-527 | A conversion exactly when the value's type differs from the return type |
| LowerRules.ReturnTyped | bitcodegen.cpp:519-530 | After the conversion the returned value has the function's type |
| Lowering.GlobalFor | bitcodegen.cpp:150-155 | The global has the name and createGlobal's type, and is zero-initialised exactly for an array |
| Lowering.StopsAtFirstBranch | bitcodegen.cpp:301-308 | The loop stops right after the first BRANCH; no BRANCH comes before it |
| Lowering.StopWithin | bitcodegen.cpp:301-308 | Before the stop, a line is the last processed exactly when it is a BRANCH or the last line |
| Lowering.AllocasPerLocal | bitcodegen.cpp:216-249 | One alloca per local, in order, named after it and reserving its declared storage |
| Lowering.Retyped | bitcodegen.cpp:224-236 | allocaLocals keeps every entry's declaration and global; only u.ltype changes |
| Lowering.ReturnCodeTyped | bitcodegen.cpp:519-530 | doReturn ends in `ret`, has two instructions exactly when types differ, and returns the function's type |
| Lowering.IrBuilder.constructor | bitcodegen.cpp:826-828 | The state once the entry block exists and is the insertion point: declarations, no globals, no code, the return type i32 or double as createFunction chooses it (bitcodegen.cpp:174-178) |
| Lowering.IrBuilder.CreateGlobal | bitcodegen.cpp:133-156 | One new global (GlobalFor); the entry records its type and global index; invariant kept |
| Lowering.IrBuilder.AllocaLocal | bitcodegen.cpp:220-248 | One alloca of the intended shape; an array's type recorded in its entry |
| Lowering.IrBuilder.AllocaLocals | bitcodegen.cpp:216-249 | The code gains LocalAllocas(names) and the symbol table becomes Retyped(names) |
| Lowering.IrBuilder.ReferenceString | bitcodegen.cpp:416-468 | Destination installed first; a new literal gets one constant global of its decoded bytes plus NUL; a known one reuses its global |
| Lowering.IrBuilder.ReferenceTwice | bitcodegen.cpp:418-467 | Two references to the same literal create at most one global and share it |
| Lowering.IrBuilder.Binop | bitcodegen.cpp:558-654 | The instruction BinopOp selects (none for an unknown lexeme); the result takes the left operand's type |
| Lowering.IrBuilder.Unary | bitcodegen.cpp:537-551 | The instruction UnaryOp selects; the result takes the operand's type |
| Lowering.IrBuilder.DoReturn | bitcodegen.cpp:519-530 | ReturnConversion's conversion, if any, then `ret`; the invariant is kept |
| Lowering.IrBuilder.Jump | bitcodegen.cpp:702-711 | Nothing into a block starting with `fend`; otherwise a branch, creating the block only if it does not exist yet |
| Lowering.IrBuilder.DoNoop | bitcodegen.cpp:719-734 | A dummy alloca, then a jump to the entry's successor or the block's layout successor, if any; the blocks gain exactly the one that jump creates |
| Lowering.IrBuilder.Enter | bitcodegen.cpp:840-844 | The next block's basic block is created only if no jump created it, and it becomes the insertion point |
| Lowering.IrBuilder.DoEmptyFuncEnd | bitcodegen.cpp:740-745 | A return of the zero of the function's return type |
| Lowering.IrBuilder.ProcessLine | bitcodegen.cpp:750-805 | The new state is LineStep's: JUMP through jump, RETURN through doReturn, BINOP through binop, UNARY through unary, STRING through referenceString; the other kinds the switch handles install the destination with the type the line carries and add one abstract instruction; BRANCH adds one abstract instruction; FUNC_END and unhandled kinds change nothing; None (a NULL lookup) is excluded |
| Lowering.IrBuilder.ProcessLines | bitcodegen.cpp:299-308 | The new state is Run: LineStep over exactly the lines up to and including the first BRANCH, in order |
| Lowering.IrBuilder.LoadedOperandTyped | bitcodegen.cpp:257-269 | A block that loads `t2` and then adds it to itself and returns the sum runs from any state: the load types `t2` before binop reads it |
| Lowering.IrBuilder.RunExtends | bitcodegen.cpp:299-308 | Processing lines only appends: the earlier instructions, globals and blocks stay as a prefix |
| Lowering.IrBuilder.CreateBitcode | bitcodegen.cpp:283-315 | Empty block: doNoop's code and block, symbols and globals untouched. `fend` block: only doEmptyFuncEnd's return. Otherwise the run over the processed lines, then jump's step to the first successor when the last line is not RETURN, JUMP or FUNC_END |
| StringLiteral.DecodedLength | bitcodegen.cpp:426-445 | Output length = input length - escapes |
| StringLiteral.PlainCopied | bitcodegen.cpp:441-443 | Text with no backslash is copied unchanged |
| StringLiteral.DecodeEscaped | bitcodegen.cpp:427-444 | Round trip: decoding the escaped form of any bytes gives those bytes |
| StringLiteral.DecodeEscapedThen | bitcodegen.cpp:427-444 | Decoding escaped text followed by anything decodes the escaped part back first |
| StringLiteral.TrailingBackslash | bitcodegen.cpp:428-443 | A backslash in the last position is copied as it is, unless the text before it ends on a lone backslash, which it joins into the escape for one backslash |
| StringLiteral.DecodeLiteral | bitcodegen.cpp:426-445 | The loop gives the decoded text plus one NUL, of length input - escapes + 1 |

## Left out

- printf text layout of the quads, and the LLVM API. Quads and instructions are abstract datatypes.
- sym.c is not part of this model.
  - `install` is modelled as a fresh entry under the name and `lookup` as a map lookup.
  - `merge` is concatenation of chains, as the comment at semdum.c:281-283 describes it.
  - `node` is not modelled on its own, and neither are `enterblock`/`leaveblock`. The goto-table invariant
    (`Semdum.EntryValid`: an entry is marked patched exactly when its name is in the symbol table) assumes a
    declared label stays in the table. `labeldcl` installs at the current level (semdum.c:610) and
    `endloopscope` and `ftail` leave a level (semdum.c:372, 456). If leaving a level drops the label, a later
    `goto` to it adds a blank to an entry already marked patched, and that blank is never resolved or reported.
- The semantic actions outside the backpatch engine are not modelled: `call`, `con`, `id`, `sindex`, `set`,
  `op1`, `fhead`, `fname`, `doret`, `string`, `exprs`, `ccexpr`, `bgnstmt`.
- Floating-point values. Only the int/double type tags are modelled.
- Construction of the basic-block graph and parsing. The CFG is an input of `Lowering.IrBuilder`.
- `createFunction`, `allocaFormals`, `createLoad`, `cast`, `call`, `indexArray`, `store`, `assign`,
  `referenceGlobal`/`Param`/`Local` and `branch` of bitcodegen.cpp. `processQuadLine` turns each of their
  lines into one abstract `Lowered` instruction, and the line carries the u.ltype its routine gives the
  destination, which is installed with it. The values (v.v), `referenceGlobal`'s copied gvar and the blocks
  that `branch` creates are not tracked.
- The driver loop `bitcodegen()` over functions and blocks, and the module output.
- Lowering.IrBuilder.CreateGlobal: requires that no global of that name exists. The reuse of an existing
  global by `getOrInsertGlobal` is not modelled.
- Lowering.IrBuilder.DoReturn: compares the return type with the type recorded in the entry (u.ltype), where
  the C code compares it with the LLVM type of the value itself. They differ for a comparison result: its
  value is an i1, but binop records the left operand's type (bitcodegen.cpp:653).
- Semdum.CodeGen.DoGoto: requires that the name's pending list has room. The C array `labels[MAXBLANKS]`
  is written without a bounds check, so an overflow there is not modelled.
- Semdum.CodeGen.LabelDcl: installs the name after calling m() rather than before. m() does not read the
  symbol table, so the resulting state is the same.
- C buffer limits on names (`name[256]`, `labelName`) become preconditions.
- `LinkedChains.Walk` bounds its walk by the size of the arena, which suffices for the acyclic lists rel and
  mergeFalse build.

## Findings

| source | as written | input that shows it | evidently intended | confidence | as-written member | corrected member |
|---|---|---|---|---|---|---|
| semdum.c:168-171 | ccnot swaps the chain heads, but a true chain is linked through `back.s_true` and a false chain through `s_false`, so after a negation a chain of several nodes is walked through the wrong link | `if (!(a < b && c < d)) x = 1;` — blank B4 of the negated conjunction's chain is never patched | every blank of both chains gets a target after negation | not executed | LinkedChains.NegatedConjunctionLosesBlank | LinkedChains.NegatedConjunctionResolved |
| bitcodegen.cpp:224-236 | an array local is allocated with the array type `[n x T]` and an element count of n as well, so it reserves n*n cells | the local declaration `int a[1000];` reserves a million ints | one array of n cells, as for a global | not executed | LowerRules.LocalArrayOverAllocates | LowerRules.LocalStorage |
