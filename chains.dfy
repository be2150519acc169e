/**
 * Backpatch chains of semdum.c: the true and false lists of a boolean expression, how the
 * logical operators combine them and how the control statements resolve them into
 * `B<k>=L<j>` equations. A chain is the sequence of blank numbers met when walking it.
 */
module Chains {
  import opened Quads

  /** A semantic record: result temporary, mode, and the true and false chains. */
  datatype SemRec = SemRec(place: nat, mode: Mode, trueList: seq<nat>, falseList: seq<nat>)

  /** The blanks still waiting for a target in an expression. */
  function Pending(e: SemRec): seq<nat> {
    e.trueList + e.falseList
  }

  /** Each blank occurs at most once. */
  ghost predicate NoDuplicates(s: seq<nat>) {
    forall x :: multiset(s)[x] <= 1
  }

  /**
   * dfsBackpatch: walks a chain and writes one equation per node, in chain order, all with the
   * same target; an empty chain writes nothing.
   */
  function DfsBackpatch(chain: seq<nat>, target: nat): (eqs: seq<Quad>)
    ensures |eqs| == |chain|
    ensures forall i :: 0 <= i < |chain| ==> eqs[i] == Patch(chain[i], target)
  {
    if chain == [] then [] else [Patch(chain[0], target)] + DfsBackpatch(chain[1..], target)
  }

  /** The blanks given a target by a piece of output, in order. */
  function Patched(s: seq<Quad>): seq<nat>
    decreases |s|
  {
    if s == [] then [] else (if s[0].Patch? then [s[0].blank] else []) + Patched(s[1..])
  }

  lemma {:induction false} PatchedAppend(a: seq<Quad>, b: seq<Quad>)
    ensures Patched(a + b) == Patched(a) + Patched(b)
    decreases |a|
  {
    if a != [] {
      assert (a + b)[1..] == a[1..] + b;
      PatchedAppend(a[1..], b);
    } else {
      assert a + b == b;
    }
  }

  /** Resolving a chain patches exactly its blanks, each once, in chain order. */
  lemma {:induction false} DfsBackpatchResolves(chain: seq<nat>, target: nat)
    ensures Patched(DfsBackpatch(chain, target)) == chain
    decreases |chain|
  {
    if chain != [] {
      var eqs := DfsBackpatch(chain, target);
      assert eqs[1..] == DfsBackpatch(chain[1..], target);
      DfsBackpatchResolves(chain[1..], target);
    }
  }

  /** Resolving one more node at the end of a chain adds its equation at the end. */
  lemma DfsBackpatchSnoc(chain: seq<nat>, b: nat, target: nat)
    ensures DfsBackpatch(chain + [b], target) == DfsBackpatch(chain, target) + [Patch(b, target)]
  {
  }

  /** Resolution output introduces no label and no blank. */
  lemma EquationsQuiet(chain: seq<nat>, target: nat)
    ensures Quiet(DfsBackpatch(chain, target))
  {
    SilentQuiet(DfsBackpatch(chain, target));
  }

  lemma PatchQuiet(b: nat, t: nat)
    ensures Quiet([Patch(b, t)])
  {
    SilentQuiet([Patch(b, t)]);
  }

  /**
   * Joining two chains: mergeFalse (semdum.c) for false chains and sym.c's merge for true chains
   * both give a chain that walks the first chain's blanks and then the second's, so here both
   * are concatenation, with NULL, the empty chain, an identity on either side.
   */
  function Merge(p1: seq<nat>, p2: seq<nat>): seq<nat> {
    p1 + p2
  }

  /** ccand's result: true = e2.true, false = e1.false followed by e2.false (e1.true is patched). */
  function AndOf(e1: SemRec, e2: SemRec): SemRec {
    SemRec(0, NONE, e2.trueList, Merge(e1.falseList, e2.falseList))
  }

  /**
   * ccor's result: true = e1.true followed by e2.true (sym.c's merge, which appends along the
   * link shared with the true chain), false = e2.false (e1.false is patched).
   */
  function OrOf(e1: SemRec, e2: SemRec): SemRec {
    SemRec(0, NONE, Merge(e1.trueList, e2.trueList), e2.falseList)
  }

  /** ccnot's result, as intended: the two chains trade places. */
  function NotOf(e: SemRec): SemRec {
    SemRec(0, NONE, e.falseList, e.trueList)
  }

  /**
   * ccand loses and duplicates no blank: what is pending in the operands is what is pending in
   * the result plus what ccand patches to m, so blanks stay in exactly one chain.
   */
  lemma AndConserves(e1: SemRec, m: nat, e2: SemRec)
    ensures multiset(Pending(e1) + Pending(e2))
         == multiset(Pending(AndOf(e1, e2)) + Patched(DfsBackpatch(e1.trueList, m)))
    ensures NoDuplicates(Pending(e1) + Pending(e2))
        ==> NoDuplicates(Pending(AndOf(e1, e2)) + Patched(DfsBackpatch(e1.trueList, m)))
  {
    DfsBackpatchResolves(e1.trueList, m);
  }

  /** ccor, dually, conserves the pending blanks. */
  lemma OrConserves(e1: SemRec, m: nat, e2: SemRec)
    ensures multiset(Pending(e1) + Pending(e2))
         == multiset(Pending(OrOf(e1, e2)) + Patched(DfsBackpatch(e1.falseList, m)))
    ensures NoDuplicates(Pending(e1) + Pending(e2))
        ==> NoDuplicates(Pending(OrOf(e1, e2)) + Patched(DfsBackpatch(e1.falseList, m)))
  {
    DfsBackpatchResolves(e1.falseList, m);
  }

  /** Negation keeps every pending blank, moving each from one chain to the other. */
  lemma NotConserves(e: SemRec)
    ensures multiset(Pending(NotOf(e))) == multiset(Pending(e))
    ensures NotOf(NotOf(e)).trueList == e.trueList && NotOf(NotOf(e)).falseList == e.falseList
  {
  }

  /** doif: true chain to m1, false chain to m2. */
  function IfEquations(e: SemRec, m1: nat, m2: nat): seq<Quad> {
    DfsBackpatch(e.trueList, m1) + DfsBackpatch(e.falseList, m2)
  }

  /** doifelse: true chain to m1, false chain to m2, the then-branch's trailing jump to m3. */
  function IfElseEquations(e: SemRec, m1: nat, n: nat, m2: nat, m3: nat): seq<Quad> {
    DfsBackpatch(e.trueList, m1) + DfsBackpatch(e.falseList, m2) + [Patch(n, m3)]
  }

  /**
   * dowhile: true chain to the body m2, false chain to the exit m3, the body's trailing jump
   * and the pending continues to the condition m1, the pending breaks to the exit m3.
   */
  function WhileEquations(m1: nat, e: SemRec, m2: nat, n: nat, m3: nat,
                          continues: seq<nat>, breaks: seq<nat>): seq<Quad> {
    DfsBackpatch(e.trueList, m2) + DfsBackpatch(e.falseList, m3) + [Patch(n, m1)]
      + DfsBackpatch(continues, m1) + DfsBackpatch(breaks, m3)
  }

  /**
   * dodo: true chain back to the body m1, false chain to the exit m3, continues to the
   * condition m2, breaks to the exit m3.
   */
  function DoEquations(m1: nat, m2: nat, e: SemRec, m3: nat,
                       continues: seq<nat>, breaks: seq<nat>): seq<Quad> {
    DfsBackpatch(e.trueList, m1) + DfsBackpatch(e.falseList, m3)
      + DfsBackpatch(continues, m2) + DfsBackpatch(breaks, m3)
  }

  /**
   * dofor: true chain to the body m3, false chain to the exit m4, continues to the increment
   * m2, the jump after the condition n1 back to m1, the jump after the increment n2 to m2,
   * breaks to the exit m4.
   */
  function ForEquations(m1: nat, e2: SemRec, m2: nat, n1: nat, m3: nat, n2: nat, m4: nat,
                        continues: seq<nat>, breaks: seq<nat>): seq<Quad> {
    DfsBackpatch(e2.trueList, m3) + DfsBackpatch(e2.falseList, m4)
      + DfsBackpatch(continues, m2) + [Patch(n1, m1), Patch(n2, m2)]
      + DfsBackpatch(breaks, m4)
  }

  /** A one-armed if resolves every pending blank of its condition exactly once. */
  lemma IfResolves(e: SemRec, m1: nat, m2: nat)
    ensures Patched(IfEquations(e, m1, m2)) == Pending(e)
  {
    PatchedAppend(DfsBackpatch(e.trueList, m1), DfsBackpatch(e.falseList, m2));
    DfsBackpatchResolves(e.trueList, m1);
    DfsBackpatchResolves(e.falseList, m2);
  }

  /** if/else resolves the condition's blanks and the then-branch's jump, each exactly once. */
  lemma IfElseResolves(e: SemRec, m1: nat, n: nat, m2: nat, m3: nat)
    ensures Patched(IfElseEquations(e, m1, n, m2, m3)) == Pending(e) + [n]
  {
    IfResolves(e, m1, m2);
    PatchedAppend(IfEquations(e, m1, m2), [Patch(n, m3)]);
  }

  /** A single equation patches its own blank. */
  lemma PatchedOne(b: nat, t: nat)
    ensures Patched([Patch(b, t)]) == [b]
  {
    assert [Patch(b, t)][1..] == [];
  }

  /** A while loop resolves its condition, its back jump and every pending break and continue. */
  lemma WhileResolves(m1: nat, e: SemRec, m2: nat, n: nat, m3: nat,
                      continues: seq<nat>, breaks: seq<nat>)
    ensures Patched(WhileEquations(m1, e, m2, n, m3, continues, breaks))
         == Pending(e) + [n] + continues + breaks
  {
    var a := IfEquations(e, m2, m3);
    var j := [Patch(n, m1)];
    var c := DfsBackpatch(continues, m1);
    var k := DfsBackpatch(breaks, m3);
    assert WhileEquations(m1, e, m2, n, m3, continues, breaks) == a + j + c + k;
    IfResolves(e, m2, m3);
    PatchedOne(n, m1);
    DfsBackpatchResolves(continues, m1);
    DfsBackpatchResolves(breaks, m3);
    PatchedAppend(a, j);
    PatchedAppend(a + j, c);
    PatchedAppend(a + j + c, k);
  }

  /** A do-while loop resolves its condition and every pending break and continue. */
  lemma DoResolves(m1: nat, m2: nat, e: SemRec, m3: nat, continues: seq<nat>, breaks: seq<nat>)
    ensures Patched(DoEquations(m1, m2, e, m3, continues, breaks)) == Pending(e) + continues + breaks
  {
    var a := IfEquations(e, m1, m3);
    var c := DfsBackpatch(continues, m2);
    var k := DfsBackpatch(breaks, m3);
    assert DoEquations(m1, m2, e, m3, continues, breaks) == a + c + k;
    IfResolves(e, m1, m3);
    DfsBackpatchResolves(continues, m2);
    DfsBackpatchResolves(breaks, m3);
    PatchedAppend(a, c);
    PatchedAppend(a + c, k);
  }

  /** A for loop resolves its condition, both of its jumps and every pending break and continue. */
  lemma ForResolves(m1: nat, e2: SemRec, m2: nat, n1: nat, m3: nat, n2: nat, m4: nat,
                    continues: seq<nat>, breaks: seq<nat>)
    ensures Patched(ForEquations(m1, e2, m2, n1, m3, n2, m4, continues, breaks))
         == Pending(e2) + continues + [n1, n2] + breaks
  {
    var a := IfEquations(e2, m3, m4);
    var c := DfsBackpatch(continues, m2);
    var j := [Patch(n1, m1), Patch(n2, m2)];
    var k := DfsBackpatch(breaks, m4);
    assert ForEquations(m1, e2, m2, n1, m3, n2, m4, continues, breaks) == a + c + j + k;
    assert Patched(j) == [n1, n2] by {
      assert j == [Patch(n1, m1)] + [Patch(n2, m2)];
      PatchedOne(n1, m1);
      PatchedOne(n2, m2);
      PatchedAppend([Patch(n1, m1)], [Patch(n2, m2)]);
    }
    IfResolves(e2, m3, m4);
    DfsBackpatchResolves(continues, m2);
    DfsBackpatchResolves(breaks, m4);
    PatchedAppend(a, c);
    PatchedAppend(a + c, j);
    PatchedAppend(a + c + j, k);
  }

  lemma IfQuiet(e: SemRec, m1: nat, m2: nat)
    ensures Quiet(IfEquations(e, m1, m2))
  {
    EquationsQuiet(e.trueList, m1);
    EquationsQuiet(e.falseList, m2);
    QuietAppend(DfsBackpatch(e.trueList, m1), DfsBackpatch(e.falseList, m2));
  }

  lemma IfElseQuiet(e: SemRec, m1: nat, n: nat, m2: nat, m3: nat)
    ensures Quiet(IfElseEquations(e, m1, n, m2, m3))
  {
    IfQuiet(e, m1, m2);
    PatchQuiet(n, m3);
    QuietAppend(IfEquations(e, m1, m2), [Patch(n, m3)]);
  }

  lemma WhileQuiet(m1: nat, e: SemRec, m2: nat, n: nat, m3: nat, continues: seq<nat>, breaks: seq<nat>)
    ensures Quiet(WhileEquations(m1, e, m2, n, m3, continues, breaks))
  {
    var a := IfEquations(e, m2, m3);
    IfQuiet(e, m2, m3);
    PatchQuiet(n, m1);
    EquationsQuiet(continues, m1);
    EquationsQuiet(breaks, m3);
    QuietAppend(a, [Patch(n, m1)]);
    QuietAppend(a + [Patch(n, m1)], DfsBackpatch(continues, m1));
    QuietAppend(a + [Patch(n, m1)] + DfsBackpatch(continues, m1), DfsBackpatch(breaks, m3));
  }

  lemma DoQuiet(m1: nat, m2: nat, e: SemRec, m3: nat, continues: seq<nat>, breaks: seq<nat>)
    ensures Quiet(DoEquations(m1, m2, e, m3, continues, breaks))
  {
    var a := IfEquations(e, m1, m3);
    IfQuiet(e, m1, m3);
    EquationsQuiet(continues, m2);
    EquationsQuiet(breaks, m3);
    QuietAppend(a, DfsBackpatch(continues, m2));
    QuietAppend(a + DfsBackpatch(continues, m2), DfsBackpatch(breaks, m3));
  }

  lemma ForQuiet(m1: nat, e2: SemRec, m2: nat, n1: nat, m3: nat, n2: nat, m4: nat,
                 continues: seq<nat>, breaks: seq<nat>)
    ensures Quiet(ForEquations(m1, e2, m2, n1, m3, n2, m4, continues, breaks))
  {
    var a := IfEquations(e2, m3, m4);
    var j := [Patch(n1, m1), Patch(n2, m2)];
    IfQuiet(e2, m3, m4);
    EquationsQuiet(continues, m2);
    EquationsQuiet(breaks, m4);
    SilentQuiet(j);
    QuietAppend(a, DfsBackpatch(continues, m2));
    QuietAppend(a + DfsBackpatch(continues, m2), j);
    QuietAppend(a + DfsBackpatch(continues, m2) + j, DfsBackpatch(breaks, m4));
  }
}
