/**
 * The chains of semdum.c as the C code links them. A chain node is a sem_rec whose s_place is
 * a blank. A true chain is walked through the node's `back` link (back.s_true), a false chain
 * through its `s_false` link, and the nodes live in an arena indexed by address. mergeFalse on
 * two separate lists without a cycle walks as the concatenation of their blanks, which is what
 * module Chains takes a chain to be. ccnot swaps the two heads but not the links, so after a
 * negation the walk of a chain with more than one node stops after its first node; the rest of
 * the model uses the chains of module Chains, where ccnot is NotOf.
 */
module LinkedChains {
  import opened Wrappers
  import opened Quads
  import Chains

  /** One sem_rec used as a chain node: its blank, its back.s_true link and its s_false link. */
  datatype Cell = Cell(place: nat, back: Option<nat>, next: Option<nat>)

  /** The two chain heads of an expression's record: back.s_true and s_false. */
  datatype Heads = Heads(trueHead: Option<nat>, falseHead: Option<nat>)

  /** The link a walk follows: back.s_true on a true chain, s_false on a false chain. */
  function Link(c: Cell, viaTrue: bool): Option<nat> {
    if viaTrue then c.back else c.next
  }

  /**
   * The blanks dfsBackpatch(rec, true, ...) meets from `p`, following the link of its kind;
   * `fuel` bounds the walk (the arena's size suffices for a list without a cycle).
   */
  function Walk(heap: seq<Cell>, p: Option<nat>, viaTrue: bool, fuel: nat): (r: seq<nat>)
    ensures |r| <= fuel
    ensures p.None? ==> r == []
    ensures p.Some? && p.value < |heap| && fuel > 0 ==> r != [] && r[0] == heap[p.value].place
    decreases fuel
  {
    if fuel == 0 || p.None? || p.value >= |heap| then []
    else [heap[p.value].place] + Walk(heap, Link(heap[p.value], viaTrue), viaTrue, fuel - 1)
  }

  /** The blanks of the chain that starts at `p`. */
  function Chain(heap: seq<Cell>, p: Option<nat>, viaTrue: bool): seq<nat> {
    Walk(heap, p, viaTrue, |heap|)
  }

  /**
   * rel: two new nodes with no links, for the true blank t and the false blank f; the record
   * points at the first as its true chain and at the second as its false chain.
   */
  function Rel(heap: seq<Cell>, t: nat, f: nat): (r: (seq<Cell>, Heads))
    ensures |r.0| == |heap| + 2 && r.0[..|heap|] == heap
    ensures Chain(r.0, r.1.trueHead, true) == [t]
    ensures Chain(r.0, r.1.falseHead, false) == [f]
  {
    var h := heap + [Cell(t, None, None), Cell(f, None, None)];
    assert Walk(h, None, true, |h| - 1) == [] && Walk(h, None, false, |h| - 1) == [];
    (h, Heads(Some(|heap|), Some(|heap| + 1)))
  }

  /** The last node of the false chain from p: the for loop of mergeFalse. */
  function LastFalse(heap: seq<Cell>, p: nat, fuel: nat): (r: nat)
    ensures p < |heap| ==> r < |heap|
    decreases fuel
  {
    if fuel == 0 || p >= |heap| || heap[p].next.None? || heap[p].next.value >= |heap| then p
    else LastFalse(heap, heap[p].next.value, fuel - 1)
  }

  /** mergeFalse: hangs p2 on the s_false link of p1's last node; NULL is an identity. */
  function MergeFalse(heap: seq<Cell>, p1: Option<nat>, p2: Option<nat>): (r: (seq<Cell>, Option<nat>))
    ensures |r.0| == |heap|
    ensures p1.None? ==> r == (heap, p2)
    ensures p1.Some? ==> r.1 == p1
  {
    if p1.None? then (heap, p2)
    else if p2.None? || p1.value >= |heap| then (heap, p1)
    else
      var last := LastFalse(heap, p1.value, |heap|);
      (heap[last := heap[last].(next := p2)], p1)
  }

  /**
   * `nodes` is the false chain from p, node by node: p is its first node, each node's s_false is
   * the next one and the last one's s_false is NULL.
   */
  ghost predicate FalseList(heap: seq<Cell>, p: Option<nat>, nodes: seq<nat>)
    decreases |nodes|
  {
    if nodes == [] then p.None?
    else p == Some(nodes[0]) && nodes[0] < |heap| && FalseList(heap, heap[nodes[0]].next, nodes[1..])
  }

  /** No node occurs twice: the list has no cycle. */
  ghost predicate Acyclic(nodes: seq<nat>) {
    forall i, j :: 0 <= i < j < |nodes| ==> nodes[i] != nodes[j]
  }

  /** The blank of a node; an address outside the arena has none, and 0 stands in for it. */
  ghost function PlaceOf(heap: seq<Cell>, n: nat): nat {
    if n < |heap| then heap[n].place else 0
  }

  /** The blanks of the nodes, in order. */
  ghost function Places(heap: seq<Cell>, nodes: seq<nat>): seq<nat>
    decreases |nodes|
  {
    if nodes == [] then [] else [PlaceOf(heap, nodes[0])] + Places(heap, nodes[1..])
  }

  /** The nodes of a list, as a set. */
  ghost function Nodes(nodes: seq<nat>): set<nat>
    decreases |nodes|
  {
    if nodes == [] then {} else {nodes[0]} + Nodes(nodes[1..])
  }

  lemma {:induction false} NodesOf(nodes: seq<nat>)
    ensures forall x :: x in Nodes(nodes) <==> x in nodes
    ensures Acyclic(nodes) ==> |Nodes(nodes)| == |nodes|
    decreases |nodes|
  {
    if nodes != [] {
      NodesOf(nodes[1..]);
      assert nodes == [nodes[0]] + nodes[1..];
      if Acyclic(nodes) {
        assert Acyclic(nodes[1..]) by {
          forall i, j | 0 <= i < j < |nodes| - 1 ensures nodes[1..][i] != nodes[1..][j] {
            assert nodes[1..][i] == nodes[i + 1] && nodes[1..][j] == nodes[j + 1];
          }
        }
        assert nodes[0] !in Nodes(nodes[1..]);
      }
    }
  }

  lemma {:induction false} SubsetCard(a: set<nat>, b: set<nat>)
    requires a <= b
    ensures |a| <= |b|
    decreases a
  {
    if a != {} {
      var x :| x in a;
      SubsetCard(a - {x}, b - {x});
    }
  }

  /** The arena addresses below n. */
  ghost function Below(n: nat): set<nat> {
    if n == 0 then {} else Below(n - 1) + {n - 1}
  }

  lemma {:induction false} BelowFacts(n: nat)
    ensures |Below(n)| == n
    ensures forall x: nat :: x in Below(n) <==> x < n
  {
    if n > 0 {
      BelowFacts(n - 1);
    }
  }

  /** An acyclic list of arena nodes has at most as many nodes as the arena. */
  lemma AcyclicBound(heap: seq<Cell>, nodes: seq<nat>)
    requires Acyclic(nodes) && forall k :: 0 <= k < |nodes| ==> nodes[k] < |heap|
    ensures |nodes| <= |heap|
  {
    NodesOf(nodes);
    BelowFacts(|heap|);
    SubsetCard(Nodes(nodes), Below(|heap|));
  }

  lemma {:induction false} InArena(heap: seq<Cell>, p: Option<nat>, nodes: seq<nat>)
    requires FalseList(heap, p, nodes)
    ensures forall k :: 0 <= k < |nodes| ==> nodes[k] < |heap|
    decreases |nodes|
  {
    if nodes != [] {
      InArena(heap, heap[nodes[0]].next, nodes[1..]);
      assert forall k :: 1 <= k < |nodes| ==> nodes[k] == nodes[1..][k - 1];
    }
  }

  /** With fuel for every node, the walk from p meets exactly the blanks of the list. */
  lemma {:induction false} WalkFollows(heap: seq<Cell>, p: Option<nat>, nodes: seq<nat>, fuel: nat)
    requires FalseList(heap, p, nodes) && fuel >= |nodes|
    ensures forall k :: 0 <= k < |nodes| ==> nodes[k] < |heap|
    ensures Walk(heap, p, false, fuel) == Places(heap, nodes)
    decreases |nodes|
  {
    InArena(heap, p, nodes);
    if nodes != [] {
      WalkFollows(heap, heap[nodes[0]].next, nodes[1..], fuel - 1);
    }
  }

  /** mergeFalse's loop stops at the last node of the list. */
  lemma {:induction false} LastFalseFinds(heap: seq<Cell>, nodes: seq<nat>, fuel: nat)
    requires nodes != [] && FalseList(heap, Some(nodes[0]), nodes) && fuel + 1 >= |nodes|
    ensures LastFalse(heap, nodes[0], fuel) == nodes[|nodes| - 1]
    decreases |nodes|
  {
    if |nodes| > 1 {
      assert nodes[1..][0] == nodes[1];
      LastFalseFinds(heap, nodes[1..], fuel - 1);
    }
  }

  /** Writing a node outside the list leaves the list as it was. */
  lemma {:induction false} ListFrame(heap: seq<Cell>, p: Option<nat>, nodes: seq<nat>, x: nat, c: Cell)
    requires FalseList(heap, p, nodes) && x < |heap| && x !in nodes
    ensures FalseList(heap[x := c], p, nodes)
    decreases |nodes|
  {
    if nodes != [] {
      assert x != nodes[0];
      ListFrame(heap, heap[nodes[0]].next, nodes[1..], x, c);
    }
  }

  /** Hanging p2's list on the last node of an acyclic list, away from p2's nodes, makes one list. */
  lemma {:induction false} ListAppend(heap: seq<Cell>, p: Option<nat>, nodes1: seq<nat>, p2: Option<nat>, nodes2: seq<nat>)
    requires nodes1 != [] && FalseList(heap, p, nodes1) && Acyclic(nodes1)
    requires FalseList(heap, p2, nodes2) && forall k :: 0 <= k < |nodes1| ==> nodes1[k] !in nodes2
    ensures nodes1[|nodes1| - 1] < |heap|
    ensures
      var last := nodes1[|nodes1| - 1];
      FalseList(heap[last := heap[last].(next := p2)], p, nodes1 + nodes2)
    decreases |nodes1|
  {
    InArena(heap, p, nodes1);
    var last := nodes1[|nodes1| - 1];
    var h := heap[last := heap[last].(next := p2)];
    assert (nodes1 + nodes2)[1..] == nodes1[1..] + nodes2;
    if |nodes1| == 1 {
      ListFrame(heap, p2, nodes2, last, heap[last].(next := p2));
    } else {
      var rest := nodes1[1..];
      assert Acyclic(rest) by {
        forall i, j | 0 <= i < j < |rest| ensures rest[i] != rest[j] {
          assert rest[i] == nodes1[i + 1] && rest[j] == nodes1[j + 1];
        }
      }
      assert forall k :: 0 <= k < |rest| ==> rest[k] == nodes1[k + 1];
      assert rest[|rest| - 1] == last && rest[0] == nodes1[1];
      ListAppend(heap, heap[nodes1[0]].next, rest, p2, nodes2);
      assert nodes1[0] != last;
    }
  }

  lemma {:induction false} PlacesAppend(heap: seq<Cell>, a: seq<nat>, b: seq<nat>)
    ensures Places(heap, a + b) == Places(heap, a) + Places(heap, b)
    decreases |a|
  {
    if a != [] {
      assert (a + b)[0] == a[0] && (a + b)[1..] == a[1..] + b;
      PlacesAppend(heap, a[1..], b);
    } else {
      assert a + b == b;
    }
  }

  /** Rewriting a node's s_false link keeps every node's blank. */
  lemma {:induction false} PlacesKeep(heap: seq<Cell>, nodes: seq<nat>, x: nat, q: Option<nat>)
    requires x < |heap|
    ensures Places(heap[x := heap[x].(next := q)], nodes) == Places(heap, nodes)
    decreases |nodes|
  {
    if nodes != [] {
      PlacesKeep(heap, nodes[1..], x, q);
    }
  }

  /** Rewriting a node's s_false link leaves every true-chain walk as it was. */
  lemma {:induction false} TrueWalkKeep(heap: seq<Cell>, p: Option<nat>, fuel: nat, x: nat, q: Option<nat>)
    requires x < |heap|
    ensures Walk(heap[x := heap[x].(next := q)], p, true, fuel) == Walk(heap, p, true, fuel)
    decreases fuel
  {
    if fuel > 0 && p.Some? && p.value < |heap| {
      TrueWalkKeep(heap, heap[p.value].back, fuel - 1, x, q);
    }
  }

  /** The first part of an acyclic list is acyclic and shares no node with the second. */
  lemma AcyclicParts(nodes1: seq<nat>, nodes2: seq<nat>)
    requires Acyclic(nodes1 + nodes2)
    ensures Acyclic(nodes1)
    ensures forall k :: 0 <= k < |nodes1| ==> nodes1[k] !in nodes2
  {
    var all := nodes1 + nodes2;
    assert forall k :: 0 <= k < |nodes1| ==> nodes1[k] == all[k];
    assert forall k :: 0 <= k < |nodes2| ==> nodes2[k] == all[|nodes1| + k];
  }

  /**
   * mergeFalse on the false chains of two separate lists without a cycle: the merged chain
   * walks p1's blanks and then p2's, which is Chains.Merge of the two walks, and no true
   * chain changes.
   */
  lemma MergeFalseAppends(heap: seq<Cell>, p1: Option<nat>, p2: Option<nat>, nodes1: seq<nat>, nodes2: seq<nat>)
    requires FalseList(heap, p1, nodes1) && FalseList(heap, p2, nodes2)
    requires Acyclic(nodes1 + nodes2)
    ensures
      var r := MergeFalse(heap, p1, p2);
      && Chain(r.0, r.1, false) == Chain(heap, p1, false) + Chain(heap, p2, false)
      && Chain(r.0, r.1, false) == Chains.Merge(Chain(heap, p1, false), Chain(heap, p2, false))
      && forall q :: Chain(r.0, q, true) == Chain(heap, q, true)
  {
    var all := nodes1 + nodes2;
    InArena(heap, p1, nodes1);
    InArena(heap, p2, nodes2);
    AcyclicBound(heap, all);
    WalkFollows(heap, p1, nodes1, |heap|);
    WalkFollows(heap, p2, nodes2, |heap|);
    if p1.Some? && p2.Some? {
      AcyclicParts(nodes1, nodes2);
      LastFalseFinds(heap, nodes1, |heap|);
      var last := nodes1[|nodes1| - 1];
      var h := heap[last := heap[last].(next := p2)];
      ListAppend(heap, p1, nodes1, p2, nodes2);
      assert forall k :: 0 <= k < |all| ==> all[k] < |heap|;
      WalkFollows(h, p1, all, |h|);
      PlacesAppend(h, nodes1, nodes2);
      PlacesKeep(heap, nodes1, last, p2);
      PlacesKeep(heap, nodes2, last, p2);
      forall q ensures Chain(h, q, true) == Chain(heap, q, true) {
        TrueWalkKeep(heap, q, |heap|, last, p2);
      }
    }
  }

  /** ccand's record: true chain e2's, false chain e1's merged with e2's (e1's true chain is patched). */
  function CcAnd(heap: seq<Cell>, e1: Heads, e2: Heads): (r: (seq<Cell>, Heads))
    ensures |r.0| == |heap| && r.1.trueHead == e2.trueHead
  {
    var (h, f) := MergeFalse(heap, e1.falseHead, e2.falseHead);
    (h, Heads(e2.trueHead, f))
  }

  /** ccnot as written: node(0, 0, e->s_false, e->back.s_true), the heads swapped, the links kept. */
  function CcNot(e: Heads): (r: Heads)
    ensures r.trueHead == e.falseHead && r.falseHead == e.trueHead
  {
    Heads(e.falseHead, e.trueHead)
  }

  /** The blanks doif gives a target: the true chain walked by back.s_true, the false one by s_false. */
  function IfPatched(heap: seq<Cell>, e: Heads): seq<nat> {
    Chain(heap, e.trueHead, true) + Chain(heap, e.falseHead, false)
  }

  /** The arena and record of `a < b && c < d` as written: blanks 1 and 2 from the first rel, 3 and 4 from the second. */
  function Conjunction(): (seq<Cell>, Heads) {
    var (h1, e1) := Rel([], 1, 2);
    var (h2, e2) := Rel(h1, 3, 4);
    CcAnd(h2, e1, e2)
  }

  /**
   * `if (!(a < b && c < d)) ...` as written: ccand patches B1, and doif after ccnot patches only
   * B2 and B3. B4, the second node of the negated true chain, is never given a target, although
   * the conjunction's false chain did hold both B2 and B4.
   */
  lemma NegatedConjunctionLosesBlank()
    ensures Chain(Conjunction().0, Conjunction().1.falseHead, false) == [2, 4]
    ensures IfPatched(Conjunction().0, CcNot(Conjunction().1)) == [2, 3]
    ensures 4 !in IfPatched(Conjunction().0, CcNot(Conjunction().1))
  {
    var h := [Cell(1, None, None), Cell(2, None, Some(3)), Cell(3, None, None), Cell(4, None, None)];
    var h2 := [Cell(1, None, None), Cell(2, None, None), Cell(3, None, None), Cell(4, None, None)];
    assert [] + [Cell(1, None, None), Cell(2, None, None)] == h2[..2];
    assert h2[..2] + [Cell(3, None, None), Cell(4, None, None)] == h2;
    assert Rel([], 1, 2) == (h2[..2], Heads(Some(0), Some(1)));
    assert Rel(h2[..2], 3, 4) == (h2, Heads(Some(2), Some(3)));
    assert LastFalse(h2, 1, 4) == 1;
    assert h2[1 := Cell(2, None, Some(3))] == h;
    assert Conjunction() == (h, Heads(Some(2), Some(1)));
    assert Walk(h, Some(3), false, 2) == [4];
    assert Chain(h, Some(1), false) == [2, 4];
    assert Walk(h, None, true, 3) == [];
    assert Chain(h, Some(1), true) == [2];
    assert Walk(h, None, false, 3) == [];
    assert Chain(h, Some(2), false) == [3];
  }

  /**
   * The same statement with chains as sequences and ccnot as NotOf: the conjunction patches B1
   * and doif then patches B2, B4 and B3, so every one of the four blanks gets its target.
   */
  lemma NegatedConjunctionResolved(m: nat, m1: nat, m2: nat)
    ensures
      var e := Chains.AndOf(Chains.SemRec(0, NONE, [1], [2]), Chains.SemRec(0, NONE, [3], [4]));
      && Chains.Patched(Chains.DfsBackpatch([1], m)) == [1]
      && Chains.Patched(Chains.IfEquations(Chains.NotOf(e), m1, m2)) == [2, 4, 3]
  {
    var e := Chains.AndOf(Chains.SemRec(0, NONE, [1], [2]), Chains.SemRec(0, NONE, [3], [4]));
    Chains.DfsBackpatchResolves([1], m);
    Chains.IfResolves(Chains.NotOf(e), m1, m2);
  }
}
