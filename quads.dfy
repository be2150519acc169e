/**
 * The three-address code written by the backpatch engine (semdum.c), as abstract records
 * instead of printf text, together with the type tags ("modes") that semantic records carry.
 */
module Quads {
  import opened Wrappers

  /** The base type bit of a mode: T_INT, T_DOUBLE, T_STR, T_LBL, or none (a node built with mode 0). */
  datatype BaseType = NoType | Int | Double | Str | Lbl

  /** A mode is a base type plus the T_ADDR and T_ARRAY qualifier bits. */
  datatype Mode = Mode(base: BaseType, addr: bool, array: bool)

  const NONE := Mode(NoType, false, false)
  /** The exact value T_INT: an int rvalue. */
  const INT := Mode(Int, false, false)
  /** The exact value T_DOUBLE: a double rvalue. */
  const DOUBLE := Mode(Double, false, false)

  /** `*op` in C: the first character of an operator lexeme, NUL for the empty string. */
  function FirstChar(op: string): char {
    if |op| > 0 then op[0] else '\0'
  }

  datatype ArithOp = Add | Sub | Mul | Div | Mod
  datatype BitOp = BitOr | BitXor | BitAnd | ShiftLeft | ShiftRight
  datatype RelOp = Eq | Ne | Le | Ge | Lt | Gt

  /** The cases of op2's switch on the first character; None is its "op2 not implemented" default. */
  function Op2Kind(op: string): Option<ArithOp> {
    match FirstChar(op)
    case '+' => Some(Add)
    case '-' => Some(Sub)
    case '*' => Some(Mul)
    case '/' => Some(Div)
    case '%' => Some(Mod)
    case _ => None
  }

  /** The cases of opb's switch on the first character: '<' is "<<" and '>' is ">>". */
  function OpbKind(op: string): Option<BitOp> {
    match FirstChar(op)
    case '|' => Some(BitOr)
    case '^' => Some(BitXor)
    case '&' => Some(BitAnd)
    case '<' => Some(ShiftLeft)
    case '>' => Some(ShiftRight)
    case _ => None
  }

  /** rel compares the whole lexeme; anything not matched by the first five tests is ">". */
  function RelOpOf(op: string): RelOp {
    if op == "==" then Eq
    else if op == "!=" then Ne
    else if op == "<=" then Le
    else if op == ">=" then Ge
    else if op == "<" then Lt
    else Gt
  }

  /** One line of the engine's output. */
  datatype Quad =
    | LabelDef(num: nat)                                              // label L<k>
    | Br(blank: nat)                                                  // br B<k>
    | BrLabel(offset: int)                                            // br L<k>, goto to a declared label
    | Bt(cond: nat, blank: nat)                                       // bt t<c> B<k>
    | Patch(blank: nat, target: nat)                                 // B<k>=L<j>
    | Compare(temp: nat, rel: RelOp, isFloat: bool, left: nat, right: nat)
    | Arith(temp: nat, aop: ArithOp, isFloat: bool, left: nat, right: nat)
    | Bitwise(temp: nat, bop: BitOp, left: nat, right: nat)           // always the 'i' variant
    | Convert(temp: nat, toDouble: bool, src: nat)                    // t<k> := cvf / cvi t<j>
    | FuncEnd                                                         // fend

  /** The label numbers a quad introduces: blanks for branch instructions, concrete labels for label lines. */
  function Introduced(q: Quad, blanks: bool): seq<nat> {
    match q
    case Br(b) => if blanks then [b] else []
    case Bt(_, b) => if blanks then [b] else []
    case LabelDef(l) => if blanks then [] else [l]
    case _ => []
  }

  /** All blank numbers (blanks == true) or concrete labels (blanks == false) introduced by `s`, in order. */
  function Issued(s: seq<Quad>, blanks: bool): seq<nat>
    decreases |s|
  {
    if s == [] then [] else Introduced(s[0], blanks) + Issued(s[1..], blanks)
  }

  /** Numbering distributes over concatenation of outputs. */
  lemma {:induction false} IssuedAppend(a: seq<Quad>, b: seq<Quad>, blanks: bool)
    ensures Issued(a + b, blanks) == Issued(a, blanks) + Issued(b, blanks)
    decreases |a|
  {
    if a == [] {
      assert a + b == b;
    } else {
      assert (a + b)[1..] == a[1..] + b;
      IssuedAppend(a[1..], b, blanks);
    }
  }

  /** Appending one quad adds exactly the numbers that quad introduces. */
  lemma IssuedPush(s: seq<Quad>, q: Quad, blanks: bool)
    ensures Issued(s + [q], blanks) == Issued(s, blanks) + Introduced(q, blanks)
  {
    IssuedAppend(s, [q], blanks);
    assert [q][1..] == [];
  }

  /**
   * Reading `s` from the front with k numbers already issued, each quad that introduces a
   * number introduces the next one, k + 1, and n numbers have been issued at the end.
   */
  ghost predicate Counted(s: seq<Quad>, blanks: bool, k: nat, n: nat)
    decreases |s|
  {
    if s == [] then k == n
    else if Introduced(s[0], blanks) == [] then Counted(s[1..], blanks, k, n)
    else Introduced(s[0], blanks) == [k + 1] && Counted(s[1..], blanks, k + 1, n)
  }

  /** Counted from 0 to n means exactly that the numbers introduced are 1, 2, ..., n in order. */
  lemma {:induction false} CountedMeans(s: seq<Quad>, blanks: bool, k: nat, n: nat)
    ensures Counted(s, blanks, k, n) <==> k <= n && Issued(s, blanks) == seq(n - k, i => k + i + 1)
    decreases |s|
  {
    if s != [] {
      var fst := Introduced(s[0], blanks);
      var rest := Issued(s[1..], blanks);
      assert Issued(s, blanks) == fst + rest;
      if fst == [] {
        CountedMeans(s[1..], blanks, k, n);
      } else {
        assert |fst| == 1;
        CountedMeans(s[1..], blanks, k + 1, n);
        if Counted(s, blanks, k, n) {
          assert fst + rest == seq(n - k, i => k + i + 1);
        }
        if k <= n && Issued(s, blanks) == seq(n - k, i => k + i + 1) {
          assert fst[0] == Issued(s, blanks)[0] == k + 1;
          assert rest == Issued(s, blanks)[1..] == seq(n - (k + 1), i => k + 1 + i + 1);
        }
      }
    }
  }

  /** Every number introduced while counting from k to n lies in k + 1 .. n. */
  lemma {:induction false} CountedBound(s: seq<Quad>, blanks: bool, k: nat, n: nat)
    requires Counted(s, blanks, k, n)
    ensures k <= n
    ensures forall x :: x in Issued(s, blanks) ==> k < x <= n
    decreases |s|
  {
    if s != [] {
      if Introduced(s[0], blanks) == [] {
        CountedBound(s[1..], blanks, k, n);
      } else {
        CountedBound(s[1..], blanks, k + 1, n);
      }
    }
  }

  /** Appending a quad that introduces nothing, or the next number, keeps the count. */
  lemma {:induction false} CountedPush(s: seq<Quad>, q: Quad, blanks: bool, k: nat, n: nat)
    requires Counted(s, blanks, k, n)
    requires Introduced(q, blanks) == [] || Introduced(q, blanks) == [n + 1]
    ensures Counted(s + [q], blanks, k, n + |Introduced(q, blanks)|)
    decreases |s|
  {
    if s == [] {
      assert [q][1..] == [];
    } else {
      assert (s + [q])[1..] == s[1..] + [q];
      if Introduced(s[0], blanks) == [] {
        CountedPush(s[1..], q, blanks, k, n);
      } else {
        CountedPush(s[1..], q, blanks, k + 1, n);
      }
    }
  }

  /** A run that introduces nothing counts from k to k. */
  lemma {:induction false} CountedNone(a: seq<Quad>, blanks: bool, k: nat)
    requires Issued(a, blanks) == []
    ensures Counted(a, blanks, k, k)
    decreases |a|
  {
    if a != [] {
      CountedNone(a[1..], blanks, k);
    }
  }

  /** Appending a run that introduces nothing keeps the count. */
  lemma {:induction false} CountedQuiet(s: seq<Quad>, a: seq<Quad>, blanks: bool, k: nat, n: nat)
    requires Counted(s, blanks, k, n) && Issued(a, blanks) == []
    ensures Counted(s + a, blanks, k, n)
    decreases |s|
  {
    if s == [] {
      assert s + a == a;
      CountedNone(a, blanks, k);
    } else {
      assert (s + a)[1..] == s[1..] + a;
      if Introduced(s[0], blanks) == [] {
        CountedQuiet(s[1..], a, blanks, k, n);
      } else {
        CountedQuiet(s[1..], a, blanks, k + 1, n);
      }
    }
  }

  /** A quad that introduces no number. */
  predicate Silent(q: Quad) {
    !q.Br? && !q.Bt? && !q.LabelDef?
  }

  lemma {:induction false} IssuedSilent(s: seq<Quad>, blanks: bool)
    requires forall i :: 0 <= i < |s| ==> Silent(s[i])
    ensures Issued(s, blanks) == []
    decreases |s|
  {
    if s != [] {
      IssuedSilent(s[1..], blanks);
    }
  }

  /** A piece of output that introduces no label and no blank. */
  ghost predicate Quiet(s: seq<Quad>) {
    Issued(s, true) == [] && Issued(s, false) == []
  }

  lemma SilentQuiet(s: seq<Quad>)
    requires forall i :: 0 <= i < |s| ==> Silent(s[i])
    ensures Quiet(s)
  {
    IssuedSilent(s, true);
    IssuedSilent(s, false);
  }

  lemma QuietAppend(a: seq<Quad>, b: seq<Quad>)
    requires Quiet(a) && Quiet(b)
    ensures Quiet(a + b)
  {
    IssuedAppend(a, b, true);
    IssuedAppend(a, b, false);
  }

  /** Appending quiet output leaves the numbering as it was. */
  lemma AppendQuiet(s: seq<Quad>, a: seq<Quad>)
    requires Quiet(a)
    ensures Issued(s + a, true) == Issued(s, true) && Issued(s + a, false) == Issued(s, false)
  {
    IssuedAppend(s, a, true);
    IssuedAppend(s, a, false);
  }
}
