/**
 * The bytes referenceString (bitcodegen.cpp) stores for a string literal: the escapes `\n`,
 * `\t`, `\r` and `\\` each become one byte, every other byte is copied, and a 0 terminator
 * is appended.
 */
module StringLiteral {
  import opened Wrappers

  newtype byte = x: int | 0 <= x < 256

  const BACKSLASH: byte := 92
  const NUL: byte := 0

  /** The byte a backslash followed by `c` stands for, if `c` names one of the four escapes. */
  function EscapeOf(c: byte): Option<byte> {
    if c == 110 then Some(10)              // \n
    else if c == 116 then Some(9)          // \t
    else if c == 114 then Some(13)         // \r
    else if c == BACKSLASH then Some(BACKSLASH)
    else None
  }

  /** An escape starts at position 0: a backslash with a byte after it that names an escape. */
  predicate EscapeAt(s: seq<byte>) {
    |s| >= 2 && s[0] == BACKSLASH && EscapeOf(s[1]).Some?
  }

  /** The decoded text, read from the front; a backslash with nothing after it is copied. */
  function Decoded(s: seq<byte>): seq<byte>
    decreases |s|
  {
    if s == [] then []
    else if EscapeAt(s) then [EscapeOf(s[1]).value] + Decoded(s[2..])
    else [s[0]] + Decoded(s[1..])
  }

  /** How many escapes decoding meets. */
  function Escapes(s: seq<byte>): nat
    decreases |s|
  {
    if s == [] then 0
    else if EscapeAt(s) then 1 + Escapes(s[2..])
    else Escapes(s[1..])
  }

  /** Each escape shortens the text by one byte. */
  lemma {:induction false} DecodedLength(s: seq<byte>)
    ensures 2 * Escapes(s) <= |s|
    ensures |Decoded(s)| == |s| - Escapes(s)
    decreases |s|
  {
    if s != [] {
      if EscapeAt(s) {
        DecodedLength(s[2..]);
      } else {
        DecodedLength(s[1..]);
      }
    }
  }

  /** Text with no backslash is copied unchanged. */
  lemma {:induction false} PlainCopied(s: seq<byte>)
    requires BACKSLASH !in s
    ensures Decoded(s) == s
    decreases |s|
  {
    if s != [] {
      assert s[0] != BACKSLASH;
      PlainCopied(s[1..]);
    }
  }

  /** The two bytes that write `b` in a literal, if it needs an escape. */
  function EscapeFor(b: byte): seq<byte> {
    if b == 10 then [BACKSLASH, 110]
    else if b == 9 then [BACKSLASH, 116]
    else if b == 13 then [BACKSLASH, 114]
    else if b == BACKSLASH then [BACKSLASH, BACKSLASH]
    else [b]
  }

  /** The literal text that writes the bytes `b`: the inverse of decoding. */
  function Escaped(b: seq<byte>): seq<byte>
    decreases |b|
  {
    if b == [] then [] else EscapeFor(b[0]) + Escaped(b[1..])
  }

  /** The bytes written for one byte decode back to it, whatever text follows. */
  lemma DecodeOne(b: byte, t: seq<byte>)
    ensures Decoded(EscapeFor(b) + t) == [b] + Decoded(t)
  {
    var s := EscapeFor(b) + t;
    if |EscapeFor(b)| == 2 {
      assert EscapeAt(s) && s[2..] == t;
    } else {
      assert s[0] == b && s[1..] == t;
    }
  }

  /** Decoding undoes escaping, whatever text follows. */
  lemma {:induction false} DecodeEscapedThen(b: seq<byte>, t: seq<byte>)
    ensures Decoded(Escaped(b) + t) == b + Decoded(t)
    decreases |b|
  {
    if b != [] {
      assert Escaped(b) + t == EscapeFor(b[0]) + (Escaped(b[1..]) + t);
      DecodeOne(b[0], Escaped(b[1..]) + t);
      DecodeEscapedThen(b[1..], t);
      assert b == [b[0]] + b[1..];
    } else {
      assert Escaped(b) + t == t;
    }
  }

  /** Round trip: the bytes a literal was written for are the bytes it decodes to. */
  lemma DecodeEscaped(b: seq<byte>)
    ensures Decoded(Escaped(b)) == b
  {
    DecodeEscapedThen(b, []);
    assert Escaped(b) + [] == Escaped(b);
  }

  /** Decoding ends on a backslash copied alone, the one case where a byte after it could join it. */
  predicate EndsLoose(s: seq<byte>)
    decreases |s|
  {
    if s == [] then false
    else if EscapeAt(s) then EndsLoose(s[2..])
    else if |s| == 1 then s[0] == BACKSLASH
    else EndsLoose(s[1..])
  }

  /**
   * A backslash in the last position is copied as it is, unless the text before it ends on a
   * lone backslash, with which it forms the escape `\\` for one backslash.
   */
  lemma {:induction false} TrailingBackslash(s: seq<byte>)
    ensures !EndsLoose(s) ==> Decoded(s + [BACKSLASH]) == Decoded(s) + [BACKSLASH]
    ensures EndsLoose(s) ==> Decoded(s + [BACKSLASH]) == Decoded(s)
    decreases |s|
  {
    var t := s + [BACKSLASH];
    if s == [] {
      assert t == [BACKSLASH];
    } else if EscapeAt(s) {
      assert EscapeAt(t) && t[1] == s[1] && t[2..] == s[2..] + [BACKSLASH];
      TrailingBackslash(s[2..]);
    } else if |s| == 1 {
      assert t[1..] == [BACKSLASH];
    } else {
      assert !EscapeAt(t) && t[0] == s[0] && t[1..] == s[1..] + [BACKSLASH];
      TrailingBackslash(s[1..]);
    }
  }

  /** Decoding from position i: an escape there yields one byte and skips two, any other byte is copied. */
  lemma DecodeAt(s: seq<byte>, i: nat)
    requires i < |s|
    ensures i + 1 < |s| && s[i] == BACKSLASH && EscapeOf(s[i + 1]).Some? ==>
              Decoded(s[i..]) == [EscapeOf(s[i + 1]).value] + Decoded(s[i + 2..])
    ensures !(i + 1 < |s| && s[i] == BACKSLASH && EscapeOf(s[i + 1]).Some?) ==>
              Decoded(s[i..]) == [s[i]] + Decoded(s[i + 1..])
  {
    if i + 1 < |s| && s[i] == BACKSLASH && EscapeOf(s[i + 1]).Some? {
      assert EscapeAt(s[i..]) && s[i..][2..] == s[i + 2..];
    } else {
      assert !EscapeAt(s[i..]) && s[i..][1..] == s[i + 1..];
    }
  }

  /**
   * The loop of referenceString over the literal's strlen bytes: `i++` inside a branch skips
   * the second byte of an escape; the terminator is pushed after the loop.
   */
  method DecodeLiteral(s: seq<byte>) returns (chars: seq<byte>)
    ensures chars == Decoded(s) + [NUL]
    ensures |chars| == |s| - Escapes(s) + 1
  {
    chars := [];
    var i := 0;
    while i < |s|
      invariant 0 <= i <= |s|
      invariant chars + Decoded(s[i..]) == Decoded(s)
    {
      DecodeAt(s, i);
      if i + 1 < |s| && s[i] == BACKSLASH && EscapeOf(s[i + 1]).Some? {
        chars := chars + [EscapeOf(s[i + 1]).value];
        i := i + 1;
      } else {
        chars := chars + [s[i]];
      }
      i := i + 1;
    }
    assert s[i..] == [];
    chars := chars + [NUL];
    DecodedLength(s);
  }
}
