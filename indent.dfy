/** make_indent: a string of spaces four per level, clamped to 63 characters. */
module Indent {
  import Lexing

  const Space: Lexing.byte := 0x20
  const MaxIndent: nat := 63

  /** Number of spaces for `level`: level*4 clamped to [0, 63]. */
  function IndentWidth(level: int): (n: nat)
    ensures n <= MaxIndent
    ensures level * 4 <= 0 ==> n == 0
    ensures 0 <= level * 4 <= MaxIndent ==> n == level * 4
    ensures level * 4 >= MaxIndent ==> n == MaxIndent
  {
    var n := level * 4;
    var n := if n < 0 then 0 else n;
    if n > MaxIndent then MaxIndent else n
  }

  lemma NegativeLevelIsEmpty(level: int)
    requires level < 0
    ensures IndentWidth(level) == 0
  {
  }

  lemma DeepLevelIsCapped(level: int)
    requires level >= 16
    ensures IndentWidth(level) == MaxIndent
  {
  }

  /**
   * Allocates n+1 bytes, fills the first n with spaces (the memset) and puts the
   * terminator at index n.
   */
  method MakeIndent(level: int) returns (s: array<Lexing.byte>)
    ensures s.Length == IndentWidth(level) + 1
    ensures forall i | 0 <= i < IndentWidth(level) :: s[i] == Space
    ensures s[IndentWidth(level)] == 0
  {
    var n := level * 4;
    if n < 0 {
      n := 0;
    }
    if n > MaxIndent {
      n := MaxIndent;
    }
    s := new Lexing.byte[n + 1];
    var i := 0;
    while i < n
      invariant 0 <= i <= n
      invariant forall k | 0 <= k < i :: s[k] == Space
    {
      s[i] := Space;
      i := i + 1;
    }
    s[n] := 0;
  }
}
