/**
 * Byte-level matching shared by both parse engines: exact-prefix matching of
 * literals, the UTF-8 lead-byte width heuristic of any_char and the
 * maximal-run scan of identifier. Inputs are C strings: byte sequences that
 * hold no NUL, whose end is the terminator.
 */
module Lexing {
  import opened Wrappers

  type byte = bv8

  /** A C string: no byte before its end is the NUL terminator. */
  predicate CString(s: seq<byte>) {
    forall i | 0 <= i < |s| :: s[i] != 0
  }

  /**
   * The bytes a C function sees of a Lua string (which may hold NULs):
   * those before the first NUL.
   */
  function CPrefix(s: seq<byte>): (t: seq<byte>)
    ensures CString(t) && t <= s
    ensures |t| < |s| ==> s[|t|] == 0
  {
    if |s| == 0 || s[0] == 0 then [] else [s[0]] + CPrefix(s[1..])
  }

  /** `isalnum` restricted to ASCII: [0-9A-Za-z]. */
  predicate IsAlnum(c: byte) {
    (0x30 <= c <= 0x39) || (0x41 <= c <= 0x5A) || (0x61 <= c <= 0x7A)
  }

  /** Bytes allowed after the first byte of an identifier in src/parser.c. */
  predicate IsIdentTail(c: byte) {
    IsAlnum(c) || c == 0x2D || c == 0x5F
  }

  /** Bytes allowed after the first byte of an identifier in parser_lua.h (no '_'). */
  predicate IsIdentTailNoUnderscore(c: byte) {
    IsAlnum(c) || c == 0x2D
  }

  /** `strncmp(input + cur, lit, |lit|) == 0`: the input at `cur` starts with `lit`. */
  predicate StartsWith(input: seq<byte>, cur: nat, lit: seq<byte>)
    requires cur <= |input|
  {
    cur + |lit| <= |input| && input[cur..cur + |lit|] == lit
  }

  /**
   * Width of the character introduced by lead byte `b`, tested with the masks
   * 0x80, 0xE0, 0xF0 and 0xF8 in that order; anything else counts as one byte.
   */
  function LeadWidth(b: byte): (w: nat)
    ensures w == (if b <= 0x7F then 1
                  else if 0xC0 <= b <= 0xDF then 2
                  else if 0xE0 <= b <= 0xEF then 3
                  else if 0xF0 <= b <= 0xF7 then 4
                  else 1)
  {
    if b & 0x80 == 0 then 1
    else if b & 0xE0 == 0xC0 then 2
    else if b & 0xF0 == 0xE0 then 3
    else if b & 0xF8 == 0xF0 then 4
    else 1
  }

  /**
   * any_char as written: on a non-empty input it moves the cursor by the lead
   * byte's width without checking that that many bytes remain.
   */
  function AnyCharEndAsWritten(input: seq<byte>, cur: nat): (e: Option<nat>)
    requires cur <= |input|
    ensures e.None? <==> cur == |input|
    ensures e.Some? ==> e.value == cur + LeadWidth(input[cur]) && cur < e.value <= cur + 4
  {
    if cur == |input| then None else Some(cur + LeadWidth(input[cur]))
  }

  /** A single lead byte of a two-byte character sends the cursor past the terminator. */
  lemma AnyCharAsWrittenOverruns()
    ensures AnyCharEndAsWritten([0xC3], 0) == Some(2)
    ensures AnyCharEndAsWritten([0xC3], 0).value > |[0xC3 as byte]|
  {
  }

  /**
   * any_char as the engines use it: the same width heuristic, but a truncated
   * character consumes only the bytes that remain, so the cursor never passes
   * the terminator.
   */
  function AnyCharEnd(input: seq<byte>, cur: nat): (e: Option<nat>)
    requires cur <= |input|
    ensures e.None? <==> cur == |input|
    ensures e.Some? ==> cur < e.value <= |input|
    ensures e.Some? && cur + LeadWidth(input[cur]) <= |input| ==> e == AnyCharEndAsWritten(input, cur)
    ensures e.Some? && cur + LeadWidth(input[cur]) > |input| ==> e.value == |input|
  {
    if cur == |input| then None
    else
      var w := LeadWidth(input[cur]);
      Some(if cur + w <= |input| then cur + w else |input|)
  }

  /** End of the maximal run of `tail` bytes starting at `i`. */
  function RunEnd(input: seq<byte>, i: nat, tail: byte -> bool): (e: nat)
    requires i <= |input|
    ensures i <= e <= |input|
    ensures forall k | i <= k < e :: tail(input[k])
    ensures e == |input| || !tail(input[e])
    decreases |input| - i
  {
    if i == |input| || !tail(input[i]) then i else RunEnd(input, i + 1, tail)
  }

  /**
   * identifier: fails on the empty input or a first byte that is not
   * alphanumeric; otherwise ends after the maximal run of `tail` bytes that
   * follows the first byte.
   */
  function IdentifierEnd(input: seq<byte>, cur: nat, tail: byte -> bool): (e: Option<nat>)
    requires cur <= |input|
    ensures e.None? <==> cur == |input| || !IsAlnum(input[cur])
    ensures e.Some? ==> cur < e.value <= |input|
    ensures e.Some? ==> forall k | cur < k < e.value :: tail(input[k])
    ensures e.Some? ==> e.value == |input| || !tail(input[e.value])
  {
    if cur == |input| || !IsAlnum(input[cur]) then None
    else Some(RunEnd(input, cur + 1, tail))
  }

  /** The identifier end is the only position that satisfies the maximal-run conditions. */
  lemma IdentifierEndUnique(input: seq<byte>, cur: nat, tail: byte -> bool, e: nat)
    requires cur < |input| && IsAlnum(input[cur])
    requires cur < e <= |input|
    requires forall k | cur < k < e :: tail(input[k])
    requires e == |input| || !tail(input[e])
    ensures IdentifierEnd(input, cur, tail) == Some(e)
  {
  }

  /**
   * The scanning loop of identifier_parse: test the first byte, then advance
   * `i` while the byte under it is a `tail` byte.
   */
  method ScanIdentifier(input: seq<byte>, cur: nat, tail: byte -> bool) returns (found: bool, end: nat)
    requires cur <= |input|
    ensures found <==> IdentifierEnd(input, cur, tail).Some?
    ensures found ==> end == IdentifierEnd(input, cur, tail).value
    ensures !found ==> end == cur
  {
    end := cur;
    if cur == |input| || !IsAlnum(input[cur]) {
      return false, cur;
    }
    var i := cur + 1;
    var len := |input|;
    while i < len
      invariant cur + 1 <= i <= len
      invariant RunEnd(input, i, tail) == RunEnd(input, cur + 1, tail)
      decreases len - i
    {
      if tail(input[i]) {
        i := i + 1;
      } else {
        break;
      }
    }
    found, end := true, i;
  }
}
