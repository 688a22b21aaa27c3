/**
 * The C memory the string engine of parser_lua.h works with: a heap of
 * owned, malloc'd strings (strdup, malloc + memcpy, free) and the growable
 * buffer the repetition combinators concatenate their items into.
 */
module CMemory {
  import opened Lexing

  /** The NULL pointer; every live block has a positive address. */
  const Null: nat := 0

  /** The blocks a parse owns: each malloc'd string by its address. */
  class Heap {
    var blocks: map<nat, seq<byte>>
    var next: nat

    ghost predicate Valid()
      reads this
    {
      0 < next && forall q | q in blocks :: 0 < q < next
    }

    constructor ()
      ensures Valid() && blocks == map[]
    {
      blocks := map[];
      next := 1;
    }

    /** strdup, or malloc(n + 1) followed by memcpy: a new block holding `s`. */
    method Dup(s: seq<byte>) returns (q: nat)
      requires Valid()
      modifies this
      ensures Valid()
      ensures q != Null && q !in old(blocks) && blocks == old(blocks)[q := s]
    {
      q := next;
      blocks := blocks[q := s];
      next := next + 1;
    }

    /** free: releases a block; free(NULL) does nothing. */
    method Free(q: nat)
      requires Valid() && (q == Null || q in blocks)
      modifies this
      ensures Valid()
      ensures blocks == old(blocks) - {q}
    {
      if q != Null {
        blocks := blocks - {q};
      }
    }
  }

  /** The repetition buffer's first capacity. */
  const InitialCap: nat := 64

  /** `d` is `c` doubled zero or more times. */
  predicate DoublingOf(c: nat, d: nat)
    decreases d
  {
    d == c || (d >= 2 * c && d % 2 == 0 && DoublingOf(c, d / 2))
  }

  /**
   * The capacity after `while (need > cap) cap *= 2`: the first of cap,
   * 2 cap, 4 cap, ... that holds `need` bytes.
   */
  function GrownCap(cap: nat, need: nat): (c: nat)
    requires cap > 0
    ensures c >= cap && c >= need
    decreases if need > cap then need - cap else 0
  {
    if need > cap then GrownCap(2 * cap, need) else cap
  }

  /** A doubling of a doubling of `c` is a doubling of `c`. */
  lemma {:induction false} DoublingOfDoubled(c: nat, d: nat)
    requires c > 0 && DoublingOf(2 * c, d)
    ensures DoublingOf(c, d)
    decreases d
  {
    if d != 2 * c {
      DoublingOfDoubled(c, d / 2);
    }
  }

  /**
   * The grown capacity is a doubling of the old one, and the smallest that
   * fits: when the buffer had to grow, half of it was still too small.
   */
  lemma {:induction false} GrownCapIsLeastDoubling(cap: nat, need: nat)
    requires cap > 0
    ensures DoublingOf(cap, GrownCap(cap, need))
    ensures GrownCap(cap, need) > cap ==> GrownCap(cap, need) < 2 * need
    decreases if need > cap then need - cap else 0
  {
    if need > cap {
      GrownCapIsLeastDoubling(2 * cap, need);
      DoublingOfDoubled(cap, GrownCap(2 * cap, need));
    }
  }

  /**
   * The buffer of one_or_more_parse / zero_or_more_parse: `len` bytes of
   * concatenated output in an array whose length is the capacity, which
   * starts at 64 and only ever doubles.
   */
  class Buffer {
    var data: array<byte>
    var len: nat

    ghost predicate Valid()
      reads this
    {
      len < data.Length && DoublingOf(InitialCap, data.Length)
    }

    /** The bytes appended so far. */
    function Contents(): seq<byte>
      reads this, data
      requires len <= data.Length
    {
      data[..len]
    }

    /** `buf[len] == '\0'`: the contents read as a C string end where they should. */
    predicate Terminated()
      reads this, data
    {
      len < data.Length && data[len] == 0
    }

    /** `malloc(cap)` with cap = 64 and len = 0. */
    constructor ()
      ensures Valid() && fresh(data) && len == 0 && data.Length == InitialCap
    {
      data := new byte[InitialCap];
      len := 0;
    }

    /** `buf[len] = '\0'` */
    method Terminate()
      requires Valid()
      modifies data
      ensures Valid() && Terminated() && Contents() == old(Contents())
    {
      data[len] := 0;
    }

    /** `realloc(buf, cap)`: a larger block that keeps the contents. */
    method Realloc(cap: nat)
      requires Valid() && cap >= data.Length
      modifies this
      ensures fresh(data) && data.Length == cap && len == old(len)
      ensures data[..len] == old(data[..len])
    {
      var bigger := new byte[cap];
      forall i | 0 <= i < len {
        bigger[i] := data[i];
      }
      data := bigger;
    }

    /**
     * Append `s`: double the capacity until len + |s| + 1 fits, copy `s`
     * after the contents and terminate them.
     */
    method Append(s: seq<byte>)
      requires Valid()
      modifies this, data
      ensures Valid() && Terminated()
      ensures Contents() == old(Contents()) + s
      ensures data.Length == GrownCap(old(data.Length), old(len) + |s| + 1)
      ensures data == old(data) || fresh(data)
    {
      var add := |s|;
      ghost var before := data[..len];
      ghost var need := len + add + 1;
      ghost var cap0 := data.Length;
      while len + add + 1 > data.Length
        invariant len < data.Length && DoublingOf(InitialCap, data.Length)
        invariant data[..len] == before
        invariant GrownCap(data.Length, need) == GrownCap(cap0, need)
        invariant data == old(data) || fresh(data)
        decreases need - data.Length
      {
        Realloc(2 * data.Length);
      }
      forall i | 0 <= i < add {
        data[len + i] := s[i];
      }
      assert data[..len] == before;
      len := len + add;
      data[len] := 0;
      assert data[..len] == before + s;
    }
  }
}
