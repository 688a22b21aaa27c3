/**
 * The parse functions of parser_lua.h: the same engine as src/parser.c, but
 * a result carries a malloc'd C string that the caller owns instead of a
 * registry handle, identifier does not accept '_', there are no left/right
 * combinators, and the repetitions concatenate their items' outputs into a
 * growable buffer. Every path frees the outputs it drops, so a parse leaves
 * the heap as it found it plus, on success, the one block it returns.
 *
 * Callbacks receive the output as a Lua string (lua_pushstring copies it).
 * The graph of nodes, their refcounts and their teardown are those of
 * module Nodes, restricted to the kinds this file defines.
 */
module StringEngine {
  import opened Wrappers
  import opened Lexing
  import opened LuaRegistry
  import opened Nodes
  import opened CMemory

  /** The record of parse_ok / parse_err: a flag, the cursor after the match and the owned output (NULL on failure). */
  datatype ParseResult = ParseResult(ok: bool, rest: nat, output: nat)

  /** parse_err(input): failure at `cur` with a NULL output. */
  function Err(cur: nat): ParseResult {
    ParseResult(false, cur, Null)
  }

  /** Node kinds of parser_lua.h: all of Nodes.Kind but left and right. */
  predicate StringKind(k: Kind) {
    !k.Left? && !k.Right?
  }

  ghost predicate StringKinds(kinds: map<NodeId, Kind>) {
    forall q | q in kinds :: StringKind(kinds[q])
  }

  /**
   * The meaning of a parse: Done with the flag, the rest and the output
   * string (empty on failure), or OutOfFuel when the parse would not return.
   */
  datatype Outcome = Done(ok: bool, rest: nat, out: seq<byte>) | OutOfFuel

  function Failed(cur: nat): Outcome {
    Done(false, cur, [])
  }

  /**
   * A finished parse ends between the cursor and the terminator, a failure
   * has no output, and an output read from a C string is a C string.
   */
  predicate WellFormed(o: Outcome, input: seq<byte>, cur: nat) {
    o.Done? ==> cur <= o.rest <= |input| && (!o.ok ==> o.out == []) && CString(o.out)
  }

  /** What the input to a parse must be: a C string, with the cursor inside it. */
  ghost predicate Parsable(gr: Grammar, p: NodeId, input: seq<byte>, cur: nat) {
    gr.Ok() && StringKinds(gr.kinds) && p in gr.kinds && cur <= |input| && CString(input)
  }

  /** `lua_tostring` of a map callback's result, copied by strdup: "" unless it is a string. */
  function MappedOutput(v: Value): (s: seq<byte>)
    ensures CString(s)
    ensures v.Str? ==> s <= v.s
    ensures !v.Str? ==> s == []
  {
    if v.Str? then CPrefix(v.s) else []
  }

  // ---------------------------------------------------------------------
  // The meaning of a parse
  // ---------------------------------------------------------------------

  /** Parse with node `p` at `cur`; each step into a node costs one unit of fuel. */
  function Run(gr: Grammar, p: NodeId, input: seq<byte>, cur: nat, fuel: nat): (o: Outcome)
    requires Parsable(gr, p, input, cur)
    ensures WellFormed(o, input, cur)
    decreases fuel, 1, 0
  {
    if fuel == 0 then OutOfFuel
    else
      assert StringKind(gr.kinds[p]);
      match gr.kinds[p]
      case Literal(lit) => RunLiteral(lit, input, cur)
      case AnyChar => RunAnyChar(input, cur)
      case Identifier => RunIdentifier(input, cur)
      case Map(i, f) => RunMap(gr, i, f, input, cur, fuel - 1)
      case AndThen(i, f) => RunAndThen(gr, i, f, input, cur, fuel - 1)
      case OrElse(l, r) => RunOrElse(gr, l, r, input, cur, fuel - 1)
      case Pred(i, f) => RunPred(gr, i, f, input, cur, fuel - 1)
      case OneOrMore(i) => RunOneOrMore(gr, i, input, cur, fuel - 1)
      case ZeroOrMore(i) => RunZeroOrMore(gr, i, input, cur, fuel - 1)
  }

  /** literal: an exact prefix match whose output is a copy of the literal. */
  function RunLiteral(lit: seq<byte>, input: seq<byte>, cur: nat): (o: Outcome)
    requires cur <= |input| && CString(input)
    ensures WellFormed(o, input, cur) && o.Done?
  {
    if StartsWith(input, cur, lit) then
      assert lit == input[cur..cur + |lit|];
      Done(true, cur + |lit|, lit)
    else Failed(cur)
  }

  /** any_char: one character by the lead-byte width, clamped at the terminator. */
  function RunAnyChar(input: seq<byte>, cur: nat): (o: Outcome)
    requires cur <= |input| && CString(input)
    ensures WellFormed(o, input, cur) && o.Done?
  {
    match AnyCharEnd(input, cur)
    case None => Failed(cur)
    case Some(e) => Done(true, e, input[cur..e])
  }

  /** identifier: an alphanumeric byte and the maximal run of alphanumerics and '-' after it. */
  function RunIdentifier(input: seq<byte>, cur: nat): (o: Outcome)
    requires cur <= |input| && CString(input)
    ensures WellFormed(o, input, cur) && o.Done?
  {
    match IdentifierEnd(input, cur, IsIdentTailNoUnderscore)
    case None => Failed(cur)
    case Some(e) => Done(true, e, input[cur..e])
  }

  /**
   * map: the callback's string result replaces the inner output ("" when
   * it returns anything else); when it raises, the parse fails at the cursor.
   */
  function RunMap(gr: Grammar, inner: NodeId, f: int, input: seq<byte>, cur: nat, fuel: nat): (o: Outcome)
    requires Parsable(gr, inner, input, cur)
    ensures WellFormed(o, input, cur)
    decreases fuel, 3, 0
  {
    var o1 := Run(gr, inner, input, cur, fuel);
    if o1.OutOfFuel? || !o1.ok then o1
    else match gr.call(gr.Callback(f), Str(o1.out))
      case None => Failed(cur)
      case Some(v) => Done(true, o1.rest, MappedOutput(v))
  }

  /**
   * and_then: the callback picks the parser that continues from the inner
   * rest and its result is the result; when the callback raises or returns
   * something other than a live parser, the parse fails at the cursor.
   */
  function RunAndThen(gr: Grammar, inner: NodeId, f: int, input: seq<byte>, cur: nat, fuel: nat): (o: Outcome)
    requires Parsable(gr, inner, input, cur)
    ensures WellFormed(o, input, cur)
    decreases fuel, 3, 0
  {
    var o1 := Run(gr, inner, input, cur, fuel);
    if o1.OutOfFuel? || !o1.ok then o1
    else match gr.call(gr.Callback(f), Str(o1.out))
      case Some(ParserUd(n)) =>
        if n in gr.kinds then Run(gr, n, input, o1.rest, fuel) else Failed(cur)
      case _ => Failed(cur)
  }

  /** or_else: the left result if it succeeds, else the right parse from the same cursor. */
  function RunOrElse(gr: Grammar, l: NodeId, r: NodeId, input: seq<byte>, cur: nat, fuel: nat): (o: Outcome)
    requires Parsable(gr, l, input, cur) && r in gr.kinds
    ensures WellFormed(o, input, cur)
    decreases fuel, 3, 0
  {
    var o1 := Run(gr, l, input, cur, fuel);
    if o1.OutOfFuel? || o1.ok then o1 else Run(gr, r, input, cur, fuel)
  }

  /** pred: the inner result if the callback's answer is truthy, else a failure at the cursor. */
  function RunPred(gr: Grammar, inner: NodeId, f: int, input: seq<byte>, cur: nat, fuel: nat): (o: Outcome)
    requires Parsable(gr, inner, input, cur)
    ensures WellFormed(o, input, cur)
    decreases fuel, 3, 0
  {
    var o1 := Run(gr, inner, input, cur, fuel);
    if o1.OutOfFuel? || !o1.ok then o1
    else match gr.call(gr.Callback(f), Str(o1.out))
      case Some(v) => if Truthy(v) then o1 else Failed(cur)
      case None => Failed(cur)
  }

  /**
   * The repetition loop from `cur` with `acc` concatenated so far: it stops
   * at the first failure and succeeds with everything concatenated. An
   * inner success that consumes nothing would repeat forever.
   */
  function Many(gr: Grammar, inner: NodeId, input: seq<byte>, cur: nat, fuel: nat, acc: seq<byte>): (o: Outcome)
    requires Parsable(gr, inner, input, cur) && CString(acc)
    ensures WellFormed(o, input, cur)
    ensures o.Done? ==> o.ok && acc <= o.out
    decreases fuel, 2, |input| - cur
  {
    var o1 := Run(gr, inner, input, cur, fuel);
    if o1.OutOfFuel? then OutOfFuel
    else if !o1.ok then Done(true, cur, acc)
    else if o1.rest == cur then OutOfFuel
    else
      var o := Many(gr, inner, input, o1.rest, fuel, acc + o1.out);
      assert o.Done? ==> acc <= acc + o1.out <= o.out;
      o
  }

  /** one_or_more: the first failure as it is, else the repetition after the first output. */
  function RunOneOrMore(gr: Grammar, inner: NodeId, input: seq<byte>, cur: nat, fuel: nat): (o: Outcome)
    requires Parsable(gr, inner, input, cur)
    ensures WellFormed(o, input, cur)
    decreases fuel, 3, 0
  {
    var o1 := Run(gr, inner, input, cur, fuel);
    if o1.OutOfFuel? || !o1.ok then o1
    else Many(gr, inner, input, o1.rest, fuel, o1.out)
  }

  /** zero_or_more: the repetition from the cursor with nothing concatenated. */
  function RunZeroOrMore(gr: Grammar, inner: NodeId, input: seq<byte>, cur: nat, fuel: nat): (o: Outcome)
    requires Parsable(gr, inner, input, cur)
    ensures WellFormed(o, input, cur)
    ensures o.Done? ==> o.ok
    decreases fuel, 3, 0
  {
    Many(gr, inner, input, cur, fuel, [])
  }

  // ---------------------------------------------------------------------
  // What a parse does to the heap
  // ---------------------------------------------------------------------

  /**
   * A parse that took the heap from `b0` to `b1` and returned `r` did what
   * `o` says: the same flag and rest; on success exactly one new block, the
   * output, and on failure a NULL output and the heap as it was.
   */
  ghost predicate Reflects(o: Outcome, r: ParseResult, exhausted: bool, b0: map<nat, seq<byte>>, b1: map<nat, seq<byte>>) {
    && (exhausted <==> o.OutOfFuel?)
    && (o.Done? ==>
          && r.ok == o.ok && r.rest == o.rest
          && (o.ok ==> r.output != Null && r.output !in b0 && b1 == b0[r.output := o.out])
          && (!o.ok ==> r.output == Null && b1 == b0))
  }

  /** Freeing the block a parse returned restores the heap it started from. */
  lemma FreeRestores(b0: map<nat, seq<byte>>, q: nat, s: seq<byte>)
    requires q !in b0
    ensures b0[q := s] - {q} == b0
  {
  }

  /**
   * A block that a later parse allocated is not the earlier output, so
   * freeing the earlier output leaves the later one.
   */
  lemma FreeEarlier(b0: map<nat, seq<byte>>, q1: nat, s1: seq<byte>, q2: nat, s2: seq<byte>)
    requires q1 !in b0 && q2 !in b0[q1 := s1]
    ensures b0[q1 := s1][q2 := s2] - {q1} == b0[q2 := s2]
  {
  }

  // ---------------------------------------------------------------------
  // The parse functions
  // ---------------------------------------------------------------------

  /** p->parse(p, input): dispatch on the node's kind. */
  method Parse(g: Graph, heap: Heap, call: (Value, Value) -> Option<Value>, p: NodeId,
               input: seq<byte>, cur: nat, fuel: nat)
    returns (r: ParseResult, exhausted: bool)
    requires g.Valid() && heap.Valid() && Parsable(g.Snapshot(call), p, input, cur)
    modifies g, g.reg, heap
    ensures g.Valid() && heap.Valid()
    ensures unchanged(g`kinds, g`refcount, g`holders, g`nextId, g`history) && unchanged(g.reg)
    ensures Reflects(Run(old(g.Snapshot(call)), p, input, cur, fuel), r, exhausted, old(heap.blocks), heap.blocks)
    decreases fuel, 1, 0
  {
    if fuel == 0 {
      return Err(cur), true;
    }
    assert StringKind(g.kinds[p]);
    match g.kinds[p]
    case Literal(lit) =>
      r := ParseLiteral(heap, lit, input, cur);
      exhausted := false;
    case AnyChar =>
      r := ParseAnyChar(heap, input, cur);
      exhausted := false;
    case Identifier =>
      r := ParseIdentifier(heap, input, cur);
      exhausted := false;
    case Map(_, _) =>
      r, exhausted := ParseMap(g, heap, call, p, input, cur, fuel - 1);
    case AndThen(_, _) =>
      r, exhausted := ParseAndThen(g, heap, call, p, input, cur, fuel - 1);
    case OrElse(_, _) =>
      r, exhausted := ParseOrElse(g, heap, call, p, input, cur, fuel - 1);
    case Pred(_, _) =>
      r, exhausted := ParsePred(g, heap, call, p, input, cur, fuel - 1);
    case OneOrMore(_) =>
      r, exhausted := ParseOneOrMore(g, heap, call, p, input, cur, fuel - 1);
    case ZeroOrMore(_) =>
      r, exhausted := ParseZeroOrMore(g, heap, call, p, input, cur, fuel - 1);
  }

  /** literal_parse */
  method ParseLiteral(heap: Heap, lit: seq<byte>, input: seq<byte>, cur: nat) returns (r: ParseResult)
    requires heap.Valid() && cur <= |input| && CString(input)
    modifies heap
    ensures heap.Valid()
    ensures Reflects(RunLiteral(lit, input, cur), r, false, old(heap.blocks), heap.blocks)
  {
    var n := |lit|;
    if cur + n <= |input| && input[cur..cur + n] == lit {
      var out := heap.Dup(lit);
      r := ParseResult(true, cur + n, out);
    } else {
      r := Err(cur);
    }
  }

  /** any_char_parse, copying no byte past the terminator. */
  method ParseAnyChar(heap: Heap, input: seq<byte>, cur: nat) returns (r: ParseResult)
    requires heap.Valid() && cur <= |input| && CString(input)
    modifies heap
    ensures heap.Valid()
    ensures Reflects(RunAnyChar(input, cur), r, false, old(heap.blocks), heap.blocks)
  {
    if cur == |input| {
      r := Err(cur);
    } else {
      var len := LeadWidth(input[cur]);
      var end := if cur + len <= |input| then cur + len else |input|;
      var out := heap.Dup(input[cur..end]);
      r := ParseResult(true, end, out);
    }
  }

  /** identifier_parse: alphanumerics and '-' after the first byte. */
  method ParseIdentifier(heap: Heap, input: seq<byte>, cur: nat) returns (r: ParseResult)
    requires heap.Valid() && cur <= |input| && CString(input)
    modifies heap
    ensures heap.Valid()
    ensures Reflects(RunIdentifier(input, cur), r, false, old(heap.blocks), heap.blocks)
  {
    var found, end := ScanIdentifier(input, cur, IsIdentTailNoUnderscore);
    if !found {
      r := Err(cur);
    } else {
      var out := heap.Dup(input[cur..end]);
      r := ParseResult(true, end, out);
    }
  }

  /**
   * Call node `p`'s callback on the output `out` of the inner result
   * (lua_rawgeti of the function, lua_pushstring of the output, lua_pcall);
   * None when the call raises.
   */
  method Invoke(g: Graph, call: (Value, Value) -> Option<Value>, p: NodeId, out: seq<byte>)
    returns (res: Option<Value>)
    requires g.Valid() && p in g.kinds && g.kinds[p].HasCallback()
    ensures res == call(g.Snapshot(call).Callback(g.kinds[p].func), Str(out))
  {
    CallbackFound(g.kinds, g.reg.slots, g.reg.slots, p);
    var fn := g.reg.Get(g.kinds[p].func);
    res := call(fn, Str(out));
  }

  /** map_parse */
  method ParseMap(g: Graph, heap: Heap, call: (Value, Value) -> Option<Value>, p: NodeId,
                  input: seq<byte>, cur: nat, fuel: nat)
    returns (r: ParseResult, exhausted: bool)
    requires g.Valid() && heap.Valid() && Parsable(g.Snapshot(call), p, input, cur) && g.kinds[p].Map?
    modifies g, g.reg, heap
    ensures g.Valid() && heap.Valid()
    ensures unchanged(g`kinds, g`refcount, g`holders, g`nextId, g`history) && unchanged(g.reg)
    ensures Reflects(RunMap(old(g.Snapshot(call)), g.kinds[p].inner, g.kinds[p].func, input, cur, fuel),
                     r, exhausted, old(heap.blocks), heap.blocks)
    decreases fuel, 3, 0
  {
    ghost var b0 := heap.blocks;
    assert ChildrenIn(g.kinds[p], g.kinds);
    var inner := g.kinds[p].inner;
    var r1, ex1 := Parse(g, heap, call, inner, input, cur, fuel);
    if ex1 || !r1.ok {
      return r1, ex1;
    }
    var res := Invoke(g, call, p, heap.blocks[r1.output]);
    if res.None? {
      FreeRestores(b0, r1.output, heap.blocks[r1.output]);
      heap.Free(r1.output);
      return Err(cur), false;
    }
    ghost var b1 := heap.blocks;
    var mapped := heap.Dup(MappedOutput(res.value));
    FreeEarlier(b0, r1.output, b1[r1.output], mapped, MappedOutput(res.value));
    heap.Free(r1.output);
    r, exhausted := ParseResult(true, r1.rest, mapped), false;
  }

  /** pred_parse */
  method ParsePred(g: Graph, heap: Heap, call: (Value, Value) -> Option<Value>, p: NodeId,
                   input: seq<byte>, cur: nat, fuel: nat)
    returns (r: ParseResult, exhausted: bool)
    requires g.Valid() && heap.Valid() && Parsable(g.Snapshot(call), p, input, cur) && g.kinds[p].Pred?
    modifies g, g.reg, heap
    ensures g.Valid() && heap.Valid()
    ensures unchanged(g`kinds, g`refcount, g`holders, g`nextId, g`history) && unchanged(g.reg)
    ensures Reflects(RunPred(old(g.Snapshot(call)), g.kinds[p].inner, g.kinds[p].func, input, cur, fuel),
                     r, exhausted, old(heap.blocks), heap.blocks)
    decreases fuel, 3, 0
  {
    ghost var b0 := heap.blocks;
    assert ChildrenIn(g.kinds[p], g.kinds);
    var inner := g.kinds[p].inner;
    r, exhausted := Parse(g, heap, call, inner, input, cur, fuel);
    if exhausted || !r.ok {
      return;
    }
    var res := Invoke(g, call, p, heap.blocks[r.output]);
    if res.None? || !Truthy(res.value) {
      FreeRestores(b0, r.output, heap.blocks[r.output]);
      heap.Free(r.output);
      return Err(cur), false;
    }
  }

  /** and_then_parse */
  method ParseAndThen(g: Graph, heap: Heap, call: (Value, Value) -> Option<Value>, p: NodeId,
                      input: seq<byte>, cur: nat, fuel: nat)
    returns (r: ParseResult, exhausted: bool)
    requires g.Valid() && heap.Valid() && Parsable(g.Snapshot(call), p, input, cur) && g.kinds[p].AndThen?
    modifies g, g.reg, heap
    ensures g.Valid() && heap.Valid()
    ensures unchanged(g`kinds, g`refcount, g`holders, g`nextId, g`history) && unchanged(g.reg)
    ensures Reflects(RunAndThen(old(g.Snapshot(call)), g.kinds[p].inner, g.kinds[p].func, input, cur, fuel),
                     r, exhausted, old(heap.blocks), heap.blocks)
    decreases fuel, 3, 0
  {
    ghost var b0 := heap.blocks;
    assert ChildrenIn(g.kinds[p], g.kinds);
    var inner := g.kinds[p].inner;
    var r1, ex1 := Parse(g, heap, call, inner, input, cur, fuel);
    if ex1 || !r1.ok {
      return r1, ex1;
    }
    var out1 := heap.blocks[r1.output];
    var res := Invoke(g, call, p, out1);
    if res.None? || !res.value.ParserUd? || res.value.node !in g.kinds {
      FreeRestores(b0, r1.output, out1);
      heap.Free(r1.output);
      return Err(cur), false;
    }
    r, exhausted := ParseContinuation(g, heap, call, res.value.node, input, r1.rest, fuel);
    if exhausted {
      return;
    }
    if r.ok {
      FreeEarlier(b0, r1.output, out1, r.output, heap.blocks[r.output]);
    } else {
      FreeRestores(b0, r1.output, out1);
    }
    heap.Free(r1.output);
  }

  /** parser_ref(next); next->parse(next, rest): the parse runs while the caller holds one more reference. */
  method ParseHeld(g: Graph, heap: Heap, call: (Value, Value) -> Option<Value>, next: NodeId,
                   input: seq<byte>, cur: nat, fuel: nat)
    returns (r: ParseResult, exhausted: bool)
    requires g.Valid() && heap.Valid() && Parsable(g.Snapshot(call), next, input, cur)
    modifies g, g.reg, heap
    ensures g.Valid() && heap.Valid() && unchanged(g.reg)
    ensures g.kinds == old(g.kinds) && g.nextId == old(g.nextId) && g.history == old(g.history)
    ensures g.refcount == old(g.refcount)[next := old(g.refcount[next]) + 1] && g.refcount[next] > 1
    ensures g.holders == old(g.holders) + multiset{next}
    ensures Reflects(Run(old(g.Snapshot(call)), next, input, cur, fuel), r, exhausted, old(heap.blocks), heap.blocks)
    decreases fuel, 2, 0
  {
    ghost var gr := g.Snapshot(call);
    assert NodeOk(g.kinds, g.refcount, g.holders, g.nextId, g.history, next);
    g.Ref(next);
    assert g.Snapshot(call) == gr;
    r, exhausted := Parse(g, heap, call, next, input, cur, fuel);
  }

  /** parser_ref(next); next->parse(next, rest); parser_unref(next): the count ends where it began. */
  method ParseContinuation(g: Graph, heap: Heap, call: (Value, Value) -> Option<Value>, next: NodeId,
                           input: seq<byte>, cur: nat, fuel: nat)
    returns (r: ParseResult, exhausted: bool)
    requires g.Valid() && heap.Valid() && Parsable(g.Snapshot(call), next, input, cur)
    modifies g, g.reg, heap
    ensures g.Valid() && heap.Valid()
    ensures unchanged(g`kinds, g`refcount, g`holders, g`nextId, g`history) && unchanged(g.reg)
    ensures Reflects(Run(old(g.Snapshot(call)), next, input, cur, fuel), r, exhausted, old(heap.blocks), heap.blocks)
    decreases fuel, 2, 1
  {
    ghost var rc, hs := g.refcount, g.holders;
    r, exhausted := ParseHeld(g, heap, call, next, input, cur, fuel);
    g.Unref(next);
    RefUnrefRestores(rc, hs, next);
  }

  /** or_parse */
  method ParseOrElse(g: Graph, heap: Heap, call: (Value, Value) -> Option<Value>, p: NodeId,
                     input: seq<byte>, cur: nat, fuel: nat)
    returns (r: ParseResult, exhausted: bool)
    requires g.Valid() && heap.Valid() && Parsable(g.Snapshot(call), p, input, cur) && g.kinds[p].OrElse?
    modifies g, g.reg, heap
    ensures g.Valid() && heap.Valid()
    ensures unchanged(g`kinds, g`refcount, g`holders, g`nextId, g`history) && unchanged(g.reg)
    ensures Reflects(RunOrElse(old(g.Snapshot(call)), g.kinds[p].left, g.kinds[p].right, input, cur, fuel),
                     r, exhausted, old(heap.blocks), heap.blocks)
    decreases fuel, 3, 0
  {
    assert ChildrenIn(g.kinds[p], g.kinds);
    var left, right := g.kinds[p].left, g.kinds[p].right;
    r, exhausted := Parse(g, heap, call, left, input, cur, fuel);
    if exhausted || r.ok {
      return;
    }
    r, exhausted := Parse(g, heap, call, right, input, cur, fuel);
  }

  /**
   * The repetition loop shared by both repetition kinds: parse, stop at the
   * first failure, otherwise append the item's output to the buffer, free
   * it and go on from its rest; the buffer becomes the result's output.
   */
  method Repeat(g: Graph, heap: Heap, call: (Value, Value) -> Option<Value>, inner: NodeId,
                input: seq<byte>, cur: nat, fuel: nat, buf: Buffer)
    returns (r: ParseResult, exhausted: bool)
    requires g.Valid() && heap.Valid() && Parsable(g.Snapshot(call), inner, input, cur)
    requires buf.Valid() && CString(buf.Contents())
    modifies g, g.reg, heap, buf, buf.data
    ensures g.Valid() && heap.Valid()
    ensures unchanged(g`kinds, g`refcount, g`holders, g`nextId, g`history) && unchanged(g.reg)
    ensures Reflects(Many(old(g.Snapshot(call)), inner, input, cur, fuel, old(buf.Contents())),
                     r, exhausted, old(heap.blocks), heap.blocks)
    decreases fuel, 2, 0
  {
    ghost var gr := g.Snapshot(call);
    ghost var b0 := heap.blocks;
    ghost var acc0 := buf.Contents();
    var pos := cur;
    while true
      invariant g.Valid() && heap.Valid() && heap.blocks == b0
      invariant unchanged(g`kinds, g`refcount, g`holders, g`nextId, g`history) && unchanged(g.reg)
      invariant g.Snapshot(call) == gr && pos <= |input|
      invariant buf.Valid() && CString(buf.Contents())
      invariant buf.data == old(buf.data) || fresh(buf.data)
      invariant Many(gr, inner, input, cur, fuel, acc0) == Many(gr, inner, input, pos, fuel, buf.Contents())
      decreases |input| - pos
    {
      var item, ex := Parse(g, heap, call, inner, input, pos, fuel);
      if ex {
        return item, true;
      }
      if !item.ok {
        break;
      }
      if item.rest == pos {
        // the source would append this item forever
        return item, true;
      }
      FreeRestores(b0, item.output, heap.blocks[item.output]);
      Absorb(heap, buf, item.output);
      pos := item.rest;
    }
    var output := heap.Dup(buf.data[..buf.len]);
    r, exhausted := ParseResult(true, pos, output), false;
  }

  /** Append an item's output to the buffer (strlen, memcpy), then free it. */
  method Absorb(heap: Heap, buf: Buffer, q: nat)
    requires heap.Valid() && q in heap.blocks && buf.Valid()
    modifies heap, buf, buf.data
    ensures heap.Valid() && heap.blocks == old(heap.blocks) - {q}
    ensures buf.Valid() && buf.Contents() == old(buf.Contents()) + old(heap.blocks[q])
    ensures buf.data == old(buf.data) || fresh(buf.data)
  {
    buf.Append(heap.blocks[q]);
    heap.Free(q);
  }

  /** zero_or_more_parse */
  method ParseZeroOrMore(g: Graph, heap: Heap, call: (Value, Value) -> Option<Value>, p: NodeId,
                         input: seq<byte>, cur: nat, fuel: nat)
    returns (r: ParseResult, exhausted: bool)
    requires g.Valid() && heap.Valid() && Parsable(g.Snapshot(call), p, input, cur) && g.kinds[p].ZeroOrMore?
    modifies g, g.reg, heap
    ensures g.Valid() && heap.Valid()
    ensures unchanged(g`kinds, g`refcount, g`holders, g`nextId, g`history) && unchanged(g.reg)
    ensures Reflects(RunZeroOrMore(old(g.Snapshot(call)), g.kinds[p].inner, input, cur, fuel),
                     r, exhausted, old(heap.blocks), heap.blocks)
    decreases fuel, 3, 0
  {
    assert ChildrenIn(g.kinds[p], g.kinds);
    var buf := new Buffer();
    buf.Terminate();
    r, exhausted := Repeat(g, heap, call, g.kinds[p].inner, input, cur, fuel, buf);
  }

  /**
   * one_or_more_parse: the first attempt's failure is returned as it is;
   * after a success its output starts the buffer and the same loop as
   * zero_or_more follows.
   */
  method ParseOneOrMore(g: Graph, heap: Heap, call: (Value, Value) -> Option<Value>, p: NodeId,
                        input: seq<byte>, cur: nat, fuel: nat)
    returns (r: ParseResult, exhausted: bool)
    requires g.Valid() && heap.Valid() && Parsable(g.Snapshot(call), p, input, cur) && g.kinds[p].OneOrMore?
    modifies g, g.reg, heap
    ensures g.Valid() && heap.Valid()
    ensures unchanged(g`kinds, g`refcount, g`holders, g`nextId, g`history) && unchanged(g.reg)
    ensures Reflects(RunOneOrMore(old(g.Snapshot(call)), g.kinds[p].inner, input, cur, fuel),
                     r, exhausted, old(heap.blocks), heap.blocks)
    decreases fuel, 3, 0
  {
    ghost var b0 := heap.blocks;
    assert ChildrenIn(g.kinds[p], g.kinds);
    var inner := g.kinds[p].inner;
    var first, ex := Parse(g, heap, call, inner, input, cur, fuel);
    if ex || !first.ok {
      return first, ex;
    }
    var buf := new Buffer();
    var out := heap.blocks[first.output];
    buf.Append(out);
    assert buf.Contents() == out;
    FreeRestores(b0, first.output, out);
    heap.Free(first.output);
    r, exhausted := Repeat(g, heap, call, inner, input, first.rest, fuel, buf);
  }

  /**
   * l_parser_parse: parse the C string of the argument from its start; on
   * success return the output as a Lua string (then free it) and the rest,
   * on failure nil and the rest.
   */
  method LuaParse(g: Graph, heap: Heap, call: (Value, Value) -> Option<Value>, ud: Userdata, s: seq<byte>, fuel: nat)
    returns (out: Value, rest: Value, exhausted: bool)
    requires g.Valid() && heap.Valid() && Linked(g.kinds) && StringKinds(g.kinds)
    requires ud.node.Some? && ud.node.value in g.kinds
    modifies g, g.reg, heap
    ensures g.Valid() && heap.Valid()
    ensures unchanged(g`kinds, g`refcount, g`holders, g`nextId, g`history) && unchanged(g.reg)
    ensures !exhausted ==> heap.blocks == old(heap.blocks)
    ensures var o := Run(old(g.Snapshot(call)), ud.node.value, CPrefix(s), 0, fuel);
      && (exhausted <==> o.OutOfFuel?)
      && (o.Done? ==> out == (if o.ok then Str(o.out) else Nil) && rest == Str(CPrefix(s)[o.rest..]))
  {
    ghost var b0 := heap.blocks;
    var input := CPrefix(s);
    var r;
    r, exhausted := Parse(g, heap, call, ud.node.value, input, 0, fuel);
    if exhausted {
      return Nil, Nil, true;
    }
    if r.ok {
      out := Str(heap.blocks[r.output]);
      rest := Str(input[r.rest..]);
      FreeRestores(b0, r.output, heap.blocks[r.output]);
      heap.Free(r.output);
    } else {
      out, rest := Nil, Str(input[r.rest..]);
    }
  }
}
