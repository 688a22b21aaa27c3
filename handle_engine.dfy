/**
 * The parse functions of src/parser.c. A parse takes a node and a cursor into
 * the input and returns (ok, rest, lua_ref): the output value lives in the Lua
 * registry under the handle lua_ref. Each combinator either forwards a
 * child's handle or releases it, except on the error paths of map, and_then
 * and pred, which drop the inner handle without releasing it.
 *
 * The meaning of a parse is given by Run, a function over values: the outcome
 * (success, rest, output value) and the number of registry slots the parse
 * leaves behind that nobody will release. Each Parse method is proved to
 * produce exactly that outcome and that change to the registry.
 */
module HandleEngine {
  import opened Wrappers
  import opened Lexing
  import opened LuaRegistry
  import opened Nodes

  /** The record of parse_ok / parse_err: a flag, the cursor after the match and the output's handle. */
  datatype ParseResult = ParseResult(ok: bool, rest: nat, ref: int)

  /** parse_err(input): failure at `cur` with no output. */
  function Err(cur: nat): ParseResult {
    ParseResult(false, cur, NoRef)
  }

  /**
   * The meaning of a parse: Done with the flag, the rest, the output value
   * (Nil on failure) and the number of registry slots it leaks; or OutOfFuel
   * when the parse would not return (it recursed deeper than the fuel, or a
   * repetition's inner parser succeeded without consuming input).
   */
  datatype Outcome = Done(ok: bool, rest: nat, value: Value, leaks: nat) | OutOfFuel

  /** A failure at `cur` that leaks `leaks` slots. */
  function Failed(cur: nat, leaks: nat): Outcome {
    Done(false, cur, Nil, leaks)
  }

  /** The same outcome with `n` more leaked slots. */
  function AddLeaks(o: Outcome, n: nat): Outcome {
    if o.OutOfFuel? then o else o.(leaks := o.leaks + n)
  }

  /** A finished parse ends between the cursor and the terminator, and a failure has no output. */
  predicate WellFormed(o: Outcome, input: seq<byte>, cur: nat) {
    o.Done? ==> cur <= o.rest <= |input| && (!o.ok ==> o.value.Nil?)
  }

  // ---------------------------------------------------------------------
  // The meaning of a parse
  // ---------------------------------------------------------------------

  /** Parse with node `p` at `cur`; each step into a node costs one unit of fuel. */
  function Run(gr: Grammar, p: NodeId, input: seq<byte>, cur: nat, fuel: nat): (o: Outcome)
    requires gr.Ok() && p in gr.kinds && cur <= |input|
    ensures WellFormed(o, input, cur)
    decreases fuel, 1, 0
  {
    if fuel == 0 then OutOfFuel
    else
      match gr.kinds[p]
      case Literal(lit) => RunLiteral(lit, input, cur)
      case AnyChar => RunAnyChar(input, cur)
      case Identifier => RunIdentifier(input, cur)
      case Map(i, f) => RunMap(gr, i, f, input, cur, fuel - 1)
      case AndThen(i, f) => RunAndThen(gr, i, f, input, cur, fuel - 1)
      case OrElse(l, r) => RunOrElse(gr, l, r, input, cur, fuel - 1)
      case Pred(i, f) => RunPred(gr, i, f, input, cur, fuel - 1)
      case Left(l, r) => RunLeft(gr, l, r, input, cur, fuel - 1)
      case Right(l, r) => RunRight(gr, l, r, input, cur, fuel - 1)
      case OneOrMore(i) => RunOneOrMore(gr, i, input, cur, fuel - 1)
      case ZeroOrMore(i) => RunZeroOrMore(gr, i, input, cur, fuel - 1)
  }

  /** literal: an exact prefix match whose output is the literal itself. */
  function RunLiteral(lit: seq<byte>, input: seq<byte>, cur: nat): (o: Outcome)
    requires cur <= |input|
    ensures WellFormed(o, input, cur) && o.Done? && o.leaks == 0
  {
    if StartsWith(input, cur, lit) then Done(true, cur + |lit|, Str(lit), 0) else Failed(cur, 0)
  }

  /** any_char: one character by the lead-byte width, clamped at the terminator. */
  function RunAnyChar(input: seq<byte>, cur: nat): (o: Outcome)
    requires cur <= |input|
    ensures WellFormed(o, input, cur) && o.Done? && o.leaks == 0
  {
    match AnyCharEnd(input, cur)
    case None => Failed(cur, 0)
    case Some(e) => Done(true, e, Str(input[cur..e]), 0)
  }

  /** identifier: an alphanumeric byte and the maximal run of alphanumerics, '-' and '_' after it. */
  function RunIdentifier(input: seq<byte>, cur: nat): (o: Outcome)
    requires cur <= |input|
    ensures WellFormed(o, input, cur) && o.Done? && o.leaks == 0
  {
    match IdentifierEnd(input, cur, IsIdentTail)
    case None => Failed(cur, 0)
    case Some(e) => Done(true, e, Str(input[cur..e]), 0)
  }

  /**
   * map: the callback's result replaces the inner output. When the callback
   * raises, the inner output's slot is not released.
   */
  function RunMap(gr: Grammar, inner: NodeId, f: int, input: seq<byte>, cur: nat, fuel: nat): (o: Outcome)
    requires gr.Ok() && inner in gr.kinds && cur <= |input|
    ensures WellFormed(o, input, cur)
    decreases fuel, 3, 0
  {
    var o1 := Run(gr, inner, input, cur, fuel);
    if o1.OutOfFuel? || !o1.ok then o1
    else match gr.call(gr.Callback(f), o1.value)
      case None => Failed(cur, o1.leaks + Slot(o1.value))
      case Some(v) => Done(true, o1.rest, v, o1.leaks)
  }

  /**
   * and_then: the callback picks the parser that continues from the inner
   * rest; the continuation's result is the result. When the callback raises
   * or returns something other than a live parser, the inner output's slot
   * is not released.
   */
  function RunAndThen(gr: Grammar, inner: NodeId, f: int, input: seq<byte>, cur: nat, fuel: nat): (o: Outcome)
    requires gr.Ok() && inner in gr.kinds && cur <= |input|
    ensures WellFormed(o, input, cur)
    decreases fuel, 3, 0
  {
    var o1 := Run(gr, inner, input, cur, fuel);
    if o1.OutOfFuel? || !o1.ok then o1
    else match gr.call(gr.Callback(f), o1.value)
      case Some(ParserUd(n)) =>
        if n in gr.kinds then AddLeaks(Run(gr, n, input, o1.rest, fuel), o1.leaks)
        else Failed(cur, o1.leaks + Slot(o1.value))
      case _ => Failed(cur, o1.leaks + Slot(o1.value))
  }

  /** or_else: the left result if it succeeds, else the right parse from the same cursor. */
  function RunOrElse(gr: Grammar, l: NodeId, r: NodeId, input: seq<byte>, cur: nat, fuel: nat): (o: Outcome)
    requires gr.Ok() && l in gr.kinds && r in gr.kinds && cur <= |input|
    ensures WellFormed(o, input, cur)
    decreases fuel, 3, 0
  {
    var o1 := Run(gr, l, input, cur, fuel);
    if o1.OutOfFuel? || o1.ok then o1
    else AddLeaks(Run(gr, r, input, cur, fuel), o1.leaks)
  }

  /**
   * pred: the inner result if the callback's answer is truthy; otherwise a
   * failure at the cursor that does not release the inner output's slot.
   */
  function RunPred(gr: Grammar, inner: NodeId, f: int, input: seq<byte>, cur: nat, fuel: nat): (o: Outcome)
    requires gr.Ok() && inner in gr.kinds && cur <= |input|
    ensures WellFormed(o, input, cur)
    decreases fuel, 3, 0
  {
    var o1 := Run(gr, inner, input, cur, fuel);
    if o1.OutOfFuel? || !o1.ok then o1
    else match gr.call(gr.Callback(f), o1.value)
      case Some(v) =>
        if Truthy(v) then o1 else Failed(cur, o1.leaks + Slot(o1.value))
      case None => Failed(cur, o1.leaks + Slot(o1.value))
  }

  /** The two halves of left/right: both must succeed in turn. */
  function RunSeq(gr: Grammar, l: NodeId, r: NodeId, keepLeft: bool, input: seq<byte>, cur: nat, fuel: nat): (o: Outcome)
    requires gr.Ok() && l in gr.kinds && r in gr.kinds && cur <= |input|
    ensures WellFormed(o, input, cur)
    decreases fuel, 3, 0
  {
    var o1 := Run(gr, l, input, cur, fuel);
    if o1.OutOfFuel? || !o1.ok then o1
    else
      var o2 := Run(gr, r, input, o1.rest, fuel);
      if o2.OutOfFuel? then o2
      else if !o2.ok then AddLeaks(o2, o1.leaks)
      else Done(true, o2.rest, if keepLeft then o1.value else o2.value, o1.leaks + o2.leaks)
  }

  /** left: both in turn; the output is the left one's. */
  function RunLeft(gr: Grammar, l: NodeId, r: NodeId, input: seq<byte>, cur: nat, fuel: nat): (o: Outcome)
    requires gr.Ok() && l in gr.kinds && r in gr.kinds && cur <= |input|
    ensures WellFormed(o, input, cur)
    decreases fuel, 4, 0
  {
    RunSeq(gr, l, r, true, input, cur, fuel)
  }

  /** right: both in turn; the output is the right one's. */
  function RunRight(gr: Grammar, l: NodeId, r: NodeId, input: seq<byte>, cur: nat, fuel: nat): (o: Outcome)
    requires gr.Ok() && l in gr.kinds && r in gr.kinds && cur <= |input|
    ensures WellFormed(o, input, cur)
    decreases fuel, 4, 0
  {
    RunSeq(gr, l, r, false, input, cur, fuel)
  }

  /**
   * The repetition loop from `cur`, with `items` collected so far and `leaks`
   * slots leaked so far: it stops at the first failure and succeeds with the
   * table of items. An inner success that consumes nothing would repeat
   * forever.
   */
  function Many(gr: Grammar, inner: NodeId, input: seq<byte>, cur: nat, fuel: nat,
                items: seq<Value>, leaks: nat): (o: Outcome)
    requires gr.Ok() && inner in gr.kinds && cur <= |input|
    ensures WellFormed(o, input, cur)
    ensures o.Done? ==> o.ok && o.value.Table? && items <= o.value.items
    decreases fuel, 2, |input| - cur
  {
    var o1 := Run(gr, inner, input, cur, fuel);
    if o1.OutOfFuel? then OutOfFuel
    else if !o1.ok then Done(true, cur, Table(items), leaks + o1.leaks)
    else if o1.rest == cur then OutOfFuel
    else Many(gr, inner, input, o1.rest, fuel, items + [o1.value], leaks + o1.leaks)
  }

  /** one_or_more: the first failure as it is, else the repetition after the first item. */
  function RunOneOrMore(gr: Grammar, inner: NodeId, input: seq<byte>, cur: nat, fuel: nat): (o: Outcome)
    requires gr.Ok() && inner in gr.kinds && cur <= |input|
    ensures WellFormed(o, input, cur)
    ensures o.Done? && o.ok ==> cur < o.rest && o.value.Table? && |o.value.items| >= 1
    decreases fuel, 3, 0
  {
    var o1 := Run(gr, inner, input, cur, fuel);
    if o1.OutOfFuel? || !o1.ok then o1
    else Many(gr, inner, input, o1.rest, fuel, [o1.value], o1.leaks)
  }

  /** zero_or_more: the repetition from the cursor with nothing collected. */
  function RunZeroOrMore(gr: Grammar, inner: NodeId, input: seq<byte>, cur: nat, fuel: nat): (o: Outcome)
    requires gr.Ok() && inner in gr.kinds && cur <= |input|
    ensures WellFormed(o, input, cur)
    ensures o.Done? ==> o.ok
    decreases fuel, 3, 0
  {
    Many(gr, inner, input, cur, fuel, [], 0)
  }

  // ---------------------------------------------------------------------
  // What a parse does to the registry
  // ---------------------------------------------------------------------

  /**
   * The handle of a result holds its output: LUA_REFNIL for a nil output of
   * a success, LUA_NOREF for a failure, otherwise a slot that did not exist
   * before the parse.
   */
  ghost predicate Holds(r: ParseResult, v: Value, s0: map<int, Value>, s1: map<int, Value>) {
    if v.Nil? then r.ref == (if r.ok then RefNil else NoRef)
    else r.ref !in s0 && r.ref in s1 && s1[r.ref] == v
  }

  /**
   * A parse that took the registry from `s0` to `s1` and returned `r` did
   * what `o` says: the same flag and rest, every earlier slot untouched, the
   * output in a new slot, and exactly `leaks` other new slots.
   */
  ghost predicate Reflects(o: Outcome, r: ParseResult, exhausted: bool, s0: map<int, Value>, s1: map<int, Value>) {
    && (exhausted <==> o.OutOfFuel?)
    && (o.Done? ==>
          && r.ok == o.ok && r.rest == o.rest
          && Extends(s0, s1)
          && |s1.Keys| == |s0.Keys| + o.leaks + Slot(o.value)
          && Holds(r, o.value, s0, s1))
  }

  /** The graph invariant survives registry changes that keep the earlier slots. */
  lemma StillValid(g: Graph, s0: map<int, Value>)
    requires g.reg.Valid() && GraphInv(g.kinds, g.refcount, g.holders, g.nextId, g.history, s0)
    requires Extends(s0, g.reg.slots)
    ensures g.Valid()
  {
    InvExtends(g.kinds, g.refcount, g.holders, g.nextId, g.history, s0, g.reg.slots);
  }

  /** What a parse sees of the graph does not change while the registry grows. */
  lemma SnapshotStable(g: Graph, call: (Value, Value) -> Option<Value>, s0: map<int, Value>)
    requires CallbacksOwned(g.kinds, s0) && Extends(s0, g.reg.slots)
    ensures g.Snapshot(call) == Grammar(g.kinds, FuncsOf(g.kinds, s0), call)
  {
    FuncsStable(g.kinds, s0, g.reg.slots);
  }

  /** luaL_ref on behalf of a parse: the output gets a new slot (none for nil). */
  method Register(g: Graph, v: Value) returns (h: int)
    requires g.Valid()
    modifies g.reg
    ensures g.Valid()
    ensures Extends(old(g.reg.slots), g.reg.slots)
    ensures |g.reg.slots.Keys| == |old(g.reg.slots.Keys)| + Slot(v)
    ensures Holds(ParseResult(true, 0, h), v, old(g.reg.slots), g.reg.slots)
  {
    h := g.reg.Ref(v);
    StillValid(g, old(g.reg.slots));
  }

  /**
   * luaL_unref of a successful result's handle, guarded by LUA_NOREF as the
   * parse functions do: the slot its output occupied, if any, is released.
   */
  method Release(g: Graph, r: ParseResult, ghost v: Value, ghost s0: map<int, Value>)
    requires g.Valid() && r.ok && CallbacksOwned(g.kinds, s0)
    requires Extends(s0, g.reg.slots) && Holds(r, v, s0, g.reg.slots)
    modifies g.reg
    ensures g.Valid()
    ensures g.reg.slots == old(g.reg.slots) - {r.ref}
    ensures Extends(s0, g.reg.slots)
    ensures |g.reg.slots.Keys| + Slot(v) == |old(g.reg.slots.Keys)|
  {
    if r.ref != NoRef {
      g.reg.Unref(r.ref);
    }
    StillValid(g, s0);
  }

  // ---------------------------------------------------------------------
  // The parse functions
  // ---------------------------------------------------------------------

  /** p->parse(p, input): dispatch on the node's kind. */
  method Parse(g: Graph, call: (Value, Value) -> Option<Value>, p: NodeId, input: seq<byte>, cur: nat, fuel: nat)
    returns (r: ParseResult, exhausted: bool)
    requires g.Valid() && Linked(g.kinds) && p in g.kinds && cur <= |input|
    modifies g, g.reg
    ensures g.Valid() && unchanged(g`kinds, g`refcount, g`holders, g`nextId, g`history)
    ensures Reflects(Run(old(g.Snapshot(call)), p, input, cur, fuel), r, exhausted, old(g.reg.slots), g.reg.slots)
    decreases fuel, 1, 0
  {
    if fuel == 0 {
      return Err(cur), true;
    }
    match g.kinds[p]
    case Literal(lit) =>
      r := ParseLiteral(g, lit, input, cur);
      exhausted := false;
    case AnyChar =>
      r := ParseAnyChar(g, input, cur);
      exhausted := false;
    case Identifier =>
      r := ParseIdentifier(g, input, cur);
      exhausted := false;
    case Map(_, _) =>
      r, exhausted := ParseMap(g, call, p, input, cur, fuel - 1);
    case AndThen(_, _) =>
      r, exhausted := ParseAndThen(g, call, p, input, cur, fuel - 1);
    case OrElse(_, _) =>
      r, exhausted := ParseOrElse(g, call, p, input, cur, fuel - 1);
    case Pred(_, _) =>
      r, exhausted := ParsePred(g, call, p, input, cur, fuel - 1);
    case Left(_, _) =>
      r, exhausted := ParseLeft(g, call, p, input, cur, fuel - 1);
    case Right(_, _) =>
      r, exhausted := ParseRight(g, call, p, input, cur, fuel - 1);
    case OneOrMore(_) =>
      r, exhausted := ParseOneOrMore(g, call, p, input, cur, fuel - 1);
    case ZeroOrMore(_) =>
      r, exhausted := ParseZeroOrMore(g, call, p, input, cur, fuel - 1);
  }

  /** literal_parse */
  method ParseLiteral(g: Graph, lit: seq<byte>, input: seq<byte>, cur: nat) returns (r: ParseResult)
    requires g.Valid() && cur <= |input|
    modifies g.reg
    ensures g.Valid()
    ensures Reflects(RunLiteral(lit, input, cur), r, false, old(g.reg.slots), g.reg.slots)
  {
    var n := |lit|;
    if cur + n <= |input| && input[cur..cur + n] == lit {
      var h := Register(g, Str(lit));
      r := ParseResult(true, cur + n, h);
    } else {
      r := Err(cur);
    }
  }

  /** any_char_parse, reading no byte past the terminator. */
  method ParseAnyChar(g: Graph, input: seq<byte>, cur: nat) returns (r: ParseResult)
    requires g.Valid() && cur <= |input|
    modifies g.reg
    ensures g.Valid()
    ensures Reflects(RunAnyChar(input, cur), r, false, old(g.reg.slots), g.reg.slots)
  {
    if cur == |input| {
      r := Err(cur);
    } else {
      var len := LeadWidth(input[cur]);
      var end := if cur + len <= |input| then cur + len else |input|;
      var h := Register(g, Str(input[cur..end]));
      r := ParseResult(true, end, h);
    }
  }

  /** identifier_parse */
  method ParseIdentifier(g: Graph, input: seq<byte>, cur: nat) returns (r: ParseResult)
    requires g.Valid() && cur <= |input|
    modifies g.reg
    ensures g.Valid()
    ensures Reflects(RunIdentifier(input, cur), r, false, old(g.reg.slots), g.reg.slots)
  {
    var found, end := ScanIdentifier(input, cur, IsIdentTail);
    if !found {
      r := Err(cur);
    } else {
      var h := Register(g, Str(input[cur..end]));
      r := ParseResult(true, end, h);
    }
  }

  /** The argument a callback receives: the output under the handle, or nil for LUA_NOREF. */
  method Output(reg: Registry, h: int) returns (v: Value)
    requires reg.Valid()
    ensures v == reg.Get(h)
  {
    if h != NoRef {
      v := reg.Get(h);
    } else {
      v := Nil;
    }
  }

  /**
   * Call node `p`'s callback on the output held by the successful result
   * `r1` (lua_rawgeti of both, then lua_pcall); None when the call raises.
   */
  method Invoke(g: Graph, call: (Value, Value) -> Option<Value>, p: NodeId, r1: ParseResult,
                ghost v1: Value, ghost s0: map<int, Value>)
    returns (res: Option<Value>)
    requires g.Valid() && p in g.kinds && g.kinds[p].HasCallback() && r1.ok
    requires CallbacksOwned(g.kinds, s0) && Extends(s0, g.reg.slots) && Holds(r1, v1, s0, g.reg.slots)
    ensures res == call(Grammar(g.kinds, FuncsOf(g.kinds, s0), call).Callback(g.kinds[p].func), v1)
  {
    CallbackFound(g.kinds, s0, g.reg.slots, p);
    var fn := g.reg.Get(g.kinds[p].func);
    var arg := Output(g.reg, r1.ref);
    res := call(fn, arg);
  }

  /** map_parse */
  method ParseMap(g: Graph, call: (Value, Value) -> Option<Value>, p: NodeId, input: seq<byte>, cur: nat, fuel: nat)
    returns (r: ParseResult, exhausted: bool)
    requires g.Valid() && Linked(g.kinds) && p in g.kinds && g.kinds[p].Map? && cur <= |input|
    modifies g, g.reg
    ensures g.Valid() && unchanged(g`kinds, g`refcount, g`holders, g`nextId, g`history)
    ensures Reflects(RunMap(old(g.Snapshot(call)), g.kinds[p].inner, g.kinds[p].func, input, cur, fuel),
                     r, exhausted, old(g.reg.slots), g.reg.slots)
    decreases fuel, 3, 0
  {
    ghost var gr := g.Snapshot(call);
    ghost var s0 := g.reg.slots;
    var inner := g.kinds[p].inner;
    var r1, ex1 := Parse(g, call, inner, input, cur, fuel);
    if ex1 || !r1.ok {
      return r1, ex1;
    }
    ghost var o1 := Run(gr, inner, input, cur, fuel);
    var res := Invoke(g, call, p, r1, o1.value, s0);
    if res.None? {
      return Err(cur), false;
    }
    Release(g, r1, o1.value, s0);
    var h := Register(g, res.value);
    r, exhausted := ParseResult(true, r1.rest, h), false;
  }

  /** pred_parse */
  method ParsePred(g: Graph, call: (Value, Value) -> Option<Value>, p: NodeId, input: seq<byte>, cur: nat, fuel: nat)
    returns (r: ParseResult, exhausted: bool)
    requires g.Valid() && Linked(g.kinds) && p in g.kinds && g.kinds[p].Pred? && cur <= |input|
    modifies g, g.reg
    ensures g.Valid() && unchanged(g`kinds, g`refcount, g`holders, g`nextId, g`history)
    ensures Reflects(RunPred(old(g.Snapshot(call)), g.kinds[p].inner, g.kinds[p].func, input, cur, fuel),
                     r, exhausted, old(g.reg.slots), g.reg.slots)
    decreases fuel, 3, 0
  {
    ghost var gr := g.Snapshot(call);
    ghost var s0 := g.reg.slots;
    var inner := g.kinds[p].inner;
    r, exhausted := Parse(g, call, inner, input, cur, fuel);
    if exhausted || !r.ok {
      return;
    }
    ghost var o1 := Run(gr, inner, input, cur, fuel);
    var res := Invoke(g, call, p, r, o1.value, s0);
    if res.None? || !Truthy(res.value) {
      return Err(cur), false;
    }
  }

  /** and_then_parse */
  method ParseAndThen(g: Graph, call: (Value, Value) -> Option<Value>, p: NodeId, input: seq<byte>, cur: nat, fuel: nat)
    returns (r: ParseResult, exhausted: bool)
    requires g.Valid() && Linked(g.kinds) && p in g.kinds && g.kinds[p].AndThen? && cur <= |input|
    modifies g, g.reg
    ensures g.Valid() && unchanged(g`kinds, g`refcount, g`holders, g`nextId, g`history)
    ensures Reflects(RunAndThen(old(g.Snapshot(call)), g.kinds[p].inner, g.kinds[p].func, input, cur, fuel),
                     r, exhausted, old(g.reg.slots), g.reg.slots)
    decreases fuel, 3, 0
  {
    ghost var gr := g.Snapshot(call);
    ghost var s0 := g.reg.slots;
    var inner := g.kinds[p].inner;
    var r1, ex1 := Parse(g, call, inner, input, cur, fuel);
    if ex1 || !r1.ok {
      return r1, ex1;
    }
    ghost var o1 := Run(gr, inner, input, cur, fuel);
    var res := Invoke(g, call, p, r1, o1.value, s0);
    if res.None? || !res.value.ParserUd? || res.value.node !in g.kinds {
      return Err(cur), false;
    }
    SnapshotStable(g, call, s0);
    ghost var s1 := g.reg.slots;
    r, exhausted := ParseContinuation(g, call, res.value.node, input, r1.rest, fuel);
    if exhausted {
      return;
    }
    ghost var o2 := Run(gr, res.value.node, input, r1.rest, fuel);
    ThenRelease(s0, s1, g.reg.slots, r1, o1.value, r, o2.value);
    Release(g, r1, o1.value, s0);
  }

  /**
   * A handle created by a later parse is not the earlier result's handle, so
   * releasing the earlier one leaves the later one held.
   */
  lemma ThenRelease(s0: map<int, Value>, s1: map<int, Value>, s2: map<int, Value>,
                    r1: ParseResult, v1: Value, r2: ParseResult, v2: Value)
    requires Extends(s0, s1) && Extends(s1, s2) && r1.ok && Holds(r1, v1, s0, s1) && Holds(r2, v2, s1, s2)
    requires RefNil !in s2
    ensures Extends(s0, s2) && Holds(r1, v1, s0, s2)
    ensures Holds(r2, v2, s0, s2 - {r1.ref})
  {
  }

  /** parser_ref(next); next->parse(next, rest): the parse runs while the caller holds one more reference. */
  method ParseHeld(g: Graph, call: (Value, Value) -> Option<Value>, next: NodeId, input: seq<byte>, cur: nat, fuel: nat)
    returns (r: ParseResult, exhausted: bool)
    requires g.Valid() && Linked(g.kinds) && next in g.kinds && cur <= |input|
    modifies g, g.reg
    ensures g.Valid() && g.kinds == old(g.kinds) && g.nextId == old(g.nextId) && g.history == old(g.history)
    ensures g.refcount == old(g.refcount)[next := old(g.refcount[next]) + 1] && g.refcount[next] > 1
    ensures g.holders == old(g.holders) + multiset{next}
    ensures Reflects(Run(old(g.Snapshot(call)), next, input, cur, fuel), r, exhausted, old(g.reg.slots), g.reg.slots)
    decreases fuel, 2, 0
  {
    ghost var gr := g.Snapshot(call);
    assert NodeOk(g.kinds, g.refcount, g.holders, g.nextId, g.history, next);
    g.Ref(next);
    assert g.Snapshot(call) == gr;
    r, exhausted := Parse(g, call, next, input, cur, fuel);
  }

  /** parser_ref(next); next->parse(next, rest); parser_unref(next): the count ends where it began. */
  method ParseContinuation(g: Graph, call: (Value, Value) -> Option<Value>, next: NodeId, input: seq<byte>, cur: nat, fuel: nat)
    returns (r: ParseResult, exhausted: bool)
    requires g.Valid() && Linked(g.kinds) && next in g.kinds && cur <= |input|
    modifies g, g.reg
    ensures g.Valid() && unchanged(g`kinds, g`refcount, g`holders, g`nextId, g`history)
    ensures Reflects(Run(old(g.Snapshot(call)), next, input, cur, fuel), r, exhausted, old(g.reg.slots), g.reg.slots)
    decreases fuel, 2, 1
  {
    ghost var rc, hs := g.refcount, g.holders;
    r, exhausted := ParseHeld(g, call, next, input, cur, fuel);
    g.Unref(next);
    RefUnrefRestores(rc, hs, next);
  }

  /** or_parse */
  method ParseOrElse(g: Graph, call: (Value, Value) -> Option<Value>, p: NodeId, input: seq<byte>, cur: nat, fuel: nat)
    returns (r: ParseResult, exhausted: bool)
    requires g.Valid() && Linked(g.kinds) && p in g.kinds && g.kinds[p].OrElse? && cur <= |input|
    modifies g, g.reg
    ensures g.Valid() && unchanged(g`kinds, g`refcount, g`holders, g`nextId, g`history)
    ensures Reflects(RunOrElse(old(g.Snapshot(call)), g.kinds[p].left, g.kinds[p].right, input, cur, fuel),
                     r, exhausted, old(g.reg.slots), g.reg.slots)
    decreases fuel, 3, 0
  {
    ghost var s0 := g.reg.slots;
    var left, right := g.kinds[p].left, g.kinds[p].right;
    r, exhausted := Parse(g, call, left, input, cur, fuel);
    if exhausted || r.ok {
      return;
    }
    SnapshotStable(g, call, s0);
    r, exhausted := Parse(g, call, right, input, cur, fuel);
  }

  /** left_parse and right_parse: `keepLeft` selects whose handle is returned and whose released. */
  method ParseSeq(g: Graph, call: (Value, Value) -> Option<Value>, l: NodeId, rt: NodeId, keepLeft: bool,
                  input: seq<byte>, cur: nat, fuel: nat)
    returns (r: ParseResult, exhausted: bool)
    requires g.Valid() && Linked(g.kinds) && l in g.kinds && rt in g.kinds && cur <= |input|
    modifies g, g.reg
    ensures g.Valid() && unchanged(g`kinds, g`refcount, g`holders, g`nextId, g`history)
    ensures Reflects(RunSeq(old(g.Snapshot(call)), l, rt, keepLeft, input, cur, fuel),
                     r, exhausted, old(g.reg.slots), g.reg.slots)
    decreases fuel, 3, 0
  {
    ghost var gr := g.Snapshot(call);
    ghost var s0 := g.reg.slots;
    var r1, ex1 := Parse(g, call, l, input, cur, fuel);
    if ex1 || !r1.ok {
      return r1, ex1;
    }
    ghost var o1 := Run(gr, l, input, cur, fuel);
    ghost var s1 := g.reg.slots;
    SnapshotStable(g, call, s0);
    var r2, ex2 := Parse(g, call, rt, input, r1.rest, fuel);
    if ex2 {
      return r2, true;
    }
    ghost var o2 := Run(gr, rt, input, r1.rest, fuel);
    ThenRelease(s0, s1, g.reg.slots, r1, o1.value, r2, o2.value);
    if !r2.ok {
      Release(g, r1, o1.value, s0);
      return r2, false;
    }
    if keepLeft {
      ThenReleaseLater(s0, s1, g.reg.slots, r1, o1.value, r2, o2.value);
      Release(g, r2, o2.value, s0);
      r := ParseResult(true, r2.rest, r1.ref);
    } else {
      Release(g, r1, o1.value, s0);
      r := ParseResult(true, r2.rest, r2.ref);
    }
    exhausted := false;
  }

  /** Releasing the later result's handle leaves the earlier one held. */
  lemma ThenReleaseLater(s0: map<int, Value>, s1: map<int, Value>, s2: map<int, Value>,
                         r1: ParseResult, v1: Value, r2: ParseResult, v2: Value)
    requires Extends(s0, s1) && Extends(s1, s2) && r1.ok && r2.ok && Holds(r1, v1, s0, s1) && Holds(r2, v2, s1, s2)
    requires RefNil !in s1
    ensures Holds(r1, v1, s0, s2 - {r2.ref})
  {
  }

  /** left_parse */
  method ParseLeft(g: Graph, call: (Value, Value) -> Option<Value>, p: NodeId, input: seq<byte>, cur: nat, fuel: nat)
    returns (r: ParseResult, exhausted: bool)
    requires g.Valid() && Linked(g.kinds) && p in g.kinds && g.kinds[p].Left? && cur <= |input|
    modifies g, g.reg
    ensures g.Valid() && unchanged(g`kinds, g`refcount, g`holders, g`nextId, g`history)
    ensures Reflects(RunLeft(old(g.Snapshot(call)), g.kinds[p].left, g.kinds[p].right, input, cur, fuel),
                     r, exhausted, old(g.reg.slots), g.reg.slots)
    decreases fuel, 4, 0
  {
    r, exhausted := ParseSeq(g, call, g.kinds[p].left, g.kinds[p].right, true, input, cur, fuel);
  }

  /** right_parse */
  method ParseRight(g: Graph, call: (Value, Value) -> Option<Value>, p: NodeId, input: seq<byte>, cur: nat, fuel: nat)
    returns (r: ParseResult, exhausted: bool)
    requires g.Valid() && Linked(g.kinds) && p in g.kinds && g.kinds[p].Right? && cur <= |input|
    modifies g, g.reg
    ensures g.Valid() && unchanged(g`kinds, g`refcount, g`holders, g`nextId, g`history)
    ensures Reflects(RunRight(old(g.Snapshot(call)), g.kinds[p].left, g.kinds[p].right, input, cur, fuel),
                     r, exhausted, old(g.reg.slots), g.reg.slots)
    decreases fuel, 4, 0
  {
    r, exhausted := ParseSeq(g, call, g.kinds[p].left, g.kinds[p].right, false, input, cur, fuel);
  }

  /**
   * Move an item's output into the repetition table: read it (nil for
   * LUA_NOREF) and release its handle.
   */
  method TakeItem(g: Graph, r: ParseResult, ghost v: Value, ghost s0: map<int, Value>) returns (item: Value)
    requires g.Valid() && r.ok && CallbacksOwned(g.kinds, s0)
    requires Extends(s0, g.reg.slots) && Holds(r, v, s0, g.reg.slots)
    modifies g.reg
    ensures g.Valid() && item == v
    ensures Extends(s0, g.reg.slots)
    ensures |g.reg.slots.Keys| + Slot(v) == |old(g.reg.slots.Keys)|
  {
    item := Output(g.reg, r.ref);
    Release(g, r, v, s0);
  }

  /**
   * The repetition loop shared by both repetition kinds: parse, stop at the
   * first failure, otherwise move the item into the table and go on from its
   * rest; finally register the table.
   */
  method Collect(g: Graph, call: (Value, Value) -> Option<Value>, inner: NodeId, input: seq<byte>, cur: nat, fuel: nat,
                 items0: seq<Value>)
    returns (r: ParseResult, exhausted: bool)
    requires g.Valid() && Linked(g.kinds) && inner in g.kinds && cur <= |input|
    modifies g, g.reg
    ensures g.Valid() && unchanged(g`kinds, g`refcount, g`holders, g`nextId, g`history)
    ensures Reflects(Many(old(g.Snapshot(call)), inner, input, cur, fuel, items0, 0),
                     r, exhausted, old(g.reg.slots), g.reg.slots)
    decreases fuel, 2, 0
  {
    ghost var gr := g.Snapshot(call);
    ghost var s0 := g.reg.slots;
    var items := items0;
    ghost var leaks: nat := 0;
    var pos := cur;
    while true
      invariant g.Valid() && unchanged(g`kinds, g`refcount, g`holders, g`nextId, g`history)
      invariant pos <= |input|
      invariant Extends(s0, g.reg.slots) && |g.reg.slots.Keys| == |s0.Keys| + leaks
      invariant Many(gr, inner, input, cur, fuel, items0, 0) == Many(gr, inner, input, pos, fuel, items, leaks)
      decreases |input| - pos
    {
      SnapshotStable(g, call, s0);
      var item, ex := Parse(g, call, inner, input, pos, fuel);
      if ex {
        return item, true;
      }
      ghost var o := Run(gr, inner, input, pos, fuel);
      if !item.ok {
        leaks := leaks + o.leaks;
        break;
      }
      if item.rest == pos {
        // the source would collect this item forever
        return item, true;
      }
      var v := TakeItem(g, item, o.value, s0);
      items := items + [v];
      leaks := leaks + o.leaks;
      pos := item.rest;
    }
    var h := Register(g, Table(items));
    r, exhausted := ParseResult(true, pos, h), false;
  }

  /** zero_or_more_parse */
  method ParseZeroOrMore(g: Graph, call: (Value, Value) -> Option<Value>, p: NodeId, input: seq<byte>, cur: nat, fuel: nat)
    returns (r: ParseResult, exhausted: bool)
    requires g.Valid() && Linked(g.kinds) && p in g.kinds && g.kinds[p].ZeroOrMore? && cur <= |input|
    modifies g, g.reg
    ensures g.Valid() && unchanged(g`kinds, g`refcount, g`holders, g`nextId, g`history)
    ensures Reflects(RunZeroOrMore(old(g.Snapshot(call)), g.kinds[p].inner, input, cur, fuel),
                     r, exhausted, old(g.reg.slots), g.reg.slots)
    decreases fuel, 3, 0
  {
    r, exhausted := Collect(g, call, g.kinds[p].inner, input, cur, fuel, []);
  }

  /**
   * one_or_more_parse: the first attempt's failure is returned as it is;
   * after a success its do-while loop takes the item and then runs the same
   * loop as zero_or_more.
   */
  method ParseOneOrMore(g: Graph, call: (Value, Value) -> Option<Value>, p: NodeId, input: seq<byte>, cur: nat, fuel: nat)
    returns (r: ParseResult, exhausted: bool)
    requires g.Valid() && Linked(g.kinds) && p in g.kinds && g.kinds[p].OneOrMore? && cur <= |input|
    modifies g, g.reg
    ensures g.Valid() && unchanged(g`kinds, g`refcount, g`holders, g`nextId, g`history)
    ensures Reflects(RunOneOrMore(old(g.Snapshot(call)), g.kinds[p].inner, input, cur, fuel),
                     r, exhausted, old(g.reg.slots), g.reg.slots)
    decreases fuel, 3, 0
  {
    ghost var gr := g.Snapshot(call);
    ghost var s0 := g.reg.slots;
    var inner := g.kinds[p].inner;
    var first, ex := Parse(g, call, inner, input, cur, fuel);
    if ex || !first.ok {
      return first, ex;
    }
    ghost var o1 := Run(gr, inner, input, cur, fuel);
    var v := TakeItem(g, first, o1.value, s0);
    ghost var s2 := g.reg.slots;
    SnapshotStable(g, call, s0);
    r, exhausted := Collect(g, call, inner, input, first.rest, fuel, [v]);
    ManyLeaks(gr, inner, input, first.rest, fuel, [v], o1.leaks);
  }

  /** The slots leaked before a repetition step are simply carried along. */
  lemma {:induction false} ManyLeaks(gr: Grammar, inner: NodeId, input: seq<byte>, cur: nat, fuel: nat,
                                     items: seq<Value>, leaks: nat)
    requires gr.Ok() && inner in gr.kinds && cur <= |input|
    ensures Many(gr, inner, input, cur, fuel, items, leaks) == AddLeaks(Many(gr, inner, input, cur, fuel, items, 0), leaks)
    decreases |input| - cur
  {
    var o1 := Run(gr, inner, input, cur, fuel);
    if o1.Done? && o1.ok && o1.rest != cur {
      ManyLeaks(gr, inner, input, o1.rest, fuel, items + [o1.value], leaks + o1.leaks);
      ManyLeaks(gr, inner, input, o1.rest, fuel, items + [o1.value], o1.leaks);
    }
  }
}
