/**
 * What the combinators of parser_lua.h promise, stated over the meaning of
 * a string parse (StringEngine.Run). The methods of StringEngine are proved
 * to behave as Run says, so each law holds of the parse functions too.
 */
module StringLaws {
  import opened Wrappers
  import opened Lexing
  import opened LuaRegistry
  import opened Nodes
  import opened StringEngine

  /**
   * literal succeeds exactly when the input at the cursor starts with the
   * literal, and then outputs a copy of it; otherwise it fails at the
   * cursor with no output.
   */
  lemma LiteralCopiesLiteral(gr: Grammar, p: NodeId, input: seq<byte>, cur: nat, fuel: nat)
    requires Parsable(gr, p, input, cur) && gr.kinds[p].Literal? && fuel > 0
    ensures var lit := gr.kinds[p].lit;
      var o := Run(gr, p, input, cur, fuel);
      && o.Done?
      && (o.ok <==> cur + |lit| <= |input| && input[cur..cur + |lit|] == lit)
      && (o.ok ==> o.rest == cur + |lit| && o.out == lit)
      && (!o.ok ==> o.rest == cur && o.out == [])
  {
  }

  /**
   * identifier succeeds exactly on an alphanumeric first byte and then
   * consumes the maximal run of alphanumerics and '-', stopping at '_'.
   */
  lemma IdentifierStopsAtUnderscore(gr: Grammar, p: NodeId, input: seq<byte>, cur: nat, fuel: nat)
    requires Parsable(gr, p, input, cur) && gr.kinds[p].Identifier? && fuel > 0
    ensures var o := Run(gr, p, input, cur, fuel);
      && o.Done?
      && (o.ok <==> cur < |input| && IsAlnum(input[cur]))
      && (o.ok ==> cur < o.rest && o.out == input[cur..o.rest])
      && (o.ok ==> forall k | cur < k < o.rest :: IsAlnum(input[k]) || input[k] == 0x2D)
      && (o.ok ==> o.rest == |input| || !(IsAlnum(input[o.rest]) || input[o.rest] == 0x2D))
      && (!o.ok ==> o.rest == cur)
  {
  }

  /** On "a_b" the string engine's identifier outputs "a" and leaves "_b". */
  lemma IdentifierOnAUnderscoreB(call: (Value, Value) -> Option<Value>)
    ensures var gr := Grammar(map[0 := Identifier], map[], call);
      Parsable(gr, 0, [0x61, 0x5F, 0x62], 0) && Run(gr, 0, [0x61, 0x5F, 0x62], 0, 1) == Done(true, 1, [0x61])
  {
    var gr := Grammar(map[0 := Identifier], map[], call);
    var input: seq<byte> := [0x61, 0x5F, 0x62];
    assert gr.Ok() by {
      assert forall q | q in gr.kinds :: ChildrenIn(gr.kinds[q], gr.kinds);
    }
    assert StringKinds(gr.kinds);
    assert CString(input);
    assert RunEnd(input, 1, IsIdentTailNoUnderscore) == 1;
    assert input[0..1] == [0x61];
  }

  /**
   * or_else is left-biased: a left success is the result unchanged, and
   * otherwise the result is the right parse from the original cursor.
   */
  lemma OrElseLeftBiased(gr: Grammar, p: NodeId, input: seq<byte>, cur: nat, fuel: nat)
    requires Parsable(gr, p, input, cur) && gr.kinds[p].OrElse? && fuel > 0
    ensures var k := gr.kinds[p];
      ChildrenIn(k, gr.kinds) &&
      var o := Run(gr, p, input, cur, fuel);
      var o1 := Run(gr, k.left, input, cur, fuel - 1);
      var o2 := Run(gr, k.right, input, cur, fuel - 1);
      && (o1.Done? && o1.ok ==> o == o1)
      && (o1.Done? && !o1.ok ==> o == o2)
      && (o.Done? ==> (o.ok <==> (o1.Done? && o1.ok) || (o2.Done? && o2.ok)))
  {
    assert ChildrenIn(gr.kinds[p], gr.kinds);
  }

  /**
   * map keeps the inner rest and outputs the callback's string result (up to
   * its first NUL), or "" when the result is not a string; when the callback
   * raises it fails at the original cursor.
   */
  lemma MapOutputsCallbackString(gr: Grammar, p: NodeId, input: seq<byte>, cur: nat, fuel: nat)
    requires Parsable(gr, p, input, cur) && gr.kinds[p].Map? && fuel > 0
    ensures var k := gr.kinds[p];
      ChildrenIn(k, gr.kinds) &&
      var o := Run(gr, p, input, cur, fuel);
      var o1 := Run(gr, k.inner, input, cur, fuel - 1);
      o1.Done? && o1.ok ==>
        match gr.call(gr.Callback(k.func), Str(o1.out))
        case None => o == Done(false, cur, [])
        case Some(Str(s)) => o == Done(true, o1.rest, CPrefix(s))
        case Some(_) => o == Done(true, o1.rest, [])
  {
    assert ChildrenIn(gr.kinds[p], gr.kinds);
  }

  /**
   * pred returns the inner result unchanged when the callback's answer is
   * truthy; a falsy answer or a raised error fails at the original cursor.
   */
  lemma PredKeepsOrFailsAtCursor(gr: Grammar, p: NodeId, input: seq<byte>, cur: nat, fuel: nat)
    requires Parsable(gr, p, input, cur) && gr.kinds[p].Pred? && fuel > 0
    ensures var k := gr.kinds[p];
      ChildrenIn(k, gr.kinds) &&
      var o := Run(gr, p, input, cur, fuel);
      var o1 := Run(gr, k.inner, input, cur, fuel - 1);
      o1.Done? && o1.ok ==>
        var answer := gr.call(gr.Callback(k.func), Str(o1.out));
        && (answer.Some? && Truthy(answer.value) ==> o == o1)
        && (answer.None? || !Truthy(answer.value) ==> o == Done(false, cur, []))
  {
    assert ChildrenIn(gr.kinds[p], gr.kinds);
  }

  /**
   * and_then parses with the parser the callback returns, from the inner
   * rest, and returns that result as it is; anything but a live parser, or a
   * raised error, fails at the original cursor.
   */
  lemma AndThenContinuesFromRest(gr: Grammar, p: NodeId, input: seq<byte>, cur: nat, fuel: nat)
    requires Parsable(gr, p, input, cur) && gr.kinds[p].AndThen? && fuel > 0
    ensures var k := gr.kinds[p];
      ChildrenIn(k, gr.kinds) &&
      var o := Run(gr, p, input, cur, fuel);
      var o1 := Run(gr, k.inner, input, cur, fuel - 1);
      o1.Done? && o1.ok ==>
        var next := gr.call(gr.Callback(k.func), Str(o1.out));
        if next.Some? && next.value.ParserUd? && next.value.node in gr.kinds then
          o == Run(gr, next.value.node, input, o1.rest, fuel - 1)
        else
          o == Done(false, cur, [])
  {
    assert ChildrenIn(gr.kinds[p], gr.kinds);
  }

  // ---------------------------------------------------------------------
  // Repetition
  // ---------------------------------------------------------------------

  /** `o` with `acc` put in front of its output. */
  function Prepend(acc: seq<byte>, o: Outcome): Outcome {
    if o.OutOfFuel? then o else o.(out := acc + o.out)
  }

  /** What the loop had concatenated before is simply put in front of what it adds. */
  lemma {:induction false} ManyPrepends(gr: Grammar, inner: NodeId, input: seq<byte>, cur: nat, fuel: nat, acc: seq<byte>)
    requires Parsable(gr, inner, input, cur) && CString(acc)
    ensures Many(gr, inner, input, cur, fuel, acc) == Prepend(acc, Many(gr, inner, input, cur, fuel, []))
    decreases |input| - cur
  {
    var o1 := Run(gr, inner, input, cur, fuel);
    if o1.Done? && o1.ok && o1.rest != cur {
      var later := Many(gr, inner, input, o1.rest, fuel, []);
      assert Many(gr, inner, input, cur, fuel, acc) == Many(gr, inner, input, o1.rest, fuel, acc + o1.out);
      ManyPrepends(gr, inner, input, o1.rest, fuel, acc + o1.out);
      assert [] + o1.out == o1.out;
      assert Many(gr, inner, input, cur, fuel, []) == Many(gr, inner, input, o1.rest, fuel, o1.out);
      ManyPrepends(gr, inner, input, o1.rest, fuel, o1.out);
      PrependTwice(acc, o1.out, later);
    }
  }

  lemma PrependTwice(a: seq<byte>, b: seq<byte>, o: Outcome)
    ensures Prepend(a + b, o) == Prepend(a, Prepend(b, o))
  {
    if o.Done? {
      assert a + b + o.out == a + (b + o.out);
    }
  }

  /**
   * zero_or_more never fails. When its first attempt fails it outputs ""
   * at the original cursor; when the first attempt succeeds and consumes
   * input, its output is that attempt's output followed by zero_or_more's
   * output from the attempt's rest: the outputs of all successive attempts,
   * concatenated in order.
   */
  lemma ZeroOrMoreConcatenates(gr: Grammar, inner: NodeId, input: seq<byte>, cur: nat, fuel: nat)
    requires Parsable(gr, inner, input, cur)
    ensures var o := RunZeroOrMore(gr, inner, input, cur, fuel);
      var o1 := Run(gr, inner, input, cur, fuel);
      && (o.Done? ==> o.ok)
      && (o1.Done? && !o1.ok ==> o == Done(true, cur, []))
      && (o1.Done? && o1.ok && o1.rest != cur ==>
            o == Prepend(o1.out, RunZeroOrMore(gr, inner, input, o1.rest, fuel)))
      && (o1.Done? && o1.ok && o1.rest == cur ==> o.OutOfFuel?)
  {
    var o1 := Run(gr, inner, input, cur, fuel);
    if o1.Done? && o1.ok && o1.rest != cur {
      assert [] + o1.out == o1.out;
      ManyPrepends(gr, inner, input, o1.rest, fuel, o1.out);
    }
  }

  /** one_or_more returns the first attempt's failure verbatim. */
  lemma OneOrMoreFirstFailure(gr: Grammar, inner: NodeId, input: seq<byte>, cur: nat, fuel: nat)
    requires Parsable(gr, inner, input, cur)
    requires var o1 := Run(gr, inner, input, cur, fuel); o1.Done? && !o1.ok
    ensures RunOneOrMore(gr, inner, input, cur, fuel) == Run(gr, inner, input, cur, fuel)
  {
  }

  /**
   * Once the first attempt succeeds, one_or_more and zero_or_more over the
   * same parser give the same outcome: the first output followed by the
   * outputs of the attempts after it.
   */
  lemma OneOrMoreIsZeroOrMoreAfterFirst(gr: Grammar, inner: NodeId, input: seq<byte>, cur: nat, fuel: nat)
    requires Parsable(gr, inner, input, cur)
    requires var o1 := Run(gr, inner, input, cur, fuel); o1.Done? && o1.ok
    ensures RunOneOrMore(gr, inner, input, cur, fuel) == RunZeroOrMore(gr, inner, input, cur, fuel)
  {
    var o1 := Run(gr, inner, input, cur, fuel);
    if o1.rest == cur {
      assert Many(gr, inner, input, cur, fuel, o1.out).OutOfFuel?;
    } else {
      assert [] + o1.out == o1.out;
    }
  }
}
