/**
 * What the combinators of src/parser.c promise, stated over the meaning
 * of a parse (HandleEngine.Run). The methods of HandleEngine are proved to
 * behave as Run says, so each law below holds of the parse functions too.
 * The input is a C string, as luaL_checkstring hands it to the parser: no
 * byte before the terminator is NUL.
 */
module HandleLaws {
  import opened Wrappers
  import opened Lexing
  import opened LuaRegistry
  import opened Nodes
  import opened HandleEngine

  // ---------------------------------------------------------------------
  // The leaf parsers
  // ---------------------------------------------------------------------

  /**
   * literal succeeds exactly when the input at the cursor starts with the
   * literal; it then moves past it with the literal as output, and otherwise
   * fails at the cursor. It never leaks.
   */
  lemma LiteralMatchesPrefix(gr: Grammar, p: NodeId, input: seq<byte>, cur: nat, fuel: nat)
    requires gr.Ok() && p in gr.kinds && gr.kinds[p].Literal? && cur <= |input| && CString(input) && fuel > 0
    ensures var o := Run(gr, p, input, cur, fuel);
      && o.Done? && o.leaks == 0
      && (o.ok <==> cur + |gr.kinds[p].lit| <= |input| && input[cur..cur + |gr.kinds[p].lit|] == gr.kinds[p].lit)
      && (o.ok ==> o.rest == cur + |gr.kinds[p].lit| && o.value == Str(gr.kinds[p].lit))
      && (!o.ok ==> o.rest == cur)
  {
  }

  /** literal('abc') on "abcdef" outputs "abc" and leaves "def". */
  lemma LiteralAbcOnAbcdef(call: (Value, Value) -> Option<Value>)
    ensures var gr := Grammar(map[0 := Literal([0x61, 0x62, 0x63])], map[], call);
      gr.Ok() && Run(gr, 0, [0x61, 0x62, 0x63, 0x64, 0x65, 0x66], 0, 1) == Done(true, 3, Str([0x61, 0x62, 0x63]), 0)
  {
    var gr := Grammar(map[0 := Literal([0x61, 0x62, 0x63])], map[], call);
    var input: seq<byte> := [0x61, 0x62, 0x63, 0x64, 0x65, 0x66];
    assert input[0..3] == [0x61, 0x62, 0x63];
    assert gr.Ok() by {
      assert forall q | q in gr.kinds :: ChildrenIn(gr.kinds[q], gr.kinds);
    }
  }

  /**
   * any_char fails only at the terminator; otherwise it consumes the lead
   * byte's width of bytes (as far as the terminator) and outputs them.
   */
  lemma AnyCharTakesOneCharacter(gr: Grammar, p: NodeId, input: seq<byte>, cur: nat, fuel: nat)
    requires gr.Ok() && p in gr.kinds && gr.kinds[p].AnyChar? && cur <= |input| && CString(input) && fuel > 0
    ensures var o := Run(gr, p, input, cur, fuel);
      && o.Done? && o.leaks == 0
      && (o.ok <==> cur < |input|)
      && (o.ok ==> o.rest == (if cur + LeadWidth(input[cur]) <= |input| then cur + LeadWidth(input[cur]) else |input|))
      && (o.ok ==> o.value == Str(input[cur..o.rest]))
      && (!o.ok ==> o.rest == cur)
  {
  }

  /**
   * identifier succeeds exactly on an alphanumeric first byte, and then
   * consumes the maximal run of alphanumerics, '-' and '_' after it.
   */
  lemma IdentifierTakesMaximalRun(gr: Grammar, p: NodeId, input: seq<byte>, cur: nat, fuel: nat)
    requires gr.Ok() && p in gr.kinds && gr.kinds[p].Identifier? && cur <= |input| && CString(input) && fuel > 0
    ensures var o := Run(gr, p, input, cur, fuel);
      && o.Done? && o.leaks == 0
      && (o.ok <==> cur < |input| && IsAlnum(input[cur]))
      && (o.ok ==> cur < o.rest && o.value == Str(input[cur..o.rest]))
      && (o.ok ==> forall k | cur < k < o.rest :: IsIdentTail(input[k]))
      && (o.ok ==> o.rest == |input| || !IsIdentTail(input[o.rest]))
      && (!o.ok ==> o.rest == cur)
  {
  }

  // ---------------------------------------------------------------------
  // Choice and sequencing
  // ---------------------------------------------------------------------

  /**
   * or_else is left-biased: a left success is the result unchanged; after a
   * left failure the right parser runs from the original cursor and its
   * result is the result. So it succeeds exactly when one of the two does.
   */
  lemma OrElseLeftBiased(gr: Grammar, p: NodeId, input: seq<byte>, cur: nat, fuel: nat)
    requires gr.Ok() && p in gr.kinds && gr.kinds[p].OrElse? && cur <= |input| && CString(input) && fuel > 0
    ensures var k := gr.kinds[p];
      var o := Run(gr, p, input, cur, fuel);
      var o1 := Run(gr, k.left, input, cur, fuel - 1);
      var o2 := Run(gr, k.right, input, cur, fuel - 1);
      && (o1.Done? && o1.ok ==> o == o1)
      && (o1.Done? && !o1.ok ==> o.OutOfFuel? == o2.OutOfFuel?)
      && (o1.Done? && !o1.ok && o2.Done? ==>
            o.ok == o2.ok && o.rest == o2.rest && o.value == o2.value && o.leaks == o1.leaks + o2.leaks)
      && (o.Done? ==> (o.ok <==> (o1.Done? && o1.ok) || (o2.Done? && o2.ok)))
  {
  }

  /**
   * left and right run the same two parsers in turn and differ only in
   * which output they keep: their flag, rest and leak count agree.
   */
  lemma LeftRightAgree(gr: Grammar, l: NodeId, r: NodeId, input: seq<byte>, cur: nat, fuel: nat)
    requires gr.Ok() && l in gr.kinds && r in gr.kinds && cur <= |input| && CString(input)
    ensures var a := RunLeft(gr, l, r, input, cur, fuel);
      var b := RunRight(gr, l, r, input, cur, fuel);
      && a.OutOfFuel? == b.OutOfFuel?
      && (a.Done? ==> a.ok == b.ok && a.rest == b.rest && a.leaks == b.leaks)
      && (a.Done? && a.ok ==>
            var o1 := Run(gr, l, input, cur, fuel);
            o1.Done? && o1.ok && a.value == o1.value
            && var o2 := Run(gr, r, input, o1.rest, fuel);
            o2.Done? && b.value == o2.value)
  {
  }

  /**
   * left and right release the output they drop: when both halves succeed
   * the sequence leaks only what the halves leaked, and when the second half
   * fails only what the halves leaked.
   */
  lemma SequenceReleasesDroppedOutput(gr: Grammar, l: NodeId, r: NodeId, keepLeft: bool, input: seq<byte>, cur: nat, fuel: nat)
    requires gr.Ok() && l in gr.kinds && r in gr.kinds && cur <= |input| && CString(input)
    ensures var o := RunSeq(gr, l, r, keepLeft, input, cur, fuel);
      var o1 := Run(gr, l, input, cur, fuel);
      o.Done? && o1.ok ==>
        var o2 := Run(gr, r, input, o1.rest, fuel);
        o2.Done? && o.leaks == o1.leaks + o2.leaks && (o.ok <==> o2.ok) && o.rest == o2.rest
  {
  }

  // ---------------------------------------------------------------------
  // The callback combinators and their leaks
  // ---------------------------------------------------------------------

  /**
   * pred either returns the inner result unchanged (the callback's answer
   * was truthy) or fails at the original cursor, not at the inner rest.
   */
  lemma PredKeepsOrFailsAtCursor(gr: Grammar, p: NodeId, input: seq<byte>, cur: nat, fuel: nat)
    requires gr.Ok() && p in gr.kinds && gr.kinds[p].Pred? && cur <= |input| && CString(input) && fuel > 0
    ensures var k := gr.kinds[p];
      var o := Run(gr, p, input, cur, fuel);
      var o1 := Run(gr, k.inner, input, cur, fuel - 1);
      && (o.Done? && o.ok ==> o == o1 && gr.call(gr.Callback(k.func), o1.value).Some?
                              && Truthy(gr.call(gr.Callback(k.func), o1.value).value))
      && (o.Done? && !o.ok ==> o == o1 || o.rest == cur)
  {
  }

  /**
   * pred drops a rejected output without releasing it: a falsy answer, or a
   * raised error, fails at the cursor and leaks the inner output's slot.
   */
  lemma PredRejectLeaks(gr: Grammar, p: NodeId, input: seq<byte>, cur: nat, fuel: nat)
    requires gr.Ok() && p in gr.kinds && gr.kinds[p].Pred? && cur <= |input| && CString(input) && fuel > 0
    requires var k := gr.kinds[p];
      var o1 := Run(gr, k.inner, input, cur, fuel - 1);
      o1.Done? && o1.ok &&
      var answer := gr.call(gr.Callback(k.func), o1.value);
      answer.None? || !Truthy(answer.value)
    ensures var o1 := Run(gr, gr.kinds[p].inner, input, cur, fuel - 1);
      Run(gr, p, input, cur, fuel) == Done(false, cur, Nil, o1.leaks + Slot(o1.value))
  {
  }

  /**
   * map replaces the inner output with the callback's result and keeps the
   * inner rest; when the callback raises it fails at the cursor and leaks
   * the inner output's slot.
   */
  lemma MapCallbackErrorLeaks(gr: Grammar, p: NodeId, input: seq<byte>, cur: nat, fuel: nat)
    requires gr.Ok() && p in gr.kinds && gr.kinds[p].Map? && cur <= |input| && CString(input) && fuel > 0
    ensures var k := gr.kinds[p];
      var o := Run(gr, p, input, cur, fuel);
      var o1 := Run(gr, k.inner, input, cur, fuel - 1);
      o1.Done? && o1.ok ==>
        match gr.call(gr.Callback(k.func), o1.value)
        case None => o == Done(false, cur, Nil, o1.leaks + Slot(o1.value))
        case Some(v) => o.Done? && o.ok && o.rest == o1.rest && o.value == v && o.leaks == o1.leaks
  {
  }

  /**
   * and_then continues with the parser the callback returns, from the inner
   * rest, and returns its result as it is (the inner output is released).
   * When the callback raises or returns anything but a live parser, it fails
   * at the cursor and leaks the inner output's slot.
   */
  lemma AndThenContinuesOrLeaks(gr: Grammar, p: NodeId, input: seq<byte>, cur: nat, fuel: nat)
    requires gr.Ok() && p in gr.kinds && gr.kinds[p].AndThen? && cur <= |input| && CString(input) && fuel > 0
    ensures var k := gr.kinds[p];
      var o := Run(gr, p, input, cur, fuel);
      var o1 := Run(gr, k.inner, input, cur, fuel - 1);
      o1.Done? && o1.ok ==>
        var next := gr.call(gr.Callback(k.func), o1.value);
        if next.Some? && next.value.ParserUd? && next.value.node in gr.kinds then
          var o2 := Run(gr, next.value.node, input, o1.rest, fuel - 1);
          o.OutOfFuel? == o2.OutOfFuel?
          && (o2.Done? ==> o.ok == o2.ok && o.rest == o2.rest && o.value == o2.value && o.leaks == o1.leaks + o2.leaks)
        else
          o == Done(false, cur, Nil, o1.leaks + Slot(o1.value))
  {
  }

  // ---------------------------------------------------------------------
  // Repetition
  // ---------------------------------------------------------------------

  /** The repetition loop keeps what it has collected: those items begin its table. */
  lemma {:induction false} ManyKeepsItems(gr: Grammar, inner: NodeId, input: seq<byte>, cur: nat, fuel: nat,
                                          items: seq<Value>, leaks: nat)
    requires gr.Ok() && inner in gr.kinds && cur <= |input| && CString(input)
    ensures var o := Many(gr, inner, input, cur, fuel, items, leaks);
      o.Done? ==> items <= o.value.items && o.leaks >= leaks
    decreases |input| - cur
  {
    var o1 := Run(gr, inner, input, cur, fuel);
    if o1.Done? && o1.ok && o1.rest != cur {
      ManyKeepsItems(gr, inner, input, o1.rest, fuel, items + [o1.value], leaks + o1.leaks);
    }
  }

  /** `o` with `items` put before the items of its table and `leaks` more leaked slots. */
  function PrependItems(items: seq<Value>, leaks: nat, o: Outcome): Outcome {
    if o.OutOfFuel? || !o.value.Table? then o
    else o.(value := Table(items + o.value.items), leaks := o.leaks + leaks)
  }

  lemma PrependItemsTwice(a: seq<Value>, na: nat, b: seq<Value>, nb: nat, o: Outcome)
    ensures PrependItems(a + b, na + nb, o) == PrependItems(a, na, PrependItems(b, nb, o))
  {
    if o.Done? && o.value.Table? {
      assert a + b + o.value.items == a + (b + o.value.items);
    }
  }

  /**
   * What the loop had collected (and leaked) before is simply put in front
   * of what it collects (and leaks) from here on.
   */
  lemma {:induction false} ManyPrependsItems(gr: Grammar, inner: NodeId, input: seq<byte>, cur: nat, fuel: nat,
                                             items: seq<Value>, leaks: nat)
    requires gr.Ok() && inner in gr.kinds && cur <= |input| && CString(input)
    ensures Many(gr, inner, input, cur, fuel, items, leaks) == PrependItems(items, leaks, Many(gr, inner, input, cur, fuel, [], 0))
    decreases |input| - cur
  {
    var o1 := Run(gr, inner, input, cur, fuel);
    if o1.Done? && !o1.ok {
      assert items + [] == items;
    } else if o1.Done? && o1.rest != cur {
      var later := Many(gr, inner, input, o1.rest, fuel, [], 0);
      assert Many(gr, inner, input, cur, fuel, items, leaks)
          == Many(gr, inner, input, o1.rest, fuel, items + [o1.value], leaks + o1.leaks);
      ManyPrependsItems(gr, inner, input, o1.rest, fuel, items + [o1.value], leaks + o1.leaks);
      assert [] + [o1.value] == [o1.value];
      assert Many(gr, inner, input, cur, fuel, [], 0) == Many(gr, inner, input, o1.rest, fuel, [o1.value], 0 + o1.leaks);
      ManyPrependsItems(gr, inner, input, o1.rest, fuel, [o1.value], o1.leaks);
      PrependItemsTwice(items, leaks, [o1.value], o1.leaks, later);
    }
  }

  /**
   * zero_or_more never fails. When its first attempt fails it succeeds with
   * an empty table at the original cursor; when the first attempt succeeds
   * and consumes input, the table is that attempt's output followed by the
   * items zero_or_more collects from the attempt's rest, with the same rest:
   * the outputs of all successive attempts, in order.
   */
  lemma ZeroOrMoreCollects(gr: Grammar, inner: NodeId, input: seq<byte>, cur: nat, fuel: nat)
    requires gr.Ok() && inner in gr.kinds && cur <= |input| && CString(input)
    ensures var o := RunZeroOrMore(gr, inner, input, cur, fuel);
      var o1 := Run(gr, inner, input, cur, fuel);
      && (o.Done? ==> o.ok)
      && (o1.OutOfFuel? ==> o.OutOfFuel?)
      && (o1.Done? && !o1.ok ==> o == Done(true, cur, Table([]), o1.leaks))
      && (o1.Done? && o1.ok && o1.rest != cur ==>
            o == PrependItems([o1.value], o1.leaks, RunZeroOrMore(gr, inner, input, o1.rest, fuel)))
      && (o1.Done? && o1.ok && o1.rest == cur ==> o.OutOfFuel?)
  {
    var o1 := Run(gr, inner, input, cur, fuel);
    if o1.Done? && o1.ok && o1.rest != cur {
      assert [] + [o1.value] == [o1.value];
      ManyPrependsItems(gr, inner, input, o1.rest, fuel, [o1.value], o1.leaks);
    }
  }

  /**
   * Once its first attempt succeeds and consumes input, one_or_more is that
   * attempt's output followed by the items zero_or_more collects from its
   * rest, with the same rest.
   */
  lemma OneOrMoreCollects(gr: Grammar, inner: NodeId, input: seq<byte>, cur: nat, fuel: nat)
    requires gr.Ok() && inner in gr.kinds && cur <= |input| && CString(input)
    ensures var o1 := Run(gr, inner, input, cur, fuel);
      o1.Done? && o1.ok && o1.rest != cur ==>
        RunOneOrMore(gr, inner, input, cur, fuel) == PrependItems([o1.value], o1.leaks, RunZeroOrMore(gr, inner, input, o1.rest, fuel))
  {
    var o1 := Run(gr, inner, input, cur, fuel);
    if o1.Done? && o1.ok && o1.rest != cur {
      ManyPrependsItems(gr, inner, input, o1.rest, fuel, [o1.value], o1.leaks);
    }
  }

  /**
   * A finished repetition stops where the inner parser fails: its rest is
   * the cursor after the last success, and one more attempt from there fails.
   */
  lemma {:induction false} RepetitionEndsAtFailure(gr: Grammar, inner: NodeId, input: seq<byte>, cur: nat, fuel: nat,
                                                   items: seq<Value>, leaks: nat)
    requires gr.Ok() && inner in gr.kinds && cur <= |input| && CString(input)
    ensures var o := Many(gr, inner, input, cur, fuel, items, leaks);
      o.Done? ==> var e := Run(gr, inner, input, o.rest, fuel); e.Done? && !e.ok
    decreases |input| - cur
  {
    var o1 := Run(gr, inner, input, cur, fuel);
    if o1.Done? && o1.ok && o1.rest != cur {
      RepetitionEndsAtFailure(gr, inner, input, o1.rest, fuel, items + [o1.value], leaks + o1.leaks);
    }
  }

  /** one_or_more(literal "a") on "aaab" collects three "a" items and leaves "b". */
  lemma OneOrMoreAOnAaab(call: (Value, Value) -> Option<Value>)
    ensures var gr := Grammar(map[0 := Literal([0x61]), 1 := OneOrMore(0)], map[], call);
      gr.Ok() && Run(gr, 1, [0x61, 0x61, 0x61, 0x62], 0, 2) == Done(true, 3, Table([Str([0x61]), Str([0x61]), Str([0x61])]), 0)
  {
    var gr := Grammar(map[0 := Literal([0x61]), 1 := OneOrMore(0)], map[], call);
    var input: seq<byte> := [0x61, 0x61, 0x61, 0x62];
    var a := Str([0x61]);
    assert gr.Ok() by {
      assert forall q | q in gr.kinds :: ChildrenIn(gr.kinds[q], gr.kinds);
    }
    assert input[0..1] == [0x61] && input[1..2] == [0x61] && input[2..3] == [0x61] && input[3..4] == [0x62];
    assert Run(gr, 0, input, 0, 1) == Done(true, 1, a, 0);
    assert Run(gr, 0, input, 1, 1) == Done(true, 2, a, 0);
    assert Run(gr, 0, input, 2, 1) == Done(true, 3, a, 0);
    assert Run(gr, 0, input, 3, 1) == Failed(3, 0);
    assert Many(gr, 0, input, 3, 1, [a, a, a], 0) == Done(true, 3, Table([a, a, a]), 0);
    assert Many(gr, 0, input, 2, 1, [a, a], 0) == Done(true, 3, Table([a, a, a]), 0);
    assert Many(gr, 0, input, 1, 1, [a], 0) == Done(true, 3, Table([a, a, a]), 0);
  }

  /** one_or_more returns the first attempt's failure verbatim. */
  lemma OneOrMoreFirstFailure(gr: Grammar, p: NodeId, input: seq<byte>, cur: nat, fuel: nat)
    requires gr.Ok() && p in gr.kinds && gr.kinds[p].OneOrMore? && cur <= |input| && CString(input) && fuel > 0
    requires var o1 := Run(gr, gr.kinds[p].inner, input, cur, fuel - 1); o1.Done? && !o1.ok
    ensures Run(gr, p, input, cur, fuel) == Run(gr, gr.kinds[p].inner, input, cur, fuel - 1)
  {
  }

  /**
   * A successful one_or_more holds at least one item, the first attempt's
   * output, and ends no earlier than the first attempt did.
   */
  lemma OneOrMoreAtLeastOne(gr: Grammar, p: NodeId, input: seq<byte>, cur: nat, fuel: nat)
    requires gr.Ok() && p in gr.kinds && gr.kinds[p].OneOrMore? && cur <= |input| && CString(input) && fuel > 0
    ensures var o := Run(gr, p, input, cur, fuel);
      var o1 := Run(gr, gr.kinds[p].inner, input, cur, fuel - 1);
      o.Done? && o.ok ==>
        o1.Done? && o1.ok && o.value.Table? && |o.value.items| >= 1 && o.value.items[0] == o1.value
        && o.rest >= o1.rest
  {
    var o1 := Run(gr, gr.kinds[p].inner, input, cur, fuel - 1);
    if o1.Done? && o1.ok {
      ManyKeepsItems(gr, gr.kinds[p].inner, input, o1.rest, fuel - 1, [o1.value], o1.leaks);
    }
  }

  /**
   * zero_or_more never fails; when its first attempt fails it succeeds at
   * the original cursor with an empty table.
   */
  lemma ZeroOrMoreNeverFails(gr: Grammar, p: NodeId, input: seq<byte>, cur: nat, fuel: nat)
    requires gr.Ok() && p in gr.kinds && gr.kinds[p].ZeroOrMore? && cur <= |input| && CString(input) && fuel > 0
    ensures var o := Run(gr, p, input, cur, fuel);
      var o1 := Run(gr, gr.kinds[p].inner, input, cur, fuel - 1);
      && (o.Done? ==> o.ok && o.value.Table?)
      && (o1.Done? && !o1.ok ==> o == Done(true, cur, Table([]), o1.leaks))
  {
    assert Run(gr, p, input, cur, fuel) == Many(gr, gr.kinds[p].inner, input, cur, fuel - 1, [], 0);
  }

  /**
   * Once the first attempt succeeds, one_or_more and zero_or_more over the
   * same parser give the same outcome.
   */
  lemma OneOrMoreIsZeroOrMoreAfterFirst(gr: Grammar, inner: NodeId, input: seq<byte>, cur: nat, fuel: nat)
    requires gr.Ok() && inner in gr.kinds && cur <= |input| && CString(input)
    requires var o1 := Run(gr, inner, input, cur, fuel); o1.Done? && o1.ok
    ensures RunOneOrMore(gr, inner, input, cur, fuel) == RunZeroOrMore(gr, inner, input, cur, fuel)
  {
    var o1 := Run(gr, inner, input, cur, fuel);
    if o1.rest == cur {
      assert Many(gr, inner, input, cur, fuel, [o1.value], o1.leaks).OutOfFuel?;
    } else {
      assert [] + [o1.value] == [o1.value];
    }
  }

  // ---------------------------------------------------------------------
  // Handle accounting
  // ---------------------------------------------------------------------

  /** No node of the grammar retains a callback. */
  ghost predicate CallbackFree(gr: Grammar) {
    forall q | q in gr.kinds :: !gr.kinds[q].HasCallback()
  }

  /**
   * Every slot a parse leaks is dropped on an error path of map, and_then or
   * pred: a grammar without those combinators releases every handle it does
   * not return.
   */
  lemma {:induction false} CallbackFreeNoLeaks(gr: Grammar, p: NodeId, input: seq<byte>, cur: nat, fuel: nat)
    requires gr.Ok() && CallbackFree(gr) && p in gr.kinds && cur <= |input| && CString(input)
    ensures var o := Run(gr, p, input, cur, fuel); o.Done? ==> o.leaks == 0
    decreases fuel, 0, 0
  {
    if fuel > 0 {
      var k := gr.kinds[p];
      var o := Run(gr, p, input, cur, fuel);
      assert !k.HasCallback() && ChildrenIn(k, gr.kinds);
      match k
      case Literal(lit) =>
        assert o == RunLiteral(lit, input, cur);
      case AnyChar =>
        assert o == RunAnyChar(input, cur);
      case Identifier =>
        assert o == RunIdentifier(input, cur);
      case OrElse(l, r) =>
        CallbackFreeNoLeaks(gr, l, input, cur, fuel - 1);
        CallbackFreeNoLeaks(gr, r, input, cur, fuel - 1);
        assert o == RunOrElse(gr, l, r, input, cur, fuel - 1);
      case Left(l, r) =>
        SeqNoLeaks(gr, l, r, true, input, cur, fuel - 1);
        assert o == RunLeft(gr, l, r, input, cur, fuel - 1);
      case Right(l, r) =>
        SeqNoLeaks(gr, l, r, false, input, cur, fuel - 1);
        assert o == RunRight(gr, l, r, input, cur, fuel - 1);
      case OneOrMore(i) =>
        CallbackFreeNoLeaks(gr, i, input, cur, fuel - 1);
        var o1 := Run(gr, i, input, cur, fuel - 1);
        if o1.Done? && o1.ok {
          ManyNoLeaks(gr, i, input, o1.rest, fuel - 1, [o1.value], o1.leaks);
        }
        assert o == RunOneOrMore(gr, i, input, cur, fuel - 1);
      case ZeroOrMore(i) =>
        ManyNoLeaks(gr, i, input, cur, fuel - 1, [], 0);
        assert o == RunZeroOrMore(gr, i, input, cur, fuel - 1);
    }
  }

  /** left and right without callbacks below them leak nothing. */
  lemma {:induction false} SeqNoLeaks(gr: Grammar, l: NodeId, r: NodeId, keepLeft: bool, input: seq<byte>, cur: nat, fuel: nat)
    requires gr.Ok() && CallbackFree(gr) && l in gr.kinds && r in gr.kinds && cur <= |input| && CString(input)
    ensures var o := RunSeq(gr, l, r, keepLeft, input, cur, fuel); o.Done? ==> o.leaks == 0
    decreases fuel, 1, 0
  {
    CallbackFreeNoLeaks(gr, l, input, cur, fuel);
    var o1 := Run(gr, l, input, cur, fuel);
    if o1.Done? && o1.ok {
      CallbackFreeNoLeaks(gr, r, input, o1.rest, fuel);
    }
  }

  /** The repetition loop without callbacks below it leaks nothing more. */
  lemma {:induction false} ManyNoLeaks(gr: Grammar, inner: NodeId, input: seq<byte>, cur: nat, fuel: nat,
                                       items: seq<Value>, leaks: nat)
    requires gr.Ok() && CallbackFree(gr) && inner in gr.kinds && cur <= |input| && CString(input)
    ensures var o := Many(gr, inner, input, cur, fuel, items, leaks); o.Done? ==> o.leaks == leaks
    decreases fuel, 1, |input| - cur
  {
    CallbackFreeNoLeaks(gr, inner, input, cur, fuel);
    var o1 := Run(gr, inner, input, cur, fuel);
    var o := Many(gr, inner, input, cur, fuel, items, leaks);
    if o1.Done? && o1.ok && o1.rest != cur {
      ManyNoLeaks(gr, inner, input, o1.rest, fuel, items + [o1.value], leaks + o1.leaks);
      assert o == Many(gr, inner, input, o1.rest, fuel, items + [o1.value], leaks + o1.leaks);
    } else if o1.Done? && !o1.ok {
      assert o == Done(true, cur, Table(items), leaks + o1.leaks);
    }
  }
}
