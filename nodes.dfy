/**
 * Parser nodes and their reference counts. A node is a tagged record (its
 * Kind) with a refcount; combinators hold one strong reference per child they
 * name, and every other reference (a creator's, a Lua userdata's, a transient
 * one taken during a parse) is an outside holder. The graph is a DAG: a
 * node's children were created before it, so they have smaller ids.
 */
module Nodes {
  import opened Wrappers
  import opened LuaRegistry
  import Lexing

  type NodeId = nat

  /** The node kinds with their payloads (`func` is the registry handle of a Lua function). */
  datatype Kind =
    | Literal(lit: seq<Lexing.byte>)
    | AnyChar
    | Identifier
    | Map(inner: NodeId, func: int)
    | AndThen(inner: NodeId, func: int)
    | OrElse(left: NodeId, right: NodeId)
    | Pred(inner: NodeId, func: int)
    | Left(left: NodeId, right: NodeId)
    | Right(left: NodeId, right: NodeId)
    | OneOrMore(inner: NodeId)
    | ZeroOrMore(inner: NodeId)
  {
    /** The child nodes the kind holds a strong reference to, in the order its destroy releases them. */
    function Children(): (cs: seq<NodeId>)
      ensures |cs| <= 2
    {
      match this
      case Literal(_) => []
      case AnyChar => []
      case Identifier => []
      case Map(i, _) => [i]
      case AndThen(i, _) => [i]
      case OrElse(l, r) => [l, r]
      case Pred(i, _) => [i]
      case Left(l, r) => [l, r]
      case Right(l, r) => [l, r]
      case OneOrMore(i) => [i]
      case ZeroOrMore(i) => [i]
    }

    /** Kinds that retain a Lua callback. */
    predicate HasCallback() {
      Map? || AndThen? || Pred?
    }
  }

  /** Every child of a live node is live and older than its parent. */
  ghost predicate Closed(kinds: map<NodeId, Kind>) {
    forall p, c {:trigger c in kinds[p].Children()} | p in kinds && c in kinds[p].Children() :: c in kinds && c < p
  }

  /** The callback handle a kind retains, or LUA_NOREF for kinds without one. */
  function FuncOf(k: Kind): int {
    if k.HasCallback() then k.func else NoRef
  }

  /** The callback handles retained by live nodes. */
  ghost function FuncHandles(kinds: map<NodeId, Kind>): set<int> {
    set p | p in kinds && kinds[p].HasCallback() :: FuncOf(kinds[p])
  }

  /** Each live callback node owns a registered handle that no other live node shares. */
  ghost predicate CallbacksOwned(kinds: map<NodeId, Kind>, slots: map<int, Value>) {
    && (forall p {:trigger FuncOf(kinds[p])} | p in kinds && kinds[p].HasCallback() :: FuncOf(kinds[p]) in slots)
    && (forall p, q {:trigger FuncOf(kinds[p]), FuncOf(kinds[q])} |
          p in kinds && q in kinds && p != q && kinds[p].HasCallback() && kinds[q].HasCallback() ::
          FuncOf(kinds[p]) != FuncOf(kinds[q]))
  }

  /** The structural references: the multiset union of the children of the nodes in `ids`. */
  ghost function EdgesOf(kinds: map<NodeId, Kind>, ids: set<NodeId>): multiset<NodeId>
    requires ids <= kinds.Keys
    decreases ids
  {
    if ids == {} then multiset{}
    else
      var q :| q in ids;
      multiset(kinds[q].Children()) + EdgesOf(kinds, ids - {q})
  }

  /** Any member of `ids` can be taken out of the sum first. */
  lemma {:induction false} EdgesOfRemove(kinds: map<NodeId, Kind>, ids: set<NodeId>, p: NodeId)
    requires ids <= kinds.Keys && p in ids
    ensures EdgesOf(kinds, ids) == multiset(kinds[p].Children()) + EdgesOf(kinds, ids - {p})
    decreases ids
  {
    var q :| q in ids && EdgesOf(kinds, ids) == multiset(kinds[q].Children()) + EdgesOf(kinds, ids - {q});
    if q != p {
      EdgesOfRemove(kinds, ids - {q}, p);
      EdgesOfRemove(kinds, ids - {p}, q);
      assert ids - {q} - {p} == ids - {p} - {q};
    }
  }

  /** The sum only looks at the kinds of the nodes in `ids`. */
  lemma {:induction false} EdgesOfFrame(k1: map<NodeId, Kind>, k2: map<NodeId, Kind>, ids: set<NodeId>)
    requires ids <= k1.Keys && ids <= k2.Keys
    requires forall q | q in ids :: k1[q] == k2[q]
    ensures EdgesOf(k1, ids) == EdgesOf(k2, ids)
    decreases ids
  {
    if ids != {} {
      var q :| q in ids && EdgesOf(k1, ids) == multiset(k1[q].Children()) + EdgesOf(k1, ids - {q});
      EdgesOfRemove(k2, ids, q);
      EdgesOfFrame(k1, k2, ids - {q});
    }
  }

  /** In a closed graph every structural reference points at a live, older node. */
  lemma {:induction false} EdgesOfLive(kinds: map<NodeId, Kind>, ids: set<NodeId>, c: NodeId)
    requires Closed(kinds) && ids <= kinds.Keys
    requires c in EdgesOf(kinds, ids)
    ensures c in kinds
    decreases ids
  {
    var q :| q in ids && EdgesOf(kinds, ids) == multiset(kinds[q].Children()) + EdgesOf(kinds, ids - {q});
    if c in kinds[q].Children() {
    } else {
      EdgesOfLive(kinds, ids - {q}, c);
    }
  }

  /** Adding a node adds its children to the structural references; the new id was not among them. */
  lemma AddEdges(kinds: map<NodeId, Kind>, p: NodeId, k: Kind)
    requires Closed(kinds) && p !in kinds
    ensures p !in EdgesOf(kinds, kinds.Keys)
    ensures EdgesOf(kinds[p := k], kinds[p := k].Keys) == multiset(k.Children()) + EdgesOf(kinds, kinds.Keys)
  {
    var k1 := kinds[p := k];
    if p in EdgesOf(kinds, kinds.Keys) {
      EdgesOfLive(kinds, kinds.Keys, p);
    }
    EdgesOfRemove(k1, k1.Keys, p);
    assert k1.Keys - {p} == kinds.Keys;
    EdgesOfFrame(k1, kinds, kinds.Keys);
  }

  /** Removing a node removes its children from the structural references. */
  lemma DropEdges(kinds: map<NodeId, Kind>, p: NodeId)
    requires p in kinds
    ensures EdgesOf(kinds, kinds.Keys) == multiset(kinds[p].Children()) + EdgesOf(kinds - {p}, (kinds - {p}).Keys)
  {
    EdgesOfRemove(kinds, kinds.Keys, p);
    assert (kinds - {p}).Keys == kinds.Keys - {p};
    EdgesOfFrame(kinds - {p}, kinds, kinds.Keys - {p});
  }

  /**
   * What the invariant demands of one live node: an id below the allocation
   * counter, live and older children, and a positive count equal to the
   * outside holders plus the structural references.
   */
  ghost predicate NodeOk(kinds: map<NodeId, Kind>, refcount: map<NodeId, int>, holders: multiset<NodeId>,
                         nextId: NodeId, history: map<NodeId, Kind>, p: NodeId)
    requires p in kinds && kinds.Keys == refcount.Keys
  {
    && p < nextId
    && p in history && history[p] == kinds[p]
    && (forall c | c in kinds[p].Children() :: c in kinds && c < p)
    && refcount[p] >= 1
    && refcount[p] == holders[p] + EdgesOf(kinds, kinds.Keys)[p]
  }

  /**
   * The graph invariant on values: every live node is as NodeOk says,
   * outside holders hold live nodes only, and every retained callback is
   * registered and owned by one node.
   */
  ghost predicate GraphInv(kinds: map<NodeId, Kind>, refcount: map<NodeId, int>, holders: multiset<NodeId>,
                           nextId: NodeId, history: map<NodeId, Kind>, slots: map<int, Value>)
  {
    && kinds.Keys == refcount.Keys
    && (forall p {:trigger NodeOk(kinds, refcount, holders, nextId, history, p)} | p in kinds ::
          NodeOk(kinds, refcount, holders, nextId, history, p))
    && (forall p {:trigger holders[p]} | p in holders :: p in kinds)
    && CallbacksOwned(kinds, slots)
  }

  lemma InvClosed(kinds: map<NodeId, Kind>, refcount: map<NodeId, int>, holders: multiset<NodeId>,
                  nextId: NodeId, history: map<NodeId, Kind>, slots: map<int, Value>)
    requires GraphInv(kinds, refcount, holders, nextId, history, slots)
    ensures Closed(kinds) && forall p | p in kinds :: p < nextId
  {
    forall p | p in kinds
      ensures p < nextId && forall c | c in kinds[p].Children() :: c in kinds && c < p
    {
      assert NodeOk(kinds, refcount, holders, nextId, history, p);
    }
  }

  /** parser_ref keeps the invariant: the new reference is an outside holder. */
  lemma RefKeepsInv(kinds: map<NodeId, Kind>, refcount: map<NodeId, int>, holders: multiset<NodeId>,
                    nextId: NodeId, history: map<NodeId, Kind>, slots: map<int, Value>, p: NodeId)
    requires GraphInv(kinds, refcount, holders, nextId, history, slots) && p in kinds
    ensures GraphInv(kinds, refcount[p := refcount[p] + 1], holders + multiset{p}, nextId, history, slots)
  {
    var r := refcount[p := refcount[p] + 1];
    var h := holders + multiset{p};
    forall q | q in kinds
      ensures NodeOk(kinds, r, h, nextId, history, q)
    {
      assert NodeOk(kinds, refcount, holders, nextId, history, q);
    }
  }

  /** parser_new keeps the invariant: the children's holds become the new node's edges. */
  lemma NewKeepsInv(kinds: map<NodeId, Kind>, refcount: map<NodeId, int>, holders: multiset<NodeId>,
                    nextId: NodeId, history: map<NodeId, Kind>, slots: map<int, Value>, k: Kind,
                    k1: map<NodeId, Kind>, r1: map<NodeId, int>, h1: multiset<NodeId>, hist1: map<NodeId, Kind>)
    requires GraphInv(kinds, refcount, holders, nextId, history, slots)
    requires forall c | c in k.Children() :: c in kinds
    requires multiset(k.Children()) <= holders
    requires k.HasCallback() ==> FuncOf(k) in slots && Unowned(kinds, FuncOf(k))
    requires k1 == kinds[nextId := k] && r1 == refcount[nextId := 1] && hist1 == history[nextId := k]
    requires h1 == holders - multiset(k.Children()) + multiset{nextId}
    ensures nextId !in kinds
    ensures GraphInv(k1, r1, h1, nextId + 1, hist1, slots)
  {
    var p := nextId;
    InvClosed(kinds, refcount, holders, nextId, history, slots);
    NewNodesOk(kinds, refcount, holders, nextId, history, slots, k, k1, r1, h1, hist1);
    NewCallbacksOwned(kinds, slots, p, k, k1);
    NewHoldersLive(kinds, refcount, holders, nextId, history, slots, k, k1, r1, h1);
  }

  /** The new graph's counts cover exactly its nodes, and its outside holds are on live nodes. */
  lemma NewHoldersLive(kinds: map<NodeId, Kind>, refcount: map<NodeId, int>, holders: multiset<NodeId>,
                       nextId: NodeId, history: map<NodeId, Kind>, slots: map<int, Value>, k: Kind,
                       k1: map<NodeId, Kind>, r1: map<NodeId, int>, h1: multiset<NodeId>)
    requires GraphInv(kinds, refcount, holders, nextId, history, slots)
    requires k1 == kinds[nextId := k] && r1 == refcount[nextId := 1]
    requires h1 == holders - multiset(k.Children()) + multiset{nextId}
    ensures k1.Keys == r1.Keys
    ensures forall q {:trigger h1[q]} | q in h1 :: q in k1
  {
    forall q | q in h1
      ensures q in k1
    {
      if q != nextId {
        assert q in holders;
      }
    }
  }

  /** The per-node half of NewKeepsInv, for the graph with node `nextId` added. */
  lemma NewNodesOk(kinds: map<NodeId, Kind>, refcount: map<NodeId, int>, holders: multiset<NodeId>,
                   nextId: NodeId, history: map<NodeId, Kind>, slots: map<int, Value>, k: Kind,
                   k1: map<NodeId, Kind>, r1: map<NodeId, int>, h1: multiset<NodeId>, hist1: map<NodeId, Kind>)
    requires GraphInv(kinds, refcount, holders, nextId, history, slots)
    requires forall c | c in k.Children() :: c in kinds
    requires multiset(k.Children()) <= holders
    requires k1 == kinds[nextId := k] && r1 == refcount[nextId := 1] && hist1 == history[nextId := k]
    requires h1 == holders - multiset(k.Children()) + multiset{nextId}
    ensures forall q | q in k1 :: NodeOk(k1, r1, h1, nextId + 1, hist1, q)
  {
    var p := nextId;
    InvClosed(kinds, refcount, holders, nextId, history, slots);
    AddEdges(kinds, p, k);
    forall q | q in k1
      ensures NodeOk(k1, r1, h1, p + 1, hist1, q)
    {
      if q == p {
        assert p !in holders;
        assert p !in k.Children();
      } else {
        assert NodeOk(kinds, refcount, holders, nextId, history, q);
      }
    }
  }

  /** A new callback node's handle, registered and retained by nobody else, keeps the handles owned. */
  lemma NewCallbacksOwned(kinds: map<NodeId, Kind>, slots: map<int, Value>, p: NodeId, k: Kind, k1: map<NodeId, Kind>)
    requires CallbacksOwned(kinds, slots) && p !in kinds
    requires k.HasCallback() ==> FuncOf(k) in slots && Unowned(kinds, FuncOf(k))
    requires k1 == kinds[p := k]
    ensures CallbacksOwned(k1, slots)
  {
    forall q, q' | q in k1 && q' in k1 && q != q' && k1[q].HasCallback() && k1[q'].HasCallback()
      ensures FuncOf(k1[q]) != FuncOf(k1[q'])
    {
      if q != p && q' != p {
        assert FuncOf(kinds[q]) != FuncOf(kinds[q']);
      }
    }
  }

  /** A decrement that leaves the count positive keeps the invariant. */
  lemma DecrementKeepsInv(kinds: map<NodeId, Kind>, refcount: map<NodeId, int>, holders: multiset<NodeId>,
                          nextId: NodeId, history: map<NodeId, Kind>, slots: map<int, Value>, p: NodeId)
    requires GraphInv(kinds, refcount, holders, nextId, history, slots) && p in holders && refcount[p] > 1
    ensures GraphInv(kinds, refcount[p := refcount[p] - 1], holders - multiset{p}, nextId, history, slots)
  {
    var r := refcount[p := refcount[p] - 1];
    var h := holders - multiset{p};
    forall q | q in kinds
      ensures NodeOk(kinds, r, h, nextId, history, q)
    {
      assert NodeOk(kinds, refcount, holders, nextId, history, q);
    }
    forall q | q in h
      ensures q in kinds
    {
      assert q in holders;
    }
  }

  /** A node whose count is one is held once from outside and by no other node. */
  lemma LastReference(kinds: map<NodeId, Kind>, refcount: map<NodeId, int>, holders: multiset<NodeId>,
                      nextId: NodeId, history: map<NodeId, Kind>, slots: map<int, Value>, p: NodeId)
    requires GraphInv(kinds, refcount, holders, nextId, history, slots) && p in holders && refcount[p] == 1
    ensures holders[p] == 1 && p !in EdgesOf(kinds, kinds.Keys)
    ensures forall q | q in kinds && q != p :: p !in kinds[q].Children()
  {
    assert NodeOk(kinds, refcount, holders, nextId, history, p);
    forall q | q in kinds && q != p
      ensures p !in kinds[q].Children()
    {
      EdgesOfRemove(kinds, kinds.Keys, q);
      assert multiset(kinds[q].Children()) <= EdgesOf(kinds, kinds.Keys);
    }
  }

  /**
   * Freeing a node whose last reference is dropped keeps the invariant once
   * its edges are turned into holds that its destroy then releases.
   */
  lemma RemoveKeepsInv(kinds: map<NodeId, Kind>, refcount: map<NodeId, int>, holders: multiset<NodeId>,
                       nextId: NodeId, history: map<NodeId, Kind>, slots: map<int, Value>, p: NodeId)
    requires GraphInv(kinds, refcount, holders, nextId, history, slots) && p in holders && refcount[p] == 1
    ensures GraphInv(kinds - {p}, refcount - {p}, holders - multiset{p} + multiset(kinds[p].Children()), nextId, history, slots)
  {
    var k1 := kinds - {p};
    var r1 := refcount - {p};
    var h1 := holders - multiset{p} + multiset(kinds[p].Children());
    LastReference(kinds, refcount, holders, nextId, history, slots, p);
    DropEdges(kinds, p);
    assert NodeOk(kinds, refcount, holders, nextId, history, p);
    forall q | q in k1
      ensures NodeOk(k1, r1, h1, nextId, history, q)
    {
      assert NodeOk(kinds, refcount, holders, nextId, history, q);
    }
    forall q | q in h1
      ensures q in k1
    {
      if q in multiset(kinds[p].Children()) {
        assert q in kinds[p].Children();
      } else {
        assert q in holders;
      }
    }
    forall q | q in k1 && k1[q].HasCallback()
      ensures FuncOf(k1[q]) in slots
    {
      assert FuncOf(kinds[q]) in slots;
    }
    forall q, q' | q in k1 && q' in k1 && q != q' && k1[q].HasCallback() && k1[q'].HasCallback()
      ensures FuncOf(k1[q]) != FuncOf(k1[q'])
    {
      assert FuncOf(kinds[q]) != FuncOf(kinds[q']);
    }
  }

  /** No live node retains the handle `f`. */
  ghost predicate Unowned(kinds: map<NodeId, Kind>, f: int) {
    forall q | q in kinds && kinds[q].HasCallback() :: FuncOf(kinds[q]) != f
  }

  /** Once a callback node is freed, no live node retains its handle. */
  lemma RemovedFuncUnowned(kinds: map<NodeId, Kind>, slots: map<int, Value>, p: NodeId)
    requires p in kinds && kinds[p].HasCallback() && CallbacksOwned(kinds, slots)
    ensures Unowned(kinds - {p}, FuncOf(kinds[p]))
  {
  }

  /** Releasing a registry slot no live node retains keeps the invariant. */
  lemma DropSlotKeepsInv(kinds: map<NodeId, Kind>, refcount: map<NodeId, int>, holders: multiset<NodeId>,
                         nextId: NodeId, history: map<NodeId, Kind>, slots: map<int, Value>, f: int)
    requires GraphInv(kinds, refcount, holders, nextId, history, slots) && Unowned(kinds, f)
    ensures GraphInv(kinds, refcount, holders, nextId, history, slots - {f})
  {
  }

  /** `k1` is what is left of `k0` once some nodes are freed: the remaining nodes keep their kinds. */
  ghost predicate Remains(k1: map<NodeId, Kind>, k0: map<NodeId, Kind>) {
    forall q | q in k1 :: q in k0 && k1[q] == k0[q]
  }

  /** Freeing nodes can only take callback handles away. */
  lemma FuncHandlesShrink(k1: map<NodeId, Kind>, k0: map<NodeId, Kind>)
    requires Remains(k1, k0)
    ensures FuncHandles(k1) <= FuncHandles(k0)
  {
    forall h | h in FuncHandles(k1)
      ensures h in FuncHandles(k0)
    {
      var q :| q in k1 && k1[q].HasCallback() && FuncOf(k1[q]) == h;
      assert q in k0 && k0[q] == k1[q];
    }
  }

  /**
   * Freeing one node takes away exactly its own callback handle, if it has
   * one: no other live node shares it.
   */
  lemma FreedHandle(k0: map<NodeId, Kind>, slots: map<int, Value>, p: NodeId)
    requires p in k0 && CallbacksOwned(k0, slots)
    ensures Remains(k0 - {p}, k0)
    ensures FuncHandles(k0) - FuncHandles(k0 - {p}) == if k0[p].HasCallback() then {FuncOf(k0[p])} else {}
  {
    var k1 := k0 - {p};
    forall h | h in FuncHandles(k0) && !(k0[p].HasCallback() && h == FuncOf(k0[p]))
      ensures h in FuncHandles(k1)
    {
      var q :| q in k0 && k0[q].HasCallback() && FuncOf(k0[q]) == h;
      assert q in k1 && k1[q] == k0[q];
    }
    if k0[p].HasCallback() {
      forall q | q in k1 && k1[q].HasCallback()
        ensures FuncOf(k1[q]) != FuncOf(k0[p])
      {
        assert q in k0 && q != p && k0[q] == k1[q];
      }
      assert FuncOf(k0[p]) in FuncHandles(k0);
    }
  }

  /** Two teardowns in turn release the handles of every node freed by either. */
  lemma ReleasesCompose(k0: map<NodeId, Kind>, k1: map<NodeId, Kind>, k2: map<NodeId, Kind>,
                        s0: map<int, Value>, s1: map<int, Value>, s2: map<int, Value>)
    requires Remains(k1, k0) && Remains(k2, k1)
    requires s1 == s0 - (FuncHandles(k0) - FuncHandles(k1))
    requires s2 == s1 - (FuncHandles(k1) - FuncHandles(k2))
    ensures Remains(k2, k0)
    ensures s2 == s0 - (FuncHandles(k0) - FuncHandles(k2))
  {
    FuncHandlesShrink(k1, k0);
    FuncHandlesShrink(k2, k1);
    assert FuncHandles(k0) - FuncHandles(k2) == (FuncHandles(k0) - FuncHandles(k1)) + (FuncHandles(k1) - FuncHandles(k2));
  }

  /** Freeing no node releases no slot. */
  lemma NoneFreed(kinds: map<NodeId, Kind>, slots: map<int, Value>)
    ensures Remains(kinds, kinds)
    ensures slots - (FuncHandles(kinds) - FuncHandles(kinds)) == slots
  {
    assert FuncHandles(kinds) - FuncHandles(kinds) == {};
  }

  lemma MultisetCancel<T>(a: multiset<T>, b: multiset<T>)
    ensures a + b - b == a
  {
  }

  /** parser_ref followed by parser_unref on a count above zero: counts and holders are back where they were. */
  lemma RefUnrefRestores(rc: map<NodeId, int>, hs: multiset<NodeId>, n: NodeId)
    requires n in rc
    ensures rc[n := rc[n] + 1][n := rc[n] + 1 - 1] == rc
    ensures hs + multiset{n} - multiset{n} == hs
  {
  }

  /** The registry slots of the retained callbacks. */
  ghost function FuncsOf(kinds: map<NodeId, Kind>, slots: map<int, Value>): map<int, Value> {
    map h | h in slots && h in FuncHandles(kinds) :: slots[h]
  }

  /** Registering more values leaves the retained callbacks' slots as they were. */
  lemma FuncsStable(kinds: map<NodeId, Kind>, s0: map<int, Value>, s1: map<int, Value>)
    requires CallbacksOwned(kinds, s0) && Extends(s0, s1)
    ensures FuncsOf(kinds, s1) == FuncsOf(kinds, s0)
  {
    forall h | h in FuncHandles(kinds)
      ensures h in s0
    {
      var p :| p in kinds && kinds[p].HasCallback() && FuncOf(kinds[p]) == h;
    }
  }

  /** A callback node's function is among the values a parse sees, as stored in the registry. */
  lemma CallbackFound(kinds: map<NodeId, Kind>, s0: map<int, Value>, s1: map<int, Value>, p: NodeId)
    requires CallbacksOwned(kinds, s0) && Extends(s0, s1)
    requires p in kinds && kinds[p].HasCallback()
    ensures FuncOf(kinds[p]) in FuncsOf(kinds, s0)
    ensures FuncOf(kinds[p]) in s1 && FuncsOf(kinds, s0)[FuncOf(kinds[p])] == s1[FuncOf(kinds[p])]
  {
    assert FuncOf(kinds[p]) in FuncHandles(kinds);
  }

  /** Registering more values keeps the graph invariant. */
  lemma InvExtends(kinds: map<NodeId, Kind>, refcount: map<NodeId, int>, holders: multiset<NodeId>,
                   nextId: NodeId, history: map<NodeId, Kind>, s0: map<int, Value>, s1: map<int, Value>)
    requires GraphInv(kinds, refcount, holders, nextId, history, s0) && Extends(s0, s1)
    ensures GraphInv(kinds, refcount, holders, nextId, history, s1)
  {
  }

  /** The children a kind names are live nodes. */
  predicate ChildrenIn(k: Kind, kinds: map<NodeId, Kind>) {
    match k
    case Literal(_) => true
    case AnyChar => true
    case Identifier => true
    case Map(i, _) => i in kinds
    case AndThen(i, _) => i in kinds
    case OrElse(l, r) => l in kinds && r in kinds
    case Pred(i, _) => i in kinds
    case Left(l, r) => l in kinds && r in kinds
    case Right(l, r) => l in kinds && r in kinds
    case OneOrMore(i) => i in kinds
    case ZeroOrMore(i) => i in kinds
  }

  /** Every live node's children are live: what a parse needs to follow the edges. */
  ghost predicate Linked(kinds: map<NodeId, Kind>) {
    forall p | p in kinds :: ChildrenIn(kinds[p], kinds)
  }

  lemma ClosedLinked(kinds: map<NodeId, Kind>)
    requires Closed(kinds)
    ensures Linked(kinds)
  {
    forall p | p in kinds
      ensures ChildrenIn(kinds[p], kinds)
    {
      var cs := kinds[p].Children();
      if |cs| > 0 {
        assert cs[0] in kinds[p].Children();
      }
      if |cs| > 1 {
        assert cs[1] in kinds[p].Children();
      }
    }
  }

  /** What a parse sees of the graph: the node kinds, the retained callbacks' values and the host. */
  datatype Grammar = Grammar(kinds: map<NodeId, Kind>, funcs: map<int, Value>, call: (Value, Value) -> Option<Value>)
  {
    ghost predicate Ok() {
      Linked(kinds)
    }

    /** The function stored under a callback handle. */
    function Callback(f: int): Value {
      if f in funcs then funcs[f] else Nil
    }
  }

  class Graph {
    var kinds: map<NodeId, Kind>
    var refcount: map<NodeId, int>
    /** References held outside the graph: creators, userdata wrappers, transient references. */
    ghost var holders: multiset<NodeId>
    var nextId: NodeId
    /** Every node ever created, with the kind it was created with; a node's kind never changes. */
    ghost var history: map<NodeId, Kind>
    /** The lua_State every node keeps a pointer to. */
    const reg: Registry

    ghost predicate Valid()
      reads this, reg
    {
      reg.Valid() && GraphInv(kinds, refcount, holders, nextId, history, reg.slots)
    }

    /** What a parse sees: the live nodes, their callbacks' registry values and the host. */
    ghost function Snapshot(call: (Value, Value) -> Option<Value>): (gr: Grammar)
      reads this, reg
      ensures gr.kinds == kinds
    {
      Grammar(kinds, FuncsOf(kinds, reg.slots), call)
    }

    constructor (r: Registry)
      requires r.Valid()
      ensures Valid() && reg == r
      ensures kinds == map[] && holders == multiset{} && nextId == 0
    {
      history := map[];
      kinds := map[];
      refcount := map[];
      holders := multiset{};
      nextId := 0;
      reg := r;
    }

    /** parser_ref: one more reference, owned by the caller. */
    method Ref(p: NodeId)
      requires Valid() && p in kinds
      modifies this
      ensures Valid()
      ensures kinds == old(kinds) && nextId == old(nextId) && history == old(history)
      ensures refcount == old(refcount)[p := old(refcount[p]) + 1]
      ensures holders == old(holders) + multiset{p}
    {
      RefKeepsInv(kinds, refcount, holders, nextId, history, reg.slots, p);
      refcount := refcount[p := refcount[p] + 1];
      holders := holders + multiset{p};
    }

    /**
     * parser_new: a fresh node with refcount 1, owned by the caller. The
     * caller must already hold the references to the children that the node
     * takes over.
     */
    method New(k: Kind) returns (p: NodeId)
      requires Valid()
      requires forall c | c in k.Children() :: c in kinds
      requires multiset(k.Children()) <= holders
      requires k.HasCallback() ==> FuncOf(k) in reg.slots && Unowned(kinds, FuncOf(k))
      modifies this
      ensures Valid()
      ensures p == old(nextId) && p !in old(kinds)
      ensures kinds == old(kinds)[p := k] && nextId == old(nextId) + 1
      ensures history == old(history)[p := k]
      ensures refcount == old(refcount)[p := 1]
      ensures holders == old(holders) - multiset(k.Children()) + multiset{p}
    {
      ghost var k0, r0, h0, hist0 := kinds, refcount, holders, history;
      p := Install(k);
      NewKeepsInv(k0, r0, h0, p, hist0, reg.slots, k, kinds, refcount, holders, history);
    }

    /** The field updates of parser_new: node `nextId` is `k`, counted once and held by the caller. */
    method Install(k: Kind) returns (p: NodeId)
      modifies this
      ensures p == old(nextId)
      ensures kinds == old(kinds)[p := k] && nextId == old(nextId) + 1
      ensures history == old(history)[p := k]
      ensures refcount == old(refcount)[p := 1]
      ensures holders == old(holders) - multiset(k.Children()) + multiset{p}
    {
      p := nextId;
      kinds, refcount, nextId, history := kinds[p := k], refcount[p := 1], nextId + 1, history[p := k];
      holders := holders - multiset(k.Children()) + multiset{p};
    }

    /**
     * make_*: take a reference to each child (left before right), then
     * parser_new; the new node owns those references and the caller owns the
     * node's first one.
     */
    method Make(k: Kind) returns (p: NodeId)
      requires Valid()
      requires forall c | c in k.Children() :: c in kinds
      requires k.HasCallback() ==> FuncOf(k) in reg.slots && Unowned(kinds, FuncOf(k))
      modifies this
      ensures Valid()
      ensures p == old(nextId) && p !in old(kinds)
      ensures kinds == old(kinds)[p := k] && nextId == old(nextId) + 1
      ensures history == old(history)[p := k]
      ensures refcount[p] == 1
      ensures forall q | q in old(kinds) :: refcount[q] == old(refcount[q]) + multiset(k.Children())[q]
      ensures holders == old(holders) + multiset{p}
    {
      RefChildren(k.Children());
      p := New(k);
    }

    /** The first half of each make_*: take one reference to each child, in order. */
    method RefChildren(cs: seq<NodeId>)
      requires Valid() && |cs| <= 2 && forall c | c in cs :: c in kinds
      modifies this
      ensures Valid()
      ensures kinds == old(kinds) && nextId == old(nextId) && history == old(history)
      ensures forall q | q in kinds :: q in refcount && refcount[q] == old(refcount[q]) + multiset(cs)[q]
      ensures refcount.Keys == old(refcount.Keys)
      ensures holders == old(holders) + multiset(cs)
    {
      if |cs| == 1 {
        assert cs[0] in cs;
        Ref(cs[0]);
        assert multiset(cs) == multiset{cs[0]} by {
          assert cs == [cs[0]];
        }
      } else if |cs| == 2 {
        assert cs[0] in cs && cs[1] in cs;
        RefPair(cs[0], cs[1]);
        assert multiset(cs) == multiset{cs[0]} + multiset{cs[1]} by {
          assert cs == [cs[0]] + [cs[1]];
        }
      }
    }

    /** Take references to the two children of a binary combinator, left first. */
    method RefPair(l: NodeId, r: NodeId)
      requires Valid() && l in kinds && r in kinds
      modifies this
      ensures Valid()
      ensures kinds == old(kinds) && nextId == old(nextId) && history == old(history)
      ensures forall q | q in kinds :: q in refcount && refcount[q] == old(refcount[q]) + (multiset{l} + multiset{r})[q]
      ensures refcount.Keys == old(refcount.Keys)
      ensures holders == old(holders) + multiset{l} + multiset{r}
    {
      Ref(l);
      Ref(r);
    }

    /**
     * parser_unref: drop one reference; when the count reaches zero the node
     * is destroyed. The caller must own the reference it drops.
     */
    method Unref(p: NodeId)
      requires Valid() && p in holders
      modifies this, reg
      ensures Valid()
      ensures holders == old(holders) - multiset{p}
      ensures nextId == old(nextId) && history == old(history)
      ensures Remains(kinds, old(kinds))
      ensures reg.slots == old(reg.slots) - (FuncHandles(old(kinds)) - FuncHandles(kinds))
      ensures old(refcount[p]) > 1 ==> kinds == old(kinds) && refcount == old(refcount)[p := old(refcount[p]) - 1]
      ensures old(refcount[p]) > 1 ==> unchanged(reg)
      ensures old(refcount[p]) == 1 ==> p !in kinds
      decreases p, 3
    {
      var count := refcount[p] - 1;
      if count <= 0 {
        assert NodeOk(kinds, refcount, holders, nextId, history, p);
        Destroy(p);
      } else {
        NoneFreed(kinds, reg.slots);
        Decrement(p);
      }
    }

    /** The path of parser_unref that leaves the count positive. */
    method Decrement(p: NodeId)
      requires Valid() && p in holders && refcount[p] > 1
      modifies this
      ensures Valid()
      ensures holders == old(holders) - multiset{p}
      ensures kinds == old(kinds) && nextId == old(nextId) && history == old(history)
      ensures refcount == old(refcount)[p := old(refcount[p]) - 1]
    {
      DecrementKeepsInv(kinds, refcount, holders, nextId, history, reg.slots, p);
      refcount := refcount[p := refcount[p] - 1];
      holders := holders - multiset{p};
    }

    /**
     * The teardown run when the last reference goes: the node is freed and
     * its kind-specific destroy releases the retained callback handle, then
     * drops the node's reference to each child (left before right), which
     * may cascade.
     */
    method Destroy(p: NodeId)
      requires Valid() && p in holders && refcount[p] == 1
      modifies this, reg
      ensures Valid()
      ensures p !in kinds
      ensures holders == old(holders) - multiset{p}
      ensures nextId == old(nextId) && history == old(history)
      ensures Remains(kinds, old(kinds))
      ensures reg.slots == old(reg.slots) - (FuncHandles(old(kinds)) - FuncHandles(kinds))
      ensures old(kinds[p]).HasCallback() ==> FuncOf(old(kinds[p])) !in reg.slots
      decreases p, 2
    {
      var k := kinds[p];
      ghost var k0, s0 := kinds, reg.slots;
      assert NodeOk(kinds, refcount, holders, nextId, history, p);
      FreedHandle(k0, s0, p);
      Free(p);
      assert reg.slots == s0 - (FuncHandles(k0) - FuncHandles(kinds));
      ghost var k1, s1 := kinds, reg.slots;
      ReleaseChildren(p, k.Children());
      ReleasesCompose(k0, k1, kinds, s0, s1, reg.slots);
      MultisetCancel(old(holders) - multiset{p}, multiset(k.Children()));
    }

    /**
     * The second half of each kind's destroy: drop the node's reference to
     * each child, in the order Kind.Children lists them.
     */
    method ReleaseChildren(owner: NodeId, cs: seq<NodeId>)
      requires Valid() && multiset(cs) <= holders && |cs| <= 2
      requires forall c | c in cs :: c < owner
      modifies this, reg
      ensures Valid()
      ensures holders == old(holders) - multiset(cs)
      ensures nextId == old(nextId) && history == old(history)
      ensures Remains(kinds, old(kinds))
      ensures reg.slots == old(reg.slots) - (FuncHandles(old(kinds)) - FuncHandles(kinds))
      decreases owner, 1
    {
      if |cs| == 0 {
        NoneFreed(kinds, reg.slots);
      } else if |cs| == 1 {
        assert cs == [cs[0]] && cs[0] in cs;
        ReleaseOne(owner, cs[0]);
      } else if |cs| == 2 {
        assert cs == [cs[0], cs[1]] && cs[0] in cs && cs[1] in cs;
        ReleasePair(owner, cs[0], cs[1]);
      }
    }

    /**
     * The first half of a destroy: the node leaves the graph, its callback
     * handle is released, and its references to its children become
     * outside holds that the destroy still has to drop.
     */
    method Free(p: NodeId)
      requires Valid() && p in holders && refcount[p] == 1
      modifies this, reg
      ensures Valid()
      ensures kinds == old(kinds) - {p} && refcount == old(refcount) - {p}
      ensures holders == old(holders) - multiset{p} + multiset(old(kinds[p]).Children())
      ensures nextId == old(nextId) && history == old(history)
      ensures old(kinds[p]).HasCallback() ==> reg.slots == old(reg.slots) - {FuncOf(old(kinds[p]))}
      ensures !old(kinds[p]).HasCallback() ==> reg.slots == old(reg.slots)
    {
      var k := kinds[p];
      RemoveKeepsInv(kinds, refcount, holders, nextId, history, reg.slots, p);
      if k.HasCallback() {
        RemovedFuncUnowned(kinds, reg.slots, p);
      }
      kinds := kinds - {p};
      refcount := refcount - {p};
      holders := holders - multiset{p} + multiset(k.Children());
      if k.HasCallback() {
        DropSlotKeepsInv(kinds, refcount, holders, nextId, history, reg.slots, FuncOf(k));
        reg.Unref(FuncOf(k));
      }
    }

    /** Drop the reference a one-child node held. */
    method ReleaseOne(owner: NodeId, c: NodeId)
      requires Valid() && multiset([c]) <= holders && c < owner
      modifies this, reg
      ensures Valid()
      ensures holders == old(holders) - multiset([c])
      ensures nextId == old(nextId) && history == old(history)
      ensures Remains(kinds, old(kinds))
      ensures reg.slots == old(reg.slots) - (FuncHandles(old(kinds)) - FuncHandles(kinds))
      decreases owner, 0
    {
      assert multiset([c]) == multiset{c};
      Unref(c);
    }

    /** Drop the references a two-child node held, left before right. */
    method ReleasePair(owner: NodeId, l: NodeId, r: NodeId)
      requires Valid() && multiset([l, r]) <= holders && l < owner && r < owner
      modifies this, reg
      ensures Valid()
      ensures holders == old(holders) - multiset([l, r])
      ensures nextId == old(nextId) && history == old(history)
      ensures Remains(kinds, old(kinds))
      ensures reg.slots == old(reg.slots) - (FuncHandles(old(kinds)) - FuncHandles(kinds))
      decreases owner, 0
    {
      assert multiset([l, r]) == multiset{l, r};
      ghost var k0, s0 := kinds, reg.slots;
      Unref(l);
      ghost var k1, s1 := kinds, reg.slots;
      Unref(r);
      ReleasesCompose(k0, k1, kinds, s0, s1, reg.slots);
    }
  }

  /** The "Parser" userdata: a boxed node pointer, cleared by its finalizer. */
  class Userdata {
    var node: Option<NodeId>

    constructor (p: NodeId)
      ensures node == Some(p)
    {
      node := Some(p);
    }
  }

  /** push_parser_ud: a new userdata that owns one reference to `p`. */
  method PushUserdata(g: Graph, p: NodeId) returns (ud: Userdata)
    requires g.Valid() && p in g.kinds
    modifies g
    ensures g.Valid() && fresh(ud) && ud.node == Some(p)
    ensures g.kinds == old(g.kinds)
    ensures g.refcount == old(g.refcount)[p := old(g.refcount[p]) + 1]
    ensures g.holders == old(g.holders) + multiset{p}
  {
    g.Ref(p);
    ud := new Userdata(p);
  }

  /** l_parser_gc: drop the userdata's reference once and clear its pointer. */
  method CollectUserdata(g: Graph, ud: Userdata)
    requires g.Valid()
    requires ud.node.Some? ==> ud.node.value in g.holders
    modifies g, g.reg, ud
    ensures g.Valid() && ud.node.None?
    ensures Remains(g.kinds, old(g.kinds))
    ensures g.reg.slots == old(g.reg.slots) - (FuncHandles(old(g.kinds)) - FuncHandles(g.kinds))
    ensures old(ud.node).Some? ==> g.holders == old(g.holders) - multiset{old(ud.node).value}
    ensures old(ud.node).None? ==> g.holders == old(g.holders) && g.kinds == old(g.kinds) && g.refcount == old(g.refcount)
    ensures old(ud.node).None? ==> unchanged(g.reg)
  {
    NoneFreed(g.kinds, g.reg.slots);
    if ud.node.Some? {
      g.Unref(ud.node.value);
      ud.node := None;
    }
  }

  /**
   * The Lua-facing constructors: make the node, wrap it in a userdata, then
   * drop the creator's reference, leaving the userdata the node's only
   * outside owner.
   */
  method Construct(g: Graph, k: Kind) returns (ud: Userdata, p: NodeId)
    requires g.Valid()
    requires forall c | c in k.Children() :: c in g.kinds
    requires k.HasCallback() ==> FuncOf(k) in g.reg.slots && Unowned(g.kinds, FuncOf(k))
    modifies g, g.reg
    ensures g.Valid() && fresh(ud) && ud.node == Some(p)
    ensures p !in old(g.kinds) && g.kinds == old(g.kinds)[p := k]
    ensures g.refcount[p] == 1
    ensures forall q | q in old(g.kinds) :: g.refcount[q] == old(g.refcount[q]) + multiset(k.Children())[q]
    ensures g.holders == old(g.holders) + multiset{p}
    ensures g.reg.slots == old(g.reg.slots)
  {
    p := g.Make(k);
    ud := PushUserdata(g, p);
    g.Unref(p);
  }
}
