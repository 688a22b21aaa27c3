/**
 * The slice of the Lua registry the parsers use: luaL_ref stores the value on
 * top of the stack under a fresh integer handle (nil gets LUA_REFNIL and no
 * slot), lua_rawgeti reads a handle, luaL_unref releases it.
 */
module LuaRegistry {
  import Lexing

  const NoRef: int := -2   // LUA_NOREF
  const RefNil: int := -1  // LUA_REFNIL

  /** The Lua values a parse can produce or hand to a callback. */
  datatype Value =
    | Nil
    | Bool(b: bool)
    | Str(s: seq<Lexing.byte>)
    | Table(items: seq<Value>)     // items[i] is stored at key i+1; Nil is a hole
    | Function(id: nat)            // a host function, identified opaquely
    | ParserUd(node: nat)          // a "Parser" userdata wrapping a node
    | Other(tag: nat)              // any other Lua value

  /** `lua_toboolean`: only nil and false are false. */
  predicate Truthy(v: Value) {
    !(v.Nil? || v == Bool(false))
  }

  /** Number of registry slots a value occupies once passed to luaL_ref. */
  function Slot(v: Value): (n: nat)
    ensures n <= 1 && (n == 0 <==> v.Nil?)
  {
    if v.Nil? then 0 else 1
  }

  /** Every handle of `s0` is still in `s1` with the same value. */
  ghost predicate Extends<V>(s0: map<int, V>, s1: map<int, V>) {
    forall h | h in s0 :: h in s1 && s1[h] == s0[h]
  }

  class Registry {
    var slots: map<int, Value>
    var next: int

    ghost predicate Valid()
      reads this
    {
      0 < next && forall h | h in slots :: 0 < h < next
    }

    constructor ()
      ensures Valid() && slots == map[]
    {
      slots := map[];
      next := 1;
    }

    /** `lua_rawgeti(L, LUA_REGISTRYINDEX, h)`: nil for a handle that holds nothing. */
    function Get(h: int): (v: Value)
      reads this
      ensures h in slots ==> v == slots[h]
      ensures h !in slots ==> v.Nil?
    {
      if h in slots then slots[h] else Nil
    }

    /** `luaL_ref`: a fresh positive handle for a non-nil value, LUA_REFNIL for nil. */
    method Ref(v: Value) returns (h: int)
      requires Valid()
      modifies this
      ensures Valid()
      ensures v.Nil? ==> h == RefNil && slots == old(slots)
      ensures !v.Nil? ==> h > 0 && h !in old(slots) && slots == old(slots)[h := v]
      ensures Extends(old(slots), slots)
      ensures |slots.Keys| == |old(slots.Keys)| + Slot(v)
      ensures Get(h) == v
      ensures next >= old(next)
    {
      if v.Nil? {
        h := RefNil;
      } else {
        h := next;
        slots := slots[h := v];
        next := next + 1;
      }
    }

    /**
     * `luaL_unref`: releases a handle; a negative handle (LUA_NOREF,
     * LUA_REFNIL) is ignored. Releasing a handle twice is the caller's error.
     */
    method Unref(h: int)
      requires Valid()
      requires h < 0 || h in slots
      modifies this
      ensures Valid()
      ensures slots == old(slots) - {h}
      ensures next == old(next)
      ensures |slots.Keys| == |old(slots.Keys)| - (if h in old(slots) then 1 else 0)
    {
      if h >= 0 {
        var before := slots.Keys;
        slots := slots - {h};
        assert slots.Keys == before - {h};
        if h in before {
          assert before == slots.Keys + {h};
        }
      }
    }
  }
}
