/** References to values (`luaL_ref`, `luaL_unref`): the free ones are threaded
    through the slots of the table itself. */
module TableRefs {
  import opened TableCore
  import opened Tables

  const FREELIST_REF := 0
  const LUA_REFNIL := -1

  /** `lua_tointeger` on what the free list holds. */
  function ToInteger(v: Value): int {
    if v == Nil then 0 else v.v
  }

  /** What is in the integer slots of the table. */
  type Slots = imap<int, Value>

  function InSlot(s: Slots, r: int): Value {
    if r in s then s[r] else Nil
  }

  /** Where the list says which reference is the `i`-th free one. */
  function LinkAt(free: seq<int>, i: nat): int
    requires i <= |free|
  {
    if i == 0 then FREELIST_REF else free[i - 1]
  }

  /** `live` are the references handed out, with their values, and `free` the free
      ones in the order of the list; together they are 1 to `top`. */
  ghost predicate RefsOk(s: Slots, live: map<int, Value>, free: seq<int>, top: nat) {
    && (forall r: int {:trigger r in live} {:trigger r in free} :: 1 <= r <= top <==> r in live || r in free)
    && (forall i, j :: 0 <= i < j < |free| ==> free[i] != free[j])
    && (forall r <- free :: r !in live)
    && (forall r <- live :: live[r] != Nil && InSlot(s, r) == live[r])
    && (forall i :: 0 <= i <= |free| ==> ToInteger(InSlot(s, LinkAt(free, i))) == if i < |free| then free[i] else 0)
    && (forall r: int {:trigger InSlot(s, r)} :: r > top ==> InSlot(s, r) == Nil)
  }

  /** The slots after two assignments. */
  ghost predicate Assigned(s: Slots, u: Slots, r1: int, v1: Value, r2: int, v2: Value) {
    forall r {:trigger InSlot(u, r)} :: InSlot(u, r) == if r == r2 then v2 else if r == r1 then v1 else InSlot(s, r)
  }

  /** Taking the first free reference. */
  lemma TakeFirst(s: Slots, u: Slots, live: map<int, Value>, free: seq<int>, top: nat, ref: int, v: Value)
    requires RefsOk(s, live, free, top) && ref == ToInteger(InSlot(s, FREELIST_REF)) && ref != 0 && v != Nil
    requires Assigned(s, u, FREELIST_REF, InSlot(s, ref), ref, v)
    ensures free != [] && ref == free[0] && ref >= 1 && ref !in live && RefsOk(u, live[ref := v], free[1..], top)
  {
    FirstFree(s, live, free, top);
    var rest := free[1..];
    RestFree(s, live, free, top, ref);
    forall i | 0 <= i <= |rest| ensures ToInteger(InSlot(u, LinkAt(rest, i))) == if i < |rest| then rest[i] else 0 {
      RestLink(s, live, free, top, i);
      if i > 0 { assert rest[i - 1] in rest; } else { assert LinkAt(rest, 0) == FREELIST_REF; }
    }
    hide LinkAt;
  }

  /** The other free references. */
  lemma RestFree(s: Slots, live: map<int, Value>, free: seq<int>, top: nat, ref: int)
    requires RefsOk(s, live, free, top) && free != [] && ref == free[0]
    ensures ref >= 1 && ref !in live && forall r :: r in free <==> r == ref || r in free[1..]
    ensures forall r <- free[1..] :: r != ref && r >= 1 && r !in live
    ensures forall i, j :: 0 <= i < j < |free[1..]| ==> free[1..][i] != free[1..][j]
  {
    var rest := free[1..];
    assert free == [ref] + rest && ref in free;
    forall r <- rest ensures r != ref && r in free && r >= 1 {
      var i :| 0 <= i < |rest| && rest[i] == r;
      assert free[0] != free[i + 1];
    }
    hide LinkAt;
  }

  lemma RestLink(s: Slots, live: map<int, Value>, free: seq<int>, top: nat, i: nat)
    requires RefsOk(s, live, free, top) && free != [] && i <= |free[1..]|
    ensures ToInteger(InSlot(s, if i == 0 then free[0] else free[1..][i - 1])) == if i < |free[1..]| then free[1..][i] else 0
  {
    LinkOk(s, live, free, top, i + 1);
    hide RefsOk;
  }

  lemma LinkOk(s: Slots, live: map<int, Value>, free: seq<int>, top: nat, i: nat)
    requires RefsOk(s, live, free, top) && i <= |free|
    ensures ToInteger(InSlot(s, LinkAt(free, i))) == if i < |free| then free[i] else 0
  {}

  lemma FirstFree(s: Slots, live: map<int, Value>, free: seq<int>, top: nat)
    requires RefsOk(s, live, free, top)
    ensures ToInteger(InSlot(s, FREELIST_REF)) == if free == [] then 0 else free[0]
    ensures free != [] ==> free[0] in free && free[0] >= 1
  {
    assert LinkAt(free, 0) == FREELIST_REF;
    if free != [] { assert free[0] in free; }
  }

  /** A new reference, past all others: the length of the table is the number of
      references when none is free. */
  lemma TakeNew(s: Slots, u: Slots, live: map<int, Value>, free: seq<int>, top: nat, n: nat, v: Value)
    requires RefsOk(s, live, free, top) && ToInteger(InSlot(s, FREELIST_REF)) == 0 && v != Nil
    requires (n == 0 || InSlot(s, n) != Nil) && InSlot(s, n + 1) == Nil
    requires Assigned(s, u, n + 1, v, n + 1, v)
    ensures n == top && free == [] && n + 1 !in live && RefsOk(u, live[n + 1 := v], free, top + 1)
  {
    FirstFree(s, live, free, top);
    assert free == [];
    assert 1 <= n + 1 <= top ==> n + 1 in live;
    assert n <= top;
    assert ToInteger(InSlot(s, LinkAt(free, 0))) == 0;
  }

  /** Giving a reference back. */
  lemma GiveBack(s: Slots, u: Slots, live: map<int, Value>, free: seq<int>, top: nat, ref: int)
    requires RefsOk(s, live, free, top) && ref in live
    requires Assigned(s, u, ref, InSlot(s, FREELIST_REF), FREELIST_REF, Val(ref))
    ensures RefsOk(u, live - {ref}, [ref] + free, top)
  {
    var l := [ref] + free;
    assert ref >= 1;
    forall r ensures r in l <==> r == ref || r in free {}
    forall i | 0 <= i < |free| ensures free[i] != ref && free[i] >= 1 { assert free[i] in free; }
    forall i, j | 0 <= i < j < |l| ensures l[i] != l[j] { if i > 0 { assert free[i - 1] != free[j - 1]; } }
    forall i | 0 <= i <= |l| ensures ToInteger(InSlot(u, LinkAt(l, i))) == if i < |l| then l[i] else 0 {
      if i == 0 {
        assert LinkAt(l, 0) == FREELIST_REF;
      } else {
        assert ToInteger(InSlot(s, LinkAt(free, i - 1))) == if i - 1 < |free| then free[i - 1] else 0;
        if i > 1 { assert l[i - 1] == free[i - 2]; }
      }
    }
  }

  lemma NoRefs(s: Slots)
    requires forall r :: InSlot(s, r) == Nil
    ensures RefsOk(s, map[], [], 0)
  {}

  class RefTable {
    const t: Table
    ghost var live: map<int, Value>
    ghost var free: seq<int>
    ghost var top: nat

    ghost function Held(): Slots
      reads t
    {
      imap r: int | true :: t.At(Int(r))
    }

    ghost predicate Valid()
      reads this, t
    {
      t.Valid() && RefsOk(Held(), live, free, top)
    }

    constructor (h: Hash)
      ensures Valid() && live == map[] && fresh(t)
    {
      hide Table.Valid, Table.At, RefsOk;
      t := new Table(h, 0, 0);
      live, free, top := map[], [], 0;
      new;
      NoRefs(Held());
    }

    /** `luaL_ref`: a reference that is not in use, the one given back last if there
        is one, and otherwise the first above all that have been; all others keep
        their values. */
    method Ref(v: Value) returns (ref: int)
      requires Valid()
      modifies this, t
      ensures Valid()
      ensures v == Nil ==> ref == -1 && live == old(live)
      ensures v != Nil ==> ref >= 1 && ref !in old(live) && live == old(live)[ref := v]
      ensures v == Nil ==> free == old(free) && top == old(top)
      ensures v != Nil && old(free) != [] ==> ref == old(free)[0] && free == old(free)[1..] && top == old(top)
      ensures v != Nil && old(free) == [] ==> ref == old(top) + 1 == top && free == []
    {
      hide Table.Valid, Table.At, RefsOk;
      if v == Nil { return LUA_REFNIL; }
      ghost var s := Held();
      var head := t.Get(Int(FREELIST_REF));
      ref := ToInteger(head);
      assert head == InSlot(s, FREELIST_REF);
      if ref != 0 {
        var next := t.Get(Int(ref));
        assert next == InSlot(s, ref);
        var ok := t.Set(Int(FREELIST_REF), next);
        ok := t.Set(Int(ref), v);
        TakeFirst(s, Held(), live, free, top, ref, v);
        live, free := live[ref := v], free[1..];
      } else {
        var n := t.GetN();
        assert (n == 0 || InSlot(s, n) != Nil) && InSlot(s, n + 1) == Nil;
        ref := n + 1;
        var ok := t.Set(Int(ref), v);
        TakeNew(s, Held(), live, free, top, n, v);
        live, top := live[ref := v], top + 1;
      }
    }

    /** `luaL_unref` on a reference in use. */
    method Unref(ref: int)
      requires Valid() && (ref < 0 || ref in live)
      modifies this, t
      ensures Valid() && live == old(live) - {ref} && top == old(top)
      ensures free == if ref < 0 then old(free) else [ref] + old(free)
    {
      hide Table.Valid, Table.At;
      if ref >= 0 {
        hide RefsOk;
        ghost var s := Held();
        var head := t.Get(Int(FREELIST_REF));
        assert head == InSlot(s, FREELIST_REF);
        var ok := t.Set(Int(ref), head);
        ok := t.Set(Int(FREELIST_REF), Val(ref));
        GiveBack(s, Held(), live, free, top, ref);
        live, free := live - {ref}, [ref] + free;
      } else {
        assert ref !in live;
        assert live - {ref} == live;
      }
    }

    /** Fetching what a reference stands for. */
    method Deref(ref: int) returns (v: Value)
      requires Valid()
      ensures ref in live ==> v == live[ref]
    {
      v := t.Get(Int(ref));
      assert v == InSlot(Held(), ref);
    }
  }
}
