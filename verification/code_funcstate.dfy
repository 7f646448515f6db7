/** `FuncState` as the code generator updates it: instructions in place, jump
    lists threaded through them.  Every method is tied to the function of the
    same operation on a ghost view in which lists are sequences. */
module CodeFuncState {
  import opened CodeVm
  import opened CodeTree
  import opened CodeGen
  import opened CodeLists
  import opened CodeState
  import opened CodeExits
  import opened CodeDischarge
  import opened CodeClose
  import opened CodeOperand
  import opened CodeTests
  import opened CodeNegation
  import opened CodeCorrect
  import opened CodeThreads
  import opened CodeTheorems

  /** `expdesc`, with the heads of its two lists. */
  datatype ExpDesc = ExpDesc(k: Kind, t: int, f: int)

  ghost function Members(l: seq<nat>): set<nat> {
    set j | j in l
  }

  class FuncState {
    var code: seq<Instr>
    var jpc: int
    var k: seq<Value>
    var freereg: nat
    var nactvar: nat
    ghost var view: Fs

    ghost predicate Valid()
      reads this
    {
      && SameCode(code, view.code) && Chain(code, jpc, view.jpc) && ListOk(view.code, view.jpc)
      && k == view.k && freereg == view.freereg && nactvar == view.nactvar
    }

    /** The real lists of an expression. */
    ghost predicate Is(e: ExpDesc, g: Exp)
      reads this
    {
      e.k == g.k && Chain(code, e.t, g.t) && Chain(code, e.f, g.f) && (e.k.VJmp? ==> Chain(code, e.k.pc, [e.k.pc]))
    }

    constructor (nlocals: nat)
      ensures Valid() && view == Fs([], [], [], nlocals, nlocals)
    {
      code, jpc, k, freereg, nactvar := [], NO_JUMP, [], nlocals, nlocals;
      view := Fs([], [], [], nlocals, nlocals);
    }

    // ---- Jump lists -------------------------------------------------------

    /** `getjump`. */
    method GetJump(pc: nat) returns (next: int)
      requires pc < |code| && code[pc].Jmp?
      ensures next == Next(code, pc)
    {
      var offset := code[pc].sbx;
      next := if offset == NO_JUMP then NO_JUMP else pc + 1 + offset;
    }

    /** `luaK_concat`. */
    method Concat(l1: int, l2: int, ghost m1: seq<nat>, ghost m2: seq<nat>) returns (l: int)
      requires SameCode(code, view.code) && Chain(code, l1, m1) && Chain(code, l2, m2)
      requires ListOk(view.code, m1) && Apart(m1, m2)
      modifies `code
      ensures SameCode(code, view.code) && Chain(code, l, m1 + m2)
      ensures |code| == |old(code)| && forall j: nat {:trigger code[j]} :: j < |code| && j !in m1 ==> code[j] == old(code)[j]
    {
      l := l1;
      assert m1 + [] == m1 && [] + m2 == m2;
      if l2 == NO_JUMP { return; }
      if l1 == NO_JUMP { l := l2; return; }
      var list := l1;
      ghost var i := 0;
      var next := GetJump(list);
      while next != NO_JUMP
        invariant code == old(code) && 0 <= i < |m1| && list == m1[i] && list < |code| && code[list].Jmp? && next == Next(code, list)
        invariant Chain(code, next, m1[i + 1..])
        decreases |m1| - i
      {
        list := next;
        assert m1[i + 1..][1..] == m1[i + 2..];
        i := i + 1;
        next := GetJump(list);
      }
      assert i == |m1| - 1;
      ChainConcat(code, l1, m1, l2, m2);
      assert list in m1 && Pending(view.code, list);
      code := code[list := Jmp(l2 - (list + 1))];
    }

    /** `patchtestreg`. */
    method PatchTestReg(node: nat, reg: Option<nat>) returns (patched: bool)
      requires SameCode(code, view.code) && Pending(view.code, node)
      modifies `code, `view
      ensures SameCode(code, view.code) && view == old(view).(code := PatchTest(old(view).code, node, reg))
      ensures patched == Valued(old(view).code, node)
      ensures forall j: nat {:trigger code[j]} :: j < |code| && Pending(old(view).code, j) ==> code[j] == old(code)[j]
      ensures JumpsStay(old(code), old(view).code, code, view.code, |code|)
    {
      patched := node >= 1 && code[node - 1].TestSet?;
      view := view.(code := PatchTest(view.code, node, reg));
      if patched {
        var i := code[node - 1];
        code := code[node - 1 := if reg.Some? && reg.value != i.b then TestSet(reg.value, i.b, i.c) else Test(i.b, i.c)];
      }
    }

    /** `patchlistaux`. */
    method PatchListAux(list: int, ghost l: seq<nat>, vtarget: int, reg: Option<nat>, dtarget: int)
      requires SameCode(code, view.code) && Chain(code, list, l) && ListOk(view.code, l)
      modifies `code, `view
      ensures SameCode(code, view.code)
      ensures view == old(view).(code := PatchList(old(view).code, l, vtarget, reg, dtarget))
      ensures forall j: nat {:trigger code[j]} :: j < |code| && Pending(old(view).code, j) && j !in l ==> code[j] == old(code)[j]
      ensures forall j <- l :: j < |code| && code[j] == view.code[j]
    {
      hide PatchList, PatchTest, FixJump, ListOk, SameCode, JumpsStay;
      ghost var start := view;
      ghost var i := 0;
      var node := list;
      assert l[0..] == l;
      NoneSame(code, view.code);
      while node != NO_JUMP
        invariant 0 <= i <= |l| && SameCode(code, view.code) && Chain(code, node, l[i..]) && ListOk(view.code, l[i..])
        invariant view == start.(code := view.code) && |view.code| == |start.code|
        invariant PatchList(view.code, l[i..], vtarget, reg, dtarget) == PatchList(start.code, l, vtarget, reg, dtarget)
        invariant |code| == |old(code)|
        invariant forall j: nat {:trigger code[j]} :: j < |code| && Pending(start.code, j) && j !in l ==> code[j] == old(code)[j] && Pending(view.code, j)
        invariant SameJumps(code, view.code, l[..i])
        decreases |l| - i
      {
        ghost var rest := l[i..];
        assert rest[0] == l[i] && l[i] in l && rest[1..] == l[i + 1..];
        ghost var before := view.code;
        PatchListStep(before, rest, vtarget, reg, dtarget);
        ghost var c := code;
        NotAgain(start.code, l, i);
        node := PatchJump(node, rest, vtarget, reg, dtarget);
        SameJumpsOn(c, before, code, view.code, l, i);
        forall j: nat | j < |code| && Pending(start.code, j) && j !in l ensures code[j] == c[j] && Pending(view.code, j) {
          assert c[j] == old(code)[j];
          assert Pending(before, j);
        }
        i := i + 1;
      }
      assert l[i..] == [] && l[..i] == l;
      PatchListNone(view.code, vtarget, reg, dtarget);
    }

    /** One round of `patchlistaux`. */
    method PatchJump(node: int, ghost l: seq<nat>, vtarget: int, reg: Option<nat>, dtarget: int) returns (next: int)
      requires SameCode(code, view.code) && l != [] && Chain(code, node, l) && ListOk(view.code, l)
      modifies `code, `view
      ensures SameCode(code, view.code) && Chain(code, next, l[1..]) && ListOk(view.code, l[1..]) && |code| == |old(code)|
      ensures view == old(view).(code := FixJump(PatchTest(old(view).code, l[0], reg), l[0],
                                                 if Valued(old(view).code, l[0]) then vtarget else dtarget))
      ensures forall j: nat {:trigger code[j]} :: j < |code| && Pending(old(view).code, j) && j != l[0] ==>
                code[j] == old(code)[j] && Pending(view.code, j)
      ensures JumpsStay(old(code), old(view).code, code, view.code, l[0]) && l[0] < |code| && code[l[0]].Jmp? && code[l[0]] == view.code[l[0]]
    {
      ghost var before := view.code;
      assert Pending(before, l[0]) by { assert l[0] in l; }
      next := GetJump(node);
      ghost var c0 := code;
      var valued := PatchTestReg(node, reg);
      var dest := if valued then vtarget else dtarget;
      code := code[node := Jmp(dest - (node + 1))];
      view := view.(code := FixJump(view.code, node, dest));
      RestKept(before, c0, view.code, code, next, l, vtarget, reg, dtarget);
      forall j: nat | j < |code| && Pending(before, j) && j != l[0] ensures code[j] == c0[j] && Pending(view.code, j) {
        assert c0[j] == c0[j];
      }
    }

    /** `need_value`. */
    method NeedsValue(list: int, ghost l: seq<nat>) returns (need: bool)
      requires SameCode(code, view.code) && Chain(code, list, l) && ListOk(view.code, l)
      ensures need == NeedValue(view.code, l)
    {
      ghost var i := 0;
      var node := list;
      assert l[0..] == l;
      while node != NO_JUMP
        invariant 0 <= i <= |l| && Chain(code, node, l[i..])
        invariant forall j <- l[..i] :: Valued(view.code, j)
        decreases |l| - i
      {
        assert l[i] in l && Pending(view.code, l[i]);
        assert l[i..][0] == l[i] && l[i..][1..] == l[i + 1..];
        if !(node >= 1 && code[node - 1].TestSet?) { return true; }
        assert l[..i + 1] == l[..i] + [l[i]];
        node := GetJump(node);
        i := i + 1;
      }
      assert l[..i] == l;
      need := false;
    }

    /** `removevalues`. */
    method StripValues(list: int, ghost l: seq<nat>)
      requires SameCode(code, view.code) && Chain(code, list, l) && ListOk(view.code, l)
      modifies `code, `view
      ensures SameCode(code, view.code) && view == old(view).(code := RemoveValues(old(view).code, l))
      ensures forall j: nat {:trigger code[j]} :: j < |code| && Pending(old(view).code, j) ==> code[j] == old(code)[j]
    {
      ghost var start := view;
      ghost var i := 0;
      var node := list;
      assert l[0..] == l;
      while node != NO_JUMP
        invariant 0 <= i <= |l| && SameCode(code, view.code) && Chain(code, node, l[i..]) && ListOk(view.code, l[i..])
        invariant view == start.(code := view.code) && |view.code| == |start.code|
        invariant RemoveValues(view.code, l[i..]) == RemoveValues(start.code, l)
        invariant forall j: nat :: j < |code| && Pending(start.code, j) ==> code[j] == old(code)[j] && Pending(view.code, j)
        decreases |l| - i
      {
        ghost var rest := l[i..];
        ghost var before := view.code;
        assert rest[0] == l[i] && rest[1..] == l[i + 1..] && Pending(before, l[i]) by { assert rest[0] in rest; }
        ghost var c0 := code;
        var patched := PatchTestReg(node, None);
        ChainMembers(c0, node, rest);
        forall j <- rest ensures code[j] == c0[j] && Pending(view.code, j) { assert Pending(before, j); }
        ChainKept(c0, code, node, rest);
        node := GetJump(node);
        i := i + 1;
      }
      assert l[i..] == [];
    }

    // ---- Emitting ---------------------------------------------------------

    /** `luaK_code`. */
    method Code(i: Instr) returns (pc: nat)
      requires Valid() && i != Jmp(NO_JUMP)
      modifies this
      ensures Valid() && view == Emit(old(view), i) && pc == |old(code)|
      ensures Untouched(old(code), old(view).code, code, Members(old(view).jpc))
    {
      ghost var s := view;
      EmitSpec(s, i);
      PatchListAux(jpc, view.jpc, |code|, None, |code|);
      ghost var c := code;
      jpc := NO_JUMP;
      pc := |code|;
      code := code + [i];
      view := Emit(s, i);
      assert view.code == PatchList(s.code, s.jpc, |s.code|, None, |s.code|) + [i];
    }

    /** `luaK_jump`: the new jump first, then those kept on hold. */
    method JumpAlways() returns (j: int)
      requires Valid()
      modifies this
      ensures Valid() && view == Jump(old(view)).0 && Chain(code, j, Jump(old(view)).1)
      ensures Untouched(old(code), old(view).code, code, {})
    {
      ghost var s := view;
      var held := jpc;
      jpc := NO_JUMP;
      var n := |code|;
      ghost var c0 := code;
      code := code + [Jmp(NO_JUMP)];
      view := Jump(s).0;
      ChainMembers(c0, held, s.jpc);
      ChainKept(c0, code, held, s.jpc);
      assert Pending(view.code, n);
      assert Next(code, n) == NO_JUMP && Chain(code, n, [n]) by { assert [n][1..] == []; }
      forall i <- s.jpc ensures i < n {}
      j := Concat(n, held, [n], s.jpc);
    }

    /** `luaK_patchtohere`. */
    method PatchToHere(list: int, ghost l: seq<nat>)
      requires Valid() && Chain(code, list, l) && ListOk(view.code, view.jpc + l) && Apart(view.jpc, l)
      modifies `code, `jpc, `view
      ensures Valid() && view == CodeGen.PatchToHere(old(view), l)
      ensures Untouched(old(code), old(view).code, code, Members(old(view).jpc))
    {
      jpc := Concat(jpc, list, view.jpc, l);
      view := CodeGen.PatchToHere(view, l);
    }

    // ---- Keeping the lists of an expression -------------------------------

    /** Emits `i`; the lists of the expression at hand are as before. */
    method CodeFor(i: Instr, e: ExpDesc, ghost g: Exp) returns (pc: nat)
      requires Valid() && Is(e, g) && ListsGood(view, g) && i != Jmp(NO_JUMP)
      modifies this
      ensures Valid() && view == Emit(old(view), i) && pc == |old(view).code|
      ensures Chain(code, e.t, g.t) && Chain(code, e.f, g.f)
      ensures Untouched(old(code), old(view).code, code, Members(old(view).jpc))
    {
      hide Emit, ListOk, Paired;
      ghost var c, v := code, view;
      pc := Code(i);
      KeptLists(c, v, code, Members(v.jpc), e.t, e.f, g);
    }

    /** `addk`. */
    method AddConstant(v: Value) returns (i: nat)
      requires Valid()
      modifies `k, `view
      ensures Valid() && (view, i) == AddK(old(view), v)
    {
      i := IndexOf(k, v);
      if i == |k| { k := k + [v]; }
      view := AddK(view, v).0;
    }

    method ReserveReg()
      requires Valid()
      modifies `freereg, `view
      ensures Valid() && view == CodeGen.ReserveReg(old(view))
    {
      freereg := freereg + 1;
      view := CodeGen.ReserveReg(view);
    }

    /** `freeexp`. */
    method FreeExp(kind: Kind, ghost g: Exp)
      requires Valid() && g.k == kind
      modifies `freereg, `view
      ensures Valid() && view == CodeGen.FreeExp(old(view), g)
    {
      if kind.VNonReloc? && kind.r >= nactvar && freereg > 0 { freereg := freereg - 1; }
      view := CodeGen.FreeExp(view, g);
    }

    // ---- Discharging ------------------------------------------------------

    /** `luaK_dischargevars`. */
    method DischargeVars(e: ExpDesc, ghost g: Exp) returns (r: ExpDesc)
      requires Valid() && Is(e, g) && ListsGood(view, g)
      modifies this
      ensures Valid() && view == CodeGen.DischargeVars(old(view), g).0 && Is(r, CodeGen.DischargeVars(old(view), g).1)
      ensures Untouched(old(code), old(view).code, code, Owned(old(view), g))
    {
      hide Emit, ListOk, Paired, Untouched, Owned;
      ghost var c, s := code, view;
      UntouchedSelf(c, s.code, Owned(s, g));
      r := e;
      match e.k
      case VLocal(x) => r := e.(k := VNonReloc(x));
      case VGlobal(x) =>
        var pc := CodeFor(GetGlobal(0, x), e, g);
        MembersOwned(s, g);
        UntouchedMore(c, s.code, code, Members(s.jpc), Owned(s, g));
        r := e.(k := VReloc(pc));
      case VCall(pc) =>
        CallKept(code, view.code, pc);
        r := e.(k := VNonReloc(if pc < |code| && code[pc].Call? then code[pc].a else 0));
      case _ =>
    }

    /** `discharge2reg`. */
    method DischargeTo(e: ExpDesc, ghost g: Exp, reg: nat) returns (r: ExpDesc)
      requires Valid() && Is(e, g) && Good(view, g)
      modifies this
      ensures Valid() && view == CodeGen.DischargeTo(old(view), g, reg).0 && Is(r, CodeGen.DischargeTo(old(view), g, reg).1)
      ensures Untouched(old(code), old(view).code, code, Owned(old(view), g))
    {
      hide Emit, ListOk, Paired, Untouched, ListsGood;
      ghost var c, v := code, view;
      r := e.(k := VNonReloc(reg));
      if e.k.VReloc? {
        Relocate(e.k.pc, reg, e, g);
        UntouchedMore(c, v.code, code, {}, Owned(v, g));
      } else if e.k.VJmp? || e.k == VNonReloc(reg) {
        if e.k.VJmp? { r := e; }
        UntouchedSelf(c, v.code, Owned(v, g));
      } else {
        LoadInto(e, g, reg);
        UntouchedMore(c, v.code, code, Members(v.jpc), Owned(v, g));
      }
    }

    /** The instruction that loads a literal or copies a register. */
    method LoadInto(e: ExpDesc, ghost g: Exp, reg: nat)
      requires Valid() && Is(e, g) && ListsGood(view, g) && Discharged(e.k)
      requires !e.k.VReloc? && !e.k.VJmp? && e.k != VNonReloc(reg)
      modifies this
      ensures Valid() && view == CodeGen.DischargeTo(old(view), g, reg).0
      ensures Chain(code, e.t, g.t) && Chain(code, e.f, g.f)
      ensures Untouched(old(code), old(view).code, code, Members(old(view).jpc))
    {
      hide Emit, ListOk, Paired, Untouched;
      var i: Instr;
      if e.k.VNil? { i := LoadNil(reg, reg); }
      else if e.k.VTrue? || e.k.VFalse? { i := LoadBool(reg, e.k.VTrue?, false); }
      else if e.k.VK? { i := LoadK(reg, e.k.i); }
      else if e.k.VKNum? {
        var n := AddConstant(Num(e.k.n));
        i := LoadK(reg, n);
      } else { i := Move(reg, e.k.r); }
      var pc := CodeFor(i, e, g);
    }

    method Relocate(pc: nat, reg: nat, e: ExpDesc, ghost g: Exp)
      requires Valid() && Is(e, g) && Good(view, g) && g.k == VReloc(pc)
      modifies `code, `view
      ensures Valid() && view == CodeGen.DischargeTo(old(view), g, reg).0
      ensures Chain(code, e.t, g.t) && Chain(code, e.f, g.f)
      ensures Untouched(old(code), old(view).code, code, {})
    {
      ghost var c, v := code, view;
      code := code[pc := SetA(code[pc], reg)];
      view := CodeGen.DischargeTo(view, g, reg).0;
      KeptLists(c, v, code, {}, e.t, e.f, g);
      ChainUntouched(c, v.code, code, {}, jpc, v.jpc);
    }

    method DischargeToAnyReg(e: ExpDesc, ghost g: Exp) returns (r: ExpDesc)
      requires Valid() && Is(e, g) && Good(view, g)
      modifies this
      ensures Valid() && view == CodeGen.DischargeToAnyReg(old(view), g).0 && Is(r, CodeGen.DischargeToAnyReg(old(view), g).1)
      ensures Untouched(old(code), old(view).code, code, Owned(old(view), g))
    {
      hide Emit, ListOk, Paired;
      r := e;
      if !e.k.VNonReloc? {
        var reg := freereg;
        ReserveReg();
        DischargeTwice(view, g);
        r := DischargeTo(e, g, reg);
      }
    }

    // ---- exp2reg ----------------------------------------------------------

    /** The two loads for exits without a value, and the jump over them. */
    method EmitLoads(e: ExpDesc, ghost g: Exp, reg: nat) returns (pf: nat)
      requires Valid() && Is(e, g) && Closing(view, g, reg)
      modifies this
      ensures Valid() && (view, pf as int) == Loaders(old(view), g, reg)
      ensures Chain(code, e.t, g.t) && Chain(code, e.f, g.f)
      ensures Untouched(old(code), old(view).code, code, Members(old(view).jpc))
    {
      hide Emit, Paired, Untouched, ListOk, Since, SameList, Pending;
      ghost var c, s := code, view;
      ghost var h := g.(k := VNonReloc(reg));
      var e1 := e.(k := VNonReloc(reg));
      UntouchedSelf(c, s.code, {});
      var fj := NO_JUMP;
      ghost var l: seq<nat> := [];
      if !e.k.VJmp? {
        JumpGood(s, h);
        fj := JumpAlways();
        l := Jump(s).1;
        KeptLists(c, s, code, {}, e.t, e.f, g);
        PendingMore(s.code, [Jmp(NO_JUMP)]);
      } else {
        NoList(s.code);
      }
      ghost var c1, s1 := code, view;
      LoadSteps(s1, h, l, reg);
      pf := CodeFor(LoadBool(reg, false, true), e1, h);
      ghost var c2, s2 := code, view;
      NoMembers(s1.jpc);
      ChainUntouched(c1, s1.code, code, {}, fj, l);
      UntouchedOn(c, s.code, c1, s1.code, c2, {});
      var pt := CodeFor(LoadBool(reg, true, false), e1, h);
      ghost var c3, s3 := code, view;
      NoMembers(s2.jpc);
      ChainUntouched(c2, s2.code, code, {}, fj, l);
      UntouchedOn(c, s.code, c2, s2.code, c3, {});
      NoMembers(s3.jpc);
      assert s3.jpc + l == l;
      PatchToHere(fj, l);
      UntouchedOn(c, s.code, c3, s3.code, code, {});
      KeptLists(c3, s3, code, {}, e.t, e.f, h);
      UntouchedMore(c, s.code, code, {}, Members(s.jpc));
    }

    /** The rest of `exp2reg`. */
    method CloseJumps(e: ExpDesc, ghost g: Exp, reg: nat)
      requires Valid() && Is(e, g) && Closing(view, g, reg)
      modifies this
      ensures Valid() && view == CodeGen.CloseJumps(old(view), g, reg)
      ensures Untouched(old(code), old(view).code, code, Owned(old(view), g))
    {
      hide Emit, Paired, Untouched, ListOk, Since, SameList, PatchList, CodeGen.CloseJumps, Loaders, NeedValue, Owned;
      ghost var c, s := code, view;
      CloseForm(s, g, reg);
      UntouchedSelf(c, s.code, Owned(s, g));
      SameHeads(c, e.t, g.t, e.f, g.f);
      if e.t == e.f { return; }
      var need := NeedsValue(e.t, g.t);
      if !need { need := NeedsValue(e.f, g.f); }
      var pf, pt := NO_JUMP, NO_JUMP;
      ghost var u := s;
      if need {
        LoadersGood(s, g, reg);
        pf := EmitLoads(e, g, reg);
        pt := pf + 1;
        u := view;
        PendingSince(s, g.(k := VNonReloc(reg)), u, g.(k := VNonReloc(reg)));
        JoinedOwned(s, g, reg);
        MembersOwned(s, g);
        UntouchedMore(c, s.code, code, Members(s.jpc), Owned(s, g));
      }
      ghost var c1 := code;
      SendExits(e, g, reg, pf, pt);
      CloseFrame(c, s, c1, u, code, g);
    }

    /** `patchlistaux` on one list of an expression; another one waits. */
    method SendList(list: int, ghost l: seq<nat>, other: int, ghost m: seq<nat>, reg: nat, target: int)
      requires Valid() && Chain(code, list, l) && Chain(code, other, m) && ListOk(view.code, l) && ListOk(view.code, m)
      requires Apart(m, l) && Apart(view.jpc, l)
      modifies `code, `view
      ensures Valid() && view == old(view).(code := PatchList(old(view).code, l, |old(view).code|, Some(reg), target))
      ensures Chain(code, other, m) && ListOk(view.code, m) && |code| == |old(code)|
      ensures forall j: nat {:trigger code[j]} :: j < |code| && Pending(old(view).code, j) && j !in l ==>
                code[j] == old(code)[j] && Pending(view.code, j)
    {
      hide PatchList, Chain, Patched, ListOk;
      ghost var c, v := code, view.code;
      var final := |code|;
      PatchListSpec(v, l, final, Some(reg), target);
      PatchListAux(list, l, final, Some(reg), target);
      PatchedApart(v, view.code, l, final, Some(reg), target, m);
      PatchedApart(v, view.code, l, final, Some(reg), target, view.jpc);
      KeptOutside(c, v, code, l, other, m);
      KeptOutside(c, v, code, l, jpc, view.jpc);
      PendingOutside(v, view.code, l, final, Some(reg), target);
    }

    /** `patchlistaux` on both lists. */
    method SendExits(e: ExpDesc, ghost g: Exp, reg: nat, pf: int, pt: int)
      requires Valid() && Chain(code, e.t, g.t) && Chain(code, e.f, g.f) && ListsGood(view, g)
      modifies this
      ensures Valid() && view == PatchExits(old(view), g, reg, pf, pt)
      ensures forall j: nat {:trigger code[j]} :: j < |code| && Pending(old(view).code, j) && j !in g.f && j !in g.t ==> code[j] == old(code)[j]
      ensures |code| == |old(code)|
    {
      hide PatchList, Paired, ListOk, Chain;
      ghost var c, v := code, view.code;
      SendList(e.f, g.f, e.t, g.t, reg, pf);
      ghost var c1, v1 := code, view.code;
      Empty(c1, v1);
      SendList(e.t, g.t, NO_JUMP, [], reg, pt);
      forall j: nat | j < |code| && Pending(v, j) && j !in g.f && j !in g.t ensures code[j] == c[j] {
        assert c1[j] == c[j] && Pending(v1, j);
      }
    }

    /** `exp2reg`, on an expression already discharged. */
    method ExpToReg(e: ExpDesc, ghost g: Exp, reg: nat) returns (r: ExpDesc)
      requires Valid() && Is(e, g) && Good(view, g)
      modifies this
      ensures Valid() && view == CodeGen.ExpToReg(old(view), g, reg).0 && Is(r, CodeGen.ExpToReg(old(view), g, reg).1)
      ensures Untouched(old(code), old(view).code, code, Owned(old(view), g))
    {
      hide Emit, Paired, Untouched, ListOk, Since, SameList, CodeGen.CloseJumps, Owned;
      ghost var c, s := code, view;
      DischargeTwice(s, g);
      r := ExpDesc(VNonReloc(reg), NO_JUMP, NO_JUMP);
      if e.k.VJmp? {
        JoinedClosing(s, g, reg);
        var e1 := JoinJump(e, g);
        ghost var c1 := code;
        CloseJumps(e1, Joined(g), reg);
        JumpFrame(c, s, c1, code, g);
      } else {
        DischargeGood(s, g, reg);
        var e1 := DischargeTo(e, g, reg);
        ghost var c1, s1 := code, view;
        ghost var g1 := CodeGen.DischargeTo(s, g, reg).1;
        CloseJumps(e1, g1, reg);
        PendingSince(s, g, s1, g1);
        UntouchedThen(c, s, c1, s1, code, g, g1);
      }
    }

    /** The jump of a comparison joins the true exits. */
    method JoinJump(e: ExpDesc, ghost g: Exp) returns (r: ExpDesc)
      requires Valid() && Is(e, g) && Good(view, g) && e.k.VJmp?
      modifies `code
      ensures Valid() && r.k == g.k && Chain(code, r.t, g.t + [g.k.pc]) && Chain(code, r.f, g.f)
      ensures Chain(code, r.k.pc, [r.k.pc])
      ensures |code| == |old(code)| && forall j: nat {:trigger code[j]} :: j < |code| && j !in g.t ==> code[j] == old(code)[j]
    {
      ghost var c := code;
      var l := Concat(e.t, e.k.pc, g.t, [e.k.pc]);
      r := e.(t := l);
      KeptOutside(c, view.code, code, g.t, e.f, g.f);
      KeptOutside(c, view.code, code, g.t, e.k.pc, [e.k.pc]);
      KeptOutside(c, view.code, code, g.t, jpc, view.jpc);
    }

    /** `luaK_exp2nextreg`. */
    method ExpToNextReg(e: ExpDesc, ghost g: Exp) returns (r: ExpDesc)
      requires Valid() && Is(e, g) && Usable(view, g)
      modifies this
      ensures Valid() && view == CodeGen.ExpToNextReg(old(view), g).0 && Is(r, CodeGen.ExpToNextReg(old(view), g).1)
      ensures Untouched(old(code), old(view).code, code, Owned(old(view), g))
    {
      hide Emit, Paired, Untouched, ListOk, Since, ListsGood, CodeGen.ExpToReg, Owned, CodeGen.DischargeVars;
      ghost var c, s := code, view;
      UsableLists(s, g);
      var e1 := DischargeVars(e, g);
      ghost var (s1, g1) := CodeGen.DischargeVars(s, g);
      ghost var c1 := code;
      FreeExp(e1.k, g1);
      var reg := freereg;
      ReserveReg();
      FreedGood(s1, g1);
      r := ExpToReg(e1, g1, reg);
      UsableThen(c, s, g, c1, s1, g1, code);
    }

    /** `luaK_exp2anyreg`. */
    method ExpToAnyReg(e: ExpDesc, ghost g: Exp) returns (r: ExpDesc)
      requires Valid() && Is(e, g) && (Usable(view, g) || InRegister(view, g))
      modifies this
      ensures Valid() && view == CodeGen.ExpToAnyReg(old(view), g).0 && Is(r, CodeGen.ExpToAnyReg(old(view), g).1)
      ensures Untouched(old(code), old(view).code, code, Owned(old(view), g))
    {
      hide Emit, Paired, Untouched, ListOk, Since, ListsGood, CodeGen.ExpToReg, CodeGen.ExpToNextReg, Owned, CodeGen.DischargeVars;
      ghost var c, s := code, view;
      if InRegister(s, g) { RegisterLists(s, g); } else { UsableLists(s, g); }
      r := DischargeVars(e, g);
      ghost var (s1, g1) := CodeGen.DischargeVars(s, g);
      ghost var c1 := code;
      SameHeads(code, r.t, g1.t, r.f, g1.f) by { DischargedApart(s, g); }
      if r.k.VNonReloc? && r.t == r.f { return; }
      InRegisterForm(s, g);
      if r.k.VNonReloc? && r.k.r >= nactvar {
        r := ExpToReg(r, g1, r.k.r);
      } else {
        UsableAgain(s, g);
        r := ExpToNextReg(r, g1);
      }
      UsableThen(c, s, g, c1, s1, g1, code);
    }

    /** `luaK_exp2val`. */
    method ExpToVal(e: ExpDesc, ghost g: Exp) returns (r: ExpDesc)
      requires Valid() && Is(e, g) && (Usable(view, g) || Placed(view, g))
      modifies this
      ensures Valid() && view == CodeGen.ExpToVal(old(view), g).0 && Is(r, CodeGen.ExpToVal(old(view), g).1)
      ensures Untouched(old(code), old(view).code, code, Owned(old(view), g))
    {
      hide Emit, Paired, Untouched, ListOk, Since, ListsGood, CodeGen.ExpToAnyReg, Owned, CodeGen.DischargeVars;
      if Placed(view, g) { PlacedLists(view, g); } else { UsableLists(view, g); }
      SameHeads(code, e.t, g.t, e.f, g.f) by { DischargedApart(view, g); }
      if e.t != e.f { r := ExpToAnyReg(e, g); } else { r := DischargeVars(e, g); }
    }

    /** `luaK_exp2RK`. */
    method ExpToRk(e: ExpDesc, ghost g: Exp) returns (r: ExpDesc)
      requires Valid() && Is(e, g) && (Usable(view, g) || Placed(view, g))
      modifies this
      ensures Valid() && view == CodeGen.ExpToRk(old(view), g).0 && Is(r, CodeGen.ExpToRk(old(view), g).1)
      ensures Untouched(old(code), old(view).code, code, Owned(old(view), g))
    {
      hide Emit, Paired, Untouched, ListOk, Since, ListsGood, CodeGen.ExpToAnyReg, CodeGen.ExpToVal, Owned, CodeGen.DischargeVars;
      ghost var c, s := code, view;
      if Placed(s, g) { PlacedVal(s, g); } else { ValUsable(s, g); }
      r := ExpToVal(e, g);
      ghost var (s1, g1) := CodeGen.ExpToVal(s, g);
      ghost var c1 := code;
      if (r.k.VNil? || r.k.VTrue? || r.k.VFalse? || r.k.VKNum?) && |k| <= MAXINDEXRK {
        var v := LiteralValue(r.k);
        var i := AddConstant(v);
        r := r.(k := VK(i));
      } else if !(r.k.VK? && r.k.i <= MAXINDEXRK) {
        r := ExpToAnyReg(r, g1);
        if Placed(s, g) { PlacedThen(c, s, g, c1, code); } else { ValThen(c, s, g, c1, code); }
      }
    }

    // ---- Tests ------------------------------------------------------------

    /** `invertjump`. */
    method InvertJump(e: ExpDesc, ghost g: Exp)
      requires Valid() && Is(e, g) && Good(view, g) && e.k.VJmp?
      modifies `code, `view
      ensures Valid() && view == CodeGen.InvertJump(old(view), g.k.pc) && Is(e, g)
      ensures Untouched(old(code), old(view).code, code, {})
    {
      ghost var c, s := code, view;
      var pc := e.k.pc;
      code := code[pc - 1 := code[pc - 1].(cond := !code[pc - 1].cond)];
      view := CodeGen.InvertJump(view, pc);
      KeptLists(c, s, code, {}, e.t, e.f, g);
      ChainUntouched(c, s.code, code, {}, jpc, s.jpc);
      ChainUntouched(c, s.code, code, {}, pc, [pc]);
    }

    /** A test and its jump. */
    method CondJump(i: Instr, e: ExpDesc, ghost g: Exp) returns (j: int)
      requires Valid() && Chain(code, e.t, g.t) && Chain(code, e.f, g.f) && ListsGood(view, g) && Inert(g.k) && IsTest(i)
      modifies this
      ensures Valid() && view == CodeGen.CondJump(old(view), i).0 && Chain(code, j, CodeGen.CondJump(old(view), i).1)
      ensures Chain(code, e.t, g.t) && Chain(code, e.f, g.f)
      ensures Untouched(old(code), old(view).code, code, Members(old(view).jpc))
    {
      hide Emit, Paired, Untouched, ListOk, Since, SameList;
      ghost var c, s := code, view;
      var pc := Code(i);
      ghost var c1, s1 := code, view;
      EmitPending(s, i);
      j := JumpAlways();
      CondFrame(c, s, c1, s1, code);
      KeptLists(c, s, code, Members(s.jpc), e.t, e.f, g);
    }

    /** `jumponcond`. */
    method JumpOnCond(e: ExpDesc, ghost g: Exp, cond: bool) returns (j: int)
      requires Valid() && Is(e, g) && Good(view, g) && !e.k.VJmp?
      modifies this
      ensures Valid() && view == CodeGen.JumpOnCond(old(view), g, cond).0 && Chain(code, j, CodeGen.JumpOnCond(old(view), g, cond).1)
      ensures Chain(code, e.t, g.t) && Chain(code, e.f, g.f)
      ensures Untouched(old(code), old(view).code, code, Owned(old(view), g))
    {
      hide Emit, Paired, Untouched, ListOk, Since, SameList, CodeGen.CondJump, Owned;
      ghost var c, s := code, view;
      if e.k.VReloc? && code[e.k.pc].Not? {
        j := PopNot(e, g, cond);
      } else {
        ghost var shape := AnyShape(s, g);
        AnyGood(s, g);
        var r := DischargeToAnyReg(e, g);
        ghost var (s1, f) := CodeGen.DischargeToAnyReg(s, g);
        ghost var c1 := code;
        FreeExp(r.k, f);
        ghost var u := view;
        j := CondJump(TestSet(NO_REG, r.k.r, cond), r, f);
        AnyFrame(c, s, g, c1, u, f, code);
      }
    }

    /** `not x` is tested by testing `x`. */
    method PopNot(e: ExpDesc, ghost g: Exp, cond: bool) returns (j: int)
      requires Valid() && Is(e, g) && Good(view, g) && e.k.VReloc? && code[e.k.pc].Not?
      modifies this
      ensures Valid() && view == CodeGen.JumpOnCond(old(view), g, cond).0 && Chain(code, j, CodeGen.JumpOnCond(old(view), g, cond).1)
      ensures Chain(code, e.t, g.t) && Chain(code, e.f, g.f)
      ensures Untouched(old(code), old(view).code, code, Owned(old(view), g))
    {
      hide Emit, Paired, ListOk, Since, SameList, CodeGen.CondJump, Owned;
      ghost var c, s := code, view;
      var i := code[e.k.pc];
      PoppedGood(s, g);
      code := code[..|code| - 1];
      view := Popped(view);
      ghost var c1 := code;
      PopKept(c, s, c1, e.t, e.f, g);
      j := CondJump(Test(i.b, !cond), e.(k := VTrue), g.(k := VTrue));
      PopFrame(c, s, c1, code, g);
    }

    // ---- luaK_goiftrue, luaK_goiffalse, codenot ---------------------------

    /** The jump taken when the expression does not have the truth value. */
    method TestJump(e: ExpDesc, ghost g: Exp, truth: bool) returns (pc: int)
      requires Valid() && Is(e, g) && Good(view, g)
      modifies this
      ensures Valid() && view == Tested(old(view), g, truth).0 && Chain(code, pc, Tested(old(view), g, truth).1)
      ensures Chain(code, e.t, g.t) && Chain(code, e.f, g.f)
      ensures Untouched(old(code), old(view).code, code, Owned(old(view), g))
    {
      hide Emit, Paired, Untouched, ListOk, Since, SameList, Owned, CodeGen.JumpOnCond;
      ghost var c, s := code, view;
      UntouchedSelf(c, s.code, Owned(s, g));
      pc := NO_JUMP;
      if SureKind(e.k, truth) {
        return;
      } else if e.k == (if truth then VFalse else VTrue) {
        pc := JumpAlways();
        NoneOwned(s, g);
        UntouchedMore(c, s.code, code, {}, Owned(s, g));
        KeptLists(c, s, code, {}, e.t, e.f, g);
      } else if e.k.VJmp? {
        if truth {
          InvertJump(e, g);
          NoneOwned(s, g);
          UntouchedMore(c, s.code, code, {}, Owned(s, g));
        }
        pc := e.k.pc;
      } else {
        pc := JumpOnCond(e, g, !truth);
      }
    }

    /** `luaK_goiftrue` and `luaK_goiffalse`. */
    method GoIf(e: ExpDesc, ghost g: Exp, truth: bool, ghost shape: Shape) returns (r: ExpDesc)
      requires Valid() && Is(e, g) && Usable(view, g)
      requires var (t, f) := CodeGen.DischargeVars(view, g); ShapeIs(t, f.k, shape)
      modifies this
      ensures Valid() && view == CodeGen.GoIf(old(view), g, truth).0
      ensures var f := CodeGen.GoIf(old(view), g, truth).1; Chain(code, r.t, f.t) && Chain(code, r.f, f.f)
      ensures Untouched(old(code), old(view).code, code, Owned(old(view), g))
    {
      hide Emit, Paired, Untouched, ListOk, Since, Owned, Tested, CodeGen.DischargeVars, CodeGen.GoIf;
      ghost var c, s := code, view;
      UsableLists(s, g);
      r := DischargeVars(e, g);
      ghost var (s1, g1) := CodeGen.DischargeVars(s, g);
      ghost var c1 := code;
      GoIfBoth(s, g, truth);
      TestedGood(s1, g1, truth, shape);
      var pc := TestJump(r, g1, truth);
      ghost var (s2, l) := Tested(s1, g1, truth);
      ghost var c2 := code;
      JoinApart(s2, g1, truth, l);
      var leave := Concat(if truth then r.f else r.t, pc, ListOf(g1, !truth), l);
      ghost var c3 := code;
      var stay := if truth then r.t else r.f;
      KeptOutside(c2, s2.code, c3, ListOf(g1, !truth), stay, ListOf(g1, truth));
      KeptOutside(c2, s2.code, c3, ListOf(g1, !truth), jpc, s2.jpc);
      PatchToHere(stay, ListOf(g1, truth));
      ChainUntouched(c3, s2.code, code, Members(s2.jpc), leave, ListOf(g1, !truth) + l);
      GoFrame(c, s, g, c1, s1, g1, c2, s2, c3, code, truth, l);
      r := if truth then ExpDesc(r.k, NO_JUMP, leave) else ExpDesc(r.k, leave, NO_JUMP);
    }

    /** `codenot` before the values are taken away. */
    method Negate(e: ExpDesc, ghost g: Exp, ghost shape: Shape) returns (k: Kind)
      requires Valid() && Is(e, g) && Good(view, g) && Base(view, g) >= view.nactvar && ShapeIs(view, g.k, shape)
      modifies this
      ensures Valid() && view == Negated(old(view), g).0 && k == Negated(old(view), g).1
      ensures Chain(code, e.t, g.t) && Chain(code, e.f, g.f) && (k.VJmp? ==> Chain(code, k.pc, [k.pc]))
      ensures Untouched(old(code), old(view).code, code, Owned(old(view), g))
    {
      hide Emit, Paired, Untouched, ListOk, Since, SameList, Owned, CodeGen.DischargeToAnyReg;
      ghost var c, s := code, view;
      UntouchedSelf(c, s.code, Owned(s, g));
      if e.k.VNil? || e.k.VFalse? {
        k := VTrue;
      } else if e.k.VK? || e.k.VKNum? || e.k.VTrue? {
        k := VFalse;
      } else if e.k.VJmp? {
        InvertJump(e, g);
        NoneOwned(s, g);
        UntouchedMore(c, s.code, code, {}, Owned(s, g));
        k := e.k;
      } else {
        AnyRegGood(s, g, shape);
        var r := DischargeToAnyReg(e, g);
        ghost var f := CodeGen.DischargeToAnyReg(s, g).1;
        ghost var c1 := code;
        FreeExp(r.k, f);
        ghost var u := view;
        var pc := CodeFor(Not(0, r.k.r), r, f);
        AnyFrame(c, s, g, c1, u, f, code);
        k := VReloc(pc);
      }
    }

    /** `codenot`. */
    method CodeNot(e: ExpDesc, ghost g: Exp, ghost shape: Shape) returns (r: ExpDesc)
      requires Valid() && Is(e, g) && Usable(view, g)
      requires var (t, f) := CodeGen.DischargeVars(view, g); ShapeIs(t, f.k, shape)
      modifies this
      ensures Valid() && view == CodeGen.CodeNot(old(view), g).0 && Is(r, CodeGen.CodeNot(old(view), g).1)
      ensures Untouched(old(code), old(view).code, code, Owned(old(view), g))
    {
      hide Emit, Paired, Untouched, ListOk, Since, Owned, Negated, CodeGen.DischargeVars, CodeGen.CodeNot, RemoveValues, ShapeIs, SameList;
      ghost var c, s := code, view;
      UsableLists(s, g);
      r := DischargeVars(e, g);
      ghost var (s1, g1) := CodeGen.DischargeVars(s, g);
      ghost var c1 := code;
      NotDischarged(s, g);
      CodeNotForm(s1, g1);
      NegatedGood(s1, g1, shape);
      var k := Negate(r, g1, shape);
      ghost var c2, s2 := code, view;
      StrippedGood(s2, k, g1.t, g1.f);
      Strip(r, g1, k);
      NotFrame(c, s, g, c1, s1, g1, c2, s2, code);
      r := ExpDesc(k, r.f, r.t);
    }

    /** Takes the values from both lists. */
    method Strip(e: ExpDesc, ghost g: Exp, k: Kind)
      requires Valid() && Chain(code, e.t, g.t) && Chain(code, e.f, g.f) && ListsGood(view, g)
      requires k.VJmp? ==> Chain(code, k.pc, [k.pc]) && Pending(view.code, k.pc)
      modifies this
      ensures Valid() && view == Stripped(old(view), g)
      ensures Chain(code, e.t, g.t) && Chain(code, e.f, g.f) && (k.VJmp? ==> Chain(code, k.pc, [k.pc]))
      ensures Untouched(old(code), old(view).code, code, {})
    {
      hide Paired, RemoveValues;
      ghost var c, s := code, view;
      StripValues(e.t, g.t);
      ghost var c1, s1 := code, view;
      RemoveValuesSpec(s.code, g.t);
      RemovedFits(s.code, s1.code, g.t);
      KeptAll(c, s.code, c1, e.t, g.t);
      KeptAll(c, s.code, c1, e.f, g.f);
      KeptAll(c, s.code, c1, jpc, s.jpc);
      StripValues(e.f, g.f);
      RemoveValuesSpec(s1.code, g.f);
      RemovedFits(s1.code, view.code, g.f);
      KeptAll(c1, s1.code, code, e.t, g.t);
      KeptAll(c1, s1.code, code, e.f, g.f);
      KeptAll(c1, s1.code, code, jpc, s.jpc);
      StripPending(s.code, s1.code, g.t);
      if k.VJmp? {
        KeptAll(c, s.code, c1, k.pc, [k.pc]) by { OneList(s.code, k.pc); }
        KeptAll(c1, s1.code, code, k.pc, [k.pc]) by { OneList(s1.code, k.pc); }
      }
    }

    // ---- Operators --------------------------------------------------------

    /** `codecomp`; the first operand is in place. */
    method CodeComp(op: CompareOp, e1: ExpDesc, e2: ExpDesc, ghost g1: Exp, ghost g2: Exp) returns (r: ExpDesc)
      requires Valid() && Is(e1, g1) && Placed(view, g1) && Is(e2, g2) && Usable(view, g2) && RoomFor(view, g1, g2)
      modifies this
      ensures Valid() && view == CodeGen.CodeComp(old(view), op, g1, g2).0 && Is(r, CodeGen.CodeComp(old(view), op, g1, g2).1)
      ensures Untouched(old(code), old(view).code, code, Owned(old(view), g2))
    {
      hide Emit, Paired, Untouched, ListOk, Since, Owned, CodeGen.ExpToRk, CodeGen.CondJump, Usable, CodeGen.InvertJump;
      ghost var c, s := code, view;
      PlacedRk(s, g1);
      var a := PlaceFirst(e1, g1, e2, g2);
      ghost var ca := code;
      var b := ExpToRk(e2, g2);
      ghost var (s2, b2) := CodeGen.ExpToRk(s, g2);
      ghost var c2 := code;
      RkReady(s, g2);
      FreeExp(b.k, b2);
      FreeExp(a.k, g1);
      ghost var u := view;
      FreeReady(s, g2, g1);
      var i := CompareInstr(op, RkOf(Exp(a.k, [], [])), RkOf(Exp(b.k, [], [])));
      var j := CondJump(i, ExpDesc(VTrue, NO_JUMP, NO_JUMP), Nothing);
      CompFrame(c, s, g2, ca, c2, s2, u, code);
      CondJumpAt(u, i);
      r := ExpDesc(VJmp(j), NO_JUMP, NO_JUMP);
    }

    /** The operand is there already; the lists of the other one are not touched. */
    method PlaceFirst(e1: ExpDesc, ghost g1: Exp, e2: ExpDesc, ghost g2: Exp) returns (a: ExpDesc)
      requires Valid() && Is(e1, g1) && Placed(view, g1) && Is(e2, g2) && Usable(view, g2)
      modifies this
      ensures Valid() && view == old(view) && Is(a, g1) && Is(e2, g2)
      ensures Untouched(old(code), old(view).code, code, Members(old(view).jpc))
    {
      hide Emit, Paired, Untouched, ListOk, Since, CodeGen.ExpToRk;
      ghost var c, s := code, view;
      PlacedRk(s, g1);
      a := ExpToRk(e1, g1);
      PlacedOwned(s, g1);
      UsableLists(s, g2);
      KeptLists(c, s, code, Members(s.jpc), e2.t, e2.f, g2);
      if e2.k.VJmp? { JumpKept(c, s, code, g2); }
    }

    /** `subexpr` over a whole tree, with `luaK_infix` and `luaK_posfix`. */
    method Expression(e: Expr) returns (r: ExpDesc)
      requires Valid() && Ready(view) && LocalsBelow(e, view.nactvar)
      modifies this
      ensures Valid() && view == Gen(old(view), e).0 && Is(r, Gen(old(view), e).1)
      ensures Untouched(old(code), old(view).code, code, Members(old(view).jpc))
      decreases e, 1
    {
      hide Emit, Paired, Untouched, ListOk, Since, Owned, Usable, CodeGen.CodeNot, CodeGen.GoIf, CodeGen.ExpToNextReg, CodeGen.CodeComp, CodeGen.ExpToRk;
      ghost var c, s := code, view;
      UntouchedSelf(c, s.code, Members(s.jpc));
      match e
      case ENil => r := ExpDesc(VNil, NO_JUMP, NO_JUMP);
      case ETrue => r := ExpDesc(VTrue, NO_JUMP, NO_JUMP);
      case EFalse => r := ExpDesc(VFalse, NO_JUMP, NO_JUMP);
      case ENum(n) => r := ExpDesc(VKNum(n), NO_JUMP, NO_JUMP);
      case EStr(x) =>
        var i := AddConstant(Str(x));
        r := ExpDesc(VK(i), NO_JUMP, NO_JUMP);
      case ELocal(x) => r := ExpDesc(VLocal(x), NO_JUMP, NO_JUMP);
      case EGlobal(x) => r := ExpDesc(VGlobal(x), NO_JUMP, NO_JUMP);
      case ECall(x) => r := CallExpression(x);
      case ENot(a) =>
        var r1 := Expression(a);
        ghost var (s1, g1) := Gen(s, a);
        ghost var c1 := code;
        GenUsable(s, a);
        r := CodeNot(r1, g1, ShapeOf(a));
        GenThen(c, s, a, c1, code);
      case ELogic(op, a, b) => r := LogicExpression(op, a, b);
      case ECompare(op, a, b) =>
        var r1 := Expression(a);
        ghost var (s1, g1) := Gen(s, a);
        ghost var c1 := code;
        GenUsable(s, a);
        var r2 := ExpToRk(r1, g1);
        ghost var (s2, g2) := CodeGen.ExpToRk(s1, g1);
        ghost var c2 := code;
        GenThen(c, s, a, c1, c2);
        GenPlaced(s, a, b);
        var r3 := Expression(b);
        ghost var (s3, g3) := Gen(s2, b);
        ghost var c3 := code;
        GenUsable(s2, b);
        r := CodeComp(op, r2, r3, g2, g3);
        GenThen(c2, s2, b, c3, code);
        OperandThen(c, s, a, c2, code);
    }

    method CallExpression(g: nat) returns (r: ExpDesc)
      requires Valid() && Ready(view)
      modifies this
      ensures Valid() && view == Gen(old(view), ECall(g)).0 && Is(r, Gen(old(view), ECall(g)).1)
      ensures Untouched(old(code), old(view).code, code, Members(old(view).jpc))
    {
      hide Emit, Paired, Untouched, ListOk, Since, Owned, CodeGen.ExpToNextReg;
      ghost var c, s := code, view;
      ghost var f := Exp(VGlobal(g), [], []);
      GlobalUsable(s, g);
      var base := freereg;
      var r1 := ExpToNextReg(ExpDesc(VGlobal(g), NO_JUMP, NO_JUMP), f);
      ghost var c1, s1 := code, view;
      GlobalOwned(s, g);
      var pc := Code(CodeVm.Call(base));
      GlobalCallFrame(c, s, g, c1, s1, code);
      freereg := base + 1;
      view := view.(freereg := base + 1);
      r := ExpDesc(VCall(pc), NO_JUMP, NO_JUMP);
    }

    /** A whole expression, into the next register: the code of `ValueCode`, which
        theorem `ValueCorrect` is about. */
    method ExpressionToNextReg(e: Expr) returns (reg: nat)
      requires Valid() && Ready(view) && LocalsBelow(e, view.nactvar)
      modifies this
      ensures Valid() && view == ValueCode(old(view), e) && reg == old(view).freereg
      ensures Untouched(old(code), old(view).code, code, Members(old(view).jpc))
    {
      hide Emit, Paired, Untouched, ListOk, Since, Owned, Usable, CodeGen.ExpToNextReg, Gen;
      ghost var c, s := code, view;
      var r := Expression(e);
      ghost var (s1, g1) := Gen(s, e);
      ghost var c1 := code;
      GenUsable(s, e);
      UsableLists(s1, g1);
      var q := ExpToNextReg(r, g1);
      GenThen(c, s, e, c1, code);
      NextRegKind(s1, g1, s.freereg);
      reg := q.k.r;
    }

    /** A whole condition: the code of `TestCode`, which theorem `ConditionCorrect`
        is about, and the list of the jumps that leave it. */
    method Condition(e: Expr, truth: bool) returns (exits: int)
      requires Valid() && Ready(view) && LocalsBelow(e, view.nactvar)
      modifies this
      ensures Valid() && view == TestCode(old(view), e, truth).0
      ensures Chain(code, exits, ListOf(TestCode(old(view), e, truth).1, !truth))
    {
      hide Emit, Paired, Untouched, ListOk, Since, Owned, Usable, CodeGen.GoIf, Gen;
      ghost var s := view;
      var r := Expression(e);
      GenUsable(s, e);
      var q := GoIf(r, Gen(s, e).1, truth, ShapeOf(e));
      exits := if truth then q.f else q.t;
    }

    /** `and`, `or`: the jumps of the first operand wait for those of the second. */
    method LogicExpression(op: bool, a: Expr, b: Expr) returns (r: ExpDesc)
      requires Valid() && Ready(view) && LocalsBelow(ELogic(op, a, b), view.nactvar)
      modifies this
      ensures Valid() && view == Gen(old(view), ELogic(op, a, b)).0 && Is(r, Gen(old(view), ELogic(op, a, b)).1)
      ensures Untouched(old(code), old(view).code, code, Members(old(view).jpc))
      decreases ELogic(op, a, b), 0
    {
      hide Emit, Paired, Untouched, ListOk, Since, Owned, Usable, CodeGen.GoIf, CodeGen.DischargeVars, Gen, ListsGood, KindGood, Chain;
      LogicGen(view, op, a, b);
      ghost var c, s := code, view;
      var r1 := Expression(a);
      ghost var (s1, g1) := Gen(s, a);
      ghost var c1 := code;
      GenUsable(s, a);
      var r2 := GoIf(r1, g1, op, ShapeOf(a));
      ghost var (s2, g2) := CodeGen.GoIf(s1, g1, op);
      ghost var c2 := code;
      GenThen(c, s, a, c1, c2);
      GenTested(s, op, a, b);
      var r3 := Expression(b);
      ghost var (s3, g3) := Gen(s2, b);
      ghost var c3 := code;
      GenUsable(s2, b);
      var first := if op then r2.f else r2.t;
      ghost var l := ListOf(g2, !op);
      GenWaits(s, op, a, b);
      ChainUntouched(c2, s2.code, c3, Members(s2.jpc), first, l);
      UsableLists(s3, g3);
      r := DischargeVars(r3, g3);
      ghost var (s4, g4) := CodeGen.DischargeVars(s3, g3);
      ghost var c4 := code;
      ChainUntouched(c3, s3.code, c4, Owned(s3, g3), first, l);
      r := JoinOperands(op, r, g4, first, l);
      LogicFrame(c, s, op, a, b, c2, c3, c4, code);
    }

    /** `luaK_posfix` for `and` and `or`. */
    method JoinOperands(op: bool, e: ExpDesc, ghost g: Exp, first: int, ghost l: seq<nat>) returns (r: ExpDesc)
      requires Valid() && Is(e, g) && ListsGood(view, g) && KindGood(view, g) && Chain(code, first, l) && Apart(ListOf(g, !op), l)
      modifies `code
      ensures Valid() && view == old(view) && Is(r, SetList(g, !op, ListOf(g, !op) + l))
      ensures |code| == |old(code)| && forall j: nat {:trigger code[j]} :: j < |code| && j !in ListOf(g, !op) ==> code[j] == old(code)[j]
    {
      hide Paired, ListOk;
      ghost var c := code;
      var whole := Concat(if op then e.f else e.t, first, ListOf(g, !op), l);
      KeptOutside(c, view.code, code, ListOf(g, !op), if op then e.t else e.f, ListOf(g, op));
      KeptOutside(c, view.code, code, ListOf(g, !op), jpc, view.jpc);
      if e.k.VJmp? { KeptOutside(c, view.code, code, ListOf(g, !op), e.k.pc, [e.k.pc]) by { OneList(view.code, e.k.pc); } }
      r := if op then e.(f := whole) else e.(t := whole);
    }
  }

  lemma LogicGen(s: Fs, op: bool, a: Expr, b: Expr)
    ensures var (s1, g1) := Gen(s, a); var (s2, g2) := CodeGen.GoIf(s1, g1, op); var (s3, g3) := Gen(s2, b);
            var (s4, g4) := CodeGen.DischargeVars(s3, g3);
            Gen(s, ELogic(op, a, b)) == (s4, SetList(g4, !op, ListOf(g4, !op) + ListOf(g2, !op)))
  {
    hide CodeGen.GoIf, CodeGen.DischargeVars;
  }

  /** Jumps other than `node` are as they were. */
  ghost predicate JumpsStay(c: seq<Instr>, v: seq<Instr>, c2: seq<Instr>, v2: seq<Instr>, node: nat) {
    |c| == |v| == |c2| == |v2| && forall j: nat {:trigger c2[j]} :: j < |c| && j != node && c[j].Jmp? ==> c2[j] == c[j] && v2[j] == v[j]
  }

  /** Jumps that have been fixed are fixed alike. */
  ghost predicate SameJumps(c: seq<Instr>, v: seq<Instr>, l: seq<nat>) {
    |c| == |v| && forall j <- l :: j < |c| && c[j].Jmp? && c[j] == v[j]
  }

  lemma NoneSame(c: seq<Instr>, v: seq<Instr>)
    requires SameCode(c, v)
    ensures SameJumps(c, v, [])
  {}

  lemma NotAgain(v: seq<Instr>, l: seq<nat>, i: nat)
    requires ListOk(v, l) && i < |l|
    ensures l[i] !in l[..i] && l[i..][0] == l[i] && l[..i + 1] == l[..i] + [l[i]]
  {}

  lemma SameJumpsOn(c: seq<Instr>, v: seq<Instr>, c2: seq<Instr>, v2: seq<Instr>, l: seq<nat>, i: nat)
    requires i < |l| && SameJumps(c, v, l[..i]) && JumpsStay(c, v, c2, v2, l[i]) && l[i] !in l[..i] && l[..i + 1] == l[..i] + [l[i]]
    requires l[i] < |c2| && c2[l[i]].Jmp? && c2[l[i]] == v2[l[i]]
    ensures SameJumps(c2, v2, l[..i + 1])
  {
    forall j <- l[..i + 1] ensures j < |c2| && c2[j].Jmp? && c2[j] == v2[j] {
      if j in l[..i] { assert c[j] == v[j] && c2[j] == c[j]; }
    }
  }

  /** What `luaK_exp2val` leaves can be used again. */
  lemma ValUsable(s: Fs, g: Exp)
    requires Usable(s, g)
    ensures var (t, f) := CodeGen.ExpToVal(s, g); Usable(t, f) || InRegister(t, f)
  {
    hide Emit, CodeGen.CloseJumps, Paired, ListOk, Fits;
    var (s1, g1) := CodeGen.DischargeVars(s, g);
    UsableAgain(s, g);
    if g.t != [] || g.f != [] {
      var fr := Base(s1, g1);
      var u := s1.(freereg := fr + 1);
      AnyRegForm(s, g);
      GoodReg(s1, u, g1);
      ExpToRegGood(u, g1, fr);
    }
  }

  /** With jumps the value goes to the next register. */
  lemma AnyRegForm(s: Fs, g: Exp)
    requires Usable(s, g) && (g.t != [] || g.f != [])
    ensures var (s1, g1) := CodeGen.DischargeVars(s, g); var fr := Base(s1, g1);
            CodeGen.ExpToAnyReg(s, g) == CodeGen.ExpToReg(s1.(freereg := fr + 1), g1, fr)
  {
    hide Emit, CodeGen.CloseJumps, Paired, ListOk, Since, CodeGen.ExpToReg;
    var (s1, g1) := CodeGen.DischargeVars(s, g);
    DischargeTwice(s1, g1);
    if !(g1.k.VNonReloc? && g1.k.r >= s1.nactvar) { NextRegForm(s1, g1); }
  }

  /** The same for the jumps of others. */
  lemma ValThen(c: seq<Instr>, s: Fs, g: Exp, c1: seq<Instr>, c2: seq<Instr>)
    requires Usable(s, g)
    requires var (t, f) := CodeGen.ExpToVal(s, g); |c1| == |t.code| && Untouched(c, s.code, c1, Owned(s, g)) && Untouched(c1, t.code, c2, Owned(t, f))
    ensures Untouched(c, s.code, c2, Owned(s, g))
  {
    hide Emit, CodeGen.CloseJumps, Paired, ListOk, Owned, Fits, Since, CodeGen.ExpToReg;
    var (t, f) := CodeGen.ExpToVal(s, g);
    var (s1, g1) := CodeGen.DischargeVars(s, g);
    if Discharged(g.k) { DischargeTwice(s, g); }
    PendingSince(s, g, s1, g1);
    if g.t != [] || g.f != [] {
      var fr := Base(s1, g1);
      var u := s1.(freereg := fr + 1);
      AnyRegForm(s, g);
      GoodReg(s1, u, g1);
      ExpToRegGood(u, g1, fr);
      PendingSince(u, g1, t, Nothing);
      OwnedSame(t, f);
      OwnedReg(s1, u, g1);
    }
    UntouchedThen(c, s, c1, t, c2, g, f);
  }

  lemma OwnedSame(t: Fs, f: Exp)
    requires f.t == f.f == [] && Inert(f.k)
    ensures Owned(t, f) == Owned(t, Nothing)
  {}

  lemma OwnedReg(s: Fs, u: Fs, g: Exp)
    requires u == s.(freereg := u.freereg)
    ensures Owned(u, g) == Owned(s, g)
  {}

  lemma EmitPending(s: Fs, i: Instr)
    requires ListOk(s.code, s.jpc)
    ensures forall j: nat :: Pending(s.code, j) && j !in s.jpc ==> Pending(Emit(s, i).code, j)
    ensures Emit(s, i).jpc == []
  {
    EmitSpec(s, i);
    forall j: nat | Pending(s.code, j) && j !in s.jpc ensures Pending(Emit(s, i).code, j) {
      assert Emit(s, i).code[..|s.code|][j] == s.code[j];
    }
  }

  lemma CondFrame(c: seq<Instr>, s: Fs, c1: seq<Instr>, s1: Fs, c2: seq<Instr>)
    requires Untouched(c, s.code, c1, Members(s.jpc)) && Untouched(c1, s1.code, c2, {})
    requires forall j: nat :: Pending(s.code, j) && j !in s.jpc ==> Pending(s1.code, j)
    ensures Untouched(c, s.code, c2, Members(s.jpc))
  {
    forall j: nat | j < |c| && Pending(s.code, j) && j !in Members(s.jpc) ensures j < |c2| && c2[j] == c[j] {
      assert c[j] == c[j];
      assert c1[j] == c[j];
    }
  }

  /** The shape of a kind, for what `AnyRegGood` wants to know. */
  ghost function AnyShape(s: Fs, g: Exp): Shape
    requires Good(s, g) && !g.k.VJmp?
  {
    match g.k
    case VNil => SNil
    case VTrue => STrue
    case VFalse => SFalse
    case VKNum(n) => SNum(n)
    case VReloc(pc) => if s.code[pc].Not? then SNot else SOpen
    case _ => SReg
  }

  /** `DischargeToAnyReg` keeps lists apart. */
  lemma AnyGood(s: Fs, g: Exp)
    requires Good(s, g) && !g.k.VJmp?
    ensures var (t, f) := CodeGen.DischargeToAnyReg(s, g); var u := CodeGen.FreeExp(t, f);
            && f == g.(k := f.k) && f.k.VNonReloc? && ListsGood(t, f) && Since(s, g, t, f) && u == t.(freereg := u.freereg)
            && (Base(s, g) >= s.nactvar ==> ListsGood(u, f))
  {
    hide Emit, Paired, ListOk, Fits;
    DischargeTwice(s, g);
    if g.k.VNonReloc? {
      SinceSelf(s, g);
    } else {
      var s1 := CodeGen.ReserveReg(s);
      assert Good(s1, g);
      DischargeGood(s1, g, s.freereg);
      var (t, f) := CodeGen.DischargeTo(s1, g, s.freereg);
      SinceReg(s, s1, g, t, f);
    }
  }

  lemma AnyFrame(c: seq<Instr>, s: Fs, g: Exp, c1: seq<Instr>, u: Fs, f: Exp, c2: seq<Instr>)
    requires Good(s, g) && !g.k.VJmp? && f == CodeGen.DischargeToAnyReg(s, g).1 && u == CodeGen.FreeExp(CodeGen.DischargeToAnyReg(s, g).0, f)
    requires Untouched(c, s.code, c1, Owned(s, g)) && Untouched(c1, u.code, c2, Members(u.jpc)) && |c1| == |u.code|
    ensures Untouched(c, s.code, c2, Owned(s, g))
  {
    hide Emit, Paired, ListOk, Fits;
    AnyGood(s, g);
    var t := CodeGen.DischargeToAnyReg(s, g).0;
    PendingSince(s, g, t, f);
    hide Since, CodeGen.DischargeToAnyReg;
    MembersOwned(u, f);
    OwnedReg(t, u, f);
    UntouchedMore(c1, u.code, c2, Members(u.jpc), Owned(u, f));
    UntouchedThen(c, s, c1, u, c2, g, f);
  }

  lemma PopKept(c: seq<Instr>, s: Fs, c1: seq<Instr>, t: int, f: int, g: Exp)
    requires SameCode(c, s.code) && Good(s, g) && g.k.VReloc? && c1 == c[..|c| - 1]
    requires Chain(c, t, g.t) && Chain(c, f, g.f)
    ensures SameCode(c1, Popped(s).code) && Chain(c1, t, g.t) && Chain(c1, f, g.f)
  {
    hide Paired;
    PoppedBefore(s, g);
    hide Good, ListOk;
    forall j <- g.t + g.f ensures j < |c1| && c1[j] == c[j] {}
    hide SameCode;
    ChainKept(c, c1, t, g.t);
    ChainKept(c, c1, f, g.f);
  }

  lemma PoppedBefore(s: Fs, g: Exp)
    requires Good(s, g) && g.k.VReloc?
    ensures |s.code| > 0 && forall j <- g.t + g.f :: j < |s.code| - 1
  {
    hide Paired;
    forall j <- g.t + g.f ensures j < |s.code| - 1 { assert Pending(s.code, j); }
  }

  lemma PopFrame(c: seq<Instr>, s: Fs, c1: seq<Instr>, c2: seq<Instr>, g: Exp)
    requires SameCode(c, s.code) && Good(s, g) && g.k.VReloc? && c1 == c[..|c| - 1]
    requires Untouched(c1, Popped(s).code, c2, Members(Popped(s).jpc))
    ensures Untouched(c, s.code, c2, Owned(s, g))
  {
    hide Paired, ListOk;
    forall j: nat | j < |c| && Pending(s.code, j) && j !in Owned(s, g) ensures j < |c2| && c2[j] == c[j] {
      assert j < |c1| && c1[j] == c[j] && Pending(Popped(s).code, j);
    }
  }

  /** An operand that is where it is used. */
  ghost predicate Placed(s: Fs, g: Exp) {
    && Ready(s) && g.t == [] && g.f == []
    && (g.k.VNonReloc? || (g.k.VK? && g.k.i <= MAXINDEXRK))
  }

  lemma PlacedLists(s: Fs, g: Exp)
    requires Placed(s, g)
    ensures ListsGood(s, g) && CodeGen.DischargeVars(s, g) == (s, g)
  {
    ReadyLists(s);
    hide Paired, Since;
  }

  lemma PlacedVal(s: Fs, g: Exp)
    requires Placed(s, g)
    ensures CodeGen.ExpToVal(s, g) == (s, g) && (g.k.VNonReloc? ==> InRegister(s, g))
  {
    hide CodeGen.ExpToAnyReg;
    PlacedLists(s, g);
  }

  lemma PlacedThen(c: seq<Instr>, s: Fs, g: Exp, c1: seq<Instr>, c2: seq<Instr>)
    requires Placed(s, g) && Untouched(c, s.code, c1, Owned(s, g)) && |c1| == |s.code|
    requires var (t, f) := CodeGen.ExpToVal(s, g); Untouched(c1, t.code, c2, Owned(t, f))
    ensures Untouched(c, s.code, c2, Owned(s, g))
  {
    hide CodeGen.ExpToVal;
    PlacedVal(s, g);
    UntouchedThen(c, s, c1, s, c2, g, g);
  }

  lemma NoneOwned(s: Fs, g: Exp)
    ensures {} <= Owned(s, g)
  {}

  lemma OneList(code: seq<Instr>, j: nat)
    requires Pending(code, j)
    ensures ListOk(code, [j])
  {}

  lemma StripPending(v: seq<Instr>, r: seq<Instr>, l: seq<nat>)
    requires Removed(v, r, l)
    ensures forall j: nat :: Pending(v, j) ==> Pending(r, j)
  {
    forall j: nat | Pending(v, j) ensures Pending(r, j) { assert r[j] == v[j]; }
  }

  lemma KeptAll(c: seq<Instr>, v: seq<Instr>, c1: seq<Instr>, head: int, m: seq<nat>)
    requires SameCode(c, v) && |c1| == |c| && Chain(c, head, m) && ListOk(v, m)
    requires forall j: nat {:trigger c1[j]} :: j < |c1| && Pending(v, j) ==> c1[j] == c[j]
    ensures Chain(c1, head, m)
  {
    KeptOutside(c, v, c1, [], head, m);
  }

  lemma GoIfBoth(s: Fs, g: Exp, truth: bool)
    requires Usable(s, g)
    ensures var (s1, g1) := CodeGen.DischargeVars(s, g); var (t, l) := Tested(s1, g1, truth);
            CodeGen.GoIf(s, g, truth) == (CodeGen.PatchToHere(t, ListOf(g1, truth)), SetList(SetList(g1, truth, []), !truth, ListOf(g1, !truth) + l))
  {
    hide Emit, Since, Paired, ListOk, Tested, CodeGen.GoIf;
    GoIfDischarged(s, g, truth);
    var (s1, g1) := CodeGen.DischargeVars(s, g);
    GoIfForm(s1, g1, truth);
  }

  /** The lists a test leaves are apart. */
  lemma JoinApart(t: Fs, g: Exp, truth: bool, l: seq<nat>)
    requires ListsGood(t, Left(g, truth, l)) && SameListed(t, g)
    ensures ListOk(t.code, ListOf(g, !truth)) && ListOk(t.code, l) && Apart(ListOf(g, !truth), l)
    ensures ListOk(t.code, ListOf(g, truth)) && ListOk(t.code, t.jpc + ListOf(g, truth)) && Apart(t.jpc, ListOf(g, truth))
    ensures Apart(ListOf(g, truth), ListOf(g, !truth)) && Apart(t.jpc, ListOf(g, !truth))
    ensures ListOk(t.code, ListOf(g, !truth) + l) && Apart(ListOf(g, !truth) + l, t.jpc) && Apart(l, ListOf(g, !truth))
  {
    hide Paired;
    var a := ListOf(g, !truth);
    var m := a + l;
    assert ListOf(Left(g, truth, l), !truth) == m;
    assert forall j <- a :: j in m;
    assert forall j <- l :: j in m;
    PartsOk(t.code, a, l);
    JoinLists(t.code, t.jpc, ListOf(g, truth));
  }

  ghost predicate SameListed(t: Fs, g: Exp) {
    ListOk(t.code, g.t) && ListOk(t.code, g.f)
  }

  lemma PartsOk(code: seq<Instr>, a: seq<nat>, l: seq<nat>)
    requires ListOk(code, a + l)
    ensures ListOk(code, l) && Apart(a, l)
  {
    var m := a + l;
    forall i, j | 0 <= i < j < |l| ensures l[i] != l[j] { assert m[|a| + i] == l[i] && m[|a| + j] == l[j]; }
    forall j <- l ensures Pending(code, j) { assert j in m; }
    forall p, q | 0 <= p < |a| && 0 <= q < |l| ensures a[p] != l[q] { assert m[p] == a[p] && m[|a| + q] == l[q]; }
  }

  /** What a test does to the jumps of others: nothing. */
  lemma GoFrame(c: seq<Instr>, s: Fs, g: Exp, c1: seq<Instr>, s1: Fs, g1: Exp, c2: seq<Instr>, s2: Fs, c3: seq<Instr>, c4: seq<Instr>, truth: bool, l: seq<nat>)
    requires Usable(s, g) && (s1, g1) == CodeGen.DischargeVars(s, g) && SameCode(c1, s1.code) && SameCode(c2, s2.code) && |c3| == |c2|
    requires Untouched(c, s.code, c1, Owned(s, g)) && Untouched(c1, s1.code, c2, Owned(s1, g1))
    requires Since(s1, g1, s2, Left(g1, truth, l))
    requires forall j: nat {:trigger c3[j]} :: j < |c3| && j !in ListOf(g1, !truth) ==> c3[j] == c2[j]
    requires Untouched(c3, s2.code, c4, Members(s2.jpc))
    ensures Untouched(c, s.code, c4, Owned(s, g))
  {
    hide Emit, Paired, ListOk;
    UsableLists(s, g);
    PendingSince(s1, g1, s2, Left(g1, truth, l));
    hide Since, Usable;
    assert forall j <- ListOf(g1, !truth) :: j in Owned(s1, g1);
    assert Members(s2.jpc) <= Owned(s2, Left(g1, truth, l));
    hide Owned;
    forall j: nat | j < |c1| && Pending(s1.code, j) && j !in Owned(s1, g1) ensures j < |c4| && c4[j] == c1[j] {
      assert c2[j] == c1[j];
      assert c3[j] == c2[j];
    }
    UsableThen(c, s, g, c1, s1, g1, c4);
  }

  lemma NotFrame(c: seq<Instr>, s: Fs, g: Exp, c1: seq<Instr>, s1: Fs, g1: Exp, c2: seq<Instr>, s2: Fs, c3: seq<Instr>)
    requires Usable(s, g) && (s1, g1) == CodeGen.DischargeVars(s, g) && |c1| == |s1.code|
    requires Untouched(c, s.code, c1, Owned(s, g)) && Untouched(c1, s1.code, c2, Owned(s1, g1)) && Untouched(c2, s2.code, c3, {})
    requires exists f :: Since(s1, g1, s2, f)
    ensures Untouched(c, s.code, c3, Owned(s, g))
  {
    hide Emit, Paired, ListOk, Owned;
    UsableLists(s, g);
    var f :| Since(s1, g1, s2, f);
    PendingSince(s1, g1, s2, f);
    hide Since, Usable;
    forall j: nat | j < |c1| && Pending(s1.code, j) && j !in Owned(s1, g1) ensures j < |c3| && c3[j] == c1[j] {
      assert c1[j] == c1[j];
      assert c2[j] == c1[j];
    }
    UsableThen(c, s, g, c1, s1, g1, c3);
  }

  lemma PlacedRk(s: Fs, g: Exp)
    requires Placed(s, g)
    ensures CodeGen.ExpToRk(s, g) == (s, g)
  {
    PlacedVal(s, g);
    PlacedLists(s, g);
    hide CodeGen.ExpToVal, Emit, Since, Paired;
  }

  lemma PlacedOwned(s: Fs, g: Exp)
    requires Placed(s, g)
    ensures Owned(s, g) == Members(s.jpc)
  {}

  lemma JumpKept(c: seq<Instr>, s: Fs, later: seq<Instr>, g: Exp)
    requires Usable(s, g) && g.k.VJmp? && SameCode(c, s.code) && Chain(c, g.k.pc, [g.k.pc])
    requires Untouched(c, s.code, later, Members(s.jpc))
    ensures Chain(later, g.k.pc, [g.k.pc])
  {
    hide Since, Paired, Emit;
    DischargeTwice(s, g);
    OneList(s.code, g.k.pc);
    ChainUntouched(c, s.code, later, Members(s.jpc), g.k.pc, [g.k.pc]);
  }

  lemma RkReady(s: Fs, g: Exp)
    requires Usable(s, g)
    ensures var (t, f) := CodeGen.ExpToRk(s, g); var (s1, g1) := CodeGen.DischargeVars(s, g);
            Ready(t) && Since(s1, g1, t, Nothing) && OperandKind(t, f, Base(s1, g1))
  {
    hide Emit, Paired, ListOk, CodeGen.ExpToRk;
    ExpToRkDischarged(s, g);
    var (s1, g1) := CodeGen.DischargeVars(s, g);
    ExpToRkGood(s1, g1);
  }

  /** A first operand in a register of its own is below the second one. */
  ghost predicate RoomFor(s: Fs, g1: Exp, g2: Exp) {
    var (t, f) := CodeGen.DischargeVars(s, g2);
    g1.k.VNonReloc? && g1.k.r >= s.nactvar ==> Base(t, f) > s.nactvar
  }

  lemma FreeReady(s: Fs, g2: Exp, g1: Exp)
    requires Usable(s, g2) && RoomFor(s, g1, g2)
    ensures var (s2, b) := CodeGen.ExpToRk(s, g2); var u := CodeGen.FreeExp(CodeGen.FreeExp(s2, b), g1);
            && ListsGood(u, Nothing) && u == s2.(freereg := u.freereg)
            && b.t == [] && b.f == [] && (b.k.VK? || b.k.VNonReloc?)
  {
    hide Emit, Paired, ListOk, CodeGen.ExpToRk, Usable, Since, Fits;
    var (s1, g) := CodeGen.DischargeVars(s, g2);
    UsableActive(s, g2);
    RkReady(s, g2);
    var (s2, b) := CodeGen.ExpToRk(s, g2);
    SinceActive(s1, g, s2, Nothing);
    var u := CodeGen.FreeExp(CodeGen.FreeExp(s2, b), g1);
    assert Ready(u);
    ReadyLists(u);
  }

  lemma UsableActive(s: Fs, g: Exp)
    requires Usable(s, g)
    ensures var (t, f) := CodeGen.DischargeVars(s, g); t.nactvar == s.nactvar && Base(t, f) >= t.nactvar
  {
    hide Emit, Paired, ListOk, Fits;
  }

  lemma NextRegKind(s: Fs, g: Exp, fr: nat)
    requires var (t, f) := CodeGen.DischargeVars(s, g); Base(t, f) == fr && Good(t, f) && fr >= t.nactvar
    ensures CodeGen.ExpToNextReg(s, g).1.k == VNonReloc(fr)
  {
    hide Emit, Paired, ListOk, CodeGen.CloseJumps;
    var (t, f) := CodeGen.DischargeVars(s, g);
    DischargeTwice(t, f);
  }

  lemma CondJumpAt(u: Fs, i: Instr)
    requires ListsGood(u, Nothing) && i.Cmp?
    ensures var (t, l) := CodeGen.CondJump(u, i); |t.code| >= 1 && l == [|t.code| - 1]
  {
    hide Emit, Paired, ListOk, Fits, Since;
    CondJumpGood(u, Nothing, i, true);
  }

  lemma CompFrame(c: seq<Instr>, s: Fs, g: Exp, ca: seq<Instr>, c2: seq<Instr>, s2: Fs, u: Fs, c3: seq<Instr>)
    requires Usable(s, g) && s2 == CodeGen.ExpToRk(s, g).0 && u == s2.(freereg := u.freereg) && |c2| == |s2.code| && |ca| == |s.code|
    requires Untouched(c, s.code, ca, Members(s.jpc)) && Untouched(ca, s.code, c2, Owned(s, g)) && Untouched(c2, u.code, c3, Members(u.jpc))
    ensures Untouched(c, s.code, c3, Owned(s, g))
  {
    hide Emit, Paired, ListOk, Fits, CodeGen.ExpToRk;
    var (s1, g1) := CodeGen.DischargeVars(s, g);
    if Discharged(g.k) { DischargeTwice(s, g); }
    PendingSince(s, g, s1, g1);
    RkReady(s, g);
    UsableLists(s, g);
    PendingSince(s1, g1, s2, Nothing);
    MembersOwned(s, g);
    assert Owned(s2, Nothing) == Members(u.jpc);
    hide Owned, Usable, Since, CodeGen.DischargeVars;
    forall j: nat | j < |c| && Pending(s.code, j) && j !in Owned(s, g) ensures j < |c3| && c3[j] == c[j] {
      assert ca[j] == c[j];
      assert c2[j] == ca[j];
    }
  }

  // ---- Expressions before they are discharged -----------------------------

  lemma GenUsable(s: Fs, e: Expr)
    requires Ready(s) && LocalsBelow(e, s.nactvar)
    ensures var (t, f) := Gen(s, e); var (t1, f1) := CodeGen.DischargeVars(t, f);
            && Usable(t, f) && ShapeIs(t1, f1.k, ShapeOf(e)) && Base(t1, f1) == s.freereg && t.nactvar == s.nactvar && t1.k == Consts(e, s.k)
  {
    hide Emit, Paired, ListOk, Fits, Gen, Since, ShapeIs;
    GenGood(s, e);
    var (t, f) := Gen(s, e);
    var (t1, f1) := Compiled(s, e);
    SinceActive(s, Nothing, t1, f1);
    if Leaf(e) {
      LeafUsable(s, e);
    } else {
      NodeDischarged(s, e);
      DischargeTwice(t, f);
      SinceSelf(t, f);
    }
  }

  /** Only leaves can still have to be discharged. */
  lemma NodeDischarged(s: Fs, e: Expr)
    requires !Leaf(e) && Ready(s) && LocalsBelow(e, s.nactvar)
    ensures Discharged(Gen(s, e).1.k)
  {
    hide Emit, CodeGen.GoIf, CodeGen.ExpToRk, RemoveValues, CodeGen.CondJump, CodeGen.InvertJump;
    if e.ELogic? {
      var s2 := CodeGen.GoIf(Gen(s, e.a).0, Gen(s, e.a).1, e.conj).0;
      var (r, q) := Gen(s2, e.b);
      assert Discharged(CodeGen.DischargeVars(r, q).1.k);
    } else if e.ENot? {
      var (r, q) := Gen(s, e.a);
      NotDischarged(r, q);
      var (r1, q1) := CodeGen.DischargeVars(r, q);
      DischargeTwice(r1, q1);
      CodeNotForm(r1, q1);
    }
  }

  lemma LeafUsable(s: Fs, e: Expr)
    requires Leaf(e) && Ready(s) && LocalsBelow(e, s.nactvar)
    requires var (t, f) := Compiled(s, e); Good(t, f) && t.nactvar == s.nactvar && Base(t, f) == s.freereg
    ensures var (t, f) := Gen(s, e); Usable(t, f) && t.nactvar == s.nactvar
    ensures Since(s, Nothing, Gen(s, e).0, Gen(s, e).1)
  {
    hide Paired, ListOk, Fits;
    ReadyLists(s);
    if e.EGlobal? {
      GlobalUsable(s, e.g);
      SinceKind(s, Nothing, s, Nothing, VGlobal(e.g));
      hide Since;
    } else if e.ECall? {
      CallUsable(s, e.g);
    } else {
      SimpleLeaf(s, e);
      var (t, f) := Gen(s, e);
      assert t == s.(k := t.k);
      SimpleUsable(s, t, f);
    }
  }

  lemma SimpleUsable(s: Fs, t: Fs, f: Exp)
    requires Ready(s) && t == s.(k := t.k) && s.k <= t.k && f.t == [] && f.f == []
    requires f.k.VNil? || f.k.VTrue? || f.k.VFalse? || f.k.VKNum? || f.k.VK? || (f.k.VLocal? && f.k.r < s.nactvar)
    ensures Usable(t, f) && Since(s, Nothing, t, f)
  {
    hide Paired, Fits;
    ReadyLists(s);
    ReadyLists(t);
    SinceK(s, t, f.k);
    SinceKind(t, Nothing, t, Nothing, f.k);
    var (t1, f1) := CodeGen.DischargeVars(t, f);
    assert t1 == t;
    SinceKind(t, Nothing, t, Nothing, f1.k);
    SinceInert(t, f, f1);
  }

  lemma SinceInert(t: Fs, f: Exp, g: Exp)
    requires Since(t, Nothing, t, Nothing) && f.t == [] && f.f == [] && g.t == [] && g.f == [] && Inert(f.k) && Inert(g.k)
    ensures Since(t, f, t, g)
  {}

  lemma CallUsable(s: Fs, g: nat)
    requires Ready(s)
    ensures var (t, f) := Gen(s, ECall(g)); Usable(t, f) && t.nactvar == s.nactvar && Since(s, Nothing, t, f)
  {
    hide Paired, Fits, Emit, ListOk;
    CallGood(s, g);
    CallForm(s, g);
    var t := CallCode(s, g);
    var f := Exp(VCall(|s.code| + 1), [], []);
    var (t1, f1) := Compiled(s, ECall(g));
    SinceActive(s, Nothing, t1, f1);
    SinceKind(s, Nothing, t1, f1, f.k);
    ReadyLists(t);
    SinceInert(t, f, f1);
    hide CallCode;
  }

  lemma GlobalUsable(s: Fs, g: nat)
    requires Ready(s)
    ensures Usable(s, Exp(VGlobal(g), [], []))
  {
    hide Paired, Fits, Emit, ListOk;
    ReadyLists(s);
    var f := Exp(VGlobal(g), [], []);
    EmitGood(s, f, GetGlobal(0, g), VReloc(|s.code|));
    GlobalGood(s, g);
    assert CodeGen.DischargeVars(s, f) == (Emit(s, GetGlobal(0, g)), Exp(VReloc(|s.code|), [], []));
    assert f.(k := VReloc(|s.code|)) == Exp(VReloc(|s.code|), [], []);
    hide Good;
  }

  lemma GlobalOwned(s: Fs, g: nat)
    requires Ready(s)
    ensures Owned(s, Exp(VGlobal(g), [], [])) == Members(s.jpc)
  {}

  /** Jumps of others after an expression has been compiled. */
  lemma GenPending(s: Fs, e: Expr)
    requires Ready(s) && LocalsBelow(e, s.nactvar)
    ensures var (t, f) := Gen(s, e);
            forall j: nat :: Pending(s.code, j) && j !in s.jpc ==> Pending(t.code, j) && j !in Owned(t, f)
  {
    hide Emit, Paired, ListOk, Fits, Gen;
    GenGood(s, e);
    var (t, f) := Gen(s, e);
    var (t1, f1) := Compiled(s, e);
    hide Good, ShapeIs;
    if Leaf(e) {
      SinceActive(s, Nothing, t1, f1);
      LeafUsable(s, e);
      PendingSince(s, Nothing, t, f);
    } else {
      NodeDischarged(s, e);
      DischargeTwice(t, f);
      PendingSince(s, Nothing, t, f);
    }
    assert Owned(s, Nothing) == Members(s.jpc);
  }

  lemma GenThen(c: seq<Instr>, s: Fs, e: Expr, c1: seq<Instr>, c2: seq<Instr>)
    requires Ready(s) && LocalsBelow(e, s.nactvar) && |c1| == |Gen(s, e).0.code|
    requires var (t, f) := Gen(s, e); Untouched(c, s.code, c1, Members(s.jpc)) && Untouched(c1, t.code, c2, Owned(t, f))
    ensures Untouched(c, s.code, c2, Members(s.jpc))
  {
    hide Gen, Owned;
    GenPending(s, e);
    var (t, f) := Gen(s, e);
    forall j: nat | j < |c| && Pending(s.code, j) && j !in Members(s.jpc) ensures j < |c2| && c2[j] == c[j] {
      assert j !in s.jpc;
      assert c1[j] == c[j];
    }
  }

  /** The first operand of a comparison, in place. */
  lemma GenPlaced(s: Fs, a: Expr, b: Expr)
    requires Ready(s) && LocalsBelow(a, s.nactvar) && LocalsBelow(b, s.nactvar)
    ensures var (s1, g1) := Gen(s, a); var (s2, g2) := CodeGen.ExpToRk(s1, g1); var (s3, g3) := Gen(s2, b);
            && Ready(s2) && s2.nactvar == s.nactvar && g2.t == [] && g2.f == [] && !g2.k.VJmp?
            && Placed(s3, g2) && RoomFor(s3, g2, g3)
            && forall j: nat :: Pending(s.code, j) && j !in s.jpc ==> Pending(s2.code, j) && j !in s2.jpc
  {
    hide Emit, Paired, ListOk, Fits, Gen, CodeGen.ExpToRk, Since, ShapeIs, Usable;
    GenUsable(s, a);
    var (s1, g1) := Gen(s, a);
    UsableActive(s1, g1);
    RkReady(s1, g1);
    var (s2, g2) := CodeGen.ExpToRk(s1, g1);
    var (t1, f1) := CodeGen.DischargeVars(s1, g1);
    SinceActive(t1, f1, s2, Nothing);
    GenUsable(s2, b);
    var (s3, g3) := Gen(s2, b);
    UsableLists(s3, g3);
    GenPending(s, a);
    RkPending(s1, g1);
    UsableActive(s3, g3);
  }

  lemma RkPending(s: Fs, g: Exp)
    requires Usable(s, g)
    ensures var (t, _) := CodeGen.ExpToRk(s, g);
            forall j: nat :: Pending(s.code, j) && j !in Owned(s, g) ==> Pending(t.code, j) && j !in t.jpc
  {
    hide Emit, Paired, ListOk, Fits, CodeGen.ExpToRk;
    var (s1, g1) := CodeGen.DischargeVars(s, g);
    if Discharged(g.k) { DischargeTwice(s, g); }
    PendingSince(s, g, s1, g1);
    RkReady(s, g);
    UsableLists(s, g);
    PendingSince(s1, g1, CodeGen.ExpToRk(s, g).0, Nothing);
  }

  lemma OperandThen(c: seq<Instr>, s: Fs, a: Expr, c2: seq<Instr>, c3: seq<Instr>)
    requires Ready(s) && LocalsBelow(a, s.nactvar)
    requires var (s1, g1) := Gen(s, a); var (s2, g2) := CodeGen.ExpToRk(s1, g1);
             && |c2| == |s2.code| && Untouched(c, s.code, c2, Members(s.jpc)) && Untouched(c2, s2.code, c3, Members(s2.jpc))
    ensures Untouched(c, s.code, c3, Members(s.jpc))
  {
    hide Gen, CodeGen.ExpToRk, Usable, Owned;
    var (s1, g1) := Gen(s, a);
    var (s2, g2) := CodeGen.ExpToRk(s1, g1);
    GenPending(s, a);
    GenUsable(s, a);
    RkPending(s1, g1);
    forall j: nat | j < |c| && Pending(s.code, j) && j !in Members(s.jpc) ensures j < |c3| && c3[j] == c[j] {
      assert j !in s.jpc;
      assert c2[j] == c[j];
    }
  }

  lemma GlobalCallFrame(c: seq<Instr>, s: Fs, g: nat, c1: seq<Instr>, s1: Fs, c2: seq<Instr>)
    requires Ready(s) && s1 == CodeGen.ExpToNextReg(s, Exp(VGlobal(g), [], [])).0 && |c1| == |s1.code|
    requires Untouched(c, s.code, c1, Members(s.jpc)) && Untouched(c1, s1.code, c2, Members(s1.jpc))
    ensures Untouched(c, s.code, c2, Members(s.jpc))
  {
    hide CodeGen.ExpToNextReg, Emit;
    GlobalNext(s, g);
    EmitPending(s, GetGlobal(s.freereg, g));
    forall j: nat | j < |c| && Pending(s.code, j) && j !in Members(s.jpc) ensures j < |c2| && c2[j] == c[j] {
      assert j !in s.jpc;
      assert c1[j] == c[j];
    }
  }

  // ---- and, or ------------------------------------------------------------

  /** The state in which the second operand is compiled. */
  lemma GenTested(s: Fs, op: bool, a: Expr, b: Expr)
    requires Ready(s) && LocalsBelow(a, s.nactvar) && LocalsBelow(b, s.nactvar)
    ensures var (s1, g1) := Gen(s, a); var (s2, g2) := CodeGen.GoIf(s1, g1, op);
            && Ready(s2) && s2.nactvar == s.nactvar && ListsGood(s2, SetList(Nothing, !op, ListOf(g2, !op)))
            && forall j: nat :: Pending(s.code, j) && j !in s.jpc ==> Pending(s2.code, j) && j !in s2.jpc
  {
    hide Emit, Paired, ListOk, Fits, Gen, CodeGen.GoIf, ShapeIs, Usable;
    GenUsable(s, a);
    GenPending(s, a);
    var (s1, g1) := Gen(s, a);
    GoIfDischarged(s1, g1, op);
    UsableLists(s1, g1);
    UsableActive(s1, g1);
    UsablePending(s1, g1);
    var (t, f) := CodeGen.DischargeVars(s1, g1);
    GoIfGood(t, f, op, ShapeOf(a));
    var (s2, g2) := CodeGen.GoIf(t, f, op);
    SinceActive(t, f, s2, g2.(k := VTrue));
    PendingSince(t, f, s2, g2.(k := VTrue));
    hide Since, CodeGen.DischargeVars;
    assert g2.(k := VTrue) == SetList(Nothing, !op, ListOf(g2, !op));
  }

  lemma UsablePending(s: Fs, g: Exp)
    requires Usable(s, g)
    ensures var (t, f) := CodeGen.DischargeVars(s, g);
            forall j: nat :: Pending(s.code, j) && j !in Owned(s, g) ==> Pending(t.code, j) && j !in Owned(t, f)
  {
    hide Emit, Paired, ListOk, Fits;
    if Discharged(g.k) { DischargeTwice(s, g); }
    var (t, f) := CodeGen.DischargeVars(s, g);
    PendingSince(s, g, t, f);
  }

  /** While the second operand is compiled the jumps of the first one wait. */
  lemma GenWaits(s: Fs, op: bool, a: Expr, b: Expr)
    requires Ready(s) && LocalsBelow(a, s.nactvar) && LocalsBelow(b, s.nactvar)
    ensures var (s1, g1) := Gen(s, a); var (s2, g2) := CodeGen.GoIf(s1, g1, op); var (s3, g3) := Gen(s2, b);
            var (s4, g4) := CodeGen.DischargeVars(s3, g3); var l := ListOf(g2, !op);
            && ListOk(s2.code, l) && (forall j <- l :: j !in Members(s2.jpc))
            && ListOk(s3.code, l) && (forall j <- l :: j !in Owned(s3, g3))
            && ListsGood(s4, g4) && KindGood(s4, g4) && Apart(ListOf(g4, !op), l)
  {
    hide Emit, Paired, Fits, Gen, CodeGen.GoIf, ShapeIs, Usable;
    GenTested(s, op, a, b);
    var (s1, g1) := Gen(s, a);
    var (s2, g2) := CodeGen.GoIf(s1, g1, op);
    GenUsable(s2, b);
    GenPending(s2, b);
    var (s3, g3) := Gen(s2, b);
    UsableLists(s3, g3);
    UsablePending(s3, g3);
    var (s4, g4) := CodeGen.DischargeVars(s3, g3);
    var l := ListOf(g2, !op);
    hide CodeGen.DischargeVars, Since;
    forall j <- l ensures j !in s2.jpc && Pending(s2.code, j) && Pending(s3.code, j) && j !in Owned(s3, g3) && j !in ListOf(g4, !op) {
      assert j in ListOf(SetList(Nothing, !op, l), !op);
    }
  }

  lemma LogicFrame(c: seq<Instr>, s: Fs, op: bool, a: Expr, b: Expr, c2: seq<Instr>, c3: seq<Instr>, c4: seq<Instr>, c5: seq<Instr>)
    requires Ready(s) && LocalsBelow(a, s.nactvar) && LocalsBelow(b, s.nactvar)
    requires var (s1, g1) := Gen(s, a); var (s2, g2) := CodeGen.GoIf(s1, g1, op); var (s3, g3) := Gen(s2, b);
             var (s4, g4) := CodeGen.DischargeVars(s3, g3);
             && SameCode(c2, s2.code) && SameCode(c3, s3.code) && SameCode(c4, s4.code) && |c5| == |c4|
             && Untouched(c, s.code, c2, Members(s.jpc)) && Untouched(c2, s2.code, c3, Members(s2.jpc))
             && Untouched(c3, s3.code, c4, Owned(s3, g3))
             && forall j: nat {:trigger c5[j]} :: j < |c5| && j !in ListOf(g4, !op) ==> c5[j] == c4[j]
    ensures Untouched(c, s.code, c5, Members(s.jpc))
  {
    hide Emit, Paired, ListOk, Fits, Gen, CodeGen.GoIf, ShapeIs, Usable, Since, CodeGen.DischargeVars, ListsGood;
    GenTested(s, op, a, b);
    var (s1, g1) := Gen(s, a);
    var (s2, g2) := CodeGen.GoIf(s1, g1, op);
    GenUsable(s2, b);
    GenPending(s2, b);
    var (s3, g3) := Gen(s2, b);
    UsablePending(s3, g3);
    var (s4, g4) := CodeGen.DischargeVars(s3, g3);
    assert forall j <- ListOf(g4, !op) :: j in Owned(s4, g4);
    hide Owned;
    forall j: nat | j < |c| && Pending(s.code, j) && j !in Members(s.jpc) ensures j < |c5| && c5[j] == c[j] {
      assert j !in s.jpc;
      assert c2[j] == c[j];
      assert j !in Members(s2.jpc);
      assert c3[j] == c2[j];
      assert c4[j] == c3[j];
    }
  }

  /** An expression as the parser holds it, before or after its variables have
      been discharged. */
  ghost predicate Usable(s: Fs, g: Exp) {
    var (t, f) := CodeGen.DischargeVars(s, g);
    && ListsGood(s, g) && Good(t, f) && Base(t, f) >= t.nactvar && Since(s, g, t, f)
    && (Discharged(g.k) || Inert(g.k))
  }

  lemma UsableLists(s: Fs, g: Exp)
    requires Usable(s, g)
    ensures ListsGood(s, g)
    ensures var (t, f) := CodeGen.DischargeVars(s, g); Good(t, f) && ListsGood(t, f) && Base(t, f) >= t.nactvar
  {
    hide Since, Paired, ListOk;
  }

  lemma UsableAgain(s: Fs, g: Exp)
    requires Usable(s, g)
    ensures var (t, f) := CodeGen.DischargeVars(s, g); Usable(t, f)
  {
    hide Since, Paired, ListOk, Emit;
    var (t, f) := CodeGen.DischargeVars(s, g);
    DischargeTwice(t, f);
    SinceSelf(t, f);
  }

  lemma UsableThen(c: seq<Instr>, s: Fs, g: Exp, c1: seq<Instr>, s1: Fs, g1: Exp, c2: seq<Instr>)
    requires Usable(s, g) && (s1, g1) == CodeGen.DischargeVars(s, g) && |c1| == |s1.code|
    requires Untouched(c, s.code, c1, Owned(s, g)) && Untouched(c1, s1.code, c2, Owned(s1, g1))
    ensures Untouched(c, s.code, c2, Owned(s, g))
  {
    hide Paired, ListOk, Emit, Owned;
    if Discharged(g.k) { DischargeTwice(s, g); }
    PendingSince(s, g, s1, g1);
    UntouchedThen(c, s, c1, s1, c2, g, g1);
  }

  lemma UntouchedThen(c: seq<Instr>, s: Fs, c1: seq<Instr>, s1: Fs, c2: seq<Instr>, g: Exp, g1: Exp)
    requires Untouched(c, s.code, c1, Owned(s, g)) && Untouched(c1, s1.code, c2, Owned(s1, g1)) && |c1| == |s1.code|
    requires forall j: nat :: Pending(s.code, j) && j !in Owned(s, g) ==> Pending(s1.code, j) && j !in Owned(s1, g1)
    ensures Untouched(c, s.code, c2, Owned(s, g))
  {
    hide Owned;
    forall j: nat | j < |c| && Pending(s.code, j) && j !in Owned(s, g) ensures j < |c2| && c2[j] == c[j] {
      assert c1[j] == c[j];
    }
  }

  lemma JumpFrame(c: seq<Instr>, s: Fs, c1: seq<Instr>, c2: seq<Instr>, g: Exp)
    requires SameCode(c, s.code) && |c1| == |c| && Good(s, g) && g.k.VJmp?
    requires forall j: nat {:trigger c1[j]} :: j < |c1| && j !in g.t ==> c1[j] == c[j]
    requires Untouched(c1, s.code, c2, Owned(s, Joined(g)))
    ensures Untouched(c, s.code, c2, Owned(s, g))
  {
    hide Paired, ListOk;
    assert Owned(s, Joined(g)) == Owned(s, g) by {
      assert forall j <- Joined(g).t :: j in g.t || j == g.k.pc;
      assert Joined(g).t[|g.t|] == g.k.pc;
      assert forall j <- g.t :: j in Joined(g).t;
    }
    forall j: nat | j < |c| && Pending(s.code, j) && j !in Owned(s, g) ensures j < |c2| && c2[j] == c[j] { assert c1[j] == c[j]; }
  }

  lemma FreedGood(s: Fs, g: Exp)
    requires Good(s, g) && Base(s, g) >= s.nactvar
    ensures var u := CodeGen.ReserveReg(CodeGen.FreeExp(s, g));
            Good(u, g) && Owned(u, g) == Owned(s, g) && u.code == s.code
  {
    hide Paired, ListOk;
  }

  /** The value is in a register, with nothing left to do. */
  ghost predicate InRegister(s: Fs, g: Exp) {
    Ready(s) && g.k.VNonReloc? && g.t == [] && g.f == []
  }

  lemma RegisterLists(s: Fs, g: Exp)
    requires InRegister(s, g)
    ensures ListsGood(s, g) && CodeGen.DischargeVars(s, g) == (s, g)
  {
    ReadyLists(s);
    hide Paired, Since;
  }

  lemma InRegisterForm(s: Fs, g: Exp)
    requires var (_, f) := CodeGen.DischargeVars(s, g); !(f.k.VNonReloc? && f.t == [] && f.f == [])
    ensures !InRegister(s, g)
  {
    hide Emit;
  }

  lemma DischargedApart(s: Fs, g: Exp)
    requires ListsGood(s, g)
    ensures Apart(g.t, g.f) && var (_, f) := CodeGen.DischargeVars(s, g); Apart(f.t, f.f)
  {
    hide Emit, Paired, ListOk;
  }

  lemma JoinedOwned(s: Fs, g: Exp, reg: nat)
    requires Closing(s, g, reg)
    ensures Owned(s, g.(k := VNonReloc(reg))) == Owned(s, g)
  {}

  lemma MembersOwned(s: Fs, g: Exp)
    ensures Members(s.jpc) <= Owned(s, g)
  {}

  /** Two lists are the same only if both are empty. */
  lemma SameHeads(code: seq<Instr>, t: int, l: seq<nat>, f: int, m: seq<nat>)
    requires Chain(code, t, l) && Chain(code, f, m) && Apart(l, m)
    ensures t == f <==> l == [] && m == []
  {
    if l != [] { assert l[0] in l; }
    if m != [] { assert m[0] in m; }
  }

  /** With nothing pending, the code only grows. */
  lemma LoadSteps(s: Fs, h: Exp, l: seq<nat>, reg: nat)
    requires ListsGood(s, h) && h.k == VNonReloc(reg) && s.jpc == [] && ListOk(s.code, l)
    ensures var s2 := Emit(s, LoadBool(reg, false, true)); var s3 := Emit(s2, LoadBool(reg, true, false));
            && ListsGood(s2, h) && ListsGood(s3, h) && s2.jpc == [] && s3.jpc == []
            && ListOk(s2.code, l) && ListOk(s3.code, l) && |s2.code| == |s.code| + 1
            && (forall j: nat :: Pending(s.code, j) ==> Pending(s2.code, j))
            && (forall j: nat :: Pending(s2.code, j) ==> Pending(s3.code, j))
  {
    hide Paired, Fits;
    var i0, i1 := LoadBool(reg, false, true), LoadBool(reg, true, false);
    assert h.(k := VNonReloc(reg)) == h;
    EmitGood(s, h, i0, VNonReloc(reg));
    EmitApart(s, i0, l);
    var s2 := Emit(s, i0);
    EmitGood(s2, h, i1, VNonReloc(reg));
    EmitApart(s2, i1, l);
    hide ListOk;
    assert s2.code == s.code + [i0];
    assert Emit(s2, i1).code == s2.code + [i1];
  }

  lemma PendingMore(code: seq<Instr>, more: seq<Instr>)
    ensures forall j: nat :: Pending(code, j) ==> Pending(code + more, j)
  {}

  lemma NoMembers(l: seq<nat>)
    ensures l == [] ==> Members(l) == {}
  {}

  lemma UntouchedOn(a: seq<Instr>, va: seq<Instr>, b: seq<Instr>, vb: seq<Instr>, c: seq<Instr>, own: set<nat>)
    requires Untouched(a, va, b, {}) && Untouched(b, vb, c, own) && forall j: nat :: Pending(va, j) ==> Pending(vb, j)
    ensures Untouched(a, va, c, own)
  {
    forall j: nat | j < |a| && Pending(va, j) && j !in own ensures j < |c| && c[j] == a[j] {
      assert a[j] == a[j];
      assert b[j] == a[j];
    }
  }

  lemma CloseFrame(c: seq<Instr>, s: Fs, c1: seq<Instr>, u: Fs, c2: seq<Instr>, g: Exp)
    requires SameCode(c, s.code) && SameCode(c1, u.code) && |c2| == |c1|
    requires Untouched(c, s.code, c1, Owned(s, g))
    requires forall j: nat :: Pending(s.code, j) && j !in Owned(s, g) ==> Pending(u.code, j)
    requires forall j: nat {:trigger c2[j]} :: j < |c2| && Pending(u.code, j) && j !in g.f && j !in g.t ==> c2[j] == c1[j]
    ensures Untouched(c, s.code, c2, Owned(s, g))
  {
    forall j: nat | j < |c| && Pending(s.code, j) && j !in Owned(s, g) ensures j < |c2| && c2[j] == c[j] { assert c1[j] == c[j]; }
  }

  /** Pending jumps that are not owned stay pending. */
  lemma PendingSince(s: Fs, e: Exp, t: Fs, f: Exp)
    requires Since(s, e, t, f) && (Inert(e.k) || Good(s, e))
    ensures forall j: nat :: Pending(s.code, j) && j !in Owned(s, e) ==> Pending(t.code, j) && j !in Owned(t, f)
  {
    hide Paired, ListOk, Fits;
    if !Inert(e.k) { PendingFront(s, e); }
    hide Good;
    forall j: nat | Pending(s.code, j) && j !in Owned(s, e) ensures Pending(t.code, j) && j !in Owned(t, f) {
      assert j < Front(s, e);
      assert t.code[j] == s.code[j];
    }
  }

  lemma Empty(c: seq<Instr>, v: seq<Instr>)
    ensures Chain(c, NO_JUMP, []) && ListOk(v, [])
  {}

  lemma KeptOutside(c: seq<Instr>, v: seq<Instr>, c1: seq<Instr>, l: seq<nat>, head: int, m: seq<nat>)
    requires SameCode(c, v) && |c1| == |c| && Chain(c, head, m) && ListOk(v, m) && Apart(m, l)
    requires forall j: nat {:trigger c1[j]} :: j < |c1| && Pending(v, j) && j !in l ==> c1[j] == c[j]
    ensures Chain(c1, head, m)
  {
    forall j <- m ensures j < |c| && c1[j] == c[j] { assert Pending(v, j); }
    ChainKept(c, c1, head, m);
  }

  lemma PendingOutside(v: seq<Instr>, r: seq<Instr>, l: seq<nat>, vtarget: int, reg: Option<nat>, dtarget: int)
    requires ListOk(v, l) && Patched(v, r, l, vtarget, reg, dtarget)
    ensures forall j: nat :: Pending(v, j) && j !in l ==> Pending(r, j)
  {
    forall j: nat | Pending(v, j) && j !in l ensures Pending(r, j) { assert r[j] == v[j]; }
  }

  lemma KeptLists(c: seq<Instr>, v: Fs, later: seq<Instr>, own: set<nat>, t: int, f: int, g: Exp)
    requires SameCode(c, v.code) && Untouched(c, v.code, later, own) && ListsGood(v, g)
    requires own <= Members(v.jpc)
    requires Chain(c, t, g.t) && Chain(c, f, g.f)
    ensures Chain(later, t, g.t) && Chain(later, f, g.f)
  {
    ChainUntouched(c, v.code, later, own, t, g.t);
    ChainUntouched(c, v.code, later, own, f, g.f);
  }

  lemma UntouchedMore(a: seq<Instr>, va: seq<Instr>, b: seq<Instr>, own: set<nat>, more: set<nat>)
    requires Untouched(a, va, b, own) && own <= more
    ensures Untouched(a, va, b, more)
  {
    forall j: nat | j < |a| && Pending(va, j) && j !in more ensures j < |b| && b[j] == a[j] {
      assert j !in own;
      assert a[j] == a[j];
    }
  }

  lemma UntouchedSelf(a: seq<Instr>, va: seq<Instr>, own: set<nat>)
    ensures Untouched(a, va, a, own)
  {}

  lemma CallKept(code: seq<Instr>, blank: seq<Instr>, pc: nat)
    requires SameCode(code, blank)
    ensures pc < |code| ==> (code[pc].Call? <==> blank[pc].Call?) && (code[pc].Call? ==> code[pc] == blank[pc])
  {}

  /** The rest of a list after its first member has been patched. */
  lemma RestKept(before: seq<Instr>, c0: seq<Instr>, after: seq<Instr>, c: seq<Instr>, next: int, l: seq<nat>, vtarget: int, reg: Option<nat>, dtarget: int)
    requires l != [] && ListOk(before, l) && SameCode(c0, before) && Chain(c0, l[0], l) && next == Next(c0, l[0])
    requires after == FixJump(PatchTest(before, l[0], reg), l[0], if Valued(before, l[0]) then vtarget else dtarget)
    requires |c| == |c0| && forall j: nat {:trigger c[j]} :: j < |c| && Pending(before, j) && j != l[0] ==> c[j] == c0[j]
    ensures Chain(c, next, l[1..]) && ListOk(after, l[1..])
  {
    var rest := l[1..];
    forall j <- rest ensures Pending(before, j) && j != l[0] && c[j] == c0[j] && Pending(after, j) {
      var i :| 0 <= i < |rest| && rest[i] == j;
      assert l[i + 1] == j && l[0] != l[i + 1] && j in l;
      assert Pending(before, j);
      assert Pending(before, l[0]) by { assert l[0] in l; }
    }
    ChainMembers(c0, next, rest);
    ChainKept(c0, c, next, rest);
  }

  lemma PatchListNone(code: seq<Instr>, vtarget: int, reg: Option<nat>, dtarget: int)
    ensures PatchList(code, [], vtarget, reg, dtarget) == code
  {}
}
