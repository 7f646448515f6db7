/** Making the jumps that leave an expression deliver its value (`exp2reg`). */
module CodeClose {
  import opened CodeVm
  import opened CodeTree
  import opened CodeGen
  import opened CodeLists
  import opened CodeState
  import opened CodeExits
  import opened CodeDischarge

  // ---- Patching the exits -------------------------------------------------

  /** What becomes of one list of exits. */
  ghost predicate ExitsPatched(code: seq<Instr>, r: seq<Instr>, l: seq<nat>, reg: nat, dest: int) {
    forall j <- l :: j < |code| && j < |r|
      && r[j] == PatchedJump(code, j, |code|, dest)
      && !(j >= 1 && r[j - 1].TestSet? && !Valued(code, j))
      && (Valued(code, j) ==> r[j - 1] == PatchedTest(code[j - 1], Some(reg)))
  }

  /** No jump is there. */
  predicate Landing(code: seq<Instr>, dest: int) {
    dest == NO_JUMP || (0 <= dest < |code| && !code[dest].Jmp?)
  }

  lemma PatchExitsGood(s: Fs, e: Exp, reg: nat, pf: int, pt: int)
    requires ListsGood(s, e) && Inert(e.k) && Landing(s.code, pf) && Landing(s.code, pt)
    ensures var t := PatchExits(s, e, reg, pf, pt);
            && Ready(t) && Since(s, e, t, Nothing) && t == s.(code := t.code) && |t.code| == |s.code|
            && ExitsPatched(s.code, t.code, e.f, reg, pf) && ExitsPatched(s.code, t.code, e.t, reg, pt)
            && SameList(s.code, t.code, s.jpc)
            && forall i: nat {:trigger t.code[i]} :: i < |s.code| && !s.code[i].Jmp? && !s.code[i].TestSet? ==> t.code[i] == s.code[i]
  {
    var c := s.code;
    var n := |c|;
    var p := PatchList(c, e.f, n, Some(reg), pf);
    var q := PatchList(p, e.t, n, Some(reg), pt);
    PatchListSpec(c, e.f, n, Some(reg), pf);
    PatchedFits(c, p, e.f, n, Some(reg), pf);
    PatchedApart(c, p, e.f, n, Some(reg), pf, e.t);
    PatchedApart(c, p, e.f, n, Some(reg), pf, s.jpc) by { assert Apart(s.jpc, e.f); }
    PatchedPaired(c, p, e.f, n, Some(reg), pf);
    PatchListSpec(p, e.t, n, Some(reg), pt);
    PatchedFits(p, q, e.t, n, Some(reg), pt);
    PatchedApart(p, q, e.t, n, Some(reg), pt, s.jpc) by { assert Apart(s.jpc, e.t); }
    PatchedPaired(p, q, e.t, n, Some(reg), pt);
    FitsTrans(q, p, c);
    assert c[..n] == c;
    FirstExits(c, p, q, e.f, e.t, reg, pf, pt);
    SecondExits(c, p, q, e.t, e.f, reg, pf, pt);
    forall i: nat | i < n && i !in Owned(s, e) && !(i + 1 in Owned(s, e) && c[i].TestSet?) ensures q[i] == c[i] {
      assert p[i] == c[i];
    }
    forall i: nat | i < n && !c[i].Jmp? && !c[i].TestSet? ensures q[i] == c[i] {
      assert p[i] == c[i];
    }
    forall i: nat | i < n && i !in e.t && i !in e.f && !((i + 1 in e.t || i + 1 in e.f) && c[i].TestSet?) ensures q[i] == c[i] {
      assert p[i] == c[i];
    }
    ExitsLost(s, e, s.(code := q), reg, pf, pt);
    hide NoneLost, ExitsPatched, Patched, Fits;
  }

  /** All exits have been fixed. */
  lemma ExitsLost(s: Fs, e: Exp, t: Fs, reg: nat, pf: int, pt: int)
    requires ListOk(s.code, e.t) && ListOk(s.code, e.f) && Inert(e.k) && t == s.(code := t.code) && |t.code| == |s.code|
    requires ExitsPatched(s.code, t.code, e.f, reg, pf) && ExitsPatched(s.code, t.code, e.t, reg, pt)
    requires Landing(s.code, pf) && Landing(s.code, pt)
    requires forall i: nat :: i < |s.code| && i !in e.t && i !in e.f && !((i + 1 in e.t || i + 1 in e.f) && s.code[i].TestSet?) ==> t.code[i] == s.code[i]
    ensures NoneLost(s, e, t, Nothing)
  {
    ExitsFixed(s.code, t.code, e.f, reg, pf);
    ExitsFixed(s.code, t.code, e.t, reg, pt);
    hide ExitsPatched, ListOk;
    forall j: nat | Pending(t.code, j) && j !in Owned(t, Nothing) ensures j < Front(s, e) && Pending(s.code, j) && j !in Owned(s, e) {
      assert j !in e.t && j !in e.f;
      assert !((j + 1 in e.t || j + 1 in e.f) && s.code[j].TestSet?);
      assert t.code[j] == s.code[j];
    }
  }

  lemma ExitsFixed(code: seq<Instr>, later: seq<Instr>, l: seq<nat>, reg: nat, dest: int)
    requires ListOk(code, l) && ExitsPatched(code, later, l, reg, dest) && Landing(code, dest) && |later| == |code|
    ensures forall j <- l :: j < |later| && later[j] != Jmp(NO_JUMP)
    ensures forall j: nat {:trigger code[j]} :: j < |code| && j + 1 in l && code[j].TestSet? ==> !later[j].Jmp?
  {
    forall j <- l ensures j < |later| && later[j] != Jmp(NO_JUMP) { assert Pending(code, j); }
    forall j: nat | j < |code| && j + 1 in l && code[j].TestSet? ensures !later[j].Jmp? { assert Valued(code, j + 1); }
  }

  lemma FirstExits(c: seq<Instr>, p: seq<Instr>, q: seq<Instr>, l: seq<nat>, m: seq<nat>, reg: nat, pf: int, pt: int)
    requires ListOk(c, l) && ListOk(c, m) && ListOk(p, m) && Apart(m, l)
    requires Patched(c, p, l, |c|, Some(reg), pf) && Patched(p, q, m, |c|, Some(reg), pt)
    ensures ExitsPatched(c, q, l, reg, pf)
  {
    forall j <- l
      ensures j < |c| && q[j] == PatchedJump(c, j, |c|, pf)
      ensures !(j >= 1 && q[j - 1].TestSet? && !Valued(c, j))
      ensures Valued(c, j) ==> q[j - 1] == PatchedTest(c[j - 1], Some(reg))
    {
      assert Pending(c, j);
      assert p[j] == PatchedJump(c, j, |c|, pf);
      assert q[j] == p[j];
      if j >= 1 {
        assert p[j - 1] == p[j - 1];
        assert q[j - 1] == q[j - 1];
        if j - 1 in l { assert Pending(c, j - 1); }
        if j - 1 in m { assert Pending(c, j - 1); }
      }
    }
  }

  lemma SecondExits(c: seq<Instr>, p: seq<Instr>, q: seq<Instr>, l: seq<nat>, m: seq<nat>, reg: nat, pf: int, pt: int)
    requires ListOk(c, l) && ListOk(p, l) && ListOk(c, m) && Apart(l, m)
    requires Patched(c, p, m, |c|, Some(reg), pf) && Patched(p, q, l, |c|, Some(reg), pt)
    requires forall j <- l :: (Valued(p, j) <==> Valued(c, j)) && (Valued(c, j) ==> p[j - 1] == c[j - 1])
    ensures ExitsPatched(c, q, l, reg, pt)
  {
    forall j <- l
      ensures j < |c| && q[j] == PatchedJump(c, j, |c|, pt)
      ensures !(j >= 1 && q[j - 1].TestSet? && !Valued(c, j))
      ensures Valued(c, j) ==> q[j - 1] == PatchedTest(c[j - 1], Some(reg))
    {
      assert Pending(c, j) && Pending(p, j);
      assert q[j] == PatchedJump(p, j, |c|, pt);
      if j >= 1 {
        assert q[j - 1] == q[j - 1];
        if j - 1 in l { assert Pending(p, j - 1); }
      }
    }
  }

  /** A valued exit lands at the end with its value in the register. */
  lemma ValuedExit(x: Ctx, s: Fs, t: Fs, l: seq<nat>, reg: nat, dest: int, v: Value, log: seq<Event>)
    requires LeavesBy(x, s.code, l, Some(v), log) && Fits(x.code, t.code) && |t.code| == |s.code|
    requires ExitsPatched(s.code, t.code, l, reg, dest)
    ensures Holds(x.(live := x.live - {reg}), t, reg, v, None, log)
  {
    var n := |s.code|;
    var j: nat, regs :| j in l && Takes(x, s.code, j, regs, Some(v), log);
    assert t.code[j] == Jmp(n - (j + 1)) && t.code[j] != Jmp(NO_JUMP);
    Settled(x.code, t.code, j);
    var i := t.code[j - 1];
    assert x.code[j - 1] == i by {
      assert i == PatchedTest(s.code[j - 1], Some(reg));
      assert !Loose(t.code, j - 1);
    }
    assert Target(x.code, j) == n;
    var y := x.(live := x.live - {reg});
    assert Gets(y, n, AfterJump(x.code, j, regs), log);
    HoldsAt(y, t, reg, AfterJump(x.code, j, regs), v, log);
  }

  /** Any other exit goes to the instruction that loads its truth value. */
  lemma PlainExit(x: Ctx, s: Fs, t: Fs, l: seq<nat>, reg: nat, dest: nat, b: bool, log: seq<Event>)
    requires LeavesBy(x, s.code, l, None, log) && Fits(x.code, t.code) && |t.code| == |s.code|
    requires ExitsPatched(s.code, t.code, l, reg, dest)
    requires dest < |t.code| && t.code[dest] == LoadBool(reg, b, !b) && |t.code| == dest + (if b then 1 else 2)
    requires dest !in l
    ensures Holds(x.(live := x.live - {reg}), t, reg, Bool(b), None, log)
  {
    var j: nat, regs :| j in l && Takes(x, s.code, j, regs, None, log);
    FixedJump(x, s.code, t.code, j, dest, regs, None, log);
    Settled(x.code, t.code, dest);
    Advances(x, dest, regs, log, x.live - {reg});
    HoldsAt(x.(live := x.live - {reg}), t, reg, regs[reg := Bool(b)], Bool(b), log);
  }

  // ---- CloseJumps ---------------------------------------------------------

  /** The state in which the jumps of `e` are closed: the value of the last
      operand is in `reg`, or its jump has joined the others. */
  ghost predicate Closing(s: Fs, e: Exp, reg: nat) {
    match s case Fs(_, _, _, _, _) =>
    && ListsGood(s, e)
    && (e.k == VNonReloc(reg) || (e.k.VJmp? && e.k.pc in e.t && s.jpc == [] && e.k.pc + 1 == |s.code| && e.k.pc >= 1))
  }

  /** The two loads, before the exits are patched. */
  function Loaders(s: Fs, e: Exp, reg: nat): (Fs, int) {
    var (s1, fj) := if e.k.VJmp? then (s, []) else Jump(s);
    (PatchToHere(Emit(Emit(s1, LoadBool(reg, false, true)), LoadBool(reg, true, false)), fj), |s1.code|)
  }

  /** `CloseJumps`, in two steps. */
  lemma CloseForm(s: Fs, e: Exp, reg: nat)
    ensures var g := e.(k := VNonReloc(reg)); var (u, pf) := Loaders(s, e, reg);
            CloseJumps(s, e, reg) ==
            if e.t == [] && e.f == [] then s
            else if NeedValue(s.code, e.t) || NeedValue(s.code, e.f) then PatchExits(u, g, reg, pf, pf + 1)
            else PatchExits(s, g, reg, NO_JUMP, NO_JUMP)
  {
    hide Emit, PatchList, NeedValue;
  }

  lemma LoadersGood(s: Fs, e: Exp, reg: nat)
    requires Closing(s, e, reg)
    ensures var (t, pf) := Loaders(s, e, reg); var g := e.(k := VNonReloc(reg));
            && 0 <= pf && |t.code| == pf + 2 && ListsGood(t, g) && Since(s, g, t, g)
            && t.code[pf] == LoadBool(reg, false, true) && t.code[pf + 1] == LoadBool(reg, true, false)
            && t.freereg == s.freereg && t.k == s.k
            && SameList(s.code, t.code, e.t) && SameList(s.code, t.code, e.f)
            && (if e.k.VJmp? then t.jpc == [] && pf == |s.code|
                else t.jpc == [|s.code|] + s.jpc && pf == |s.code| + 1 && SameList(s.code, t.code, s.jpc)
                     && Pending(t.code, |s.code|) && !Valued(t.code, |s.code|))
  {
    hide Fits, ListOk, Paired, Since, Emit;
    var g := e.(k := VNonReloc(reg));
    var (s1, fj) := if e.k.VJmp? then (s, []) else Jump(s);
    var h := g.(f := g.f + fj);
    if e.k.VJmp? { SinceLists(s, g); NoList(s.code); assert h == g; } else { JumpGood(s, g); }
    HoldMore(s1, g, fj);
    TwoLoads(s1, h, reg);
    var t0 := Emit(Emit(s1, LoadBool(reg, false, true)), LoadBool(reg, true, false));
    var t := Loaders(s, e, reg).0;
    SinceTrans(s, g, s1, h, t0, h);
    HoldLess(t0, g, fj);
    SincePending(s, g, t0, fj);
    SameSub(s1.code, t0.code, h.f, g.f) by { HoldLess(s1, g, fj); }
    SameSub(s1.code, t0.code, h.f, fj) by { HoldLess(s1, g, fj); }
    SameListTrans(s.code, s1.code, t.code, e.t);
    SameListTrans(s.code, s1.code, t.code, e.f);
    if !e.k.VJmp? {
      assert |s.code| in fj;
      SubList(s1.code, fj, s.jpc);
      SameSub(s1.code, t.code, fj, s.jpc);
      SameListTrans(s.code, s1.code, t.code, s.jpc);
      assert Pending(t.code, |s.code|) by { InList(t.code, fj, |s.code|); }
    }
  }

  lemma NoList(code: seq<Instr>)
    ensures ListOk(code, [])
  {}

  lemma InList(code: seq<Instr>, l: seq<nat>, j: nat)
    requires ListOk(code, l) && j in l
    ensures Pending(code, j)
  {}

  /** More jumps wait with the false exits. */
  lemma HoldMore(s: Fs, g: Exp, l: seq<nat>)
    requires ListsGood(s, g) && ListOk(s.code, l) && Apart(l, g.t) && Apart(l, g.f) && (s.jpc == [] || l == [])
    ensures ListsGood(s, g.(f := g.f + l))
  {
    hide Paired;
    forall j <- g.f ensures j !in l {}
    var m := g.f + l;
    forall i, j | 0 <= i < j < |m| ensures m[i] != m[j] {
      if i < |g.f| <= j { assert m[i] in g.f && m[j] == l[j - |g.f|] && m[j] in l; }
    }
    assert forall j <- m :: j in g.f || j in l;
  }

  lemma HoldLess(s: Fs, g: Exp, l: seq<nat>)
    requires ListsGood(s, g.(f := g.f + l))
    ensures ListsGood(s, g) && ListOk(s.code, l) && ListOk(s.code, g.f) && Apart(l, g.t) && Apart(l, g.f)
    ensures forall j <- l :: j in g.f + l
    ensures forall j <- g.f :: j in g.f + l
  {
    hide Paired;
    var m := g.f + l;
    assert forall j <- l :: j in m;
    assert forall j <- g.f :: j in m;
    forall i, j | 0 <= i < j < |g.f| ensures g.f[i] != g.f[j] { assert m[i] == g.f[i] && m[j] == g.f[j]; }
    forall i, j | 0 <= i < j < |l| ensures l[i] != l[j] { assert m[|g.f| + i] == l[i] && m[|g.f| + j] == l[j]; }
    forall j <- l ensures j !in g.f {
      var i :| 0 <= i < |l| && l[i] == j;
      assert m[|g.f| + i] == j;
      forall q | 0 <= q < |g.f| ensures g.f[q] != j { assert m[q] == g.f[q]; }
    }
  }

  lemma TwoLoads(s: Fs, g: Exp, reg: nat)
    requires ListsGood(s, g) && g.k == VNonReloc(reg) && s.jpc == []
    ensures var t := Emit(Emit(s, LoadBool(reg, false, true)), LoadBool(reg, true, false));
            && |t.code| == |s.code| + 2 && ListsGood(t, g) && Since(s, g, t, g) && t.jpc == []
            && t.code[|s.code|] == LoadBool(reg, false, true) && t.code[|s.code| + 1] == LoadBool(reg, true, false)
            && t.freereg == s.freereg && t.k == s.k
            && SameList(s.code, t.code, g.t) && SameList(s.code, t.code, g.f)
  {
    hide Fits, Paired, Emit;
    var i0, i1 := LoadBool(reg, false, true), LoadBool(reg, true, false);
    var s2 := Emit(s, i0);
    EmitGood(s, g, i0, VNonReloc(reg));
    assert g.(k := VNonReloc(reg)) == g;
    var s3 := Emit(s2, i1);
    EmitGood(s2, g, i1, VNonReloc(reg));
    hide ListOk;
    EmitKeeps(s2, i1, |s.code|);
    SinceTrans(s, g, s2, g, s3, g);
    SameListTrans(s.code, s2.code, s3.code, g.t);
    SameListTrans(s.code, s2.code, s3.code, g.f);
  }

  /** Pending again at the end of the code. */
  lemma SincePending(s: Fs, g: Exp, t: Fs, fj: seq<nat>)
    requires ListsGood(t, g) && Since(s, g, t, g.(f := g.f + fj)) && Inert(g.k) && t.jpc == []
    requires ListOk(t.code, fj) && Apart(fj, g.t) && Apart(fj, g.f)
    ensures ListsGood(PatchToHere(t, fj), g) && Since(s, g, PatchToHere(t, fj), g)
  {
    hide Fits, ListOk, Paired;
    assert t.jpc + fj == fj;
    PendingOwned(t, g, fj);
    hide Owned;
  }

  lemma PendingOwned(t: Fs, g: Exp, fj: seq<nat>)
    requires t.jpc == []
    ensures Owned(PatchToHere(t, fj), g) == Owned(t, g.(f := g.f + fj))
  {
    var u, h := PatchToHere(t, fj), g.(f := g.f + fj);
    assert t.jpc + fj == fj;
    assert forall j <- h.f :: j in g.f || j in fj;
    assert forall j <- fj :: j in h.f;
  }

  lemma EmitKeeps(s: Fs, i: Instr, q: nat)
    requires ListOk(s.code, s.jpc) && q < |s.code| && !s.code[q].Jmp? && !s.code[q].TestSet?
    ensures Emit(s, i).code[q] == s.code[q]
  {
    EmitSpec(s, i);
    assert Emit(s, i).code[..|s.code|][q] == Emit(s, i).code[q];
    Settled(Emit(s, i).code, s.code, q);
  }

  lemma SinceLists(s: Fs, g: Exp)
    requires ListsGood(s, g) && Inert(g.k)
    ensures Since(s, g, s, g)
  {
    assert s.code[..|s.code|] == s.code;
  }

  lemma SameListTrans(a: seq<Instr>, b: seq<Instr>, c: seq<Instr>, l: seq<nat>)
    requires SameList(a, b, l) && SameList(b, c, l)
    ensures SameList(a, c, l)
  {}

  lemma SameSub(a: seq<Instr>, b: seq<Instr>, l: seq<nat>, m: seq<nat>)
    requires SameList(a, b, l) && ListOk(a, m) && forall j <- m :: j in l
    ensures SameList(a, b, m)
  {
    assert forall j <- m :: Pending(b, j);
  }

  lemma CloseGood(s: Fs, e: Exp, reg: nat)
    requires Closing(s, e, reg)
    ensures var t := CloseJumps(s, e, reg);
            && Ready(t) && Since(s, e.(k := VNonReloc(reg)), t, Nothing) && t.freereg == s.freereg && t.k == s.k
  {
    hide Fits, ListOk, Paired, Since, Loaders, NeedValue, CloseJumps;
    var g := e.(k := VNonReloc(reg));
    CloseForm(s, e, reg);
    if e.t == [] && e.f == [] {
      SinceNothing(s, g);
    } else if NeedValue(s.code, e.t) || NeedValue(s.code, e.f) {
      var (u, pf) := Loaders(s, e, reg);
      LoadersGood(s, e, reg);
      PatchExitsGood(u, g, reg, pf, pf + 1);
      SinceTrans(s, g, u, g, PatchExits(u, g, reg, pf, pf + 1), Nothing);
    } else {
      PatchExitsGood(s, g, reg, NO_JUMP, NO_JUMP);
    }
  }

  lemma SinceNothing(s: Fs, g: Exp)
    requires ListsGood(s, g) && Inert(g.k) && g.t == g.f == []
    ensures Since(s, g, s, Nothing)
  {
    assert s.code[..|s.code|] == s.code;
  }

  /** Exits by a jump. */
  lemma CloseBy(x: Ctx, s: Fs, e: Exp, reg: nat, b: bool, carry: Option<Value>, log: seq<Event>)
    requires Closing(s, e, reg) && LeavesBy(x, s.code, ListOf(e, b), carry, log)
    requires Fits(x.code, CloseJumps(s, e, reg).code)
    ensures Holds(x.(live := x.live - {reg}), CloseJumps(s, e, reg), reg, if carry.Some? then carry.value else Bool(b), None, log)
  {
    hide Fits, ListOk, Paired, Since, Loaders, SameList, CloseJumps, PatchExits, LeavesBy, ExitsPatched;
    var g := e.(k := VNonReloc(reg));
    CloseForm(s, e, reg);
    LeavesSome(x, s.code, ListOf(e, b), carry, log);
    if NeedValue(s.code, e.t) || NeedValue(s.code, e.f) {
      CloseByLoaded(x, s, e, reg, b, carry, log);
    } else {
      hide NeedValue;
      var t := CloseJumps(s, e, reg);
      PatchExitsGood(s, g, reg, NO_JUMP, NO_JUMP);
      AllValued(x, s.code, ListOf(e, b), carry, log);
      ValuedExit(x, s, t, ListOf(e, b), reg, NO_JUMP, carry.value, log);
    }
  }

  lemma LeavesSome(x: Ctx, code: seq<Instr>, l: seq<nat>, carry: Option<Value>, log: seq<Event>)
    requires LeavesBy(x, code, l, carry, log)
    ensures l != []
  {}

  lemma AllValued(x: Ctx, code: seq<Instr>, l: seq<nat>, carry: Option<Value>, log: seq<Event>)
    requires LeavesBy(x, code, l, carry, log) && !NeedValue(code, l)
    ensures carry.Some?
  {}

  lemma CloseByLoaded(x: Ctx, s: Fs, e: Exp, reg: nat, b: bool, carry: Option<Value>, log: seq<Event>)
    requires Closing(s, e, reg) && LeavesBy(x, s.code, ListOf(e, b), carry, log)
    requires NeedValue(s.code, e.t) || NeedValue(s.code, e.f)
    requires e.t != [] || e.f != []
    requires Fits(x.code, CloseJumps(s, e, reg).code)
    ensures Holds(x.(live := x.live - {reg}), CloseJumps(s, e, reg), reg, if carry.Some? then carry.value else Bool(b), None, log)
  {
    hide Fits, Paired, Since, Loaders, NeedValue, CloseJumps, ListOk, ExitsPatched;
    var g := e.(k := VNonReloc(reg));
    CloseForm(s, e, reg);
    var t := CloseJumps(s, e, reg);
    var l := ListOf(e, b);
    var (u, pf) := Loaders(s, e, reg);
    LoadersGood(s, e, reg);
    PatchExitsGood(u, g, reg, pf, pf + 1);
    LeavesLater(x, s.code, u.code, l, l, carry, log, VTrue, Result(Bool(true), log));
    hide SameList, Leaves, Agree;
    var dest := if b then pf + 1 else pf;
    assert LeavesBy(x, u.code, l, carry, log);
    hide LeavesBy;
    assert t.code[dest] == u.code[dest];
    if carry.Some? {
      ValuedExit(x, u, t, l, reg, dest, carry.value, log);
    } else {
      assert ListOk(u.code, l);
      NotListed(u.code, l, dest);
      PlainExit(x, u, t, l, reg, dest, b, log);
    }
  }

  lemma NotListed(code: seq<Instr>, l: seq<nat>, i: nat)
    requires ListOk(code, l) && i < |code| && code[i] != Jmp(NO_JUMP)
    ensures i !in l
  {}

  /** The value of the last operand is in the register already. */
  lemma CloseOn(x: Ctx, s: Fs, e: Exp, reg: nat, v: Value, held: Option<Value>, log: seq<Event>)
    requires Closing(s, e, reg) && e.k == VNonReloc(reg) && Holds(x, s, reg, v, held, log)
    requires Fits(x.code, CloseJumps(s, e, reg).code)
    ensures Holds(x, CloseJumps(s, e, reg), reg, v, held, log)
  {
    hide Fits, ListOk, Paired, Since, SameList, Loaders, CloseJumps, Holds, NeedValue, ListsGood, PatchExits, ExitsPatched;
    CloseForm(s, e, reg);
    var g := e.(k := VNonReloc(reg));
    assert g == e;
    if e.t == [] && e.f == [] {
    } else if NeedValue(s.code, e.t) || NeedValue(s.code, e.f) {
      var (u, pf) := Loaders(s, e, reg);
      LoadersGood(s, e, reg);
      PatchExitsGood(u, e, reg, pf, pf + 1);
      OnLoaded(x, s, u, PatchExits(u, e, reg, pf, pf + 1), reg, v, held, log);
    } else {
      PatchExitsGood(s, e, reg, NO_JUMP, NO_JUMP);
      OnPatched(x, s, PatchExits(s, e, reg, NO_JUMP, NO_JUMP), reg, v, held, log);
    }
  }

  lemma OnLoaded(x: Ctx, s: Fs, u: Fs, t: Fs, reg: nat, v: Value, held: Option<Value>, log: seq<Event>)
    requires Holds(x, s, reg, v, held, log) && Fits(x.code, t.code)
    requires SameList(u.code, t.code, u.jpc) && SameList(s.code, u.code, s.jpc) && t.jpc == u.jpc && u.jpc == [|s.code|] + s.jpc
    requires !Valued(u.code, |s.code|)
    ensures Holds(x, t, reg, v, held, log)
  {
    hide Fits, Agree;
    var g := Exp(VNonReloc(reg), [], []);
    SameTwice(s, u, t, reg);
    if Leaves(x, s.code, s.jpc, held, log, g.k, Result(v, log)) {
      SameSub(u.code, t.code, u.jpc, s.jpc) by { SubList(u.code, u.jpc, s.jpc); }
      SameListTrans(s.code, u.code, t.code, s.jpc);
      LeavesLater(x, s.code, t.code, s.jpc, t.jpc, held, log, g.k, Result(v, log));
    } else {
      hide SameList, ListOk;
      var log0 :| Falls(x, s.code, Front(s, g), log0, g.k, Result(v, log));
      var n := |s.code|;
      var regs :| Gets(x, n, regs, log) && Get(regs, reg) == v;
      SkipJump(x, t, n, regs, reg, v, log);
    }
  }

  lemma OnPatched(x: Ctx, s: Fs, t: Fs, reg: nat, v: Value, held: Option<Value>, log: seq<Event>)
    requires Holds(x, s, reg, v, held, log) && SameList(s.code, t.code, s.jpc) && t.jpc == s.jpc && |t.code| == |s.code|
    ensures Holds(x, t, reg, v, held, log)
  {
    hide Agree;
    var g := Exp(VNonReloc(reg), [], []);
    if Leaves(x, s.code, s.jpc, held, log, g.k, Result(v, log)) {
      LeavesLater(x, s.code, t.code, s.jpc, t.jpc, held, log, g.k, Result(v, log));
    } else {
      hide SameList;
      var log0 :| Falls(x, s.code, Front(s, g), log0, g.k, Result(v, log));
      FallsLater(x, s.code, t.code, Front(s, g), log0, g.k, Result(v, log));
      assert Falls(x, t.code, Front(t, g), log0, g.k, Result(v, log));
    }
  }

  lemma SubList(code: seq<Instr>, l: seq<nat>, m: seq<nat>)
    requires ListOk(code, l) && |l| == |m| + 1 && l[1..] == m
    ensures ListOk(code, m) && forall j <- m :: j in l
  {
    assert forall i :: 0 <= i < |m| ==> m[i] == l[i + 1];
  }

  lemma SameTwice(s: Fs, u: Fs, t: Fs, reg: nat)
    requires SameList(u.code, t.code, u.jpc) && t.jpc == u.jpc && u.jpc == [|s.code|] + s.jpc
    requires !Valued(u.code, |s.code|)
    ensures u.jpc[1..] == s.jpc && Pending(t.code, |s.code|) && !Valued(t.code, |s.code|) && |s.code| in t.jpc
  {
    assert |s.code| in u.jpc;
  }

  /** The value is there; the jump over the loads stays pending. */
  lemma SkipJump(x: Ctx, t: Fs, n: nat, regs: Regs, reg: nat, v: Value, log: seq<Event>)
    requires Gets(x, n, regs, log) && Get(regs, reg) == v && Fits(x.code, t.code)
    requires Pending(t.code, n) && !Valued(t.code, n) && n in t.jpc
    ensures Holds(x, t, reg, v, None, log)
  {
    TakesJump(x, t.code, n, regs, log);
    assert Yields(x.env, t.code, VNonReloc(reg), regs, log) == Result(v, log);
    assert Leaves(x, t.code, t.jpc, None, log, VNonReloc(reg), Result(v, log));
  }

  /** Executing an unconditional pending jump. */
  lemma TakesJump(x: Ctx, code: seq<Instr>, n: nat, regs: Regs, log: seq<Event>)
    requires Gets(x, n, regs, log) && Fits(x.code, code) && Pending(code, n) && !Valued(code, n)
    ensures Takes(x, code, n, regs, None, log)
  {
    ReachesStep(x.env, x.code, x.c0, Conf(n, regs, log));
    if n >= 1 {
      if code[n - 1] == Jmp(NO_JUMP) { assert x.code[n - 1].Jmp?; } else { Settled(x.code, code, n - 1); }
    }
  }

  /** A comparison: its jump is one of the exits, and not to jump is false. */
  lemma CloseJump(x: Ctx, s: Fs, e: Exp, reg: nat, v: Value, log: seq<Event>)
    requires Good(s, e) && e.k.VJmp? && Ends(x, s, e, v, None, log)
    requires var e1 := e.(t := e.t + [e.k.pc]); Closing(s, e1, reg) && Fits(x.code, CloseJumps(s, e1, reg).code)
    ensures var e1 := e.(t := e.t + [e.k.pc]); Holds(x.(live := x.live - {reg}), CloseJumps(s, e1, reg), reg, v, None, log)
  {
    hide Good, Closing, CloseJumps, Loaders, Ends, Holds, Fits;
    CloseJumpCode(s, e, reg);
    var e1 := e.(t := e.t + [e.k.pc]);
    JumpEnd(x, s, Loaders(s, e1, reg).0, CloseJumps(s, e1, reg), e, Loaders(s, e1, reg).1, reg, v, log);
  }

  lemma CloseJumpCode(s: Fs, e: Exp, reg: nat)
    requires Good(s, e) && e.k.VJmp? && Closing(s, e.(t := e.t + [e.k.pc]), reg)
    ensures var pc := e.k.pc; var e1 := e.(t := e.t + [pc]); var t := CloseJumps(s, e1, reg); var (u, pf) := Loaders(s, e1, reg);
            && pc >= 1 && pc + 1 == |s.code| == pf && pf + 2 == |u.code| == |t.code|
            && u.code[pc - 1] == t.code[pc - 1] == s.code[pc - 1] && t.code[pc] == PatchedJump(u.code, pc, |u.code|, pf + 1)
            && t.code[pf] == LoadBool(reg, false, true) && t.code[pf + 1] == LoadBool(reg, true, false)
  {
    hide ListOk, Paired, Since, Loaders, SameList, CloseJumps;
    var pc := e.k.pc;
    var e1 := e.(t := e.t + [pc]);
    var g := e1.(k := VNonReloc(reg));
    var t := CloseJumps(s, e1, reg);
    assert pc in e1.t && !Valued(s.code, pc);
    assert NeedValue(s.code, e1.t);
    var (u, pf) := Loaders(s, e1, reg);
    LoadersGood(s, e1, reg);
    PatchExitsGood(u, g, reg, pf, pf + 1);
    CloseForm(s, e1, reg);
    SameCmp(s, g, u, t, pc - 1);
  }

  lemma JumpEnd(x: Ctx, s: Fs, u: Fs, t: Fs, e: Exp, pf: nat, reg: nat, v: Value, log: seq<Event>)
    requires Good(s, e) && e.k.VJmp? && Ends(x, s, e, v, None, log) && Fits(x.code, t.code)
    requires var pc := e.k.pc; pc + 1 == |s.code| == pf && pf + 2 == |u.code| == |t.code|
    requires u.code[e.k.pc - 1] == t.code[e.k.pc - 1] == s.code[e.k.pc - 1]
    requires t.code[e.k.pc] == PatchedJump(u.code, e.k.pc, |u.code|, pf + 1)
    requires t.code[pf] == LoadBool(reg, false, true) && t.code[pf + 1] == LoadBool(reg, true, false)
    ensures Holds(x.(live := x.live - {reg}), t, reg, v, None, log)
  {
    hide ListOk, Paired, Since, Leaves, Fits, Step, Yields;
    var pc := e.k.pc;
    var log0 :| Falls(x, s.code, Front(s, e), log0, e.k, Result(v, log));
    var regs :| Gets(x, pc - 1, regs, log0) && Yields(x.env, s.code, e.k, regs, log0) == Result(v, log);
    Settled(x.code, t.code, pc - 1);
    Settled(x.code, t.code, pc);
    var dest := CmpStep(x, s.code, pc, pf, regs, v, log0, log);
    Settled(x.code, t.code, dest);
    var y := x.(live := x.live - {reg});
    hide Agree;
    Advances(x, pc - 1, regs, log0, x.live);
    assert x.(live := x.live) == x;
    LoadStep(x, dest, reg, regs, v, log);
    HoldsAt(y, t, reg, regs[reg := v], v, log);
  }

  /** The comparison jumps to the load of its outcome, or goes on to the other. */
  lemma CmpStep(x: Ctx, code: seq<Instr>, pc: nat, pf: nat, regs: Regs, v: Value, log0: seq<Event>, log: seq<Event>) returns (dest: nat)
    requires 1 <= pc < |code| && pc + 1 == |code| == pf && pc < |x.code| && code[pc - 1].Cmp? && x.code[pc - 1] == code[pc - 1]
    requires x.code[pc] == Jmp(pf + 1 - (pc + 1)) && Yields(x.env, code, VJmp(pc), regs, log0) == Result(v, log)
    ensures v.Bool? && dest == (if v.b then pf + 1 else pf)
    ensures Step(x.env, x.code, Conf(pc - 1, regs, log0)) == Some(Conf(dest, regs, log))
  {
    dest := if v.b then pf + 1 else pf;
  }

  lemma LoadStep(x: Ctx, dest: nat, reg: nat, regs: Regs, v: Value, log: seq<Event>)
    requires Gets(x, dest, regs, log) && dest < |x.code| && v.Bool? && x.code[dest] == LoadBool(reg, v.b, !v.b)
    ensures Gets(x.(live := x.live - {reg}), if v.b then dest + 1 else dest + 2, regs[reg := v], log)
  {
    Advances(x, dest, regs, log, x.live - {reg});
  }

  lemma SameCmp(s: Fs, g: Exp, u: Fs, t: Fs, i: nat)
    requires Since(s, g, u, g) && Inert(g.k) && i < |s.code| && s.code[i].Cmp?
    requires i < |u.code| == |t.code|
    requires forall q: nat {:trigger t.code[q]} :: q < |u.code| && !u.code[q].Jmp? && !u.code[q].TestSet? ==> t.code[q] == u.code[q]
    ensures u.code[i] == s.code[i] && t.code[i] == s.code[i]
  {
    assert s.code[..|s.code|] == s.code;
    Settled(u.code, s.code, i);
  }
}
