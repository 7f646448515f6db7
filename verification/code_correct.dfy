/** The generated code does what `Out` says, for every expression. */
module CodeCorrect {
  import opened CodeVm
  import opened CodeTree
  import opened CodeGen
  import opened CodeLists
  import opened CodeState
  import opened CodeExits
  import opened CodeClose
  import opened CodeOperand
  import opened CodeTests
  import opened CodeNegation

  /** Locals live in the registers of active local variables. */
  predicate LocalsBelow(e: Expr, n: nat) {
    match e
    case ELocal(r) => r < n
    case ENot(a) => LocalsBelow(a, n)
    case ELogic(_, a, b) => LocalsBelow(a, n) && LocalsBelow(b, n)
    case ECompare(_, a, b) => LocalsBelow(a, n) && LocalsBelow(b, n)
    case _ => true
  }

  /** An expression compiled up to `luaK_dischargevars`, with which every use of
      it begins. */
  function Compiled(s: Fs, e: Expr): (Fs, Exp) {
    var (t, f) := Gen(s, e);
    DischargeVars(t, f)
  }

  // ---- The state after compiling ------------------------------------------

  /** What compiling `e` in state `s` leaves. */
  ghost predicate Sound(s: Fs, e: Expr, t: Fs, f: Exp) {
    match s case Fs(_, _, _, _, _) =>
    && Good(t, f) && Since(s, Nothing, t, f) && Base(t, f) == s.freereg && t.k == Consts(e, s.k)
    && ShapeIs(t, f.k, ShapeOf(e)) && (f.t != [] <==> Jumps(e, true)) && (f.f != [] <==> Jumps(e, false))
  }

  lemma {:induction false} GenGood(s: Fs, e: Expr)
    requires Ready(s) && LocalsBelow(e, s.nactvar)
    ensures var (t, f) := Compiled(s, e); Sound(s, e, t, f)
    decreases e
  {
    hide Fits, ListOk, Paired, Since, Good, ShapeIs;
    match e
    case ENot(a) =>
      GenGood(s, a);
      NotGood(s, a);
    case ELogic(op, a, b) =>
      GenGood(s, a);
      var (s1, e1) := Compiled(s, a);
      GoodReady(s1, e1);
      SinceActive(s, Nothing, s1, e1);
      GoIfGood(s1, e1, op, ShapeOf(a));
      var (s2, e2) := GoIf(s1, e1, op);
      SinceActive(s1, e1, s2, e2.(k := VTrue));
      GenGood(s2, b);
      LogicGood(s, op, a, b);
    case ECompare(op, a, b) =>
      GenGood(s, a);
      var (s1, e1) := Compiled(s, a);
      GoodReady(s1, e1);
      SinceActive(s, Nothing, s1, e1);
      ExpToRkGood(s1, e1);
      var (s2, e2) := ExpToRk(s1, e1);
      SinceActive(s1, e1, s2, Nothing);
      GenGood(s2, b);
      CompareGood(s, op, a, b);
    case _ => LeafGood(s, e);
  }

  lemma GoodReady(s: Fs, e: Exp)
    requires Good(s, e)
    ensures Ready(s)
  {}

  lemma SinceActive(s: Fs, e: Exp, t: Fs, f: Exp)
    requires Since(s, e, t, f)
    ensures t.nactvar == s.nactvar && s.k <= t.k
  {}

  predicate Leaf(e: Expr) {
    !e.ENot? && !e.ELogic? && !e.ECompare?
  }

  lemma ReadyLists(s: Fs)
    requires Ready(s)
    ensures forall k :: ListsGood(s, Exp(k, [], []))
    ensures Since(s, Nothing, s, Nothing)
  {
    assert s.code[..|s.code|] == s.code;
  }

  lemma LeafGood(s: Fs, e: Expr)
    requires Ready(s) && Leaf(e) && LocalsBelow(e, s.nactvar)
    ensures var (t, f) := Compiled(s, e); Sound(s, e, t, f)
  {
    hide Sound;
    if e.EGlobal? { GlobalLeaf(s, e.g); }
    else if e.ECall? { CallLeaf(s, e.g); }
    else { SimpleSound(s, e); }
  }

  lemma GlobalLeaf(s: Fs, g: nat)
    requires Ready(s)
    ensures var (t, f) := Compiled(s, EGlobal(g)); Sound(s, EGlobal(g), t, f)
  {
    hide Fits, ListOk, Paired, Emit, Since;
    GlobalGood(s, g);
  }

  lemma CallLeaf(s: Fs, g: nat)
    requires Ready(s)
    ensures var (t, f) := Compiled(s, ECall(g)); Sound(s, ECall(g), t, f)
  {
    hide Fits, ListOk, Paired, Since, CallCode, Compiled;
    CallGood(s, g);
  }

  lemma SimpleSound(s: Fs, e: Expr)
    requires Ready(s) && Leaf(e) && LocalsBelow(e, s.nactvar) && !e.EGlobal? && !e.ECall?
    ensures var (t, f) := Compiled(s, e); Sound(s, e, t, f)
  {
    hide Fits, ListOk, Paired, Compiled;
    ReadyLists(s);
    SimpleLeaf(s, e);
    var (t, f) := Compiled(s, e);
    SinceK(s, t, f.k);
    hide Since;
  }

  lemma GlobalGood(s: Fs, g: nat)
    requires Ready(s)
    ensures var t, f := Emit(s, GetGlobal(0, g)), Exp(VReloc(|s.code|), [], []);
            && Good(t, f) && Since(s, Nothing, t, f) && t.freereg == s.freereg && t.k == s.k
            && |t.code| == |s.code| + 1 && t.code[|s.code|] == GetGlobal(0, g)
  {
    hide Fits, ListOk, Paired, Emit;
    ReadyLists(s);
    EmitGood(s, Nothing, GetGlobal(0, g), VReloc(|s.code|));
  }

  /** Leaves without code. */
  lemma SimpleLeaf(s: Fs, e: Expr)
    requires Ready(s) && Leaf(e) && LocalsBelow(e, s.nactvar) && !e.EGlobal? && !e.ECall?
    ensures var (t, f) := Compiled(s, e);
            && Good(t, f) && t == s.(k := Consts(e, s.k)) && Base(t, f) == s.freereg
            && ShapeIs(t, f.k, ShapeOf(e)) && f.t == [] && f.f == [] && Inert(f.k)
  {
    hide Paired, ListOk;
    NoJumps(s.code);
    if e.EStr? { StrLeaf(s, e.s); }
  }

  lemma NoJumps(code: seq<Instr>)
    ensures ListOk(code, [])
  {}

  lemma StrLeaf(s: Fs, x: string)
    requires Ready(s)
    ensures var (t, f) := Compiled(s, EStr(x));
            && Good(t, f) && t == s.(k := Consts(EStr(x), s.k)) && Base(t, f) == s.freereg
            && ShapeIs(t, f.k, SStr(x)) && f.t == [] && f.f == [] && Inert(f.k)
  {
    hide Paired, ListOk;
    NoJumps(s.code);
    IndexAdded(s.k, Str(x));
  }

  lemma IndexAdded(k: seq<Value>, v: Value)
    ensures var r := AddConst(k, v); var i := IndexOf(k, v); i < |r| && r[i] == v && IndexOf(r, v) == i
  {
    var r := AddConst(k, v);
    var i, j := IndexOf(k, v), IndexOf(r, v);
    assert r[i] == v;
    assert forall q :: 0 <= q < i ==> r[q] == k[q] != v;
  }

  lemma SinceK(s: Fs, t: Fs, k: Kind)
    requires Since(s, Nothing, s, Nothing) && t == s.(k := t.k) && s.k <= t.k && Inert(k)
    ensures Since(s, Nothing, t, Exp(k, [], []))
  {}

  /** A call: the function goes to the next register, and so does the result. */
  function CallCode(s: Fs, g: nat): Fs {
    Emit(Emit(s, GetGlobal(s.freereg, g)), Call(s.freereg)).(freereg := s.freereg + 1)
  }

  lemma CallForm(s: Fs, g: nat)
    ensures Gen(s, ECall(g)) == (CallCode(s, g), Exp(VCall(|s.code| + 1), [], []))
  {
    hide Emit, ExpToNextReg;
    GlobalNext(s, g);
    EmitReg(Emit(s, GetGlobal(s.freereg, g)), Call(s.freereg), s.freereg + 1);
    EmitSetA(s, g, s.freereg);
  }

  /** The function in the next register. */
  lemma GlobalNext(s: Fs, g: nat)
    ensures var fr := s.freereg;
            ExpToNextReg(s, Exp(VGlobal(g), [], [])) == (Emit(s, GetGlobal(fr, g)).(freereg := fr + 1), Exp(VNonReloc(fr), [], []))
  {
    hide Emit, CloseJumps;
    var n := |s.code|;
    var fr := s.freereg;
    EmitSetA(s, g, fr);
    var (s1, e1) := DischargeVars(s, Exp(VGlobal(g), [], []));
    assert (s1, e1) == (Emit(s, GetGlobal(0, g)), Exp(VReloc(n), [], []));
    var s2 := s1.(freereg := fr + 1);
    DischargeTwice(s2, e1);
    var s3 := s2.(code := Emit(s, GetGlobal(fr, g)).code);
    var e3 := Exp(VNonReloc(fr), [], []);
    assert DischargeTo(s2, e1, fr) == (s3, e3);
    CloseNone(s3, e3, fr);
  }

  lemma CloseNone(s: Fs, e: Exp, reg: nat)
    requires e.t == [] && e.f == []
    ensures CloseJumps(s, e, reg) == s
  {}

  lemma EmitSetA(s: Fs, g: nat, reg: nat)
    ensures var t := Emit(s, GetGlobal(0, g)); var u := Emit(s, GetGlobal(reg, g)); var n := |s.code|;
            && |t.code| == n + 1 && |u.code| == n + 1 && t.code[n] == GetGlobal(0, g) && t.freereg == s.freereg
            && t.code[n := GetGlobal(reg, g)] == u.code && u == t.(code := u.code)
  {
    hide PatchList;
    var p := PatchList(s.code, s.jpc, |s.code|, None, |s.code|);
    assert (p + [GetGlobal(0, g)])[|p| := GetGlobal(reg, g)] == p + [GetGlobal(reg, g)];
  }

  lemma EmitReg(s: Fs, i: Instr, n: nat)
    ensures Emit(s.(freereg := n), i) == Emit(s, i).(freereg := n)
  {
    hide PatchList;
  }

  lemma CallGood(s: Fs, g: nat)
    requires Ready(s)
    ensures var (t, f) := Compiled(s, ECall(g));
            && Good(t, f) && Since(s, Nothing, t, f) && Base(t, f) == s.freereg && t.k == s.k
            && f == Exp(VNonReloc(s.freereg), [], []) && t == CallCode(s, g)
  {
    hide Fits, ListOk, Paired, Since, Emit, SameList, Gen;
    CallForm(s, g);
    ReadyLists(s);
    var fr := s.freereg;
    var i := GetGlobal(fr, g);
    EmitGood(s, Nothing, i, VTrue);
    var s1 := Emit(s, i);
    EmitGood(s1, Nothing, Call(fr), VNonReloc(fr));
    var s2 := Emit(s1, Call(fr));
    SinceTrans(s, Nothing, s1, Nothing, s2, Exp(VNonReloc(fr), [], []));
    SinceFree(s, Nothing, s2, Exp(VNonReloc(fr), [], []), CallCode(s, g));
  }

  lemma NotGood(s: Fs, a: Expr)
    requires var (t, f) := Compiled(s, a); Sound(s, a, t, f)
    requires s.nactvar <= s.freereg
    ensures var (t, f) := Compiled(s, ENot(a)); var (t1, f1) := Compiled(s, a);
            (t, f) == CodeNot(t1, f1) && Sound(s, ENot(a), t, f)
  {
    hide Fits, ListOk, Paired, Negated, InvertJump, Emit, RemoveValues, ListsGood;
    var (r, q) := Gen(s, a);
    var (t1, f1) := Compiled(s, a);
    NotDischarged(r, q);
    SinceActive(s, Nothing, t1, f1);
    CodeNotGood(t1, f1, ShapeOf(a));
    var (t, f) := CodeNot(t1, f1);
    DischargeTwice(t, f);
    hide CodeNot, Since;
    assert NotShape(ShapeOf(a)) == ShapeOf(ENot(a));
    SinceTrans(s, Nothing, t1, f1, t, f);
  }

  lemma NotDischarged(s: Fs, e: Exp)
    ensures var (t, f) := DischargeVars(s, e); CodeNot(s, e) == CodeNot(t, f)
  {
    hide Emit, RemoveValues, InvertJump, DischargeToAnyReg;
    var (t, f) := DischargeVars(s, e);
    DischargeTwice(t, f);
  }

  // ---- and, or ------------------------------------------------------------

  lemma GoIfDischarged(s: Fs, e: Exp, truth: bool)
    ensures var (t, f) := DischargeVars(s, e); GoIf(s, e, truth) == GoIf(t, f, truth)
  {
    hide Emit, InvertJump, JumpOnCond;
    var (t, f) := DischargeVars(s, e);
    DischargeTwice(t, f);
  }

  lemma LogicForm(s: Fs, op: bool, a: Expr, b: Expr)
    requires Discharged(Compiled(GoIf(Compiled(s, a).0, Compiled(s, a).1, op).0, b).1.k)
    ensures var (s1, e1) := Compiled(s, a); var (s2, e2) := GoIf(s1, e1, op); var (s4, e4) := Compiled(s2, b);
            Compiled(s, ELogic(op, a, b)) == (s4, SetList(e4, !op, ListOf(e4, !op) + ListOf(e2, !op)))
  {
    hide GoIf, Emit, DischargeVars;
    var (r, q) := Gen(s, a);
    GoIfDischarged(r, q, op);
    var (s1, e1) := Compiled(s, a);
    var (s2, e2) := GoIf(s1, e1, op);
    var (s4, e4) := Compiled(s2, b);
    DischargeTwice(s4, SetList(e4, !op, ListOf(e4, !op) + ListOf(e2, !op)));
  }

  /** The jumps of the first operand wait while the second is compiled. */
  lemma WaitingLists(s2: Fs, l: seq<nat>, g: Exp, s4: Fs, e4: Exp, truth: bool)
    requires ListsGood(s2, g) && g == SetList(Nothing, truth, l)
    requires Good(s4, e4) && Since(s2, Nothing, s4, e4)
    ensures var e5 := SetList(e4, truth, ListOf(e4, truth) + l);
            && Good(s4, e5) && Since(s2, g, s4, e5) && SameList(s2.code, s4.code, l) && Base(s4, e5) == Base(s4, e4)
  {
    hide Fits, Paired, Since;
    forall j <- l ensures j < |s2.code| && j !in s2.jpc { InList(s2.code, l, j); }
    forall j <- s2.jpc ensures Pending(s2.code, j) { InList(s2.code, s2.jpc, j); }
    SinceApart(s2, Nothing, s4, e4, l);
    assert ListOk(s4.code, ListOf(e4, truth) + l) by { JoinLists(s4.code, ListOf(e4, truth), l); }
    hide ListOk, SameList;
    WaitingGood(s4, e4, l, truth);
    hide Good;
    WaitingSince(s2, l, g, s4, e4, truth);
  }

  lemma WaitingGood(s: Fs, e: Exp, l: seq<nat>, truth: bool)
    requires Good(s, e) && ListOk(s.code, ListOf(e, truth) + l) && forall j <- l :: j !in Owned(s, e)
    ensures Good(s, SetList(e, truth, ListOf(e, truth) + l))
  {
    hide Paired, ListOk;
    assert forall j <- ListOf(e, truth) + l :: j in ListOf(e, truth) || j in l;
  }

  lemma WaitingSince(s2: Fs, l: seq<nat>, g: Exp, s4: Fs, e4: Exp, truth: bool)
    requires Since(s2, Nothing, s4, e4) && g == SetList(Nothing, truth, l)
    ensures Since(s2, g, s4, SetList(e4, truth, ListOf(e4, truth) + l))
  {
    hide Fits;
    var e5 := SetList(e4, truth, ListOf(e4, truth) + l);
    assert Owned(s4, e5) <= Owned(s4, e4) + (set j | j in l);
    assert Owned(s2, Nothing) <= Owned(s2, g);
  }

  lemma LogicGood(s: Fs, op: bool, a: Expr, b: Expr)
    requires Ready(s)
    requires var (t, f) := Compiled(s, a); Sound(s, a, t, f)
    requires var (s1, e1) := Compiled(s, a); var (s2, e2) := GoIf(s1, e1, op); var (t, f) := Compiled(s2, b);
             Sound(s2, b, t, f)
    ensures var (s1, e1) := Compiled(s, a); var (s2, e2) := GoIf(s1, e1, op); var (s4, e4) := Compiled(s2, b);
            var (t, f) := Compiled(s, ELogic(op, a, b));
            && (t, f) == (s4, SetList(e4, !op, ListOf(e4, !op) + ListOf(e2, !op)))
            && SameList(s2.code, s4.code, ListOf(e2, !op))
            && Sound(s, ELogic(op, a, b), t, f)
  {
    hide Fits, ListOk, Paired, Since, GoIf, Gen, SameList, ShapeIs, Compiled;
    var (s1, e1) := Compiled(s, a);
    SinceActive(s, Nothing, s1, e1);
    GoIfGood(s1, e1, op, ShapeOf(a));
    var (s2, e2) := GoIf(s1, e1, op);
    var (s4, e4) := Compiled(s2, b);
    LogicForm(s, op, a, b);
    var g := e2.(k := VTrue);
    WaitingLists(s2, ListOf(e2, !op), g, s4, e4, !op);
    var f := SetList(e4, !op, ListOf(e4, !op) + ListOf(e2, !op));
    SinceTrans(s1, e1, s2, g, s4, f);
    SinceTrans(s, Nothing, s1, e1, s4, f);
  }

  // ---- Comparisons --------------------------------------------------------

  /** An operand that has been put in place stays there. */
  lemma StableRk(s: Fs, e: Exp, fr: nat)
    requires OperandKind(s, e, fr)
    ensures forall t: Fs :: ExpToRk(t, e) == (t, e)
  {
    forall t: Fs ensures ExpToRk(t, e) == (t, e) {
      DischargeTwice(t, e);
      assert ExpToVal(t, e) == (t, e);
      assert ExpToAnyReg(t, e) == (t, e) || e.k.VK?;
    }
  }

  lemma CompareForm(s: Fs, op: CompareOp, a: Expr, b: Expr, fr: nat)
    requires var (s1, e1) := Compiled(s, a); var (s2, e2) := ExpToRk(s1, e1); OperandKind(s2, e2, fr)
    ensures var (s1, e1) := Compiled(s, a); var (s2, e2) := ExpToRk(s1, e1);
            var (s3, e3) := Compiled(s2, b); var (s4, e4) := ExpToRk(s3, e3);
            var (t, _) := CondJump(FreeExp(FreeExp(s4, e4), e2), CompareInstr(op, RkOf(e2), RkOf(e4)));
            Compiled(s, ECompare(op, a, b)) == (t, Exp(VJmp(|t.code| - 1), [], []))
  {
    hide ExpToRk, CondJump, DischargeVars, OperandKind;
    var (r, q) := Gen(s, a);
    ExpToRkDischarged(r, q);
    var (s1, e1) := Compiled(s, a);
    var (s2, e2) := ExpToRk(s1, e1);
    StableRk(s2, e2, fr);
    var (r3, q3) := Gen(s2, b);
    ExpToRkDischarged(r3, q3);
    var (s3, e3) := Compiled(s2, b);
    var (s4, e4) := ExpToRk(s3, e3);
    var (t, _) := CondJump(FreeExp(FreeExp(s4, e4), e2), CompareInstr(op, RkOf(e2), RkOf(e4)));
    assert Gen(s, ECompare(op, a, b)) == CodeComp(r3, op, e2, q3);
    assert CodeComp(r3, op, e2, q3) == (t, Exp(VJmp(|t.code| - 1), [], []));
    DischargeTwice(t, Exp(VJmp(|t.code| - 1), [], []));
  }

  /** The constants of an operand. */
  lemma OperandConstsAre(s: Fs, e: Expr, f: Exp)
    requires Good(s, f) && Base(s, f) >= s.nactvar
    requires ShapeIs(s, f.k, ShapeOf(e)) && (f.t != [] <==> Jumps(e, true)) && (f.f != [] <==> Jumps(e, false))
    ensures ExpToRk(s, f).0.k == OperandConsts(e, s.k)
    ensures DirectKind(s, f) <==> Direct(e, s.k)
  {
    hide Fits, ListOk, Paired, ExpToReg, ExpToRk;
    ExpToRkForm(s, f);
    if !DirectKind(s, f) {
      var u := s.(freereg := Base(s, f) + 1);
      GoodReg(s, u, f);
      ExpToRegGood(u, f, Base(s, f));
    }
  }

  lemma CompareGood(s: Fs, op: CompareOp, a: Expr, b: Expr)
    requires Ready(s)
    requires var (t, f) := Compiled(s, a); Sound(s, a, t, f)
    requires var (s1, e1) := Compiled(s, a); var (s2, e2) := ExpToRk(s1, e1); var (t, f) := Compiled(s2, b);
             Sound(s2, b, t, f)
    ensures var (t, f) := Compiled(s, ECompare(op, a, b)); Sound(s, ECompare(op, a, b), t, f)
  {
    hide Fits, ListOk, Paired, Since, Gen, SameList, Compiled, ExpToRk, CondJump, Emit, OperandKind, FreeExp, Good, Consts, OperandConsts;
    var (s1, e1) := Compiled(s, a);
    var (s2, e2) := ExpToRk(s1, e1);
    var (s3, e3) := Compiled(s2, b);
    var (s4, e4) := ExpToRk(s3, e3);
    CompareMid(s, op, a, b);
    var u := FreeExp(FreeExp(s4, e4), e2);
    TestGood(u, CompareInstr(op, RkOf(e2), RkOf(e4)));
    var (t, f) := Compiled(s, ECompare(op, a, b));
    SinceTrans(s3, e3, u, Nothing, t, f);
    SinceTrans(s2, Nothing, s3, e3, t, f);
    SinceTrans(s1, e1, s2, Nothing, t, f);
    SinceTrans(s, Nothing, s1, e1, t, f);
    CompareConsts(op, a, b, s.k);
  }

  lemma CompareConsts(op: CompareOp, a: Expr, b: Expr, k: seq<Value>)
    ensures Consts(ECompare(op, a, b), k) == OperandConsts(b, Consts(b, OperandConsts(a, Consts(a, k))))
  {}

  /** Both operands are in place. */
  lemma CompareMid(s: Fs, op: CompareOp, a: Expr, b: Expr)
    requires Ready(s)
    requires var (t, f) := Compiled(s, a); Sound(s, a, t, f)
    requires var (s1, e1) := Compiled(s, a); var (s2, e2) := ExpToRk(s1, e1); var (t, f) := Compiled(s2, b);
             Sound(s2, b, t, f)
    ensures var (s1, e1) := Compiled(s, a); var (s2, e2) := ExpToRk(s1, e1); var (s3, e3) := Compiled(s2, b);
            var (s4, e4) := ExpToRk(s3, e3); var u := FreeExp(FreeExp(s4, e4), e2);
            && Since(s1, e1, s2, Nothing) && Since(s3, e3, u, Nothing) && Ready(u) && u.freereg == s.freereg
            && u.k == OperandConsts(b, Consts(b, OperandConsts(a, Consts(a, s.k))))
            && var (t, _) := CondJump(u, CompareInstr(op, RkOf(e2), RkOf(e4)));
               Compiled(s, ECompare(op, a, b)) == (t, Exp(VJmp(|t.code| - 1), [], []))
  {
    hide Fits, ListOk, Paired, Since, Gen, SameList, Compiled, ExpToRk, CondJump, Emit;
    var (s1, e1) := Compiled(s, a);
    SinceActive(s, Nothing, s1, e1);
    ExpToRkGood(s1, e1);
    OperandConstsAre(s1, a, e1);
    var (s2, e2) := ExpToRk(s1, e1);
    SinceActive(s1, e1, s2, Nothing);
    var (s3, e3) := Compiled(s2, b);
    SinceActive(s2, Nothing, s3, e3);
    ExpToRkGood(s3, e3);
    OperandConstsAre(s3, b, e3);
    var (s4, e4) := ExpToRk(s3, e3);
    SinceActive(s3, e3, s4, Nothing);
    CompareForm(s, op, a, b, s.freereg);
    var u := FreeExp(FreeExp(s4, e4), e2);
    FreedOperands(s4, e4, e2, s2.freereg, s.freereg);
    SinceFree(s3, e3, s4, Nothing, u);
  }

  /** Both operands give their registers back, the second one first. */
  lemma FreedOperands(s: Fs, b: Exp, a: Exp, fr2: nat, fr: nat)
    requires Ready(s) && OperandKind(s, b, fr2) && fr >= s.nactvar
    requires a.k.VK? || a.k.VNonReloc?
    requires if a.k.VK? || a.k.r < s.nactvar then fr2 == fr else a.k.r == fr && fr2 == fr + 1
    ensures var u := FreeExp(FreeExp(s, b), a); u == s.(freereg := fr) && Ready(u)
  {
    hide Paired, ListOk;
  }

  /** A comparison and its jump, at the end of the code. */
  lemma TestGood(u: Fs, i: Instr)
    requires Ready(u) && i.Cmp?
    ensures var (t, _) := CondJump(u, i); var f := Exp(VJmp(|t.code| - 1), [], []);
            Good(t, f) && Since(u, Nothing, t, f) && t.freereg == u.freereg && t.k == u.k && |t.code| == |u.code| + 2
            && t.code[|u.code|] == i
  {
    hide Fits, Paired, Emit;
    ReadyLists(u);
    CondJumpGood(u, Nothing, i, true);
    var (t, l) := CondJump(u, i);
    var f := Exp(VJmp(|t.code| - 1), [], []);
    assert ListOk(t.code, []);
    assert Owned(t, f) == Owned(t, Left(Nothing, true, l));
    JumpFront(u, t, l, f);
  }

  lemma JumpFront(u: Fs, t: Fs, l: seq<nat>, f: Exp)
    requires Since(u, Nothing, t, Left(Nothing, true, l)) && f.k.VJmp? && |t.code| == |u.code| + 2
    requires Owned(t, f) == Owned(t, Left(Nothing, true, l))
    ensures Since(u, Nothing, t, f)
  {}
}
