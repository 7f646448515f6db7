/** Where control is while the code of an expression runs. */
module CodeExits {
  import opened CodeVm
  import opened CodeTree
  import opened CodeGen
  import opened CodeLists
  import opened CodeState

  /** A run under consideration: the final code, whatever it will be, started in
      `c0`; `regs` are the registers that matter, those in `live`. */
  datatype Ctx = Ctx(env: Env, code: seq<Instr>, c0: Conf, regs: Regs, live: set<nat>)

  ghost predicate Agree(x: Ctx, regs: Regs) {
    forall r <- x.live :: Get(regs, r) == Get(x.regs, r)
  }

  ghost predicate Gets(x: Ctx, pc: int, regs: Regs, log: seq<Event>) {
    Agree(x, regs) && Reaches(x.env, x.code, x.c0, Conf(pc, regs, log))
  }

  /** The value an expression has, given registers at the front of its code. */
  function Yields(env: Env, code: seq<Instr>, k: Kind, regs: Regs, log: seq<Event>): Result {
    match k
    case VTrue => Result(Bool(true), log)
    case VFalse => Result(Bool(false), log)
    case VKNum(n) => Result(Num(n), log)
    case VK(i) => Result(Const(env, i), log)
    case VNonReloc(r) => Result(Get(regs, r), log)
    case VReloc(pc) =>
      if pc < |code| && code[pc].GetGlobal? then
        var l := log + [Fetch(code[pc].g)]; Result(env.world(l), l)
      else if pc < |code| && code[pc].Not? then Result(Bool(IsFalse(Get(regs, code[pc].b))), log)
      else Result(Nil, log)
    case VJmp(pc) =>
      if 1 <= pc <= |code| && code[pc - 1].Cmp? then
        var i := code[pc - 1];
        var l := log + [Compared(i.op, GetRk(env, regs, i.x), GetRk(env, regs, i.y))];
        Result(Bool(!IsFalse(env.world(l)) == i.cond), l)
      else Result(Nil, log)
    case _ => Result(Nil, log)
  }

  /** A value that is where it is, without any instruction to come. */
  predicate Inert(k: Kind) {
    !k.VReloc? && !k.VJmp?
  }

  // ---- Three ways to get somewhere ----------------------------------------

  /** Control reaches `pos`, where the value can be had. */
  ghost predicate Falls(x: Ctx, code: seq<Instr>, pos: int, log: seq<Event>, k: Kind, r: Result) {
    exists regs :: Gets(x, pos, regs, log) && Yields(x.env, code, k, regs, log) == r
  }

  /** The value that the test of jump `j` can deliver, as things are. */
  function CarryOf(code: seq<Instr>, j: nat, regs: Regs): Option<Value> {
    if Valued(code, j) then Some(Get(regs, code[j - 1].b)) else None
  }

  /** The registers after the test of `j`, in the final code. */
  function AfterJump(final: seq<Instr>, j: nat, regs: Regs): Regs {
    if Valued(final, j) then regs[final[j - 1].a := Get(regs, final[j - 1].b)] else regs
  }

  /** Control takes jump `j`. */
  ghost predicate Takes(x: Ctx, code: seq<Instr>, j: nat, regs: Regs, carry: Option<Value>, log: seq<Event>) {
    && Agree(x, regs) && CarryOf(code, j, regs) == carry
    && Reaches(x.env, x.code, x.c0, Conf(Target(x.code, j), AfterJump(x.code, j, regs), log))
  }

  /** Control takes a jump of list `l`. */
  ghost predicate Leaves(x: Ctx, code: seq<Instr>, l: seq<nat>, carry: Option<Value>, log: seq<Event>, k: Kind, r: Result) {
    exists j: nat, regs :: j in l && Takes(x, code, j, regs, carry, log) && Yields(x.env, code, k, regs, log) == r
  }

  ghost predicate LeavesBy(x: Ctx, code: seq<Instr>, l: seq<nat>, carry: Option<Value>, log: seq<Event>) {
    Leaves(x, code, l, carry, log, VTrue, Result(Bool(true), log))
  }

  /** Control is about to execute what comes next. */
  ghost predicate At(x: Ctx, s: Fs, held: Option<Value>, log: seq<Event>) {
    || (held.None? && Falls(x, s.code, |s.code|, log, VTrue, Result(Bool(true), log)))
    || LeavesBy(x, s.code, s.jpc, held, log)
  }

  /** Control is at the end of the expression. */
  ghost predicate Ends(x: Ctx, s: Fs, e: Exp, v: Value, held: Option<Value>, log: seq<Event>) {
    || (held.None? && exists log0 :: Falls(x, s.code, Front(s, e), log0, e.k, Result(v, log)))
    || (Inert(e.k) && Leaves(x, s.code, s.jpc, held, log, e.k, Result(v, log)))
  }

  /** The code of the expression does what `o` says. */
  ghost predicate Exits(x: Ctx, s: Fs, e: Exp, o: Outcome) {
    match o.x
    case On(v, held) => Ends(x, s, e, v, held, o.log)
    case By(b, carry) => LeavesBy(x, s.code, ListOf(e, b), carry, o.log)
  }

  // ---- Moving along -------------------------------------------------------

  lemma InertYields(env: Env, code: seq<Instr>, later: seq<Instr>, k: Kind, regs: Regs, log: seq<Event>)
    requires Inert(k)
    ensures Yields(env, code, k, regs, log) == Yields(env, later, k, regs, log)
  {}

  lemma FallsLater(x: Ctx, code: seq<Instr>, later: seq<Instr>, pos: int, log: seq<Event>, k: Kind, r: Result)
    requires Falls(x, code, pos, log, k, r) && Inert(k)
    ensures Falls(x, later, pos, log, k, r)
  {
    var regs :| Gets(x, pos, regs, log) && Yields(x.env, code, k, regs, log) == r;
    InertYields(x.env, code, later, k, regs, log);
  }

  /** A list that has not been touched, or has grown. */
  lemma LeavesLater(x: Ctx, code: seq<Instr>, later: seq<Instr>, l: seq<nat>, m: seq<nat>, carry: Option<Value>, log: seq<Event>, k: Kind, r: Result)
    requires Leaves(x, code, l, carry, log, k, r) && Inert(k) && SameList(code, later, l) && forall j <- l :: j in m
    ensures Leaves(x, later, m, carry, log, k, r)
  {
    var j: nat, regs :| j in l && Takes(x, code, j, regs, carry, log) && Yields(x.env, code, k, regs, log) == r;
    InertYields(x.env, code, later, k, regs, log);
    assert Takes(x, later, j, regs, carry, log);
  }

  /** Values taken away from a list. */
  lemma LeavesRemoved(x: Ctx, code: seq<Instr>, later: seq<Instr>, l: seq<nat>, carry: Option<Value>, log: seq<Event>)
    requires LeavesBy(x, code, l, carry, log) && forall j <- l :: !Valued(later, j)
    ensures LeavesBy(x, later, l, None, log)
  {
    var j: nat, regs :| j in l && Takes(x, code, j, regs, carry, log);
    assert Takes(x, later, j, regs, None, log);
    assert Yields(x.env, later, VTrue, regs, log) == Result(Bool(true), log);
  }

  /** In the final code a settled instruction is itself. */
  lemma Settled(final: seq<Instr>, code: seq<Instr>, i: nat)
    requires Fits(final, code) && i < |code| && code[i] != Jmp(NO_JUMP) && !code[i].TestSet?
    ensures i < |final| && final[i] == code[i]
  {}

  /** A jump that has been fixed, and delivers nothing. */
  lemma FixedJump(x: Ctx, code: seq<Instr>, fixed: seq<Instr>, j: nat, dest: nat, regs: Regs, carry: Option<Value>, log: seq<Event>)
    requires Takes(x, code, j, regs, carry, log) && Fits(x.code, fixed) && j < |fixed|
    requires fixed[j] == Jmp(dest - (j + 1)) && dest != j && !Valued(fixed, j)
    ensures Gets(x, dest, regs, log)
  {
    Settled(x.code, fixed, j);
    if j >= 1 {
      if fixed[j - 1] == Jmp(NO_JUMP) { assert x.code[j - 1].Jmp?; } else { Settled(x.code, fixed, j - 1); }
    }
    assert AfterJump(x.code, j, regs) == regs;
    assert Target(x.code, j) == dest;
  }

  /** Once the next instruction is there, all pending jumps have come to it. */
  lemma Lands(x: Ctx, s: Fs, i: Instr, carry: Option<Value>, log: seq<Event>, k: Kind, r: Result)
    requires ListOk(s.code, s.jpc) && Leaves(x, s.code, s.jpc, carry, log, k, r) && Inert(k)
    requires Fits(x.code, Emit(s, i).code[..|s.code|])
    ensures Falls(x, s.code, |s.code|, log, k, r)
  {
    EmitSpec(s, i);
    var n := |s.code|;
    var fixed := Emit(s, i).code[..n];
    var j: nat, regs :| j in s.jpc && Takes(x, s.code, j, regs, carry, log) && Yields(x.env, s.code, k, regs, log) == r;
    assert Pending(s.code, j);
    assert fixed[j] == PatchedJump(s.code, j, n, n);
    if j >= 1 { assert fixed[j - 1] == fixed[j - 1]; }
    FixedJump(x, s.code, fixed, j, n, regs, carry, log);
  }

  lemma LandsAt(x: Ctx, s: Fs, i: Instr, held: Option<Value>, log: seq<Event>)
    requires ListOk(s.code, s.jpc) && At(x, s, held, log)
    requires Fits(x.code, Emit(s, i).code[..|s.code|])
    ensures Falls(x, s.code, |s.code|, log, VTrue, Result(Bool(true), log))
  {
    if LeavesBy(x, s.code, s.jpc, held, log) {
      Lands(x, s, i, held, log, VTrue, Result(Bool(true), log));
    }
  }

  lemma LandsEnd(x: Ctx, s: Fs, e: Exp, i: Instr, v: Value, held: Option<Value>, log: seq<Event>)
    requires ListOk(s.code, s.jpc) && Inert(e.k) && Ends(x, s, e, v, held, log)
    requires Fits(x.code, Emit(s, i).code[..|s.code|])
    ensures Falls(x, s.code, |s.code|, log, e.k, Result(v, log))
  {
    if Leaves(x, s.code, s.jpc, held, log, e.k, Result(v, log)) {
      Lands(x, s, i, held, log, e.k, Result(v, log));
    } else {
      var log0 :| Falls(x, s.code, Front(s, e), log0, e.k, Result(v, log));
      var regs :| Gets(x, |s.code|, regs, log0) && Yields(x.env, s.code, e.k, regs, log0) == Result(v, log);
    }
  }

  /** One instruction further. */
  lemma Advances(x: Ctx, pc: nat, regs: Regs, log: seq<Event>, live: set<nat>)
    requires Gets(x, pc, regs, log) && pc < |x.code| && live <= x.live
    requires forall r <- live :: Get(Step(x.env, x.code, Conf(pc, regs, log)).value.regs, r) == Get(regs, r)
    ensures var d := Step(x.env, x.code, Conf(pc, regs, log)).value; Gets(x.(live := live), d.pc, d.regs, d.log)
  {
    ReachesStep(x.env, x.code, x.c0, Conf(pc, regs, log));
  }

  /** Fewer registers matter. */
  lemma EndsLess(x: Ctx, s: Fs, e: Exp, v: Value, held: Option<Value>, log: seq<Event>, live: set<nat>)
    requires Ends(x, s, e, v, held, log) && live <= x.live
    ensures Ends(x.(live := live), s, e, v, held, log)
  {
    var y := x.(live := live);
    if held.None? && exists log0 :: Falls(x, s.code, Front(s, e), log0, e.k, Result(v, log)) {
      var log0 :| Falls(x, s.code, Front(s, e), log0, e.k, Result(v, log));
      var regs :| Gets(x, Front(s, e), regs, log0) && Yields(x.env, s.code, e.k, regs, log0) == Result(v, log);
      assert Gets(y, Front(s, e), regs, log0);
      assert Falls(y, s.code, Front(s, e), log0, e.k, Result(v, log));
    } else {
      var j: nat, regs :| j in s.jpc && Takes(x, s.code, j, regs, held, log) && Yields(x.env, s.code, e.k, regs, log) == Result(v, log);
      assert Takes(y, s.code, j, regs, held, log);
    }
  }
}
