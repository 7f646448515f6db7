/** The part of the virtual machine that expression code uses (`luaV_execute`). */
module CodeVm {

  datatype Option<+T> = None | Some(value: T)

  // ---- Values and events --------------------------------------------------

  datatype Value = Nil | Bool(b: bool) | Num(n: int) | Str(s: string) | Object(id: int)

  predicate IsFalse(v: Value) {
    v == Nil || v == Bool(false)
  }

  datatype CmpOp = OpEq | OpLt | OpLe

  /** What an instruction may ask of the rest of the world: the value of a
      global, the result of a call, the outcome of a comparison.  Any of them may
      run a metamethod, so each is logged with its operands. */
  datatype Event = Fetch(g: nat) | Invoke(f: Value) | Compared(op: CmpOp, x: Value, y: Value)

  /** The world answers according to everything that has happened so far. */
  datatype Env = Env(k: seq<Value>, world: seq<Event> -> Value)

  // ---- Instructions -------------------------------------------------------

  /** A register or a constant. */
  datatype Rk = R(r: nat) | K(i: nat)

  datatype Instr =
    | Move(a: nat, b: nat)
    | LoadK(a: nat, k: nat)
    | LoadBool(a: nat, v: bool, skip: bool)
    | LoadNil(a: nat, b: nat)
    | GetGlobal(a: nat, g: nat)
    | Not(a: nat, b: nat)
    | Call(a: nat)
    | Cmp(op: CmpOp, cond: bool, x: Rk, y: Rk)
    | Test(a: nat, c: bool)
    | TestSet(a: nat, b: nat, c: bool)
    | Jmp(sbx: int)

  /** `testTMode`: the next instruction is a jump that belongs to this one. */
  predicate IsTest(i: Instr) {
    i.Cmp? || i.Test? || i.TestSet?
  }

  // ---- Execution ----------------------------------------------------------

  type Regs = map<nat, Value>

  datatype Conf = Conf(pc: int, regs: Regs, log: seq<Event>)

  function Get(regs: Regs, r: nat): Value {
    if r in regs then regs[r] else Nil
  }

  function Const(env: Env, i: nat): Value {
    if i < |env.k| then env.k[i] else Nil
  }

  function GetRk(env: Env, regs: Regs, x: Rk): Value {
    match x case R(r) => Get(regs, r) case K(i) => Const(env, i)
  }

  /** A call leaves its result in the register of the function and nothing of
      use above it. */
  function AfterCall(regs: Regs, a: nat, v: Value): Regs {
    (map r | r in regs && r < a :: regs[r])[a := v]
  }

  function Target(code: seq<Instr>, pc: int): int {
    if 0 <= pc < |code| && code[pc].Jmp? then pc + 1 + code[pc].sbx else pc + 1
  }

  /** Where a test goes: its jump is the next instruction. */
  function Branch(code: seq<Instr>, pc: int, taken: bool): int {
    if taken then Target(code, pc + 1) else pc + 2
  }

  function Step(env: Env, code: seq<Instr>, c: Conf): Option<Conf> {
    if !(0 <= c.pc < |code|) then None else
      var next := c.(pc := c.pc + 1);
      match code[c.pc]
      case Move(a, b) => Some(next.(regs := c.regs[a := Get(c.regs, b)]))
      case LoadK(a, k) => Some(next.(regs := c.regs[a := Const(env, k)]))
      case LoadBool(a, v, skip) =>
        Some(Conf(if skip then c.pc + 2 else c.pc + 1, c.regs[a := Bool(v)], c.log))
      case LoadNil(a, b) => Some(next.(regs := map r | r in c.regs && !(a <= r <= b || r == b) :: c.regs[r]))
      case GetGlobal(a, g) =>
        var log := c.log + [Fetch(g)];
        Some(Conf(c.pc + 1, c.regs[a := env.world(log)], log))
      case Not(a, b) => Some(next.(regs := c.regs[a := Bool(IsFalse(Get(c.regs, b)))]))
      case Call(a) =>
        var log := c.log + [Invoke(Get(c.regs, a))];
        Some(Conf(c.pc + 1, AfterCall(c.regs, a, env.world(log)), log))
      case Cmp(op, cond, x, y) =>
        var log := c.log + [Compared(op, GetRk(env, c.regs, x), GetRk(env, c.regs, y))];
        Some(Conf(Branch(code, c.pc, !IsFalse(env.world(log)) == cond), c.regs, log))
      case Test(a, k) =>
        Some(c.(pc := Branch(code, c.pc, IsFalse(Get(c.regs, a)) != k)))
      case TestSet(a, b, k) =>
        var v := Get(c.regs, b);
        if IsFalse(v) != k then Some(Conf(Branch(code, c.pc, true), c.regs[a := v], c.log))
        else Some(c.(pc := c.pc + 2))
      case Jmp(_) => Some(c.(pc := Target(code, c.pc)))
  }

  function Run(env: Env, code: seq<Instr>, c: Conf, n: nat): Option<Conf>
    decreases n
  {
    if n == 0 then Some(c) else
      match Step(env, code, c)
      case None => None
      case Some(d) => Run(env, code, d, n - 1)
  }

  ghost predicate Reaches(env: Env, code: seq<Instr>, c: Conf, d: Conf) {
    exists n: nat :: Run(env, code, c, n) == Some(d)
  }

  lemma {:induction false} RunAdd(env: Env, code: seq<Instr>, c: Conf, n: nat, d: Conf, m: nat)
    requires Run(env, code, c, n) == Some(d)
    ensures Run(env, code, c, n + m) == Run(env, code, d, m)
    decreases n
  {
    if n > 0 {
      RunAdd(env, code, Step(env, code, c).value, n - 1, d, m);
    }
  }

  lemma ReachesSelf(env: Env, code: seq<Instr>, c: Conf)
    ensures Reaches(env, code, c, c)
  {
    assert Run(env, code, c, 0) == Some(c);
  }

  lemma ReachesTrans(env: Env, code: seq<Instr>, c: Conf, d: Conf, e: Conf)
    requires Reaches(env, code, c, d) && Reaches(env, code, d, e)
    ensures Reaches(env, code, c, e)
  {
    var n: nat :| Run(env, code, c, n) == Some(d);
    var m: nat :| Run(env, code, d, m) == Some(e);
    RunAdd(env, code, c, n, d, m);
  }

  lemma ReachesStep(env: Env, code: seq<Instr>, c: Conf, d: Conf)
    requires Reaches(env, code, c, d) && Step(env, code, d).Some?
    ensures Reaches(env, code, c, Step(env, code, d).value)
  {
    var e := Step(env, code, d).value;
    assert Run(env, code, e, 0) == Some(e);
    assert Run(env, code, d, 1) == Some(e);
    ReachesTrans(env, code, c, d, e);
  }
}
