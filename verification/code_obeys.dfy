/** What the instruction words say, in the terms of their fields: the machine of the
    generator's theorems does what is written in the words. */
module CodeObeys {
  import opened CodeVm
  import opened CodeWords
  import W = ChunkWords

  predicate Truth(v: Value) {
    v != Nil && v != Bool(false)
  }

  /** Operand `x` of a comparison: a constant from 256 on. */
  function RkValue(env: Env, regs: Regs, x: nat): Value {
    if x >= 256 then Const(env, x - 256) else Get(regs, x)
  }

  /** Where the jump at `pc` goes. */
  function JumpTo(ws: seq<W.Word>, pc: nat): int
    requires pc < |ws|
  {
    pc + 1 + W.ArgBx(ws[pc]) - 131071
  }

  /** Nothing happens but that register `a` gets `v`. */
  ghost predicate Loads(c: Conf, d: Conf, a: nat, v: Value) {
    forall r: nat :: Get(d.regs, r) == if r == a then v else Get(c.regs, r)
  }

  ghost predicate SameRegs(c: Conf, d: Conf) {
    forall r: nat :: Get(d.regs, r) == Get(c.regs, r)
  }

  /** The instruction at `c.pc` leads from `c` to `d`, by its number and its fields.
      A test takes the jump behind it or skips it. */
  ghost predicate Obeys(env: Env, ws: seq<W.Word>, c: Conf, d: Conf) {
    0 <= c.pc < |ws| &&
    var w := ws[c.pc];
    var op, A, B, C := W.OpOf(w), W.ArgA(w), W.ArgB(w), W.ArgC(w);
    if op == 0 then d.pc == c.pc + 1 && d.log == c.log && Loads(c, d, A, Get(c.regs, B))
    else if op == 1 then d.pc == c.pc + 1 && d.log == c.log && Loads(c, d, A, Const(env, W.ArgBx(w)))
    else if op == 2 then d.pc == (if C != 0 then c.pc + 2 else c.pc + 1) && d.log == c.log && Loads(c, d, A, Bool(B != 0))
    else if op == 3 then
      && d.pc == c.pc + 1 && d.log == c.log
      && forall r: nat :: Get(d.regs, r) == if A <= r <= B || r == B then Nil else Get(c.regs, r)
    else if op == 5 then d.pc == c.pc + 1 && d.log == c.log + [Fetch(W.ArgBx(w))] && Loads(c, d, A, env.world(d.log))
    else if op == 19 then d.pc == c.pc + 1 && d.log == c.log && Loads(c, d, A, Bool(!Truth(Get(c.regs, B))))
    else if op == 22 then d.pc == JumpTo(ws, c.pc) && d.log == c.log && SameRegs(c, d)
    else if op in {23, 24, 25} then
      var kind := if op == 23 then OpEq else if op == 24 then OpLt else OpLe;
      && d.log == c.log + [Compared(kind, RkValue(env, c.regs, B), RkValue(env, c.regs, C))]
      && SameRegs(c, d) && Tests(ws, c, d, Truth(env.world(d.log)) <==> A != 0)
    else if op == 26 then d.log == c.log && SameRegs(c, d) && Tests(ws, c, d, Truth(Get(c.regs, A)) <==> C != 0)
    else if op == 27 then
      && d.log == c.log && Tests(ws, c, d, Truth(Get(c.regs, B)) <==> C != 0)
      && if Truth(Get(c.regs, B)) <==> C != 0 then Loads(c, d, A, Get(c.regs, B)) else SameRegs(c, d)
    else if op == 28 then
      && d.pc == c.pc + 1 && d.log == c.log + [Invoke(Get(c.regs, A))]
      && forall r: nat :: Get(d.regs, r) == if r < A then Get(c.regs, r) else if r == A then env.world(d.log) else Nil
    else false
  }

  predicate Tests(ws: seq<W.Word>, c: Conf, d: Conf, holds: bool) {
    0 <= c.pc < |ws| - 1 && d.pc == if holds then JumpTo(ws, c.pc + 1) else c.pc + 2
  }

  /** The machine does what the words say. */
  lemma WordsObeyed(env: Env, code: seq<Instr>, c: Conf)
    requires AllFit(code) && TestsPaired(code) && Step(env, code, c).Some?
    ensures Obeys(env, Words(code), c, Step(env, code, c).value)
  {
    hide W.OpOf, W.ArgA, W.ArgB, W.ArgC, W.ArgBx, InstrFits;
    var i := code[c.pc];
    EncodedFields(i);
    FieldsAre(i);
    assert Words(code)[c.pc] == Encode(i);
    if IsTest(i) {
      EncodedFields(code[c.pc + 1]);
      FieldsAre(code[c.pc + 1]);
      assert Words(code)[c.pc + 1] == Encode(code[c.pc + 1]);
      hide Encode, FieldsOf;
      TestObeyed(env, code, Words(code), c);
    } else {
      hide Encode, FieldsOf;
      PlainObeyed(env, code, Words(code), c);
    }
  }

  /** The fields of an instruction, one kind at a time. */
  predicate Written(i: Instr, w: W.Word) {
    match i
    case Move(a, b) => W.OpOf(w) == 0 && W.ArgA(w) == a && W.ArgB(w) == b
    case LoadK(a, k) => W.OpOf(w) == 1 && W.ArgA(w) == a && W.ArgBx(w) == k
    case LoadBool(a, v, skip) => W.OpOf(w) == 2 && W.ArgA(w) == a && (W.ArgB(w) != 0 <==> v) && (W.ArgC(w) != 0 <==> skip)
    case LoadNil(a, b) => W.OpOf(w) == 3 && W.ArgA(w) == a && W.ArgB(w) == b
    case GetGlobal(a, g) => W.OpOf(w) == 5 && W.ArgA(w) == a && W.ArgBx(w) == g
    case Not(a, b) => W.OpOf(w) == 19 && W.ArgA(w) == a && W.ArgB(w) == b
    case Call(a) => W.OpOf(w) == 28 && W.ArgA(w) == a
    case Cmp(op, cond, x, y) => W.OpOf(w) == CmpNumber(op) && (W.ArgA(w) != 0 <==> cond) && W.ArgB(w) == RkField(x) && W.ArgC(w) == RkField(y) && RkFits(x) && RkFits(y)
    case Test(a, c) => W.OpOf(w) == 26 && W.ArgA(w) == a && (W.ArgC(w) != 0 <==> c)
    case TestSet(a, b, c) => W.OpOf(w) == 27 && W.ArgA(w) == a && W.ArgB(w) == b && (W.ArgC(w) != 0 <==> c)
    case Jmp(sbx) => W.OpOf(w) == 22 && W.ArgBx(w) == sbx + 131071
  }

  lemma FieldsAre(i: Instr)
    requires InstrFits(i)
    ensures Written(i, Encode(i))
  {
    hide W.OpOf, W.ArgA, W.ArgB, W.ArgC, W.ArgBx, Encode;
    EncodedFields(i);
    match i
    case LoadK(_, k) => assert k == 512 * (k / 512) + k % 512;
    case GetGlobal(_, g) => assert g == 512 * (g / 512) + g % 512;
    case Jmp(sbx) => var x := sbx + 131071; assert x == 512 * (x / 512) + x % 512;
    case _ =>
  }

  lemma TestObeyed(env: Env, code: seq<Instr>, ws: seq<W.Word>, c: Conf)
    requires Step(env, code, c).Some? && |ws| == |code| && IsTest(code[c.pc]) && c.pc + 1 < |code| && code[c.pc + 1].Jmp?
    requires Written(code[c.pc], ws[c.pc]) && Written(code[c.pc + 1], ws[c.pc + 1])
    ensures Obeys(env, ws, c, Step(env, code, c).value)
  {
    hide W.OpOf, W.ArgA, W.ArgB, W.ArgC, W.ArgBx;
    var d := Step(env, code, c).value;
    assert JumpTo(ws, c.pc + 1) == Target(code, c.pc + 1);
  }

  lemma PlainObeyed(env: Env, code: seq<Instr>, ws: seq<W.Word>, c: Conf)
    requires Step(env, code, c).Some? && |ws| == |code| && !IsTest(code[c.pc]) && Written(code[c.pc], ws[c.pc])
    ensures Obeys(env, ws, c, Step(env, code, c).value)
  {
    hide W.OpOf, W.ArgA, W.ArgB, W.ArgC, W.ArgBx;
  }

  /** And that is all they say: two outcomes have the same place, questions and values. */
  lemma ObeysOnce(env: Env, ws: seq<W.Word>, c: Conf, d: Conf, e: Conf)
    requires Obeys(env, ws, c, d) && Obeys(env, ws, c, e)
    ensures d.pc == e.pc && d.log == e.log && SameRegs(d, e)
  {
    hide W.OpOf, W.ArgA, W.ArgB, W.ArgC, W.ArgBx, Get;
  }
}
