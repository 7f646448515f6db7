/** Expression trees, what they mean, and what the generated code makes of them. */
module CodeTree {
  import opened CodeVm

  datatype CompareOp = Eq | Ne | Lt | Le | Gt | Ge

  /** Locals are named by their registers, globals by constants; a call is to a
      global function without arguments.  `ELogic(true, a, b)` is `a and b`,
      `ELogic(false, a, b)` is `a or b`: an operator goes on to its second operand
      when the first has its own truth value. */
  datatype Expr =
    | ENil | ETrue | EFalse
    | ENum(n: int)
    | EStr(s: string)
    | ELocal(r: nat)
    | EGlobal(g: nat)
    | ECall(g: nat)
    | ENot(a: Expr)
    | ELogic(conj: bool, a: Expr, b: Expr)
    | ECompare(op: CompareOp, a: Expr, b: Expr)

  // ---- Meaning ------------------------------------------------------------

  datatype Result = Result(v: Value, log: seq<Event>)

  /** `a > b` is `b < a`, `a >= b` is `b <= a`, `a ~= b` is `not (a == b)`. */
  function Question(op: CompareOp, x: Value, y: Value): Event {
    match op
    case Eq => Compared(OpEq, x, y)
    case Ne => Compared(OpEq, x, y)
    case Lt => Compared(OpLt, x, y)
    case Le => Compared(OpLe, x, y)
    case Gt => Compared(OpLt, y, x)
    case Ge => Compared(OpLe, y, x)
  }

  function Answer(env: Env, op: CompareOp, log: seq<Event>): Value {
    Bool(!IsFalse(env.world(log)) == (op != Ne))
  }

  /** Section 2.5.2 and 2.5.3 of the Lua 5.1 Reference Manual: left to right,
      short-circuit. */
  function Eval(env: Env, e: Expr, regs: Regs, log: seq<Event>): Result {
    match e
    case ENil => Result(Nil, log)
    case ETrue => Result(Bool(true), log)
    case EFalse => Result(Bool(false), log)
    case ENum(n) => Result(Num(n), log)
    case EStr(s) => Result(Str(s), log)
    case ELocal(r) => Result(Get(regs, r), log)
    case EGlobal(g) => var l := log + [Fetch(g)]; Result(env.world(l), l)
    case ECall(g) =>
      var l := log + [Fetch(g)];
      var m := l + [Invoke(env.world(l))];
      Result(env.world(m), m)
    case ENot(a) => var r := Eval(env, a, regs, log); Result(Bool(IsFalse(r.v)), r.log)
    case ELogic(op, a, b) =>
      var r := Eval(env, a, regs, log);
      if IsFalse(r.v) == op then r else Eval(env, b, regs, r.log)
    case ECompare(op, a, b) =>
      var p := Eval(env, a, regs, log);
      var q := Eval(env, b, regs, p.log);
      var l := q.log + [Question(op, p.v, q.v)];
      Result(Answer(env, op, l), l)
  }

  // ---- Shapes -------------------------------------------------------------

  /** How the last operand of an expression leaves its value: as a literal not
      loaded yet, in a register, as the result of an instruction whose register
      is still open (a `not` or something else), or as a comparison. */
  datatype Shape = SNil | STrue | SFalse | SNum(n: int) | SStr(s: string) | SReg | SOpen | SNot | SJump

  function ShapeOf(e: Expr): Shape {
    match e
    case ENil => SNil
    case ETrue => STrue
    case EFalse => SFalse
    case ENum(n) => SNum(n)
    case EStr(s) => SStr(s)
    case ELocal(_) => SReg
    case EGlobal(_) => SOpen
    case ECall(_) => SReg
    case ENot(a) =>
      (match ShapeOf(a)
       case SNil => STrue
       case SFalse => STrue
       case STrue => SFalse
       case SNum(_) => SFalse
       case SStr(_) => SFalse
       case SJump => SJump
       case _ => SNot)
    case ELogic(_, _, b) => ShapeOf(b)
    case ECompare(_, _, _) => SJump
  }

  predicate Literal(s: Shape) {
    s.SNil? || s.STrue? || s.SFalse? || s.SNum? || s.SStr?
  }

  /** Literals that need no test to be known to have a truth value, and for
      which the code generator does not even make one. */
  predicate Sure(s: Shape, truth: bool) {
    if truth then s.STrue? || s.SNum? || s.SStr? else s.SNil? || s.SFalse?
  }

  /** The literal for which an unconditional jump is made when this truth value
      is needed to go on. */
  predicate Never(s: Shape, truth: bool) {
    if truth then s.SFalse? else s.STrue?
  }

  /** Whether jumps leave the expression when it has the given truth value. */
  predicate Jumps(e: Expr, truth: bool) {
    match e
    case ENot(a) => Jumps(a, !truth)
    case ELogic(op, a, b) =>
      Jumps(b, truth) || (truth != op && (Jumps(a, truth) || !Sure(ShapeOf(a), op)))
    case _ => false
  }

  // ---- The constant table -------------------------------------------------

  const MAXINDEXRK := 255

  /** `addk`: every constant once. */
  function AddConst(k: seq<Value>, v: Value): (r: seq<Value>)
    ensures k <= r && v in r
  {
    if v in k then k else k + [v]
  }

  function IndexOf(k: seq<Value>, v: Value): (i: nat)
    ensures if v in k then i < |k| && k[i] == v else i == |k|
    ensures forall j :: 0 <= j < i ==> k[j] != v
  {
    if k == [] || k[0] == v then 0 else 1 + IndexOf(k[1..], v)
  }

  /** The constant an operand of the given shape adds. */
  function OperandConst(s: Shape, k: seq<Value>): (r: seq<Value>)
    ensures k <= r
  {
    match s
    case SNil => if |k| <= MAXINDEXRK then AddConst(k, Nil) else k
    case STrue => if |k| <= MAXINDEXRK then AddConst(k, Bool(true)) else k
    case SFalse => if |k| <= MAXINDEXRK then AddConst(k, Bool(false)) else k
    case SNum(n) => AddConst(k, Num(n))
    case _ => k
  }

  /** Whether an operand without jumps is used where it is, without any code. */
  predicate InPlace(s: Shape, k: seq<Value>) {
    match s
    case SStr(x) => IndexOf(k, Str(x)) <= MAXINDEXRK
    case SReg => true
    case SOpen => false
    case SNot => false
    case SJump => false
    case _ => |k| <= MAXINDEXRK
  }

  predicate Direct(e: Expr, k: seq<Value>) {
    !Jumps(e, true) && !Jumps(e, false) && InPlace(ShapeOf(e), k)
  }

  /** The constant table after compiling an operand of a comparison. */
  function OperandConsts(e: Expr, k: seq<Value>): (r: seq<Value>)
    ensures k <= r
  {
    if Jumps(e, true) || Jumps(e, false) then LoadedConst(ShapeOf(e), k) else OperandConst(ShapeOf(e), k)
  }

  /** The constant that loading a value of the given shape adds. */
  function LoadedConst(s: Shape, k: seq<Value>): (r: seq<Value>)
    ensures k <= r
  {
    if s.SNum? then AddConst(k, Num(s.n)) else k
  }

  /** The constant that testing a value of the given shape adds. */
  function TestedConst(s: Shape, truth: bool, k: seq<Value>): (r: seq<Value>)
    ensures k <= r
  {
    if Sure(s, truth) then k else LoadedConst(s, k)
  }

  function Consts(e: Expr, k: seq<Value>): (r: seq<Value>)
    ensures k <= r
  {
    match e
    case EStr(s) => AddConst(k, Str(s))
    case ENot(a) => Consts(a, k)
    case ELogic(op, a, b) => Consts(b, TestedConst(ShapeOf(a), op, Consts(a, k)))
    case ECompare(_, a, b) => OperandConsts(b, Consts(b, OperandConsts(a, Consts(a, k))))
    case _ => k
  }

  // ---- What the code does -------------------------------------------------

  /** How control leaves the code of an expression.  `On`: at its end, with the
      value still to be taken from its last operand; `held` is the value tested
      by the jump that brought control there, if that jump could still be made to
      deliver it.  `By`: by a jump taken because the expression has a truth value,
      with the value that jump can deliver, if any. */
  datatype Exit =
    | On(v: Value, held: Option<Value>)
    | By(truth: bool, carry: Option<Value>)

  datatype Outcome = Outcome(x: Exit, log: seq<Event>)

  /** After a test: control goes on to the next operand, or leaves. */
  datatype Way = Through(held: Option<Value>) | Away(carry: Option<Value>)

  /** `luaK_goiftrue` and `luaK_goiffalse` on an expression of the given shape.
      The jump made for a literal takes along the jumps pending at that point. */
  function Go(s: Shape, x: Exit, truth: bool): Way {
    match x
    case By(b, c) => if b == truth then Through(c) else Away(c)
    case On(v, h) =>
      if Sure(s, truth) then Through(h)
      else if Never(s, truth) then Away(h)
      else if IsFalse(v) != truth then Through(None)
      else Away(if s.SJump? || s.SNot? then None else Some(v))
  }

  function Negate(s: Shape, x: Exit): Exit {
    match x
    case By(b, _) => By(!b, None)
    case On(v, h) => On(Bool(IsFalse(v)), if Literal(s) then h else None)
  }

  /** The value that ends up in the register given to `exp2reg`. */
  function Delivered(x: Exit): Value {
    match x
    case On(v, _) => v
    case By(b, c) => if c.Some? then c.value else Bool(b)
  }

  function StillHeld(e: Expr, k: seq<Value>, x: Exit): Option<Value> {
    if Direct(e, k) && x.On? then x.held else None
  }

  /** `k` is the constant table when the expression is compiled. */
  function Out(env: Env, e: Expr, regs: Regs, log: seq<Event>, held: Option<Value>, k: seq<Value>): Outcome {
    match e
    case ENil => Outcome(On(Nil, held), log)
    case ETrue => Outcome(On(Bool(true), held), log)
    case EFalse => Outcome(On(Bool(false), held), log)
    case ENum(n) => Outcome(On(Num(n), held), log)
    case EStr(s) => Outcome(On(Str(s), held), log)
    case ELocal(r) => Outcome(On(Get(regs, r), held), log)
    case EGlobal(_) => var r := Eval(env, e, regs, log); Outcome(On(r.v, None), r.log)
    case ECall(_) => var r := Eval(env, e, regs, log); Outcome(On(r.v, None), r.log)
    case ENot(a) =>
      var o := Out(env, a, regs, log, held, k);
      Outcome(Negate(ShapeOf(a), o.x), o.log)
    case ELogic(op, a, b) =>
      var o := Out(env, a, regs, log, held, k);
      (match Go(ShapeOf(a), o.x, op)
       case Through(h) => Out(env, b, regs, o.log, h, TestedConst(ShapeOf(a), op, Consts(a, k)))
       case Away(c) => Outcome(By(!op, c), o.log))
    case ECompare(op, a, b) =>
      var p := Out(env, a, regs, log, held, k);
      var k1 := Consts(a, k);
      var q := Out(env, b, regs, p.log, StillHeld(a, k1, p.x), OperandConsts(a, k1));
      var l := q.log + [Question(op, Delivered(p.x), Delivered(q.x))];
      Outcome(On(Answer(env, op, l), None), l)
  }
}
