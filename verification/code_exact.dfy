/** When generated code has the value that the language prescribes.

    A literal `false` before `and`, or `true` before `or`, is compiled to a jump
    that takes along the jumps pending at that point, and these may later deliver
    the value they tested instead of the literal.  Here is exactly which
    expressions suffer from it. */
module CodeExact {
  import opened CodeVm
  import opened CodeTree

  // ---- Truth values are always right --------------------------------------

  function TruthOf(x: Exit): bool {
    match x case On(v, _) => !IsFalse(v) case By(b, _) => b
  }

  /** What comes out of the code is what the language says: the value, and what
      was asked of the world on the way. */
  predicate Right(env: Env, e: Expr, regs: Regs, log: seq<Event>, held: Option<Value>, k: seq<Value>) {
    var o := Out(env, e, regs, log, held, k);
    var r := Eval(env, e, regs, log);
    Delivered(o.x) == r.v && o.log == r.log
  }

  // ---- Which exits there are ----------------------------------------------

  /** What a jump can deliver: nothing, the value of the expression, or the value
      of an operand that a literal has replaced. */
  datatype Load = Empty | Proper | Stale

  datatype Turn = Ahead(held: bool) | Off(load: Load)

  datatype Door = AtEnd(held: bool) | ByJump(truth: bool, load: Load)

  /** Locals do not change while an expression is evaluated: `up` are those whose
      values are true.  So is known what a local last operand is, negated or not. */
  function Known(e: Expr, up: set<nat>): Option<bool> {
    match e
    case ELocal(r) => Some(r in up)
    case ENot(a) => var t := Known(a, up); if t.Some? then Some(!t.value) else None
    case ELogic(_, _, b) => Known(b, up)
    case _ => None
  }

  /** The ways a test can go, when `t` is known of the value. */
  function Ways(s: Shape, t: Option<bool>, x: Door, truth: bool): set<Turn> {
    match x
    case ByJump(b, l) => if b == truth then {Ahead(l != Empty)} else {Off(l)}
    case AtEnd(h) =>
      if Sure(s, truth) then {Ahead(h)}
      else if Never(s, truth) then {Off(if h then Stale else Empty)}
      else if Literal(s) then {Off(Proper)}
      else
        (if t == Some(!truth) then {} else {Ahead(false)})
        + (if t == Some(truth) then {} else {Off(if s.SJump? || s.SNot? then Empty else Proper)})
  }

  function NegateDoor(s: Shape, x: Door): Door {
    match x
    case ByJump(b, _) => ByJump(!b, Empty)
    case AtEnd(h) => AtEnd(Literal(s) && h)
  }

  function AllWays(s: Shape, t: Option<bool>, xs: set<Door>, truth: bool): set<Turn> {
    set x, w | x in xs && w in Ways(s, t, x, truth) :: w
  }

  /** The exits of an expression, when control comes to it by a jump that could
      still deliver a value (`held`) or not, and the locals in `up` are true. */
  function Doors(e: Expr, held: bool, k: seq<Value>, up: set<nat>): set<Door> {
    match e
    case EGlobal(_) => {AtEnd(false)}
    case ECall(_) => {AtEnd(false)}
    case ECompare(_, _, _) => {AtEnd(false)}
    case ENot(a) => set x | x in Doors(a, held, k, up) :: NegateDoor(ShapeOf(a), x)
    case ELogic(op, a, b) =>
      var ws := AllWays(ShapeOf(a), Known(a, up), Doors(a, held, k, up), op);
      var k2 := SecondConsts(op, a, k);
      (set w | w in ws && w.Off? :: ByJump(!op, w.load))
      + (if Ahead(true) in ws then Doors(b, true, k2, up) else {})
      + (if Ahead(false) in ws then Doors(b, false, k2, up) else {})
    case _ => {AtEnd(held)}
  }

  /** Control can come to the second operand of a comparison by such a jump. */
  predicate MayBeHeld(a: Expr, held: bool, k: seq<Value>, up: set<nat>) {
    Direct(a, Consts(a, k)) && AtEnd(true) in Doors(a, held, k, up)
  }

  predicate MayNotBeHeld(a: Expr, held: bool, k: seq<Value>, up: set<nat>) {
    !Direct(a, Consts(a, k)) || exists x <- Doors(a, held, k, up) :: x != AtEnd(true)
  }

  /** Some way through the expression ends with a stale value, in the expression
      itself or in an operand of a comparison. */
  predicate Leaks(e: Expr, held: bool, k: seq<Value>, up: set<nat>) {
    || (exists b :: ByJump(b, Stale) in Doors(e, held, k, up))
    || LeaksInside(e, held, k, up)
  }

  predicate LeaksInside(e: Expr, held: bool, k: seq<Value>, up: set<nat>) {
    match e
    case ENot(a) => LeaksInside(a, held, k, up)
    case ELogic(op, a, b) =>
      var ws := AllWays(ShapeOf(a), Known(a, up), Doors(a, held, k, up), op);
      var k2 := SecondConsts(op, a, k);
      LeaksInside(a, held, k, up)
      || (Ahead(true) in ws && LeaksInside(b, true, k2, up))
      || (Ahead(false) in ws && LeaksInside(b, false, k2, up))
    case ECompare(_, a, b) =>
      var k2 := OperandConsts(a, Consts(a, k));
      || ByJump(true, Stale) in Doors(a, held, k, up) || ByJump(false, Stale) in Doors(a, held, k, up) || LeaksInside(a, held, k, up)
      || (MayBeHeld(a, held, k, up) &&
            (ByJump(true, Stale) in Doors(b, true, k2, up) || ByJump(false, Stale) in Doors(b, true, k2, up) || LeaksInside(b, true, k2, up)))
      || (MayNotBeHeld(a, held, k, up) &&
            (ByJump(true, Stale) in Doors(b, false, k2, up) || ByJump(false, Stale) in Doors(b, false, k2, up) || LeaksInside(b, false, k2, up)))
    case _ => false
  }

  // ---- One run ------------------------------------------------------------

  /** The way a test goes. */
  function WayOf(s: Shape, y: Door, x: Exit, truth: bool): Turn {
    match y
    case ByJump(b, l) => if b == truth then Ahead(l != Empty) else Off(l)
    case AtEnd(h) =>
      if Sure(s, truth) then Ahead(h)
      else if Never(s, truth) then Off(if h then Stale else Empty)
      else if x.On? && IsFalse(x.v) != truth then Ahead(false)
      else Off(if s.SJump? || s.SNot? then Empty else Proper)
  }

  /** The exit that a run takes. */
  function DoorOf(env: Env, e: Expr, regs: Regs, log: seq<Event>, held: Option<Value>, k: seq<Value>): Door {
    match e
    case EGlobal(_) => AtEnd(false)
    case ECall(_) => AtEnd(false)
    case ECompare(_, _, _) => AtEnd(false)
    case ENot(a) => NegateDoor(ShapeOf(a), DoorOf(env, a, regs, log, held, k))
    case ELogic(op, a, b) =>
      var o := Out(env, a, regs, log, held, k);
      var w := WayOf(ShapeOf(a), DoorOf(env, a, regs, log, held, k), o.x, op);
      if w.Off? then ByJump(!op, w.load)
      else
        var g := Go(ShapeOf(a), o.x, op);
        DoorOf(env, b, regs, o.log, if g.Through? then g.held else None, SecondConsts(op, a, k))
    case _ => AtEnd(held.Some?)
  }

  predicate IsStale(y: Door) {
    y.ByJump? && y.load == Stale
  }

  /** A comparison on the way of this run gets a stale operand. */
  predicate LeaksOn(env: Env, e: Expr, regs: Regs, log: seq<Event>, held: Option<Value>, k: seq<Value>) {
    match e
    case ENot(a) => LeaksOn(env, a, regs, log, held, k)
    case ELogic(op, a, b) =>
      var o := Out(env, a, regs, log, held, k);
      var g := Go(ShapeOf(a), o.x, op);
      || LeaksOn(env, a, regs, log, held, k)
      || (g.Through? && LeaksOn(env, b, regs, o.log, g.held, SecondConsts(op, a, k)))
    case ECompare(_, a, b) =>
      var o := Out(env, a, regs, log, held, k);
      var k1 := Consts(a, k);
      var h := StillHeld(a, k1, o.x);
      || LeaksOn(env, a, regs, log, held, k) || LeaksOn(env, b, regs, o.log, h, OperandConsts(a, k1))
      || IsStale(DoorOf(env, a, regs, log, held, k)) || IsStale(DoorOf(env, b, regs, o.log, h, OperandConsts(a, k1)))
    case _ => false
  }

  /** The exit of a run and the proper value `v`. */
  predicate Abstracts(x: Exit, v: Value, y: Door) {
    match x
    case On(w, h) => w == v && y == AtEnd(h.Some?)
    case By(b, c) =>
      && y.ByJump? && y.truth == b && IsFalse(v) != b
      && match y.load
         case Empty => c == None && v == Bool(b)
         case Proper => c == Some(v)
         case Stale => c.Some? && v == Bool(b)
  }

  lemma {:induction false} ShapeValue(env: Env, e: Expr, regs: Regs, log: seq<Event>, held: Option<Value>, k: seq<Value>)
    ensures var o := Out(env, e, regs, log, held, k); o.x.On? ==>
      match ShapeOf(e)
      case SNil => o.x.v == Nil
      case STrue => o.x.v == Bool(true)
      case SFalse => o.x.v == Bool(false)
      case SNum(n) => o.x.v == Num(n)
      case SStr(s) => o.x.v == Str(s)
      case SReg => true
      case SOpen => o.x.held == None
      case SNot => o.x.v.Bool? && o.x.held == None
      case SJump => o.x.v.Bool? && o.x.held == None
    decreases e
  {
    match e
    case ENot(a) => ShapeValue(env, a, regs, log, held, k);
    case ELogic(op, a, b) =>
      var o := Out(env, a, regs, log, held, k);
      var w := Go(ShapeOf(a), o.x, op);
      if w.Through? { ShapeValue(env, b, regs, o.log, w.held, SecondConsts(op, a, k)); }
    case _ =>
  }

  /** Without stale operands a run asks the world the right questions, and goes
      where the proper value says. */
  lemma {:induction false} RunsRight(env: Env, e: Expr, regs: Regs, log: seq<Event>, held: Option<Value>, k: seq<Value>)
    requires !LeaksOn(env, e, regs, log, held, k)
    ensures var o := Out(env, e, regs, log, held, k); var r := Eval(env, e, regs, log);
            o.log == r.log && Abstracts(o.x, r.v, DoorOf(env, e, regs, log, held, k))
    decreases e
  {
    match e
    case ENot(a) =>
      RunsRight(env, a, regs, log, held, k);
      ShapeValue(env, a, regs, log, held, k);
    case ELogic(op, a, b) =>
      RunsRight(env, a, regs, log, held, k);
      TestRight(env, op, a, regs, log, held, k);
      var p := Out(env, a, regs, log, held, k);
      var w := Go(ShapeOf(a), p.x, op);
      if w.Through? { RunsRight(env, b, regs, p.log, w.held, SecondConsts(op, a, k)); }
    case ECompare(op, a, b) =>
      RunsRight(env, a, regs, log, held, k);
      var p := Out(env, a, regs, log, held, k);
      AbstractDelivers(p.x, Eval(env, a, regs, log).v, DoorOf(env, a, regs, log, held, k));
      var h := StillHeld(a, Consts(a, k), p.x);
      var k2 := OperandConsts(a, Consts(a, k));
      RunsRight(env, b, regs, p.log, h, k2);
      AbstractDelivers(Out(env, b, regs, p.log, h, k2).x, Eval(env, b, regs, p.log).v, DoorOf(env, b, regs, p.log, h, k2));
    case _ =>
  }

  lemma AbstractDelivers(x: Exit, v: Value, y: Door)
    requires Abstracts(x, v, y) && !IsStale(y)
    ensures Delivered(x) == v
  {}

  /** One test. */
  lemma TestRight(env: Env, op: bool, a: Expr, regs: Regs, log: seq<Event>, held: Option<Value>, k: seq<Value>)
    requires Abstracts(Out(env, a, regs, log, held, k).x, Eval(env, a, regs, log).v, DoorOf(env, a, regs, log, held, k))
    ensures var p := Out(env, a, regs, log, held, k); var q := Eval(env, a, regs, log);
            var g := Go(ShapeOf(a), p.x, op);
            var w := WayOf(ShapeOf(a), DoorOf(env, a, regs, log, held, k), p.x, op);
            if g.Through? then w == Ahead(g.held.Some?) && IsFalse(q.v) != op
            else w.Off? && IsFalse(q.v) == op && Abstracts(By(!op, g.carry), q.v, ByJump(!op, w.load))
  {
    ShapeValue(env, a, regs, log, held, k);
  }

  /** The registers whose values are true. */
  function UpIn(regs: Regs): set<nat> {
    set r | r in regs && !IsFalse(regs[r])
  }

  lemma {:induction false} KnownValue(env: Env, e: Expr, regs: Regs, log: seq<Event>, held: Option<Value>, k: seq<Value>)
    ensures var o := Out(env, e, regs, log, held, k); var t := Known(e, UpIn(regs));
            o.x.On? && t.Some? ==> t.value == !IsFalse(o.x.v)
    decreases e
  {
    match e
    case ENot(a) => KnownValue(env, a, regs, log, held, k);
    case ELogic(op, a, b) =>
      var o := Out(env, a, regs, log, held, k);
      var w := Go(ShapeOf(a), o.x, op);
      if w.Through? { KnownValue(env, b, regs, o.log, w.held, SecondConsts(op, a, k)); }
    case _ =>
  }

  /** The exit is that of the code, whether or not the values are proper. */
  lemma {:induction false} DoorFits(env: Env, e: Expr, regs: Regs, log: seq<Event>, held: Option<Value>, k: seq<Value>)
    ensures var o := Out(env, e, regs, log, held, k); var y := DoorOf(env, e, regs, log, held, k);
            match o.x
            case On(_, h) => y == AtEnd(h.Some?)
            case By(b, c) => y.ByJump? && y.truth == b && (c.Some? <==> y.load != Empty)
    decreases e
  {
    match e
    case ENot(a) =>
      DoorFits(env, a, regs, log, held, k);
      ShapeValue(env, a, regs, log, held, k);
    case ELogic(op, a, b) =>
      DoorFits(env, a, regs, log, held, k);
      ShapeValue(env, a, regs, log, held, k);
      var o := Out(env, a, regs, log, held, k);
      var w := Go(ShapeOf(a), o.x, op);
      if w.Through? { DoorFits(env, b, regs, o.log, w.held, SecondConsts(op, a, k)); }
    case _ =>
  }

  lemma AwayOut(env: Env, a: Expr, regs: Regs, log: seq<Event>, held: Option<Value>, k: seq<Value>, op: bool)
    ensures var o := Out(env, a, regs, log, held, k); var y := DoorOf(env, a, regs, log, held, k);
            var g := Go(ShapeOf(a), o.x, op); var w := WayOf(ShapeOf(a), y, o.x, op);
            (g.Away? <==> w.Off?) && (g.Through? ==> w == Ahead(g.held.Some?))
  {
    DoorFits(env, a, regs, log, held, k);
    ShapeValue(env, a, regs, log, held, k);
  }

  // ---- One level at a time ------------------------------------------------

  /** The constants known to the second operand of `and` and `or`. */
  function SecondConsts(op: bool, a: Expr, k: seq<Value>): seq<Value> {
    TestedConst(ShapeOf(a), op, Consts(a, k))
  }

  lemma LogicOut(env: Env, op: bool, a: Expr, b: Expr, regs: Regs, log: seq<Event>, held: Option<Value>, k: seq<Value>)
    ensures var e := ELogic(op, a, b); var o := Out(env, a, regs, log, held, k);
            var g := Go(ShapeOf(a), o.x, op);
            if g.Through? then Out(env, e, regs, log, held, k) == Out(env, b, regs, o.log, g.held, SecondConsts(op, a, k))
            else Out(env, e, regs, log, held, k) == Outcome(By(!op, g.carry), o.log)
  {}

  lemma LogicDoorIs(env: Env, op: bool, a: Expr, b: Expr, regs: Regs, log: seq<Event>, held: Option<Value>, k: seq<Value>)
    ensures var e := ELogic(op, a, b); var o := Out(env, a, regs, log, held, k);
            var w := WayOf(ShapeOf(a), DoorOf(env, a, regs, log, held, k), o.x, op);
            var g := Go(ShapeOf(a), o.x, op);
            if g.Through? then w.Ahead? && DoorOf(env, e, regs, log, held, k) == DoorOf(env, b, regs, o.log, g.held, SecondConsts(op, a, k))
            else w.Off? && DoorOf(env, e, regs, log, held, k) == ByJump(!op, w.load)
  {
    AwayOut(env, a, regs, log, held, k, op);
  }

  lemma LogicLeaks(env: Env, op: bool, a: Expr, b: Expr, regs: Regs, log: seq<Event>, held: Option<Value>, k: seq<Value>)
    ensures var e := ELogic(op, a, b); var o := Out(env, a, regs, log, held, k);
            var g := Go(ShapeOf(a), o.x, op);
            if g.Through? then LeaksOn(env, e, regs, log, held, k) <==>
                                 LeaksOn(env, a, regs, log, held, k) || LeaksOn(env, b, regs, o.log, g.held, SecondConsts(op, a, k))
            else LeaksOn(env, e, regs, log, held, k) <==> LeaksOn(env, a, regs, log, held, k)
  {}

  lemma LogicIs(env: Env, op: bool, a: Expr, b: Expr, regs: Regs, log: seq<Event>, held: Option<Value>, k: seq<Value>)
    ensures var e := ELogic(op, a, b); var o := Out(env, a, regs, log, held, k);
            var w := WayOf(ShapeOf(a), DoorOf(env, a, regs, log, held, k), o.x, op); var k2 := SecondConsts(op, a, k);
            var g := Go(ShapeOf(a), o.x, op);
            if g.Through? then
              && w == Ahead(g.held.Some?) && Out(env, e, regs, log, held, k) == Out(env, b, regs, o.log, g.held, k2)
              && DoorOf(env, e, regs, log, held, k) == DoorOf(env, b, regs, o.log, g.held, k2)
              && (LeaksOn(env, e, regs, log, held, k) <==> LeaksOn(env, a, regs, log, held, k) || LeaksOn(env, b, regs, o.log, g.held, k2))
            else
              && w.Off? && Out(env, e, regs, log, held, k) == Outcome(By(!op, g.carry), o.log)
              && DoorOf(env, e, regs, log, held, k) == ByJump(!op, w.load)
              && (LeaksOn(env, e, regs, log, held, k) <==> LeaksOn(env, a, regs, log, held, k))
  {
    LogicOut(env, op, a, b, regs, log, held, k);
    LogicDoorIs(env, op, a, b, regs, log, held, k);
    LogicLeaks(env, op, a, b, regs, log, held, k);
    AwayOut(env, a, regs, log, held, k, op);
    hide Out, DoorOf, LeaksOn, WayOf, Go, SecondConsts;
  }

  /** Every run takes one of the exits. */
  lemma {:induction false} DoorIsOne(env: Env, e: Expr, regs: Regs, log: seq<Event>, held: Option<Value>, k: seq<Value>)
    requires !LeaksInside(e, held.Some?, k, UpIn(regs))
    ensures !LeaksOn(env, e, regs, log, held, k)
    ensures DoorOf(env, e, regs, log, held, k) in Doors(e, held.Some?, k, UpIn(regs))
    decreases e, 1
  {
    match e
    case ENot(a) => DoorIsOne(env, a, regs, log, held, k);
    case ELogic(op, a, b) => LogicDoor(env, op, a, b, regs, log, held, k);
    case ECompare(op, a, b) =>
      DoorIsOne(env, a, regs, log, held, k);
      RunsRight(env, a, regs, log, held, k);
      var p := Out(env, a, regs, log, held, k);
      var h := StillHeld(a, Consts(a, k), p.x);
      assert h.Some? ==> MayBeHeld(a, held.Some?, k, UpIn(regs));
      assert h.None? ==> MayNotBeHeld(a, held.Some?, k, UpIn(regs));
      DoorIsOne(env, b, regs, p.log, h, OperandConsts(a, Consts(a, k)));
    case _ =>
  }

  lemma {:induction false} LogicDoor(env: Env, op: bool, a: Expr, b: Expr, regs: Regs, log: seq<Event>, held: Option<Value>, k: seq<Value>)
    requires !LeaksInside(ELogic(op, a, b), held.Some?, k, UpIn(regs))
    ensures !LeaksOn(env, ELogic(op, a, b), regs, log, held, k)
    ensures DoorOf(env, ELogic(op, a, b), regs, log, held, k) in Doors(ELogic(op, a, b), held.Some?, k, UpIn(regs))
    decreases ELogic(op, a, b), 0
  {
    hide Out, DoorOf, LeaksOn, WayOf, Go, Ways, Known, SecondConsts, Abstracts;
    var p := Out(env, a, regs, log, held, k);
    var y := DoorOf(env, a, regs, log, held, k);
    var w := WayOf(ShapeOf(a), y, p.x, op);
    LogicIs(env, op, a, b, regs, log, held, k);
    DoorIsOne(env, a, regs, log, held, k);
    RunsRight(env, a, regs, log, held, k);
    WayIsOne(env, op, a, regs, log, held, k);
    assert w in AllWays(ShapeOf(a), Known(a, UpIn(regs)), Doors(a, held.Some?, k, UpIn(regs)), op);
    hide AllWays;
    var g := Go(ShapeOf(a), p.x, op);
    if g.Through? { DoorIsOne(env, b, regs, p.log, g.held, SecondConsts(op, a, k)); }
  }

  lemma WayIsOne(env: Env, op: bool, a: Expr, regs: Regs, log: seq<Event>, held: Option<Value>, k: seq<Value>)
    requires Abstracts(Out(env, a, regs, log, held, k).x, Eval(env, a, regs, log).v, DoorOf(env, a, regs, log, held, k))
    ensures var y := DoorOf(env, a, regs, log, held, k);
            WayOf(ShapeOf(a), y, Out(env, a, regs, log, held, k).x, op) in Ways(ShapeOf(a), Known(a, UpIn(regs)), y, op)
  {
    ShapeValue(env, a, regs, log, held, k);
    KnownValue(env, a, regs, log, held, k);
  }

  /** No leak: the value is right. */
  lemma NoLeakRight(env: Env, e: Expr, regs: Regs, log: seq<Event>, held: Option<Value>, k: seq<Value>)
    requires !Leaks(e, held.Some?, k, UpIn(regs))
    ensures Right(env, e, regs, log, held, k)
  {
    DoorIsOne(env, e, regs, log, held, k);
    RunsRight(env, e, regs, log, held, k);
    AbstractDelivers(Out(env, e, regs, log, held, k).x, Eval(env, e, regs, log).v, DoorOf(env, e, regs, log, held, k));
  }

  /** As a condition an expression is right, literals or not, if the operands of
      its comparisons are. */
  lemma TruthRight(env: Env, e: Expr, regs: Regs, log: seq<Event>, held: Option<Value>, k: seq<Value>)
    requires !LeaksInside(e, held.Some?, k, UpIn(regs))
    ensures var o := Out(env, e, regs, log, held, k); var r := Eval(env, e, regs, log);
            TruthOf(o.x) == !IsFalse(r.v) && o.log == r.log
  {
    DoorIsOne(env, e, regs, log, held, k);
    RunsRight(env, e, regs, log, held, k);
  }

  // ---- A leak shows -------------------------------------------------------

  const SOMETHING := Num(7)

  /** A world that answers from a list, true or false but as neither literal. */
  function Script(script: seq<bool>, from: nat): Env {
    Env([], (l: seq<Event>) => if from < |l| <= from + |script| && script[|l| - from - 1] then SOMETHING else Nil)
  }

  /** Locals of which those in `up` are true, none of them as a literal. */
  function Truthful(up: set<nat>): Regs {
    map r | r in up :: SOMETHING
  }

  lemma TruthfulUp(up: set<nat>)
    ensures UpIn(Truthful(up)) == up && NoBools(Truthful(up))
  {}

  predicate NoBools(regs: Regs) {
    forall r <- regs :: !regs[r].Bool?
  }

  predicate NoBool(v: Option<Value>) {
    v.Some? ==> !v.value.Bool?
  }

  lemma {:induction false} Extends(env: Env, e: Expr, regs: Regs, log: seq<Event>, held: Option<Value>, k: seq<Value>)
    ensures log <= Out(env, e, regs, log, held, k).log
    ensures log <= Eval(env, e, regs, log).log
    decreases e
  {
    match e
    case ENot(a) => Extends(env, a, regs, log, held, k);
    case ELogic(op, a, b) =>
      Extends(env, a, regs, log, held, k);
      var o := Out(env, a, regs, log, held, k);
      var w := Go(ShapeOf(a), o.x, op);
      Extends(env, b, regs, o.log, if w.Through? then w.held else None, SecondConsts(op, a, k));
      Extends(env, b, regs, Eval(env, a, regs, log).log, None, k);
    case ECompare(op, a, b) =>
      Extends(env, a, regs, log, held, k);
      var o := Out(env, a, regs, log, held, k);
      var k1 := Consts(a, k);
      Extends(env, b, regs, o.log, StillHeld(a, k1, o.x), OperandConsts(a, k1));
      Extends(env, b, regs, Eval(env, a, regs, log).log, None, k);
    case _ =>
  }

  /** Two histories that part. */
  ghost predicate Diverge(p: seq<Event>, q: seq<Event>) {
    exists i: nat :: i < |p| && i < |q| && p[i] != q[i]
  }

  lemma DivergeOn(p: seq<Event>, q: seq<Event>, p2: seq<Event>, q2: seq<Event>)
    requires Diverge(p, q) && p <= p2 && q <= q2
    ensures Diverge(p2, q2)
  {
    var i: nat :| i < |p| && i < |q| && p[i] != q[i];
    assert p2[i] == p[i] && q2[i] == q[i];
  }

  /** In such a world no jump delivers `true` or `false`. */
  lemma {:induction false} NoneDelivered(env: Env, e: Expr, regs: Regs, log: seq<Event>, held: Option<Value>, k: seq<Value>)
    requires NoBools(regs) && NoBool(held) && forall l :: !env.world(l).Bool?
    ensures var o := Out(env, e, regs, log, held, k);
            if o.x.On? then NoBool(o.x.held) && (ShapeOf(e).SReg? || ShapeOf(e).SOpen? ==> !o.x.v.Bool?) else NoBool(o.x.carry)
    decreases e
  {
    match e
    case ENot(a) => NoneDelivered(env, a, regs, log, held, k);
    case ELogic(op, a, b) =>
      NoneDelivered(env, a, regs, log, held, k);
      ShapeValue(env, a, regs, log, held, k);
      var o := Out(env, a, regs, log, held, k);
      var w := Go(ShapeOf(a), o.x, op);
      if w.Through? { NoneDelivered(env, b, regs, o.log, w.held, SecondConsts(op, a, k)); }
    case _ =>
  }

  /** A stale operand shows in what the world is asked. */
  lemma {:induction false} LeakShows(env: Env, e: Expr, regs: Regs, log: seq<Event>, held: Option<Value>, k: seq<Value>)
    requires NoBools(regs) && NoBool(held) && (forall l :: !env.world(l).Bool?) && LeaksOn(env, e, regs, log, held, k)
    ensures Diverge(Out(env, e, regs, log, held, k).log, Eval(env, e, regs, log).log)
    decreases e
  {
    var o, r := Out(env, e, regs, log, held, k), Eval(env, e, regs, log);
    match e
    case ENot(a) => LeakShows(env, a, regs, log, held, k);
    case ELogic(op, a, b) =>
      var p, q := Out(env, a, regs, log, held, k), Eval(env, a, regs, log);
      var g := Go(ShapeOf(a), p.x, op);
      var k2 := SecondConsts(op, a, k);
      if LeaksOn(env, a, regs, log, held, k) {
        LeakShows(env, a, regs, log, held, k);
        Extends(env, b, regs, p.log, if g.Through? then g.held else None, k2);
        Extends(env, b, regs, q.log, None, k2);
        DivergeOn(p.log, q.log, o.log, r.log);
      } else {
        RunsRight(env, a, regs, log, held, k);
        TestRight(env, op, a, regs, log, held, k);
        NoneDelivered(env, a, regs, log, held, k);
        ShapeValue(env, a, regs, log, held, k);
        LeakShows(env, b, regs, p.log, g.held, k2);
      }
    case ECompare(op, a, b) => CompareShows(env, op, a, b, regs, log, held, k);
    case _ =>
  }

  lemma {:induction false} CompareShows(env: Env, op: CompareOp, a: Expr, b: Expr, regs: Regs, log: seq<Event>, held: Option<Value>, k: seq<Value>)
    requires NoBools(regs) && NoBool(held) && (forall l :: !env.world(l).Bool?)
    requires LeaksOn(env, ECompare(op, a, b), regs, log, held, k)
    ensures Diverge(Out(env, ECompare(op, a, b), regs, log, held, k).log, Eval(env, ECompare(op, a, b), regs, log).log)
    decreases ECompare(op, a, b), 0
  {
    var e := ECompare(op, a, b);
    var o, r := Out(env, e, regs, log, held, k), Eval(env, e, regs, log);
    var p, q := Out(env, a, regs, log, held, k), Eval(env, a, regs, log);
    var h := StillHeld(a, Consts(a, k), p.x);
    var k2 := OperandConsts(a, Consts(a, k));
    var p2, q2 := Out(env, b, regs, p.log, h, k2), Eval(env, b, regs, q.log);
    Extends(env, b, regs, p.log, h, k2);
    Extends(env, b, regs, q.log, None, k2);
    NoneDelivered(env, a, regs, log, held, k);
    if LeaksOn(env, a, regs, log, held, k) {
      LeakShows(env, a, regs, log, held, k);
      DivergeOn(p.log, q.log, o.log, r.log);
    } else {
      RunsRight(env, a, regs, log, held, k);
      if LeaksOn(env, b, regs, p.log, h, k2) {
        LeakShows(env, b, regs, p.log, h, k2);
        DivergeOn(p2.log, q2.log, o.log, r.log);
      } else {
        hide Out, Eval, LeaksOn, DoorOf;
        StaleShows(env, op, a, b, regs, log, held, k);
      }
    }
  }

  /** The comparison itself is with a stale operand. */
  lemma StaleShows(env: Env, op: CompareOp, a: Expr, b: Expr, regs: Regs, log: seq<Event>, held: Option<Value>, k: seq<Value>)
    requires NoBools(regs) && NoBool(held) && (forall l :: !env.world(l).Bool?)
    requires !LeaksOn(env, a, regs, log, held, k)
    requires var p := Out(env, a, regs, log, held, k); var h := StillHeld(a, Consts(a, k), p.x); var k2 := OperandConsts(a, Consts(a, k));
             && !LeaksOn(env, b, regs, p.log, h, k2)
             && (IsStale(DoorOf(env, a, regs, log, held, k)) || IsStale(DoorOf(env, b, regs, p.log, h, k2)))
    ensures Diverge(Out(env, ECompare(op, a, b), regs, log, held, k).log, Eval(env, ECompare(op, a, b), regs, log).log)
  {
    var e := ECompare(op, a, b);
    var o, r := Out(env, e, regs, log, held, k), Eval(env, e, regs, log);
    var p, q := Out(env, a, regs, log, held, k), Eval(env, a, regs, log);
    var h := StillHeld(a, Consts(a, k), p.x);
    var k2 := OperandConsts(a, Consts(a, k));
    var p2, q2 := Out(env, b, regs, p.log, h, k2), Eval(env, b, regs, q.log);
    RunsRight(env, a, regs, log, held, k);
    NoneDelivered(env, a, regs, log, held, k);
    RunsRight(env, b, regs, p.log, h, k2);
    NoneDelivered(env, b, regs, p.log, h, k2);
    var n := |p2.log|;
    assert o.log == p2.log + [Question(op, Delivered(p.x), Delivered(p2.x))];
    assert r.log == p2.log + [Question(op, q.v, q2.v)];
    hide Out, Eval, LeaksOn, DoorOf;
    StaleDiffers(p.x, q.v, DoorOf(env, a, regs, log, held, k), p2.x, q2.v, DoorOf(env, b, regs, p.log, h, k2), op);
    assert o.log[n] != r.log[n];
  }

  lemma StaleDiffers(x: Exit, v: Value, y: Door, x2: Exit, v2: Value, y2: Door, op: CompareOp)
    requires Abstracts(x, v, y) && Abstracts(x2, v2, y2) && (IsStale(y) || IsStale(y2))
    requires (x.By? ==> NoBool(x.carry)) && (x2.By? ==> NoBool(x2.carry))
    ensures Question(op, Delivered(x), Delivered(x2)) != Question(op, v, v2)
  {
    if IsStale(y) { assert Delivered(x) != v; } else { assert Delivered(x2) != v2; }
  }

  // ---- Every exit is taken by some run ------------------------------------

  /** A run depends on the world only as far as it goes. */
  ghost predicate SameWorld(p: Env, q: Env, from: nat, to: nat) {
    forall l: seq<Event> :: from < |l| <= to ==> p.world(l) == q.world(l)
  }

  lemma {:induction false} OutWorld(p: Env, q: Env, e: Expr, regs: Regs, log: seq<Event>, held: Option<Value>, k: seq<Value>)
    requires SameWorld(p, q, |log|, |Out(p, e, regs, log, held, k).log|)
    ensures Out(q, e, regs, log, held, k) == Out(p, e, regs, log, held, k)
    ensures DoorOf(q, e, regs, log, held, k) == DoorOf(p, e, regs, log, held, k)
    ensures LeaksOn(q, e, regs, log, held, k) == LeaksOn(p, e, regs, log, held, k)
    decreases e, 1
  {
    match e
    case ENot(a) => OutWorld(p, q, a, regs, log, held, k);
    case ELogic(op, a, b) => LogicWorld(p, q, op, a, b, regs, log, held, k);
    case ECompare(op, a, b) =>
      var o := Out(p, a, regs, log, held, k);
      var k1 := Consts(a, k);
      Extends(p, a, regs, log, held, k);
      Extends(p, b, regs, o.log, StillHeld(a, k1, o.x), OperandConsts(a, k1));
      OutWorld(p, q, a, regs, log, held, k);
      OutWorld(p, q, b, regs, o.log, StillHeld(a, k1, o.x), OperandConsts(a, k1));
    case _ =>
  }

  lemma {:induction false} LogicWorld(p: Env, q: Env, op: bool, a: Expr, b: Expr, regs: Regs, log: seq<Event>, held: Option<Value>, k: seq<Value>)
    requires SameWorld(p, q, |log|, |Out(p, ELogic(op, a, b), regs, log, held, k).log|)
    ensures var e := ELogic(op, a, b);
            && Out(q, e, regs, log, held, k) == Out(p, e, regs, log, held, k)
            && DoorOf(q, e, regs, log, held, k) == DoorOf(p, e, regs, log, held, k)
            && LeaksOn(q, e, regs, log, held, k) == LeaksOn(p, e, regs, log, held, k)
    decreases ELogic(op, a, b), 0
  {
    hide Out, DoorOf, LeaksOn, WayOf, Go, SecondConsts;
    var o := Out(p, a, regs, log, held, k);
    var w := Go(ShapeOf(a), o.x, op);
    LogicIs(p, op, a, b, regs, log, held, k);
    LogicIs(q, op, a, b, regs, log, held, k);
    Extends(p, a, regs, log, held, k);
    if w.Through? { Extends(p, b, regs, o.log, w.held, SecondConsts(op, a, k)); }
    OutWorld(p, q, a, regs, log, held, k);
    if w.Through? { OutWorld(p, q, b, regs, o.log, w.held, SecondConsts(op, a, k)); }
  }

  /** The run of a script takes exit `y`; an undecided last operand is `want`. */
  predicate Plays(script: seq<bool>, e: Expr, log: seq<Event>, held: Option<Value>, k: seq<Value>, y: Door, want: bool, up: set<nat>) {
    var env := Script(script, |log|);
    var o := Out(env, e, Truthful(up), log, held, k);
    && |o.log| == |log| + |script| && DoorOf(env, e, Truthful(up), log, held, k) == y
    && (o.x.On? && !Literal(ShapeOf(e)) && Known(e, up).None? ==> IsFalse(o.x.v) != want)
  }

  lemma ScriptStart(s: seq<bool>, t: seq<bool>, from: nat)
    ensures SameWorld(Script(s, from), Script(s + t, from), from, from + |s|)
    ensures SameWorld(Script(t, from + |s|), Script(s + t, from), from + |s|, from + |s| + |t|)
  {
    forall l: seq<Event> | from < |l| <= from + |s| ensures Script(s, from).world(l) == Script(s + t, from).world(l) {}
    forall l: seq<Event> | from + |s| < |l| <= from + |s| + |t| ensures Script(t, from + |s|).world(l) == Script(s + t, from).world(l) {}
  }

  /** A script that takes the given exit. */
  lemma {:induction false} Realize(e: Expr, log: seq<Event>, held: Option<Value>, k: seq<Value>, y: Door, want: bool, up: set<nat>) returns (script: seq<bool>)
    requires y in Doors(e, held.Some?, k, up)
    ensures Plays(script, e, log, held, k, y, want, up)
    decreases e, 1
  {
    match e
    case EGlobal(_) => script := [want];
    case ECall(_) => script := [want, want];
    case ENot(a) =>
      var x :| x in Doors(a, held.Some?, k, up) && y == NegateDoor(ShapeOf(a), x);
      script := Realize(a, log, held, k, x, !want, up);
      DoorFits(Script(script, |log|), a, Truthful(up), log, held, k);
    case ELogic(op, a, b) =>
      var ws := AllWays(ShapeOf(a), Known(a, up), Doors(a, held.Some?, k, up), op);
      var k2 := SecondConsts(op, a, k);
      if w: Turn :| w in ws && w.Off? && y == ByJump(!op, w.load) {
        script := TestPlays(a, log, held, k, w, op, up);
        AwayPlays(script, op, a, b, log, held, k, w, want, up);
      } else {
        var h :| Ahead(h) in ws && y in Doors(b, h, k2, up);
        var s1 := TestPlays(a, log, held, k, Ahead(h), op, up);
        var o := Out(Script(s1, |log|), a, Truthful(up), log, held, k);
        var g := Go(ShapeOf(a), o.x, op);
        AwayOut(Script(s1, |log|), a, Truthful(up), log, held, k, op);
        var s2 := Realize(b, o.log, g.held, k2, y, want, up);
        script := s1 + s2;
        ThroughPlays(s1, s2, op, a, b, log, held, k, y, want, up);
      }
    case ECompare(op, a, b) =>
      script := ComparePlays(op, a, b, log, held, k, want, up);
    case _ => script := [];
  }

  lemma {:induction false} TestPlays(a: Expr, log: seq<Event>, held: Option<Value>, k: seq<Value>, w: Turn, op: bool, up: set<nat>) returns (script: seq<bool>)
    requires w in AllWays(ShapeOf(a), Known(a, up), Doors(a, held.Some?, k, up), op)
    ensures var env := Script(script, |log|); var o := Out(env, a, Truthful(up), log, held, k);
            |o.log| == |log| + |script| && WayOf(ShapeOf(a), DoorOf(env, a, Truthful(up), log, held, k), o.x, op) == w
    decreases a, 2
  {
    var x :| x in Doors(a, held.Some?, k, up) && w in Ways(ShapeOf(a), Known(a, up), x, op);
    script := Realize(a, log, held, k, x, w.Ahead? == op, up);
    var env := Script(script, |log|);
    DoorFits(env, a, Truthful(up), log, held, k);
    ShapeValue(env, a, Truthful(up), log, held, k);
    KnownValue(env, a, Truthful(up), log, held, k);
    TruthfulUp(up);
  }

  lemma AwayPlays(s: seq<bool>, op: bool, a: Expr, b: Expr, log: seq<Event>, held: Option<Value>, k: seq<Value>, w: Turn, want: bool, up: set<nat>)
    requires w.Off?
    requires var env := Script(s, |log|); var o := Out(env, a, Truthful(up), log, held, k);
             |o.log| == |log| + |s| && WayOf(ShapeOf(a), DoorOf(env, a, Truthful(up), log, held, k), o.x, op) == w
    ensures Plays(s, ELogic(op, a, b), log, held, k, ByJump(!op, w.load), want, up)
  {
    AwayOut(Script(s, |log|), a, Truthful(up), log, held, k, op);
  }

  lemma ThroughPlays(s1: seq<bool>, s2: seq<bool>, op: bool, a: Expr, b: Expr, log: seq<Event>, held: Option<Value>, k: seq<Value>, y: Door, want: bool, up: set<nat>)
    requires var env := Script(s1, |log|); var o := Out(env, a, Truthful(up), log, held, k); var g := Go(ShapeOf(a), o.x, op);
             && |o.log| == |log| + |s1| && g.Through?
             && Plays(s2, b, o.log, g.held, SecondConsts(op, a, k), y, want, up)
    ensures Plays(s1 + s2, ELogic(op, a, b), log, held, k, y, want, up)
  {
    hide Script, SameWorld, LeaksOn, DoorOf, Out, ShapeOf;
    var env := Script(s1 + s2, |log|);
    ThroughRuns(s1, s2, op, a, b, log, held, k, up);
    AwayOut(env, a, Truthful(up), log, held, k, op);
    LogicIs(env, op, a, b, Truthful(up), log, held, k);
    ShapeIsLast(op, a, b, up);
  }

  lemma ShapeIsLast(op: bool, a: Expr, b: Expr, up: set<nat>)
    ensures ShapeOf(ELogic(op, a, b)) == ShapeOf(b) && Known(ELogic(op, a, b), up) == Known(b, up)
  {}

  /** Two scripts one after the other. */
  lemma ThroughRuns(s1: seq<bool>, s2: seq<bool>, op: bool, a: Expr, b: Expr, log: seq<Event>, held: Option<Value>, k: seq<Value>, up: set<nat>)
    requires |Out(Script(s1, |log|), a, Truthful(up), log, held, k).log| == |log| + |s1|
    requires var o := Out(Script(s1, |log|), a, Truthful(up), log, held, k); var g := Go(ShapeOf(a), o.x, op);
             g.Through? && |Out(Script(s2, |o.log|), b, Truthful(up), o.log, g.held, SecondConsts(op, a, k)).log| == |o.log| + |s2|
    ensures var env := Script(s1 + s2, |log|); var o := Out(Script(s1, |log|), a, Truthful(up), log, held, k); var g := Go(ShapeOf(a), o.x, op);
            var k2 := SecondConsts(op, a, k); var p := Script(s2, |o.log|);
            && Out(env, a, Truthful(up), log, held, k) == o
            && LeaksOn(env, a, Truthful(up), log, held, k) == LeaksOn(Script(s1, |log|), a, Truthful(up), log, held, k)
            && DoorOf(env, a, Truthful(up), log, held, k) == DoorOf(Script(s1, |log|), a, Truthful(up), log, held, k)
            && Out(env, b, Truthful(up), o.log, g.held, k2) == Out(p, b, Truthful(up), o.log, g.held, k2)
            && LeaksOn(env, b, Truthful(up), o.log, g.held, k2) == LeaksOn(p, b, Truthful(up), o.log, g.held, k2)
            && DoorOf(env, b, Truthful(up), o.log, g.held, k2) == DoorOf(p, b, Truthful(up), o.log, g.held, k2)
  {
    hide Script, SameWorld, LeaksOn, DoorOf, Out, ShapeOf;
    var env := Script(s1 + s2, |log|);
    ScriptStart(s1, s2, |log|);
    OutWorld(Script(s1, |log|), env, a, Truthful(up), log, held, k);
    var o := Out(env, a, Truthful(up), log, held, k);
    var g := Go(ShapeOf(a), o.x, op);
    OutWorld(Script(s2, |o.log|), env, b, Truthful(up), o.log, g.held, SecondConsts(op, a, k));
  }

  /** Some run through both operands, and the answer wanted. */
  lemma {:induction false} ComparePlays(op: CompareOp, a: Expr, b: Expr, log: seq<Event>, held: Option<Value>, k: seq<Value>, want: bool, up: set<nat>) returns (script: seq<bool>)
    ensures Plays(script, ECompare(op, a, b), log, held, k, AtEnd(false), want, up)
    decreases ECompare(op, a, b), 0
  {
    var x := SomeExit(a, held.Some?, k, up);
    var s1 := Realize(a, log, held, k, x, true, up);
    var o := Out(Script(s1, |log|), a, Truthful(up), log, held, k);
    var k1 := Consts(a, k);
    var h := StillHeld(a, k1, o.x);
    var x2 := SomeExit(b, h.Some?, OperandConsts(a, k1), up);
    var s2 := Realize(b, o.log, h, OperandConsts(a, k1), x2, true, up);
    script := s1 + s2 + [want == (op != Ne)];
    BothPlay(s1, s2, want, op, a, b, log, held, k, x2, up);
  }

  lemma BothPlay(s1: seq<bool>, s2: seq<bool>, want: bool, op: CompareOp, a: Expr, b: Expr, log: seq<Event>, held: Option<Value>, k: seq<Value>, x2: Door, up: set<nat>)
    requires var o := Out(Script(s1, |log|), a, Truthful(up), log, held, k); var k1 := Consts(a, k); var h := StillHeld(a, k1, o.x);
             |o.log| == |log| + |s1| && Plays(s2, b, o.log, h, OperandConsts(a, k1), x2, true, up)
    ensures Plays(s1 + s2 + [want == (op != Ne)], ECompare(op, a, b), log, held, k, AtEnd(false), want, up)
  {
    hide Script, SameWorld, LeaksOn, DoorOf, Out;
    var env := Script(s1 + s2 + [want == (op != Ne)], |log|);
    var o := Out(Script(s1, |log|), a, Truthful(up), log, held, k);
    var k1 := Consts(a, k);
    var h := StillHeld(a, k1, o.x);
    var o2 := Out(Script(s2, |o.log|), b, Truthful(up), o.log, h, OperandConsts(a, k1));
    OperandsPlay(s1, s2, want == (op != Ne), a, b, log, held, k, up);
    LastWord(s1 + s2, want == (op != Ne), |log|);
    CompareIs(env, op, a, b, log, held, k, up);
  }

  /** The operands play their parts of the script. */
  lemma OperandsPlay(s1: seq<bool>, s2: seq<bool>, last: bool, a: Expr, b: Expr, log: seq<Event>, held: Option<Value>, k: seq<Value>, up: set<nat>)
    requires var o := Out(Script(s1, |log|), a, Truthful(up), log, held, k); var k1 := Consts(a, k); var h := StillHeld(a, k1, o.x);
             |o.log| == |log| + |s1| && |Out(Script(s2, |o.log|), b, Truthful(up), o.log, h, OperandConsts(a, k1)).log| == |o.log| + |s2|
    ensures var env := Script(s1 + s2 + [last], |log|); var o := Out(env, a, Truthful(up), log, held, k); var k1 := Consts(a, k);
            var h := StillHeld(a, k1, o.x);
            && o == Out(Script(s1, |log|), a, Truthful(up), log, held, k)
            && Out(env, b, Truthful(up), o.log, h, OperandConsts(a, k1)) == Out(Script(s2, |o.log|), b, Truthful(up), o.log, h, OperandConsts(a, k1))
            && DoorOf(env, a, Truthful(up), log, held, k) == DoorOf(Script(s1, |log|), a, Truthful(up), log, held, k)
            && LeaksOn(env, a, Truthful(up), log, held, k) == LeaksOn(Script(s1, |log|), a, Truthful(up), log, held, k)
            && DoorOf(env, b, Truthful(up), o.log, h, OperandConsts(a, k1)) == DoorOf(Script(s2, |o.log|), b, Truthful(up), o.log, h, OperandConsts(a, k1))
            && LeaksOn(env, b, Truthful(up), o.log, h, OperandConsts(a, k1)) == LeaksOn(Script(s2, |o.log|), b, Truthful(up), o.log, h, OperandConsts(a, k1))
  {
    hide Script, SameWorld, LeaksOn, DoorOf, Out;
    var env := Script(s1 + s2 + [last], |log|);
    assert s1 + s2 + [last] == s1 + (s2 + [last]);
    ScriptStart(s1, s2 + [last], |log|);
    var o := Out(Script(s1, |log|), a, Truthful(up), log, held, k);
    var k1 := Consts(a, k);
    var h := StillHeld(a, k1, o.x);
    var k2 := OperandConsts(a, k1);
    ScriptStart(s2, [last], |o.log|);
    OutWorld(Script(s1, |log|), env, a, Truthful(up), log, held, k);
    var mid := Script(s2 + [last], |o.log|);
    OutWorld(Script(s2, |o.log|), mid, b, Truthful(up), o.log, h, k2);
    SameWorldLess(mid, env, |o.log|, |o.log| + |s2| + 1, |o.log| + |s2|);
    OutWorld(mid, env, b, Truthful(up), o.log, h, k2);
  }

  lemma CompareIs(env: Env, op: CompareOp, a: Expr, b: Expr, log: seq<Event>, held: Option<Value>, k: seq<Value>, up: set<nat>)
    ensures var p := Out(env, a, Truthful(up), log, held, k);
            var k1 := Consts(a, k);
            var q := Out(env, b, Truthful(up), p.log, StillHeld(a, k1, p.x), OperandConsts(a, k1));
            var l := q.log + [Question(op, Delivered(p.x), Delivered(q.x))];
            Out(env, ECompare(op, a, b), Truthful(up), log, held, k) == Outcome(On(Answer(env, op, l), None), l)
    ensures DoorOf(env, ECompare(op, a, b), Truthful(up), log, held, k) == AtEnd(false)
  {}

  lemma LastWord(s: seq<bool>, b: bool, from: nat)
    ensures forall l: seq<Event> :: |l| == from + |s| + 1 ==> IsFalse(Script(s + [b], from).world(l)) != b
  {}

  lemma SameWorldLess(p: Env, q: Env, from: nat, to: nat, less: nat)
    requires SameWorld(p, q, from, to) && less <= to
    ensures SameWorld(p, q, from, less)
  {}

  /** There is always some exit. */
  lemma {:induction false} SomeExit(e: Expr, held: bool, k: seq<Value>, up: set<nat>) returns (y: Door)
    ensures y in Doors(e, held, k, up)
    decreases e
  {
    match e
    case ENot(a) =>
      var x := SomeExit(a, held, k, up);
      y := NegateDoor(ShapeOf(a), x);
    case ELogic(op, a, b) =>
      var x := SomeExit(a, held, k, up);
      var w := SomeWay(ShapeOf(a), Known(a, up), x, op);
      assert w in AllWays(ShapeOf(a), Known(a, up), Doors(a, held, k, up), op);
      if w.Off? { y := ByJump(!op, w.load); } else {
        y := SomeExit(b, w.held, SecondConsts(op, a, k), up);
      }
    case EGlobal(_) => y := AtEnd(false);
    case ECall(_) => y := AtEnd(false);
    case ECompare(_, _, _) => y := AtEnd(false);
    case _ => y := AtEnd(held);
  }

  lemma SomeWay(s: Shape, t: Option<bool>, x: Door, truth: bool) returns (w: Turn)
    ensures w in Ways(s, t, x, truth)
  {
    if x.ByJump? { w := if x.truth == truth then Ahead(x.load != Empty) else Off(x.load); }
    else if Sure(s, truth) { w := Ahead(x.held); }
    else if Never(s, truth) { w := Off(if x.held then Stale else Empty); }
    else if !Literal(s) && t == Some(truth) { w := Ahead(false); }
    else { w := Off(if !Literal(s) && (s.SJump? || s.SNot?) then Empty else Proper); }
  }

  // ---- Every leak is a leak of some run -----------------------------------

  predicate Covers(script: seq<bool>, e: Expr, log: seq<Event>, held: Option<Value>, k: seq<Value>, up: set<nat>) {
    |Out(Script(script, |log|), e, Truthful(up), log, held, k).log| == |log| + |script|
  }

  /** A script under which a comparison on the way gets a stale operand. */
  lemma {:induction false} RealizeLeak(e: Expr, log: seq<Event>, held: Option<Value>, k: seq<Value>, up: set<nat>) returns (script: seq<bool>)
    requires LeaksInside(e, held.Some?, k, up)
    ensures Covers(script, e, log, held, k, up) && LeaksOn(Script(script, |log|), e, Truthful(up), log, held, k)
    decreases e, 1
  {
    match e
    case ENot(a) => script := RealizeLeak(a, log, held, k, up);
    case ELogic(op, a, b) =>
      var ws := AllWays(ShapeOf(a), Known(a, up), Doors(a, held.Some?, k, up), op);
      var k2 := SecondConsts(op, a, k);
      var s1: seq<bool>;
      if LeaksInside(a, held.Some?, k, up) {
        s1 := RealizeLeak(a, log, held, k, up);
      } else if Ahead(true) in ws && LeaksInside(b, true, k2, up) {
        s1 := TestPlays(a, log, held, k, Ahead(true), op, up);
      } else {
        s1 := TestPlays(a, log, held, k, Ahead(false), op, up);
      }
      var o := Out(Script(s1, |log|), a, Truthful(up), log, held, k);
      AwayOut(Script(s1, |log|), a, Truthful(up), log, held, k, op);
      var g := Go(ShapeOf(a), o.x, op);
      if g.Through? {
        var s2: seq<bool>;
        if LeaksInside(b, g.held.Some?, k2, up) {
          s2 := RealizeLeak(b, o.log, g.held, k2, up);
        } else {
          var y := SomeExit(b, g.held.Some?, k2, up);
          s2 := Realize(b, o.log, g.held, k2, y, true, up);
        }
        ThroughLeaks(s1, s2, op, a, b, log, held, k, up);
        script := s1 + s2;
      } else {
        script := s1;
      }
    case ECompare(op, a, b) => script := RealizeCompare(op, a, b, log, held, k, up);
    case _ =>
  }

  lemma ThroughLeaks(s1: seq<bool>, s2: seq<bool>, op: bool, a: Expr, b: Expr, log: seq<Event>, held: Option<Value>, k: seq<Value>, up: set<nat>)
    requires Covers(s1, a, log, held, k, up)
    requires var o := Out(Script(s1, |log|), a, Truthful(up), log, held, k); var g := Go(ShapeOf(a), o.x, op);
             g.Through? && Covers(s2, b, o.log, g.held, SecondConsts(op, a, k), up)
    ensures Covers(s1 + s2, ELogic(op, a, b), log, held, k, up)
    ensures var o := Out(Script(s1, |log|), a, Truthful(up), log, held, k); var g := Go(ShapeOf(a), o.x, op);
            LeaksOn(Script(s1, |log|), a, Truthful(up), log, held, k)
            || LeaksOn(Script(s2, |o.log|), b, Truthful(up), o.log, g.held, SecondConsts(op, a, k)) ==>
            LeaksOn(Script(s1 + s2, |log|), ELogic(op, a, b), Truthful(up), log, held, k)
  {
    hide Script, SameWorld, DoorOf, Out, LeaksOn, ShapeOf;
    ThroughRuns(s1, s2, op, a, b, log, held, k, up);
    LogicIs(Script(s1 + s2, |log|), op, a, b, Truthful(up), log, held, k);
  }

  lemma {:induction false} RealizeCompare(op: CompareOp, a: Expr, b: Expr, log: seq<Event>, held: Option<Value>, k: seq<Value>, up: set<nat>) returns (script: seq<bool>)
    requires LeaksInside(ECompare(op, a, b), held.Some?, k, up)
    ensures Covers(script, ECompare(op, a, b), log, held, k, up)
    ensures LeaksOn(Script(script, |log|), ECompare(op, a, b), Truthful(up), log, held, k)
    decreases ECompare(op, a, b), 0
  {
    var k1 := Consts(a, k);
    var k2 := OperandConsts(a, k1);
    var s1 := FirstLeaks(op, a, b, log, held, k, up);
    var o := Out(Script(s1, |log|), a, Truthful(up), log, held, k);
    var h := StillHeld(a, k1, o.x);
    DoorFits(Script(s1, |log|), a, Truthful(up), log, held, k);
    var s2: seq<bool>;
    if LeaksInside(b, h.Some?, k2, up) {
      s2 := RealizeLeak(b, o.log, h, k2, up);
    } else {
      var y: Door;
      if ByJump(true, Stale) in Doors(b, h.Some?, k2, up) { y := ByJump(true, Stale); }
      else if ByJump(false, Stale) in Doors(b, h.Some?, k2, up) { y := ByJump(false, Stale); }
      else { y := SomeExit(b, h.Some?, k2, up); }
      s2 := Realize(b, o.log, h, k2, y, true, up);
    }
    script := s1 + s2 + [true];
    CompareLeaks(s1, s2, op, a, b, log, held, k, up);
  }

  /** The first operand's part: it is stale itself, or lets the second be. */
  lemma {:induction false} FirstLeaks(op: CompareOp, a: Expr, b: Expr, log: seq<Event>, held: Option<Value>, k: seq<Value>, up: set<nat>) returns (s1: seq<bool>)
    requires LeaksInside(ECompare(op, a, b), held.Some?, k, up)
    ensures Covers(s1, a, log, held, k, up)
    ensures var env := Script(s1, |log|); var o := Out(env, a, Truthful(up), log, held, k);
            var h := StillHeld(a, Consts(a, k), o.x); var k2 := OperandConsts(a, Consts(a, k));
            || LeaksOn(env, a, Truthful(up), log, held, k) || IsStale(DoorOf(env, a, Truthful(up), log, held, k))
            || ByJump(true, Stale) in Doors(b, h.Some?, k2, up) || ByJump(false, Stale) in Doors(b, h.Some?, k2, up) || LeaksInside(b, h.Some?, k2, up)
    decreases a, 2
  {
    var xs := Doors(a, held.Some?, k, up);
    if LeaksInside(a, held.Some?, k, up) {
      s1 := RealizeLeak(a, log, held, k, up);
    } else {
      var y: Door;
      if ByJump(true, Stale) in xs { y := ByJump(true, Stale); }
      else if ByJump(false, Stale) in xs { y := ByJump(false, Stale); }
      else if MayBeHeld(a, held.Some?, k, up) && !MayNotBeHeld(a, held.Some?, k, up) { y := AtEnd(true); }
      else { y := SecondNeeds(a, b, held.Some?, k, up); }
      s1 := Realize(a, log, held, k, y, true, up);
      DoorFits(Script(s1, |log|), a, Truthful(up), log, held, k);
    }
  }

  /** The exit of the first operand that makes the second one leak. */
  lemma SecondNeeds(a: Expr, b: Expr, held: bool, k: seq<Value>, up: set<nat>) returns (y: Door)
    requires MayBeHeld(a, held, k, up) || MayNotBeHeld(a, held, k, up)
    ensures y in Doors(a, held, k, up)
    ensures var k2 := OperandConsts(a, Consts(a, k)); var h := Direct(a, Consts(a, k)) && y == AtEnd(true);
            (MayBeHeld(a, held, k, up) && (ByJump(true, Stale) in Doors(b, true, k2, up) || ByJump(false, Stale) in Doors(b, true, k2, up) || LeaksInside(b, true, k2, up))) ||
            (MayNotBeHeld(a, held, k, up) && (ByJump(true, Stale) in Doors(b, false, k2, up) || ByJump(false, Stale) in Doors(b, false, k2, up) || LeaksInside(b, false, k2, up))) ==>
            ByJump(true, Stale) in Doors(b, h, k2, up) || ByJump(false, Stale) in Doors(b, h, k2, up) || LeaksInside(b, h, k2, up)
  {
    var k2 := OperandConsts(a, Consts(a, k));
    if MayBeHeld(a, held, k, up) && (ByJump(true, Stale) in Doors(b, true, k2, up) || ByJump(false, Stale) in Doors(b, true, k2, up) || LeaksInside(b, true, k2, up)) {
      y := AtEnd(true);
    } else if MayNotBeHeld(a, held, k, up) {
      if Direct(a, Consts(a, k)) { y :| y in Doors(a, held, k, up) && y != AtEnd(true); } else { y := SomeExit(a, held, k, up); }
    } else {
      y := AtEnd(true);
    }
  }

  lemma CompareLeaks(s1: seq<bool>, s2: seq<bool>, op: CompareOp, a: Expr, b: Expr, log: seq<Event>, held: Option<Value>, k: seq<Value>, up: set<nat>)
    requires Covers(s1, a, log, held, k, up)
    requires var o := Out(Script(s1, |log|), a, Truthful(up), log, held, k); var k1 := Consts(a, k); var h := StillHeld(a, k1, o.x);
             Covers(s2, b, o.log, h, OperandConsts(a, k1), up)
    ensures Covers(s1 + s2 + [true], ECompare(op, a, b), log, held, k, up)
    ensures var o := Out(Script(s1, |log|), a, Truthful(up), log, held, k); var k1 := Consts(a, k); var h := StillHeld(a, k1, o.x);
            var k2 := OperandConsts(a, k1);
            LeaksOn(Script(s1, |log|), a, Truthful(up), log, held, k) || IsStale(DoorOf(Script(s1, |log|), a, Truthful(up), log, held, k))
            || LeaksOn(Script(s2, |o.log|), b, Truthful(up), o.log, h, k2) || IsStale(DoorOf(Script(s2, |o.log|), b, Truthful(up), o.log, h, k2)) ==>
            LeaksOn(Script(s1 + s2 + [true], |log|), ECompare(op, a, b), Truthful(up), log, held, k)
  {
    hide Script, SameWorld, DoorOf, Out;
    OperandsPlay(s1, s2, true, a, b, log, held, k, up);
    CompareIs(Script(s1 + s2 + [true], |log|), op, a, b, log, held, k, up);
  }

  // ---- The whole story ----------------------------------------------------

  /** The code of an expression, come to with a value held by a pending jump or
      not, is right on every run exactly if there is no leak, whichever locals are
      true. */
  lemma RightIffNoLeak(e: Expr, h: bool, k: seq<Value>)
    ensures (forall up :: !Leaks(e, h, k, up)) <==>
            forall env, regs, log, held: Option<Value> :: held.Some? == h ==> Right(env, e, regs, log, held, k)
  {
    if up :| Leaks(e, h, k, up) {
      var held := if h then Some(SOMETHING) else None;
      var script := LeakRun(e, [], held, k, up);
      LeakWrong(Script(script, 0), e, Truthful(up), [], held, k) by { TruthfulUp(up); }
    } else {
      forall env, regs, log, held: Option<Value> | held.Some? == h ensures Right(env, e, regs, log, held, k) {
        NoLeakRight(env, e, regs, log, held, k);
      }
    }
  }

  lemma LeakRun(e: Expr, log: seq<Event>, held: Option<Value>, k: seq<Value>, up: set<nat>) returns (script: seq<bool>)
    requires Leaks(e, held.Some?, k, up)
    ensures var env := Script(script, |log|); var regs := Truthful(up);
            LeaksOn(env, e, regs, log, held, k) || IsStale(DoorOf(env, e, regs, log, held, k))
  {
    if LeaksInside(e, held.Some?, k, up) {
      script := RealizeLeak(e, log, held, k, up);
    } else {
      var b :| ByJump(b, Stale) in Doors(e, held.Some?, k, up);
      script := Realize(e, log, held, k, ByJump(b, Stale), true, up);
    }
  }

  lemma LeakWrong(env: Env, e: Expr, regs: Regs, log: seq<Event>, held: Option<Value>, k: seq<Value>)
    requires NoBools(regs) && NoBool(held) && forall l :: !env.world(l).Bool?
    requires LeaksOn(env, e, regs, log, held, k) || IsStale(DoorOf(env, e, regs, log, held, k))
    ensures !Right(env, e, regs, log, held, k)
  {
    if LeaksOn(env, e, regs, log, held, k) {
      LeakShows(env, e, regs, log, held, k);
    } else {
      RunsRight(env, e, regs, log, held, k);
      NoneDelivered(env, e, regs, log, held, k);
    }
  }

  /** No literal takes pending jumps along. */
  predicate Plain(e: Expr) {
    match e
    case ENot(a) => Plain(a)
    case ELogic(op, a, b) => Plain(a) && Plain(b) && !Never(ShapeOf(a), op)
    case ECompare(_, a, b) => Plain(a) && Plain(b)
    case _ => true
  }

  /** Leaks need such a literal: with locals, globals, calls, comparisons, numbers
      and strings for operands there is none. */
  lemma {:induction false} PlainNoLeak(e: Expr, held: bool, k: seq<Value>, up: set<nat>)
    requires Plain(e)
    ensures NoneStale(Doors(e, held, k, up)) && !LeaksInside(e, held, k, up)
    ensures !Leaks(e, held, k, up)
    decreases e
  {
    match e
    case ENot(a) => PlainNoLeak(a, held, k, up);
    case ELogic(op, a, b) =>
      PlainNoLeak(a, held, k, up);
      var k2 := SecondConsts(op, a, k);
      PlainNoLeak(b, true, k2, up);
      PlainNoLeak(b, false, k2, up);
      PlainWays(ShapeOf(a), Known(a, up), Doors(a, held, k, up), op);
      hide AllWays;
    case ECompare(op, a, b) =>
      PlainNoLeak(a, held, k, up);
      PlainNoLeak(b, true, OperandConsts(a, Consts(a, k)), up);
      PlainNoLeak(b, false, OperandConsts(a, Consts(a, k)), up);
      hide Doors;
    case _ =>
  }

  predicate NoneStale(xs: set<Door>) {
    forall x <- xs :: !IsStale(x)
  }

  lemma PlainWays(s: Shape, t: Option<bool>, xs: set<Door>, op: bool)
    requires NoneStale(xs) && !Never(s, op)
    ensures Off(Stale) !in AllWays(s, t, xs, op)
  {}
}
