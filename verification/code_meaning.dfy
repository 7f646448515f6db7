/** What the reference meaning of expressions comes to where comparisons compare: the
    manual's words on its operators. */
module CodeMeaning {
  import opened CodeVm
  import opened CodeTree

  /** The world compares numbers as numbers, and values of different types are not
      equal, whatever has happened before. */
  ghost predicate Compares(env: Env) {
    forall log: seq<Event>, op: CmpOp, x: Value, y: Value {:trigger env.world(log + [Compared(op, x, y)])} ::
      && (op.OpEq? ==> env.world(log + [Compared(op, x, y)]) == Bool(x == y))
      && (op.OpLt? && x.Num? && y.Num? ==> env.world(log + [Compared(op, x, y)]) == Bool(x.n < y.n))
      && (op.OpLe? && x.Num? && y.Num? ==> env.world(log + [Compared(op, x, y)]) == Bool(x.n <= y.n))
  }

  /** Section 2.5.2 of the Lua 5.1 Reference Manual: what an expression comes to, for
      operands that come to `x` and `y`. */
  lemma Comparisons(env: Env, a: Expr, b: Expr, regs: Regs, log: seq<Event>)
    requires Compares(env)
    ensures var p := Eval(env, a, regs, log); var q := Eval(env, b, regs, p.log);
            && Eval(env, ECompare(Eq, a, b), regs, log).v == Bool(p.v == q.v)
            && Eval(env, ECompare(Ne, a, b), regs, log).v == Bool(p.v != q.v)
            && (p.v.Num? && q.v.Num? ==>
                  && Eval(env, ECompare(Lt, a, b), regs, log).v == Bool(p.v.n < q.v.n)
                  && Eval(env, ECompare(Le, a, b), regs, log).v == Bool(p.v.n <= q.v.n)
                  && Eval(env, ECompare(Gt, a, b), regs, log).v == Bool(p.v.n > q.v.n)
                  && Eval(env, ECompare(Ge, a, b), regs, log).v == Bool(p.v.n >= q.v.n))
  {
    var p := Eval(env, a, regs, log);
    var q := Eval(env, b, regs, p.log);
    hide Eval;
    forall op: CompareOp ensures Eval(env, ECompare(op, a, b), regs, log).v == Answer(env, op, q.log + [Question(op, p.v, q.v)]) {
      CompareEval(env, ECompare(op, a, b), regs, log);
    }
  }

  lemma CompareEval(env: Env, e: Expr, regs: Regs, log: seq<Event>)
    requires e.ECompare?
    ensures var p := Eval(env, e.a, regs, log); var q := Eval(env, e.b, regs, p.log);
            Eval(env, e, regs, log).v == Answer(env, e.op, q.log + [Question(e.op, p.v, q.v)])
  {}

  /** Section 2.5.3: only false and nil are false; `and` and `or` return one of their
      operands, and ask nothing about the second if the first decides. */
  lemma Logic(env: Env, a: Expr, b: Expr, regs: Regs, log: seq<Event>)
    ensures var p := Eval(env, a, regs, log); var q := Eval(env, b, regs, p.log);
            var no := p.v == Nil || p.v == Bool(false);
            && Eval(env, ELogic(true, a, b), regs, log) == (if no then p else q)
            && Eval(env, ELogic(false, a, b), regs, log) == (if no then q else p)
            && Eval(env, ENot(a), regs, log) == Result(Bool(no), p.log)
  {
    LogicEval(env, ELogic(true, a, b), regs, log);
    LogicEval(env, ELogic(false, a, b), regs, log);
    NotEval(env, a, regs, log);
    hide Eval;
  }

  lemma LogicEval(env: Env, e: Expr, regs: Regs, log: seq<Event>)
    requires e.ELogic?
    ensures var p := Eval(env, e.a, regs, log);
            Eval(env, e, regs, log) == if IsFalse(p.v) == e.conj then p else Eval(env, e.b, regs, p.log)
  {}

  lemma NotEval(env: Env, a: Expr, regs: Regs, log: seq<Event>)
    ensures var p := Eval(env, a, regs, log); Eval(env, ENot(a), regs, log) == Result(Bool(IsFalse(p.v)), p.log)
  {}
}
