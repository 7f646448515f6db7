/** Compiled statements do what the language says: conditionals, loops, `break`
    and assignments to locals run on the machine as they run on paper. */
module CodeLoops {
  import opened CodeVm
  import opened CodeTree
  import opened CodeGen
  import opened CodeLists
  import opened CodeState
  import opened CodeExits
  import opened CodeDischarge
  import opened CodeClose
  import opened CodeOperand
  import opened CodeTests
  import opened CodeNegation
  import opened CodeCorrect
  import opened CodeRuns
  import opened CodeExact
  import opened CodeTheorems
  import opened CodeBlocks

  // ---- Meaning ------------------------------------------------------------

  /** How a statement ends: with these values of the locals, by a `break`, or not
      within the number of rounds allowed. */
  datatype Ended = Normal(regs: Regs, log: seq<Event>) | Broke(regs: Regs, log: seq<Event>) | Unfinished

  /** Section 2.4 of the Lua 5.1 Reference Manual.  `n` locals are active;
      `rounds` limits the repetitions of loops. */
  function Exec(env: Env, st: Stat, regs: Regs, n: nat, log: seq<Event>, rounds: nat): Ended
    decreases rounds, st
  {
    match st
    case SSkip => Normal(regs, log)
    case SBreak => Broke(regs, log)
    case SSeq(a, b) =>
      (match Exec(env, a, regs, n, log, rounds)
       case Normal(r, l) => Exec(env, b, r, n + Declared(a), l, rounds)
       case other => other)
    case SLocal(e) => var v := Eval(env, e, regs, log); Normal(regs[n := v.v], v.log)
    case SAssign(r, e) => var v := Eval(env, e, regs, log); Normal(regs[r := v.v], v.log)
    case SDo(body) => Exec(env, body, regs, n, log, rounds)
    case SIf(c, body, rest) =>
      var v := Eval(env, c, regs, log);
      if IsFalse(v.v) then ExecRest(env, rest, regs, n, v.log, rounds) else Exec(env, body, regs, n, v.log, rounds)
    case SWhile(c, body) =>
      var v := Eval(env, c, regs, log);
      if IsFalse(v.v) then Normal(regs, v.log) else
        (match Exec(env, body, regs, n, v.log, rounds)
         case Normal(r, l) => if rounds == 0 then Unfinished else Exec(env, st, r, n, l, rounds - 1)
         case Broke(r, l) => Normal(r, l)
         case Unfinished => Unfinished)
    case SRepeat(body, c) =>
      match Exec(env, body, regs, n, log, rounds)
      case Normal(r, l) =>
        var v := Eval(env, c, r, l);
        if !IsFalse(v.v) then Normal(r, v.log)
        else if rounds == 0 then Unfinished else Exec(env, st, r, n, v.log, rounds - 1)
      case Broke(r, l) => Normal(r, l)
      case Unfinished => Unfinished
  }

  function ExecRest(env: Env, rest: Rest, regs: Regs, n: nat, log: seq<Event>, rounds: nat): Ended
    decreases rounds, rest
  {
    match rest
    case REnd => Normal(regs, log)
    case RElse(body) => Exec(env, body, regs, n, log, rounds)
    case RElseIf(c, body, more) =>
      var v := Eval(env, c, regs, log);
      if IsFalse(v.v) then ExecRest(env, more, regs, n, v.log, rounds) else Exec(env, body, regs, n, v.log, rounds)
  }

  /** More rounds do not change a result. */
  lemma {:induction false} ExecMore(env: Env, st: Stat, regs: Regs, n: nat, log: seq<Event>, p: nat, q: nat)
    requires p <= q && !Exec(env, st, regs, n, log, p).Unfinished?
    ensures Exec(env, st, regs, n, log, q) == Exec(env, st, regs, n, log, p)
    decreases p, st
  {
    match st
    case SSeq(a, b) =>
      ExecMore(env, a, regs, n, log, p, q);
      var r := Exec(env, a, regs, n, log, p);
      if r.Normal? { ExecMore(env, b, r.regs, n + Declared(a), r.log, p, q); }
    case SDo(body) => ExecMore(env, body, regs, n, log, p, q);
    case SIf(c, body, rest) =>
      var v := Eval(env, c, regs, log);
      if IsFalse(v.v) { RestMore(env, rest, regs, n, v.log, p, q); } else { ExecMore(env, body, regs, n, v.log, p, q); }
    case SWhile(c, body) =>
      var v := Eval(env, c, regs, log);
      if !IsFalse(v.v) {
        ExecMore(env, body, regs, n, v.log, p, q);
        var r := Exec(env, body, regs, n, v.log, p);
        if r.Normal? { ExecMore(env, st, r.regs, n, r.log, p - 1, q - 1); }
      }
    case SRepeat(body, c) =>
      ExecMore(env, body, regs, n, log, p, q);
      var r := Exec(env, body, regs, n, log, p);
      if r.Normal? {
        var v := Eval(env, c, r.regs, r.log);
        if IsFalse(v.v) { ExecMore(env, st, r.regs, n, v.log, p - 1, q - 1); }
      }
    case _ =>
  }

  lemma {:induction false} RestMore(env: Env, rest: Rest, regs: Regs, n: nat, log: seq<Event>, p: nat, q: nat)
    requires p <= q && !ExecRest(env, rest, regs, n, log, p).Unfinished?
    ensures ExecRest(env, rest, regs, n, log, q) == ExecRest(env, rest, regs, n, log, p)
    decreases p, rest
  {
    match rest
    case REnd =>
    case RElse(body) => ExecMore(env, body, regs, n, log, p, q);
    case RElseIf(c, body, more) =>
      var v := Eval(env, c, regs, log);
      if IsFalse(v.v) { RestMore(env, more, regs, n, v.log, p, q); } else { ExecMore(env, body, regs, n, v.log, p, q); }
  }

  /** Without a `break` of its own a statement is not left by one. */
  lemma {:induction false} NoBreak(env: Env, st: Stat, regs: Regs, n: nat, log: seq<Event>, rounds: nat)
    requires !Breaks(st)
    ensures !Exec(env, st, regs, n, log, rounds).Broke?
    decreases rounds, st
  {
    match st
    case SSeq(a, b) =>
      NoBreak(env, a, regs, n, log, rounds);
      var r := Exec(env, a, regs, n, log, rounds);
      if r.Normal? { NoBreak(env, b, r.regs, n + Declared(a), r.log, rounds); }
    case SDo(body) => NoBreak(env, body, regs, n, log, rounds);
    case SIf(c, body, rest) =>
      var v := Eval(env, c, regs, log);
      if IsFalse(v.v) { RestNoBreak(env, rest, regs, n, v.log, rounds); } else { NoBreak(env, body, regs, n, v.log, rounds); }
    case SWhile(c, body) =>
      var v := Eval(env, c, regs, log);
      if !IsFalse(v.v) && rounds > 0 {
        var r := Exec(env, body, regs, n, v.log, rounds);
        if r.Normal? { NoBreak(env, st, r.regs, n, r.log, rounds - 1); }
      }
    case SRepeat(body, c) =>
      var r := Exec(env, body, regs, n, log, rounds);
      if r.Normal? && rounds > 0 { NoBreak(env, st, r.regs, n, Eval(env, c, r.regs, r.log).log, rounds - 1); }
    case _ =>
  }

  lemma {:induction false} RestNoBreak(env: Env, rest: Rest, regs: Regs, n: nat, log: seq<Event>, rounds: nat)
    requires !BreaksRest(rest)
    ensures !ExecRest(env, rest, regs, n, log, rounds).Broke?
    decreases rounds, rest
  {
    match rest
    case REnd =>
    case RElse(body) => NoBreak(env, body, regs, n, log, rounds);
    case RElseIf(c, body, more) =>
      var v := Eval(env, c, regs, log);
      if IsFalse(v.v) { RestNoBreak(env, more, regs, n, v.log, rounds); } else { NoBreak(env, body, regs, n, v.log, rounds); }
  }

  // ---- No risk ------------------------------------------------------------

  /** Some jump that comes here could still deliver a value. */
  predicate MayHold(s: Fs) {
    exists j <- s.jpc :: Valued(s.code, j)
  }

  ghost predicate SafeValue(s: Fs, e: Expr) {
    forall up: set<nat> :: !Leaks(e, false, s.k, up) && (MayHold(s) ==> !Leaks(e, true, s.k, up))
  }

  ghost predicate SafeTest(s: Fs, e: Expr) {
    forall up: set<nat> :: !LeaksInside(e, false, s.k, up) && (MayHold(s) ==> !LeaksInside(e, true, s.k, up))
  }

  /** No expression of the statement can leak where it is compiled. */
  ghost predicate NoRisk(s: Fs, l: seq<nat>, st: Stat)
    decreases st, 0
  {
    match st
    case SSkip => true
    case SBreak => true
    case SSeq(a, b) => NoRisk(s, l, a) && var (t, m) := GenStat(s, l, a); NoRisk(t, m, b)
    case SLocal(e) => SafeValue(s, e)
    case SAssign(_, e) => SafeValue(s, e)
    case SDo(body) => NoRisk(s, l, body)
    case SIf(c, body, rest) =>
      var (s1, exit) := Cond(s, c);
      var (s2, m) := GenBlock(s1, l, body);
      SafeTest(s, c) && NoRisk(s1, l, body) && NoRiskRest(s2, m, [], exit, rest)
    case SWhile(c, body) => SafeTest(s, c) && NoRisk(Cond(s, c).0, [], body)
    case SRepeat(body, c) => NoRisk(s, [], body) && SafeTest(GenStat(s, [], body).0, c)
  }

  ghost predicate NoRiskRest(s: Fs, l: seq<nat>, escape: seq<nat>, flist: seq<nat>, rest: Rest)
    decreases rest, 0
  {
    var (s1, j) := Jump(s);
    var s2 := PatchToHere(s1, flist);
    match rest
    case REnd => true
    case RElse(body) => NoRisk(s2, l, body)
    case RElseIf(c, body, more) =>
      var (s3, exit) := Cond(s2, c);
      var (s4, m) := GenBlock(s3, l, body);
      SafeTest(s2, c) && NoRisk(s3, l, body) && NoRiskRest(s4, m, escape + j, exit, more)
  }

  /** Programs in which no literal decides an operator. */
  predicate PlainStat(st: Stat) {
    match st
    case SSkip => true
    case SBreak => true
    case SSeq(a, b) => PlainStat(a) && PlainStat(b)
    case SLocal(e) => Plain(e)
    case SAssign(_, e) => Plain(e)
    case SDo(body) => PlainStat(body)
    case SIf(c, body, rest) => Plain(c) && PlainStat(body) && PlainRest(rest)
    case SWhile(c, body) => Plain(c) && PlainStat(body)
    case SRepeat(body, c) => PlainStat(body) && Plain(c)
  }

  predicate PlainRest(rest: Rest) {
    match rest
    case REnd => true
    case RElse(body) => PlainStat(body)
    case RElseIf(c, body, more) => Plain(c) && PlainStat(body) && PlainRest(more)
  }

  lemma PlainSafe(s: Fs, e: Expr)
    requires Plain(e)
    ensures SafeValue(s, e) && SafeTest(s, e)
  {
    forall up: set<nat>, held ensures !Leaks(e, held, s.k, up) && !LeaksInside(e, held, s.k, up) {
      PlainNoLeak(e, held, s.k, up);
    }
  }

  lemma {:induction false} PlainNoRisk(s: Fs, l: seq<nat>, st: Stat)
    requires PlainStat(st)
    ensures NoRisk(s, l, st)
    decreases st, 0
  {
    hide SafeValue, SafeTest, GenStat, GenBlock, Cond;
    match st
    case SSeq(a, b) =>
      PlainNoRisk(s, l, a);
      PlainNoRisk(GenStat(s, l, a).0, GenStat(s, l, a).1, b);
    case SLocal(e) => PlainSafe(s, e);
    case SAssign(_, e) => PlainSafe(s, e);
    case SDo(body) => PlainNoRisk(s, l, body);
    case SIf(c, body, rest) =>
      var (s1, exit) := Cond(s, c);
      var (s2, m) := GenBlock(s1, l, body);
      PlainSafe(s, c);
      PlainNoRisk(s1, l, body);
      PlainNoRiskRest(s2, m, [], exit, rest);
    case SWhile(c, body) =>
      PlainSafe(s, c);
      PlainNoRisk(Cond(s, c).0, [], body);
    case SRepeat(body, c) =>
      PlainNoRisk(s, [], body);
      PlainSafe(GenStat(s, [], body).0, c);
    case _ =>
  }

  lemma {:induction false} PlainNoRiskRest(s: Fs, l: seq<nat>, escape: seq<nat>, flist: seq<nat>, rest: Rest)
    requires PlainRest(rest)
    ensures NoRiskRest(s, l, escape, flist, rest)
    decreases rest, 0
  {
    hide SafeValue, SafeTest, GenStat, GenBlock, Cond;
    var (s1, j) := Jump(s);
    var s2 := PatchToHere(s1, flist);
    match rest
    case REnd =>
    case RElse(body) => PlainNoRisk(s2, l, body);
    case RElseIf(c, body, more) =>
      var (s3, exit) := Cond(s2, c);
      var (s4, m) := GenBlock(s3, l, body);
      PlainSafe(s2, c);
      PlainNoRisk(s3, l, body);
      PlainNoRiskRest(s4, m, escape + j, exit, more);
  }

  // ---- Where control is ---------------------------------------------------

  /** The final code has what was compiled so far; jumps that wait may be fixed. */
  ghost predicate Built(x: Ctx, s: Fs, l: seq<nat>) {
    Grown(s.code, Waiting(s, l), x.code, {}) && s.k <= x.env.k
  }

  lemma BuiltBefore(x: Ctx, s: Fs, l: seq<nat>, t: Fs, m: seq<nat>)
    requires Open(s, l) && Leads(s, l, t, m) && Built(x, t, m)
    ensures Built(x, s, l)
  {
    GrownTrans(s.code, Waiting(s, l), t.code, Waiting(t, m), x.code, {});
  }

  lemma BuiltSettle(x: Ctx, s: Fs, l: seq<nat>, n: nat)
    requires Built(x, Settle(s, n), l)
    ensures Built(x, s, l)
  {
    assert Waiting(Settle(s, n), l) == Waiting(s, l);
  }

  /** The first `n` registers matter, and hold what `regs` says. */
  function Now(x: Ctx, regs: Regs, n: nat): Ctx {
    x.(regs := regs, live := Below(n))
  }

  /** Control is about to execute what comes next. */
  ghost predicate Comes(x: Ctx, s: Fs, regs: Regs, n: nat, log: seq<Event>) {
    exists held :: At(Now(x, regs, n), s, held, log)
  }

  /** Control takes a jump of the list. */
  ghost predicate Off(x: Ctx, s: Fs, l: seq<nat>, regs: Regs, n: nat, log: seq<Event>) {
    exists c :: LeavesBy(Now(x, regs, n), s.code, l, c, log)
  }

  lemma AgreeLess(x: Ctx, regs: Regs, n: nat, m: nat, now: Regs)
    requires m <= n && Agree(Now(x, regs, n), now)
    ensures Agree(Now(x, regs, m), now)
  {
    forall r <- Below(m) ensures Get(now, r) == Get(regs, r) { assert r in Below(n); }
  }

  lemma OffLess(x: Ctx, s: Fs, l: seq<nat>, regs: Regs, n: nat, m: nat, log: seq<Event>)
    requires Off(x, s, l, regs, n, log) && m <= n
    ensures Off(x, s, l, regs, m, log)
  {
    var c :| LeavesBy(Now(x, regs, n), s.code, l, c, log);
    LeavesLess(x, s.code, l, regs, n, m, c, log);
  }

  lemma LeavesLess(x: Ctx, code: seq<Instr>, l: seq<nat>, regs: Regs, n: nat, m: nat, c: Option<Value>, log: seq<Event>)
    requires LeavesBy(Now(x, regs, n), code, l, c, log) && m <= n
    ensures LeavesBy(Now(x, regs, m), code, l, c, log)
  {
    var j: nat, now :| j in l && Takes(Now(x, regs, n), code, j, now, c, log);
    AgreeLess(x, regs, n, m, now);
    assert Takes(Now(x, regs, m), code, j, now, c, log);
    assert Yields(x.env, code, VTrue, now, log) == Result(Bool(true), log);
  }

  lemma ComesLess(x: Ctx, s: Fs, regs: Regs, n: nat, m: nat, log: seq<Event>)
    requires Comes(x, s, regs, n, log) && m <= n
    ensures Comes(x, s, regs, m, log)
  {
    var held :| At(Now(x, regs, n), s, held, log);
    if LeavesBy(Now(x, regs, n), s.code, s.jpc, held, log) {
      LeavesLess(x, s.code, s.jpc, regs, n, m, held, log);
    } else {
      var now :| Gets(Now(x, regs, n), |s.code|, now, log);
      AgreeLess(x, regs, n, m, now);
      ComesFrom(x, s, regs, m, now, log);
    }
    assert At(Now(x, regs, m), s, held, log);
  }

  /** Control has come to the end of the code by itself. */
  lemma ComesFrom(x: Ctx, s: Fs, regs: Regs, n: nat, now: Regs, log: seq<Event>)
    requires Gets(Now(x, regs, n), |s.code|, now, log)
    ensures Falls(Now(x, regs, n), s.code, |s.code|, log, VTrue, Result(Bool(true), log)) && Comes(x, s, regs, n, log)
  {
    assert Yields(x.env, s.code, VTrue, now, log) == Result(Bool(true), log);
    assert At(Now(x, regs, n), s, None, log);
  }

  lemma OffLater(x: Ctx, s: Fs, t: Fs, l: seq<nat>, m: seq<nat>, regs: Regs, n: nat, log: seq<Event>)
    requires Off(x, s, l, regs, n, log) && SameList(s.code, t.code, l) && forall j <- l :: j in m
    ensures Off(x, t, m, regs, n, log)
  {
    var c :| LeavesBy(Now(x, regs, n), s.code, l, c, log);
    LeavesLater(Now(x, regs, n), s.code, t.code, l, m, c, log, VTrue, Result(Bool(true), log));
    assert LeavesBy(Now(x, regs, n), t.code, m, c, log);
  }

  lemma OffMore(x: Ctx, s: Fs, l: seq<nat>, m: seq<nat>, regs: Regs, n: nat, log: seq<Event>)
    requires Off(x, s, l, regs, n, log) && ListOk(s.code, l) && forall j <- l :: j in m
    ensures Off(x, s, m, regs, n, log)
  {
    OffLater(x, s, s, l, m, regs, n, log);
  }

  /** The jumps of a list come here. */
  lemma OffHere(x: Ctx, s: Fs, l: seq<nat>, regs: Regs, n: nat, log: seq<Event>)
    requires Off(x, s, l, regs, n, log)
    ensures Comes(x, PatchToHere(s, l), regs, n, log)
  {
    var c :| LeavesBy(Now(x, regs, n), s.code, l, c, log);
    var j: nat, now :| j in l && Takes(Now(x, regs, n), s.code, j, now, c, log);
    var t := PatchToHere(s, l);
    assert j in t.jpc && Takes(Now(x, regs, n), t.code, j, now, c, log);
    assert Yields(x.env, t.code, VTrue, now, log) == Result(Bool(true), log);
    assert At(Now(x, regs, n), t, c, log);
  }

  lemma ComesHere(x: Ctx, s: Fs, l: seq<nat>, regs: Regs, n: nat, log: seq<Event>)
    requires Comes(x, s, regs, n, log)
    ensures Comes(x, PatchToHere(s, l), regs, n, log)
  {
    var held :| At(Now(x, regs, n), s, held, log);
    AtMore(Now(x, regs, n), s, l, held, log);
  }

  lemma ComesSettle(x: Ctx, s: Fs, m: nat, regs: Regs, n: nat, log: seq<Event>)
    requires Comes(x, s, regs, n, log)
    ensures Comes(x, Settle(s, m), regs, n, log)
  {
    var held :| At(Now(x, regs, n), s, held, log);
    assert At(Now(x, regs, n), Settle(s, m), held, log);
  }

  /** An unconditional jump is taken. */
  lemma ComesJump(x: Ctx, s: Fs, regs: Regs, n: nat, log: seq<Event>)
    requires Comes(x, s, regs, n, log) && Ready(s) && Fits(x.code, Jump(s).0.code)
    ensures var (t, j) := Jump(s); Off(x, t, j, regs, n, log)
  {
    hide Fits, Paired, Jump;
    var held :| At(Now(x, regs, n), s, held, log);
    var y := Now(x, regs, n);
    AtEnds(y, s, held, log);
    ReadyLists(s);
    assert Nothing == Exp(VTrue, [], []);
    NeverRuns(y, s, Nothing, true, Bool(true), held, log);
    assert [] + Jump(s).1 == Jump(s).1;
  }

  lemma AtEnds(y: Ctx, s: Fs, held: Option<Value>, log: seq<Event>)
    requires At(y, s, held, log)
    ensures Ends(y, s, Nothing, Bool(true), held, log)
  {
    if held.None? && Falls(y, s.code, |s.code|, log, VTrue, Result(Bool(true), log)) {
      assert Falls(y, s.code, Front(s, Nothing), log, Nothing.k, Result(Bool(true), log));
    }
  }

  /** Jumps that have been sent back arrive there. */
  lemma OffBack(x: Ctx, s: Fs, l: seq<nat>, m: seq<nat>, target: nat, u: Fs, regs: Regs, n: nat, log: seq<Event>)
    requires Off(x, s, m, regs, n, log) && Open(s, l + m) && target != |s.code| && |u.code| == target
    requires Built(x, PatchTo(s, m, target), l)
    ensures Comes(x, u, regs, n, log)
  {
    var t := PatchTo(s, m, target);
    var y := Now(x, regs, n);
    var c :| LeavesBy(y, s.code, m, c, log);
    var j: nat, now :| j in m && Takes(y, s.code, j, now, c, log);
    SentBack(x, s, l, m, target, j);
    assert Gets(y, target, now, log);
    ComesFrom(x, u, regs, n, now, log);
  }

  lemma SentBack(x: Ctx, s: Fs, l: seq<nat>, m: seq<nat>, target: nat, j: nat)
    requires Open(s, l + m) && target != |s.code| && Built(x, PatchTo(s, m, target), l) && j in m
    ensures Target(x.code, j) == target && !Valued(x.code, j)
  {
    hide PatchList;
    var t := PatchTo(s, m, target);
    SplitList(s.code, l, m);
    PatchListSpec(s.code, m, target, None, target);
    assert Pending(s.code, j);
    assert t.code[j] == Jmp(target - (j + 1));
    assert j !in Waiting(t, l) by { assert j in l + m; }
    assert x.code[j] == t.code[j];
    if j >= 1 {
      var i := j - 1;
      assert s.code[i] == s.code[i];
      assert !t.code[i].TestSet?;
      if i in Waiting(t, l) {
        assert i in l + m || i in s.jpc;
        assert Pending(s.code, i);
        assert x.code[i].Jmp?;
      } else {
        assert x.code[i] == t.code[i];
      }
    }
  }

  // ---- Values and conditions ----------------------------------------------

  lemma HeldMay(y: Ctx, s: Fs, held: Option<Value>, log: seq<Event>)
    requires At(y, s, held, log)
    ensures held.Some? ==> MayHold(s)
  {}

  /** The value arrives in the register, by whatever way. */
  lemma StoreRuns(y: Ctx, s: Fs, e: Expr, r: nat, held: Option<Value>, log: seq<Event>) returns (h: Option<Value>)
    requires Place(s, e) && InUse(y, s.freereg) && At(y, s, held, log) && SafeValue(s, e)
    requires var (t, f) := Compiled(s, e); var u := ExpToReg(t, f, r).0; Fits(y.code, u.code) && u.k <= y.env.k
    ensures var (t, f) := Compiled(s, e); var v := Eval(y.env, e, y.regs, log);
            Holds(y.(live := y.live - {r}), ExpToReg(t, f, r).0, r, v.v, h, v.log)
  {
    hide Fits, ListOk, Paired, Since, Emit, CloseJumps, Gen, ExpToReg, Ends, At, Exits, Leaks, MayHold;
    var (t, f) := Compiled(s, e);
    GenGood(s, e);
    GoodEdge(t, f);
    ExpToRegGood(t, f, r);
    var u := ExpToReg(t, f, r).0;
    FrontFits(y.code, t, f, u, Nothing) by { WholeCut(y.code, u); }
    SinceActive(t, f, u, Nothing);
    GenRuns(y, s, e, held, log);
    var o := Out(y.env, e, y.regs, log, held, s.k);
    ExpToRegRuns(y, t, f, r, o);
    HeldMay(y, s, held, log);
    NoLeakRight(y.env, e, y.regs, log, held, s.k);
    h := if f.k == VNonReloc(r) && o.x.On? then o.x.held else None;
  }

  lemma HoldsComes(x: Ctx, s: Fs, r: nat, v: Value, held: Option<Value>, regs: Regs, n: nat, m: nat, log: seq<Event>)
    requires var y := Now(x, regs, n); Holds(y.(live := y.live - {r}), s, r, v, held, log)
    requires m <= n || (m == n + 1 && r == n)
    ensures Comes(x, s, regs[r := v], m, log)
  {
    var y := Now(x, regs, n);
    var z := y.(live := y.live - {r});
    var e := Exp(VNonReloc(r), [], []);
    forall now | Agree(z, now) && Get(now, r) == v ensures Agree(Now(x, regs[r := v], m), now) {
      forall q <- Below(m) ensures Get(now, q) == Get(regs[r := v], q) { if q != r { assert q in z.live; } }
    }
    if Leaves(z, s.code, s.jpc, held, log, e.k, Result(v, log)) {
      var j: nat, now :| j in s.jpc && Takes(z, s.code, j, now, held, log) && Yields(z.env, s.code, e.k, now, log) == Result(v, log);
      assert Takes(Now(x, regs[r := v], m), s.code, j, now, held, log);
      assert Yields(x.env, s.code, VTrue, now, log) == Result(Bool(true), log);
      assert At(Now(x, regs[r := v], m), s, held, log);
    } else {
      var log0 :| Falls(z, s.code, Front(s, e), log0, e.k, Result(v, log));
      var now :| Gets(z, |s.code|, now, log0) && Yields(z.env, s.code, e.k, now, log0) == Result(v, log);
      assert Agree(Now(x, regs[r := v], m), now);
      ComesFrom(x, s, regs[r := v], m, now, log);
    }
  }

  lemma LocalRuns(x: Ctx, s: Fs, l: seq<nat>, e: Expr, regs: Regs, log: seq<Event>)
    requires Open(s, []) && LocalsBelow(e, s.nactvar) && SafeValue(s, e)
    requires Comes(x, s, regs, s.nactvar, log) && Built(x, LocalCode(s, e), l)
    ensures var v := Eval(x.env, e, regs, log); Comes(x, LocalCode(s, e), regs[s.nactvar := v.v], s.nactvar + 1, v.log)
  {
    hide Fits, ListOk, Paired, Since, Emit, ExpToReg, At, SafeValue, Gen, ValueCode, Holds, Eval;
    var n := s.nactvar;
    ValueForm(s, e);
    var (t, f) := Compiled(s, e);
    ExpToRegReg(t, f, n, n + 1);
    var u := ExpToReg(t, f, n).0;
    assert ValueCode(s, e) == u.(freereg := n + 1);
    BuiltSettle(x, ValueCode(s, e), l, n + 1);
    var held :| At(Now(x, regs, n), s, held, log);
    var h := StoreRuns(Now(x, regs, n), s, e, n, held, log);
    var v := Eval(x.env, e, regs, log);
    HoldsComes(x, u, n, v.v, h, regs, n, n + 1, v.log);
    hide Comes;
    ComesSettled(x, u, LocalCode(s, e), regs[n := v.v], n + 1, v.log);
  }

  lemma ComesSettled(x: Ctx, s: Fs, t: Fs, regs: Regs, n: nat, log: seq<Event>)
    requires Comes(x, s, regs, n, log) && t.code == s.code && t.jpc == s.jpc
    ensures Comes(x, t, regs, n, log)
  {
    var held :| At(Now(x, regs, n), s, held, log);
    assert At(Now(x, regs, n), t, held, log);
  }

  lemma AssignRuns(x: Ctx, s: Fs, l: seq<nat>, r: nat, e: Expr, regs: Regs, log: seq<Event>)
    requires Open(s, []) && LocalsBelow(e, s.nactvar) && SafeValue(s, e)
    requires Comes(x, s, regs, s.nactvar, log) && Built(x, AssignCode(s, r, e), l)
    ensures var v := Eval(x.env, e, regs, log); Comes(x, AssignCode(s, r, e), regs[r := v.v], s.nactvar, v.log)
  {
    hide Fits, ListOk, Paired, Since, Emit, ExpToReg, At, SafeValue, Compiled, Holds, Eval;
    var n := s.nactvar;
    AssignForm(s, r, e);
    var (t, f) := Compiled(s, e);
    var u := ExpToReg(t, f, r).0;
    BuiltSettle(x, u, l, n);
    var held :| At(Now(x, regs, n), s, held, log);
    var h := StoreRuns(Now(x, regs, n), s, e, r, held, log);
    var v := Eval(x.env, e, regs, log);
    HoldsComes(x, u, r, v.v, h, regs, n, n, v.log);
    hide Comes;
    ComesSettled(x, u, AssignCode(s, r, e), regs[r := v.v], n, v.log);
  }

  /** The outcome once the literal `nil` counts as `false`. */
  function CondOut(e: Expr, o: Outcome): Outcome {
    if ShapeOf(e).SNil? && o.x.On? then o.(x := On(Bool(false), o.x.held)) else o
  }

  lemma CondExits(y: Ctx, t: Fs, e: Expr, f: Exp, o: Outcome)
    requires Exits(y, t, f, o) && ShapeIs(t, f.k, ShapeOf(e)) && (ShapeOf(e).SNil? && o.x.On? ==> o.x.v == Nil)
    ensures Exits(y, t, CondExp(f), CondOut(e, o))
  {
    if f.k.VNil? {
      var h := CondExp(f);
      if o.x.On? {
        if Leaves(y, t.code, t.jpc, o.x.held, o.log, f.k, Result(Nil, o.log)) {
          var j: nat, now :| j in t.jpc && Takes(y, t.code, j, now, o.x.held, o.log);
          assert Yields(y.env, t.code, h.k, now, o.log) == Result(Bool(false), o.log);
          assert Leaves(y, t.code, t.jpc, o.x.held, o.log, h.k, Result(Bool(false), o.log));
        } else {
          var log0 :| Falls(y, t.code, Front(t, f), log0, f.k, Result(Nil, o.log));
          var now :| Gets(y, |t.code|, now, log0) && Yields(y.env, t.code, f.k, now, log0) == Result(Nil, o.log);
          assert Yields(y.env, t.code, h.k, now, log0) == Result(Bool(false), o.log);
          assert Falls(y, t.code, Front(t, h), log0, h.k, Result(Bool(false), o.log));
        }
      } else {
        assert ListOf(h, o.x.truth) == ListOf(f, o.x.truth);
      }
    }
  }

  lemma CondRuns(x: Ctx, s: Fs, l: seq<nat>, e: Expr, regs: Regs, log: seq<Event>)
    requires Open(s, []) && LocalsBelow(e, s.nactvar) && SafeTest(s, e)
    requires var (t, exit) := Cond(s, e); Comes(x, s, regs, s.nactvar, log) && Built(x, t, l)
    ensures var (t, exit) := Cond(s, e); var v := Eval(x.env, e, regs, log);
            if IsFalse(v.v) then Off(x, t, exit, regs, s.nactvar, v.log) else Comes(x, t, regs, s.nactvar, v.log)
  {
    hide Fits, ListOk, Paired, Since, Emit, Gen, Ends, At, LeavesBy, Exits, GoIf, Cond, Leads;
    var n := s.nactvar;
    CondForm(s, e);
    CondGood(s, e);
    var (t, f) := Compiled(s, e);
    var h := CondExp(f);
    var (u, g) := GoIf(t, h, true);
    assert Fits(x.code, u.code);
    FrontFits(x.code, t, h, u, g.(k := VTrue)) by { WholeCut(x.code, u); }
    var y := Now(x, regs, n);
    var held :| At(y, s, held, log);
    GenRuns(y, s, e, held, log) by { assert Front(t, f) == Front(t, h); }
    var o := Out(y.env, e, y.regs, log, held, s.k);
    ShapeValue(y.env, e, y.regs, log, held, s.k);
    CondExits(y, t, e, f, o);
    GoIfRuns(y, t, h, true, CondShape(e), CondOut(e, o));
    HeldMay(y, s, held, log);
    TruthRight(y.env, e, y.regs, log, held, s.k);
    CondWay(x.env, e, regs, log, held, s.k);
    var w := Go(CondShape(e), CondOut(e, o).x, true);
    if w.Through? {
      assert At(y, u, w.held, o.log);
    } else {
      assert LeavesBy(y, u.code, g.f, w.carry, o.log);
    }
  }

  lemma CondWay(env: Env, e: Expr, regs: Regs, log: seq<Event>, held: Option<Value>, k: seq<Value>)
    ensures var o := Out(env, e, regs, log, held, k);
            Go(CondShape(e), CondOut(e, o).x, true).Through? <==> TruthOf(o.x)
  {
    ShapeValue(env, e, regs, log, held, k);
    WayTruth(env, e, regs, log, held, k, true);
  }

  // ---- Statements ---------------------------------------------------------

  /** Where a statement has left control. */
  ghost predicate Arrives(x: Ctx, t: Fs, m: seq<nat>, n: nat, end: Ended) {
    match end
    case Normal(r, log) => Comes(x, t, r, t.nactvar, log)
    case Broke(r, log) => Off(x, t, m, r, n, log)
    case Unfinished => true
  }

  ghost function Size(st: Stat): nat {
    match st
    case SSeq(a, b) => 1 + Size(a) + Size(b)
    case SDo(body) => 1 + Size(body)
    case SIf(_, body, rest) => 2 + Size(body) + SizeRest(rest)
    case SWhile(_, body) => 1 + Size(body)
    case SRepeat(body, _) => 1 + Size(body)
    case _ => 0
  }

  ghost function SizeRest(rest: Rest): nat {
    match rest
    case REnd => 0
    case RElse(body) => 1 + Size(body)
    case RElseIf(_, body, more) => 2 + Size(body) + SizeRest(more)
  }

  /** Whatever way control comes to a statement that is no risk, its code leaves
      control where the statement ends, with the values that it gives the locals and
      the questions that it asks: behind the code, or on a jump of the break list.
      Meanwhile the jumps of `held` wait. */
  lemma {:induction false} StatRuns(x: Ctx, s: Fs, held: seq<nat>, l: seq<nat>, st: Stat, regs: Regs, log: seq<Event>, rounds: nat)
    requires Open(s, held + l) && Scoped(st, s.nactvar) && NoRisk(s, l, st) && Comes(x, s, regs, s.nactvar, log)
    requires var (t, m) := GenStat(s, l, st); Built(x, t, held + m)
    ensures var (t, m) := GenStat(s, l, st); Arrives(x, t, m, s.nactvar, Exec(x.env, st, regs, s.nactvar, log, rounds))
    decreases rounds, Size(st), 2
  {
    hide Open, Comes, Off, Built, NoRisk, GenStat, Scoped, Exec, Eval;
    match st
    case SSeq(a, b) => SeqCase(x, s, held, l, a, b, regs, log, rounds);
    case SDo(body) => DoCase(x, s, held, l, body, regs, log, rounds);
    case SIf(c, body, rest) => IfCase(x, s, held, l, c, body, rest, regs, log, rounds);
    case SWhile(c, body) => WhileRuns(x, s, held, l, c, body, regs, log, rounds) by { WhileParts(s, l, c, body); }
    case SRepeat(body, c) => RepeatRuns(x, s, held, l, body, c, regs, log, rounds) by { RepeatParts(s, l, body, c); }
    case _ => LeafRuns(x, s, held, l, st, regs, log, rounds);
  }

  lemma LeafRuns(x: Ctx, s: Fs, held: seq<nat>, l: seq<nat>, st: Stat, regs: Regs, log: seq<Event>, rounds: nat)
    requires st.SSkip? || st.SBreak? || st.SLocal? || st.SAssign?
    requires Open(s, held + l) && Scoped(st, s.nactvar) && NoRisk(s, l, st) && Comes(x, s, regs, s.nactvar, log)
    requires var (t, m) := GenStat(s, l, st); Built(x, t, held + m)
    ensures var (t, m) := GenStat(s, l, st); Arrives(x, t, m, s.nactvar, Exec(x.env, st, regs, s.nactvar, log, rounds))
  {
    hide Open, Leads, LocalCode, AssignCode, Comes, Off, Built, SafeValue, Jump, Eval;
    OpenNone(s, held + l);
    match st
    case SBreak =>
      assert (held + l) + Jump(s).1 == held + (l + Jump(s).1);
      BreakRuns(x, s, held, l, regs, log);
    case SLocal(e) => LocalRuns(x, s, held + l, e, regs, log); LocalLeads(s, e);
    case SAssign(r, e) => AssignRuns(x, s, held + l, r, e, regs, log); AssignLeads(s, r, e);
    case _ =>
  }

  lemma {:induction false} SeqCase(x: Ctx, s: Fs, held: seq<nat>, l: seq<nat>, a: Stat, b: Stat, regs: Regs, log: seq<Event>, rounds: nat)
    requires var st := SSeq(a, b); Open(s, held + l) && Scoped(st, s.nactvar) && NoRisk(s, l, st) && Comes(x, s, regs, s.nactvar, log)
    requires var (t, m) := GenStat(s, l, SSeq(a, b)); Built(x, t, held + m)
    ensures var (t, m) := GenStat(s, l, SSeq(a, b)); Arrives(x, t, m, s.nactvar, Exec(x.env, SSeq(a, b), regs, s.nactvar, log, rounds))
    decreases rounds, 1 + Size(a) + Size(b), 1
  {
    hide Open, Comes, Off, Built, NoRisk, Scoped, GenStat, Exec;
    SeqParts(s, l, a, b);
    SeqForm(s, l, a, b);
    ExecSeq(x.env, a, b, regs, s.nactvar, log, rounds);
    SeqRuns(x, s, held, l, a, b, regs, log, rounds);
  }

  lemma SeqParts(s: Fs, l: seq<nat>, a: Stat, b: Stat)
    requires Scoped(SSeq(a, b), s.nactvar) && NoRisk(s, l, SSeq(a, b))
    ensures Scoped(a, s.nactvar) && Scoped(b, s.nactvar + Declared(a)) && NoRisk(s, l, a) && NoRisk(GenStat(s, l, a).0, GenStat(s, l, a).1, b)
  {
    hide GenStat, SafeValue, SafeTest, Cond, GenBlock, Jump, NoRiskRest;
  }

  lemma ExecSeq(env: Env, a: Stat, b: Stat, regs: Regs, n: nat, log: seq<Event>, rounds: nat)
    ensures var r := Exec(env, a, regs, n, log, rounds);
            Exec(env, SSeq(a, b), regs, n, log, rounds) == if r.Normal? then Exec(env, b, r.regs, n + Declared(a), r.log, rounds) else r
  {
    hide Eval;
  }

  lemma {:induction false} DoCase(x: Ctx, s: Fs, held: seq<nat>, l: seq<nat>, body: Stat, regs: Regs, log: seq<Event>, rounds: nat)
    requires var st := SDo(body); Open(s, held + l) && Scoped(st, s.nactvar) && NoRisk(s, l, st) && Comes(x, s, regs, s.nactvar, log)
    requires var (t, m) := GenStat(s, l, SDo(body)); Built(x, t, held + m)
    ensures var (t, m) := GenStat(s, l, SDo(body)); Arrives(x, t, m, s.nactvar, Exec(x.env, SDo(body), regs, s.nactvar, log, rounds))
    decreases rounds, 1 + Size(body), 1
  {
    hide Open, Comes, Off, Built;
    BlockRuns(x, s, held, l, body, regs, log, rounds);
  }

  lemma {:induction false} IfCase(x: Ctx, s: Fs, held: seq<nat>, l: seq<nat>, c: Expr, body: Stat, rest: Rest, regs: Regs, log: seq<Event>, rounds: nat)
    requires var st := SIf(c, body, rest); Open(s, held + l) && Scoped(st, s.nactvar) && NoRisk(s, l, st) && Comes(x, s, regs, s.nactvar, log)
    requires var (t, m) := GenStat(s, l, SIf(c, body, rest)); Built(x, t, held + m)
    ensures var (t, m) := GenStat(s, l, SIf(c, body, rest)); Arrives(x, t, m, s.nactvar, Exec(x.env, SIf(c, body, rest), regs, s.nactvar, log, rounds))
    decreases rounds, 2 + Size(body) + SizeRest(rest), 1
  {
    hide Open, Comes, Off, Built, Cond, GenBlock, GenRest, Eval, SafeTest;
    assert held + [] == held;
    PartRuns(x, s, held, [], l, c, body, rest, regs, log, rounds);
  }

  lemma WhileParts(s: Fs, l: seq<nat>, c: Expr, body: Stat)
    requires Scoped(SWhile(c, body), s.nactvar) && NoRisk(s, l, SWhile(c, body))
    ensures LocalsBelow(c, s.nactvar) && Scoped(body, s.nactvar) && SafeTest(s, c) && NoRisk(Cond(s, c).0, [], body)
  {
    hide SafeTest, SafeValue, GenStat, Cond, GenBlock, Jump, NoRiskRest;
  }

  lemma RepeatParts(s: Fs, l: seq<nat>, body: Stat, c: Expr)
    requires Scoped(SRepeat(body, c), s.nactvar) && NoRisk(s, l, SRepeat(body, c))
    ensures Scoped(body, s.nactvar) && LocalsBelow(c, s.nactvar + Declared(body)) && NoRisk(s, [], body) && SafeTest(GenStat(s, [], body).0, c)
  {
    hide SafeTest, SafeValue, GenStat, Cond, GenBlock, Jump, NoRiskRest;
  }

  lemma BreakRuns(x: Ctx, s: Fs, held: seq<nat>, l: seq<nat>, regs: Regs, log: seq<Event>)
    requires Open(s, held + l) && Comes(x, s, regs, s.nactvar, log) && var (t, j) := Jump(s); Built(x, t, held + (l + j))
    ensures var (t, j) := Jump(s); Off(x, t, l + j, regs, s.nactvar, log)
  {
    hide Comes, Off, Fits, Paired, ListOk;
    JumpLeads(s, held + l);
    var (t, j) := Jump(s);
    ComesJump(x, s, regs, s.nactvar, log);
    OffMore(x, t, j, l + j, regs, s.nactvar, log);
  }

  /** Compiling a statement while other jumps wait. */
  lemma StatBeside(s: Fs, held: seq<nat>, l: seq<nat>, st: Stat)
    requires Open(s, held + l) && Scoped(st, s.nactvar)
    ensures var (t, m) := GenStat(s, l, st);
            && Leads(s, held + l, t, held + m) && Open(t, held + m) && SameList(s.code, t.code, l) && SameList(s.code, t.code, held)
            && l <= m && t.nactvar == s.nactvar + Declared(st) && Open(s, l)
  {
    hide Open, Leads, GenStat, SameList;
    OpenLess(s, held, l);
    StatGood(s, l, st);
    var (t, m) := GenStat(s, l, st);
    LeadsBeside(s, l, t, m, held);
    LeadsOpen(s, held + l, t, held + m);
  }

  lemma {:induction false} SeqRuns(x: Ctx, s: Fs, held: seq<nat>, l: seq<nat>, a: Stat, b: Stat, regs: Regs, log: seq<Event>, rounds: nat)
    requires Open(s, held + l) && Scoped(a, s.nactvar) && Scoped(b, s.nactvar + Declared(a)) && Comes(x, s, regs, s.nactvar, log)
    requires var (t, m) := GenStat(s, l, a); var (u, n) := GenStat(t, m, b);
             Built(x, u, held + n) && NoRisk(s, l, a) && NoRisk(t, m, b)
    ensures var (t, m) := GenStat(s, l, a); var (u, n) := GenStat(t, m, b);
            var r := Exec(x.env, a, regs, s.nactvar, log, rounds); var after := s.nactvar + Declared(a);
            Arrives(x, u, n, s.nactvar, if r.Normal? then Exec(x.env, b, r.regs, after, r.log, rounds) else r)
    decreases rounds, 1 + Size(a) + Size(b), 0
  {
    hide Open, Leads, Comes, Off, Built, SameList, GenStat, Exec, NoRisk, Scoped;
    StatBeside(s, held, l, a);
    var (t, m) := GenStat(s, l, a);
    StatBeside(t, held, m, b);
    var (u, n) := GenStat(t, m, b);
    BuiltBefore(x, t, held + m, u, held + n);
    StatRuns(x, s, held, l, a, regs, log, rounds);
    var r := Exec(x.env, a, regs, s.nactvar, log, rounds);
    if r.Normal? {
      StatRuns(x, t, held, m, b, r.regs, r.log, rounds);
      var r2 := Exec(x.env, b, r.regs, t.nactvar, r.log, rounds);
      if r2.Broke? { OffLess(x, u, n, r2.regs, t.nactvar, s.nactvar, r2.log); }
    } else if r.Broke? {
      OffLater(x, t, u, m, n, r.regs, s.nactvar, r.log);
    }
  }

  /** A block: the locals declared in it are given up. */
  lemma {:induction false} BlockRuns(x: Ctx, s: Fs, held: seq<nat>, l: seq<nat>, st: Stat, regs: Regs, log: seq<Event>, rounds: nat)
    requires Open(s, held + l) && Scoped(st, s.nactvar) && NoRisk(s, l, st) && Comes(x, s, regs, s.nactvar, log)
    requires var (t, m) := GenBlock(s, l, st); Built(x, t, held + m)
    ensures var (t, m) := GenBlock(s, l, st); Arrives(x, t, m, s.nactvar, Exec(x.env, st, regs, s.nactvar, log, rounds))
    decreases rounds, Size(st), 3
  {
    hide Open, Leads, GenStat, SameList, Comes, Off, Built, NoRisk;
    StatBeside(s, held, l, st);
    var (t, m) := GenStat(s, l, st);
    BuiltSettle(x, t, held + m, s.nactvar);
    StatRuns(x, s, held, l, st, regs, log, rounds);
    var r := Exec(x.env, st, regs, s.nactvar, log, rounds);
    if r.Normal? {
      ComesLess(x, t, r.regs, t.nactvar, s.nactvar, r.log);
      ComesSettle(x, t, s.nactvar, r.regs, s.nactvar, r.log);
    } else if r.Broke? {
      OffSettled(x, t, m, s.nactvar, r.regs, s.nactvar, r.log);
    }
  }

  lemma OffSettled(x: Ctx, s: Fs, l: seq<nat>, m: nat, regs: Regs, n: nat, log: seq<Event>)
    requires Off(x, s, l, regs, n, log)
    ensures Off(x, Settle(s, m), l, regs, n, log)
  {}

  // ---- Conditionals -------------------------------------------------------

  /** The states of a conditional from the end of a condition to the end. */
  lemma BodyStates(x: Ctx, s: Fs, held: seq<nat>, out: seq<nat>, l: seq<nat>, exit: seq<nat>, body: Stat, rest: Rest)
    requires Open(s, (held + out) + l + exit) && Scoped(body, s.nactvar) && ScopedRest(rest, s.nactvar)
    requires var (s2, m) := GenBlock(s, l, body); var (t, n) := GenRest(s2, m, out, exit, rest); Built(x, t, held + n)
    ensures var (s2, m) := GenBlock(s, l, body); var (t, n) := GenRest(s2, m, out, exit, rest);
            && Built(x, s, (held + out) + l + exit) && Open(s, ((held + out) + exit) + l) && Built(x, s2, ((held + out) + exit) + m)
            && Open(s2, held + (m + (out + exit))) && SameList(s.code, s2.code, exit) && SameList(s.code, s2.code, out)
            && SameList(s2.code, t.code, m) && m <= n && s2.nactvar == s.nactvar && t.nactvar == s.nactvar
  {
    hide Open, Leads, Built, SameList, GenBlock, GenRest, Scoped, ScopedRest;
    OpenPerm(s, (held + out) + l + exit, ((held + out) + exit) + l);
    BlockHeld(s, (held + out) + exit, l, body);
    var (s2, m) := GenBlock(s, l, body);
    OpenPerm(s2, ((held + out) + exit) + m, held + (m + (out + exit)));
    RestBeside(s2, held, m, out, exit, rest);
    var (t, n) := GenRest(s2, m, out, exit, rest);
    BuiltBefore(x, s2, held + (m + (out + exit)), t, held + n);
    BuiltPerm(x, s2, held + (m + (out + exit)), ((held + out) + exit) + m);
    BuiltBefore(x, s, ((held + out) + exit) + l, s2, ((held + out) + exit) + m);
    BuiltPerm(x, s, ((held + out) + exit) + l, (held + out) + l + exit);
    SamePart(s.code, s2.code, held + out, exit);
    SamePart(s.code, s2.code, held, out);
  }

  lemma BuiltPerm(x: Ctx, s: Fs, l: seq<nat>, m: seq<nat>)
    requires Built(x, s, l) && multiset(l) == multiset(m)
    ensures Built(x, s, m)
  {
    assert forall j: nat :: j in l <==> j in multiset(l);
    assert forall j: nat :: j in m <==> j in multiset(m);
    assert Waiting(s, l) == Waiting(s, m);
  }

  /** Compiling a block, and the rest of a conditional, while other jumps wait. */
  lemma BlockHeld(s: Fs, held: seq<nat>, l: seq<nat>, st: Stat)
    requires Open(s, held + l) && Scoped(st, s.nactvar)
    ensures var (t, m) := GenBlock(s, l, st);
            && Leads(s, held + l, t, held + m) && Open(t, held + m) && SameList(s.code, t.code, l) && SameList(s.code, t.code, held)
            && l <= m && t.nactvar == s.nactvar
  {
    hide Open, Leads, GenBlock, SameList;
    OpenPerm(s, held + l, l + held);
    BlockBeside(s, l, st, held);
    var (t, m) := GenBlock(s, l, st);
    LeadsPerm(s, l + held, held + l, t, m + held, held + m);
    LeadsOpen(s, held + l, t, held + m);
  }

  lemma RestBeside(s: Fs, held: seq<nat>, l: seq<nat>, escape: seq<nat>, flist: seq<nat>, rest: Rest)
    requires Open(s, held + (l + (escape + flist))) && ScopedRest(rest, s.nactvar)
    ensures var (t, m) := GenRest(s, l, escape, flist, rest);
            && Leads(s, held + (l + (escape + flist)), t, held + m) && SameList(s.code, t.code, l) && l <= m && t.nactvar == s.nactvar
  {
    hide Open, Leads, GenRest, SameList;
    OpenLess(s, held, l + (escape + flist));
    RestGood(s, l, escape, flist, rest);
    var (t, m) := GenRest(s, l, escape, flist, rest);
    LeadsBeside(s, l + (escape + flist), t, m, held);
  }

  /** A condition, its part, and the rest of the conditional. */
  lemma {:induction false} PartRuns(x: Ctx, s: Fs, held: seq<nat>, out: seq<nat>, l: seq<nat>, c: Expr, body: Stat, rest: Rest, regs: Regs, log: seq<Event>, rounds: nat)
    requires Open(s, (held + out) + l) && LocalsBelow(c, s.nactvar) && Scoped(body, s.nactvar) && ScopedRest(rest, s.nactvar)
    requires Comes(x, s, regs, s.nactvar, log)
    requires var (s1, exit) := Cond(s, c); var (s2, m) := GenBlock(s1, l, body); var (t, n) := GenRest(s2, m, out, exit, rest);
             Built(x, t, held + n) && SafeTest(s, c) && NoRisk(s1, l, body) && NoRiskRest(s2, m, out, exit, rest)
    ensures var (s1, exit) := Cond(s, c); var (s2, m) := GenBlock(s1, l, body); var (t, n) := GenRest(s2, m, out, exit, rest);
            var v := Eval(x.env, c, regs, log);
            && Arrives(x, t, n, s.nactvar, if IsFalse(v.v) then ExecRest(x.env, rest, regs, s.nactvar, v.log, rounds)
                                           else Exec(x.env, body, regs, s.nactvar, v.log, rounds))
            && t.nactvar == s.nactvar
    decreases rounds, 1 + Size(body) + SizeRest(rest), 0
  {
    hide Open, Leads, Built, SameList, Comes, Off, Cond, GenBlock, GenRest, Scoped, ScopedRest, Exec, ExecRest, NoRisk, NoRiskRest, SafeTest, Eval;
    CondBeside(s, (held + out) + l, c);
    OpenNone(s, (held + out) + l);
    var (s1, exit) := Cond(s, c);
    BodyStates(x, s1, held, out, l, exit, body, rest);
    var (s2, m) := GenBlock(s1, l, body);
    var (t, n) := GenRest(s2, m, out, exit, rest);
    CondRuns(x, s, (held + out) + l + exit, c, regs, log);
    var v := Eval(x.env, c, regs, log);
    if IsFalse(v.v) {
      OffLater(x, s1, s2, exit, exit, regs, s.nactvar, v.log);
      RestRuns(x, s2, held, m, out, exit, rest, regs, v.log, rounds);
    } else {
      BlockRuns(x, s1, (held + out) + exit, l, body, regs, v.log, rounds);
      var r := Exec(x.env, body, regs, s.nactvar, v.log, rounds);
      if r.Normal? {
        RestSkips(x, s2, held, m, out, exit, rest, r.regs, r.log);
      } else if r.Broke? {
        OffLater(x, s2, t, m, n, r.regs, s.nactvar, r.log);
      }
    }
  }

  /** The states at the next part of a conditional. */
  lemma PartStates(x: Ctx, s: Fs, held: seq<nat>, l: seq<nat>, escape: seq<nat>, flist: seq<nat>, later: Fs, m: seq<nat>)
    requires Open(s, held + (l + (escape + flist)))
    requires var (s1, j) := Jump(s); var s2 := PatchToHere(s1, flist);
             Leads(s2, (held + (escape + j)) + l, later, m) && Built(x, later, m)
    ensures var (s1, j) := Jump(s); var s2 := PatchToHere(s1, flist);
            && Ready(s) && Fits(x.code, s1.code) && Open(s2, (held + (escape + j)) + l) && Built(x, s2, (held + (escape + j)) + l)
            && s2.code == s1.code && s2.nactvar == s.nactvar && ListOk(s1.code, escape + j) && ListOk(s1.code, j)
            && SameList(s.code, s1.code, l) && SameList(s.code, s1.code, escape) && SameList(s.code, s1.code, flist)
  {
    hide Open, Leads, Built, SameList, Jump, Fits, Paired, ListOk;
    var (s1, j) := Jump(s);
    var s2 := PatchToHere(s1, flist);
    assert held + (l + (escape + flist)) == (held + l) + (escape + flist);
    ElseStep(s, held + l, escape, flist);
    OpenPerm(s2, (held + l) + (escape + j), (held + (escape + j)) + l);
    BuiltBefore(x, s2, (held + (escape + j)) + l, later, m);
    OpenParts(s, s1, held, l, escape, flist, j);
    BuiltFits(x, s2, (held + (escape + j)) + l);
  }

  lemma BuiltFits(x: Ctx, s: Fs, l: seq<nat>)
    requires Built(x, s, l)
    ensures Fits(x.code, s.code) && s.k <= x.env.k
  {}

  lemma OpenParts(s: Fs, s1: Fs, held: seq<nat>, l: seq<nat>, escape: seq<nat>, flist: seq<nat>, j: seq<nat>)
    requires Open(s, held + (l + (escape + flist))) && Open(s1, ((held + l) + (escape + j)) + flist)
    requires SameList(s.code, s1.code, (held + l) + escape)
    ensures Ready(s) && ListOk(s1.code, escape + j) && ListOk(s1.code, j)
    ensures SameList(s.code, s1.code, l) && SameList(s.code, s1.code, escape)
  {
    hide Paired, ListOk;
    OpenLess(s1, (held + l) + (escape + j), flist);
    OpenLess(s1, held + l, escape + j);
    OpenLess(s1, escape, j);
    SamePart(s.code, s1.code, held + l, escape);
    SamePart(s.code, s1.code, held, l);
  }

  /** Control that has left a conditional goes to its end. */
  lemma {:induction false} RestSkips(x: Ctx, s: Fs, held: seq<nat>, l: seq<nat>, escape: seq<nat>, flist: seq<nat>, rest: Rest, regs: Regs, log: seq<Event>)
    requires Open(s, held + (l + (escape + flist))) && ScopedRest(rest, s.nactvar)
    requires Comes(x, s, regs, s.nactvar, log) || Off(x, s, escape, regs, s.nactvar, log)
    requires var (t, m) := GenRest(s, l, escape, flist, rest); Built(x, t, held + m)
    ensures var (t, m) := GenRest(s, l, escape, flist, rest); Comes(x, t, regs, s.nactvar, log)
    decreases rest, 0
  {
    hide Open, Leads, Built, SameList, Comes, Off, Cond, Jump, Fits, Paired, ListOk;
    var (s1, j) := Jump(s);
    var s2 := PatchToHere(s1, flist);
    var out := escape + j;
    var n := s.nactvar;
    match rest
    case REnd =>
      if Comes(x, s, regs, n, log) {
        ComesHere(x, s, escape + flist, regs, n, log);
      } else {
        assert held + (l + (escape + flist)) == (held + l) + (escape + flist);
        OffWait(x, s, held + l, escape, flist, regs, n, log);
        OffHere(x, s, escape + flist, regs, n, log);
      }
    case RElse(body) =>
      ElseStates(x, s, held, l, escape, flist, body);
      SkipOut(x, s, s1, escape, j, regs, n, log);
      var (s3, m) := GenBlock(s2, l, body);
      OffLater(x, s2, s3, out, out, regs, n, log) by { OffSame(x, s1, s2, out, regs, n, log); }
      OffHere(x, s3, out, regs, n, log);
    case RElseIf(c, body, more) =>
      ElseIfStates(x, s, held, l, escape, flist, c, body, more);
      SkipOut(x, s, s1, escape, j, regs, n, log);
      var (s3, exit) := Cond(s2, c);
      var (s4, m) := GenBlock(s3, l, body);
      OffLater(x, s2, s3, out, out, regs, n, log) by { OffSame(x, s1, s2, out, regs, n, log); }
      OffLater(x, s3, s4, out, out, regs, n, log);
      RestSkips(x, s4, held, m, out, exit, more, regs, log);
  }

  lemma OffSame(x: Ctx, s: Fs, t: Fs, l: seq<nat>, regs: Regs, n: nat, log: seq<Event>)
    requires Off(x, s, l, regs, n, log) && t.code == s.code
    ensures Off(x, t, l, regs, n, log)
  {}

  lemma OffWait(x: Ctx, s: Fs, held: seq<nat>, l: seq<nat>, m: seq<nat>, regs: Regs, n: nat, log: seq<Event>)
    requires Off(x, s, l, regs, n, log) && Open(s, held + (l + m))
    ensures Off(x, s, l + m, regs, n, log)
  {
    OpenLess(s, held, l + m);
    OpenLess(s, l, m);
    OffMore(x, s, l, l + m, regs, n, log);
  }

  /** Both those that come here and those that have left take the jumps out. */
  lemma SkipOut(x: Ctx, s: Fs, s1: Fs, escape: seq<nat>, j: seq<nat>, regs: Regs, n: nat, log: seq<Event>)
    requires (s1, j) == Jump(s) && Ready(s) && Fits(x.code, s1.code) && SameList(s.code, s1.code, escape) && ListOk(s1.code, j)
    requires Comes(x, s, regs, n, log) || Off(x, s, escape, regs, n, log)
    ensures Off(x, s1, escape + j, regs, n, log)
  {
    hide Comes, Off, Fits, Paired, Jump;
    if Comes(x, s, regs, n, log) {
      ComesJump(x, s, regs, n, log);
      OffMore(x, s1, j, escape + j, regs, n, log);
    } else {
      OffLater(x, s, s1, escape, escape + j, regs, n, log);
    }
  }

  /** The states of an `else` part. */
  lemma ElseStates(x: Ctx, s: Fs, held: seq<nat>, l: seq<nat>, escape: seq<nat>, flist: seq<nat>, body: Stat)
    requires Open(s, held + (l + (escape + flist))) && Scoped(body, s.nactvar)
    requires var (t, m) := GenRest(s, l, escape, flist, RElse(body)); Built(x, t, held + m)
    ensures var (s1, j) := Jump(s); var s2 := PatchToHere(s1, flist); var (s3, m) := GenBlock(s2, l, body);
            && Ready(s) && Fits(x.code, s1.code) && Open(s2, (held + (escape + j)) + l)
            && s2.code == s1.code && s2.nactvar == s.nactvar && ListOk(s1.code, j)
            && SameList(s.code, s1.code, l) && SameList(s.code, s1.code, escape) && SameList(s.code, s1.code, flist)
            && SameList(s2.code, s3.code, escape + j) && Built(x, s3, (held + (escape + j)) + m) && s3.nactvar == s.nactvar
  {
    hide Open, Leads, Built, SameList, Jump, GenBlock, Ready, Fits, ListOk;
    var (s1, j) := Jump(s);
    var s2 := PatchToHere(s1, flist);
    assert held + (l + (escape + flist)) == (held + l) + (escape + flist);
    ElseStep(s, held + l, escape, flist);
    OpenPerm(s2, (held + l) + (escape + j), (held + (escape + j)) + l);
    BlockHeld(s2, held + (escape + j), l, body);
    var (s3, m) := GenBlock(s2, l, body);
    var t := PatchToHere(s3, escape + j);
    OpenPerm(s3, (held + (escape + j)) + m, (held + m) + (escape + j));
    HereLeads(s3, held + m, escape + j);
    BuiltBefore(x, s3, (held + m) + (escape + j), t, held + m);
    BuiltPerm(x, s3, (held + m) + (escape + j), (held + (escape + j)) + m);
    PartStates(x, s, held, l, escape, flist, s3, (held + (escape + j)) + m);
    SamePart(s2.code, s3.code, held, escape + j);
  }

  /** The states of an `elseif` part. */
  lemma ElseIfStates(x: Ctx, s: Fs, held: seq<nat>, l: seq<nat>, escape: seq<nat>, flist: seq<nat>, c: Expr, body: Stat, more: Rest)
    requires Open(s, held + (l + (escape + flist))) && ScopedRest(RElseIf(c, body, more), s.nactvar)
    requires var (t, m) := GenRest(s, l, escape, flist, RElseIf(c, body, more)); Built(x, t, held + m)
    ensures var (s1, j) := Jump(s); var s2 := PatchToHere(s1, flist); var (s3, exit) := Cond(s2, c); var (s4, m) := GenBlock(s3, l, body);
            var out := escape + j;
            && Ready(s) && Fits(x.code, s1.code) && Open(s2, (held + out) + l)
            && s2.code == s1.code && s2.nactvar == s.nactvar && s4.nactvar == s.nactvar && ListOk(s1.code, j)
            && SameList(s.code, s1.code, escape) && SameList(s.code, s1.code, flist)
            && SameList(s2.code, s3.code, out) && SameList(s3.code, s4.code, out) && Open(s4, held + (m + (out + exit)))
  {
    hide Open, Leads, Built, SameList, Jump, GenBlock, Ready, Fits, ListOk, Cond, Scoped;
    var (s1, j) := Jump(s);
    var s2 := PatchToHere(s1, flist);
    var out := escape + j;
    assert held + (l + (escape + flist)) == (held + l) + (escape + flist);
    ElseStep(s, held + l, escape, flist);
    OpenPerm(s2, (held + l) + out, (held + out) + l);
    CondBeside(s2, (held + out) + l, c);
    var (s3, exit) := Cond(s2, c);
    BodyStates(x, s3, held, out, l, exit, body, more);
    PartStates(x, s, held, l, escape, flist, s3, (held + out) + l + exit);
    SamePart(s2.code, s3.code, held + out, l);
    SamePart(s2.code, s3.code, held, out);
  }

  /** When the conditions so far have been false. */
  lemma {:induction false} RestRuns(x: Ctx, s: Fs, held: seq<nat>, l: seq<nat>, escape: seq<nat>, flist: seq<nat>, rest: Rest, regs: Regs, log: seq<Event>, rounds: nat)
    requires Open(s, held + (l + (escape + flist))) && ScopedRest(rest, s.nactvar) && NoRiskRest(s, l, escape, flist, rest)
    requires Off(x, s, flist, regs, s.nactvar, log)
    requires var (t, m) := GenRest(s, l, escape, flist, rest); Built(x, t, held + m)
    ensures var (t, m) := GenRest(s, l, escape, flist, rest);
            Arrives(x, t, m, s.nactvar, ExecRest(x.env, rest, regs, s.nactvar, log, rounds))
    decreases rounds, SizeRest(rest), 4
  {
    hide Open, Leads, Built, SameList, Comes, Off, Cond, Jump, Fits, Paired, ListOk, Eval, SafeTest, GenBlock;
    var (s1, j) := Jump(s);
    var s2 := PatchToHere(s1, flist);
    var out := escape + j;
    var n := s.nactvar;
    match rest
    case REnd =>
      OpenPerm(s, held + (l + (escape + flist)), (held + l) + (flist + escape));
      OffWait(x, s, held + l, flist, escape, regs, n, log);
      OffTurn(x, s, flist + escape, escape + flist, regs, n, log);
      OffHere(x, s, escape + flist, regs, n, log);
    case RElse(body) =>
      ElseStates(x, s, held, l, escape, flist, body);
      OffLater(x, s, s1, flist, flist, regs, n, log);
      OffHere(x, s1, flist, regs, n, log);
      BlockRuns(x, s2, held + out, l, body, regs, log, rounds);
      var (s3, m) := GenBlock(s2, l, body);
      var r := Exec(x.env, body, regs, n, log, rounds);
      if r.Normal? { ComesHere(x, s3, out, r.regs, n, r.log); }
      else if r.Broke? { OffSame(x, s3, PatchToHere(s3, out), m, r.regs, n, r.log); }
    case RElseIf(c, body, more) =>
      ElseIfStates(x, s, held, l, escape, flist, c, body, more);
      OffLater(x, s, s1, flist, flist, regs, n, log);
      OffHere(x, s1, flist, regs, n, log);
      PartRuns(x, s2, held, out, l, c, body, more, regs, log, rounds);
  }

  lemma OffTurn(x: Ctx, s: Fs, l: seq<nat>, m: seq<nat>, regs: Regs, n: nat, log: seq<Event>)
    requires Off(x, s, l, regs, n, log) && multiset(l) == multiset(m)
    ensures Off(x, s, m, regs, n, log)
  {
    var c :| LeavesBy(Now(x, regs, n), s.code, l, c, log);
    var j: nat, now :| j in l && Takes(Now(x, regs, n), s.code, j, now, c, log);
    assert j in multiset(l);
    assert Yields(x.env, s.code, VTrue, now, log) == Result(Bool(true), log);
    assert LeavesBy(Now(x, regs, n), s.code, m, c, log);
  }

  // ---- Loops --------------------------------------------------------------

  /** The final code has all states of a `while` loop. */
  lemma WhileBuilt(x: Ctx, s: Fs, a: seq<nat>, c: Expr, body: Stat)
    requires Open(s, a) && LocalsBelow(c, s.nactvar) && Scoped(body, s.nactvar)
    requires Built(x, GenStat(s, a, SWhile(c, body)).0, a)
    ensures var (s1, exit) := Cond(s, c); var (s2, breaks) := GenBlock(s1, [], body); var (s3, back) := Jump(s2);
            var s4 := PatchTo(s3, back, |s.code|); var t := PatchToHere(PatchToHere(s4, breaks), exit);
            && Open(s, []) && Built(x, s1, a + exit) && Open(s1, (a + exit) + []) && Built(x, s2, (a + exit) + breaks) && s1.nactvar == s2.nactvar == s.nactvar
            && Ready(s2) && Fits(x.code, s3.code) && |s.code| < |s3.code| && Open(s3, a + exit + breaks + back) && Built(x, s4, a + exit + breaks)
            && SameList(s1.code, s4.code, exit) && SameList(s2.code, s4.code, breaks) && t.nactvar == s.nactvar
            && GenStat(s, a, SWhile(c, body)) == (t, a)
  {
    hide Open, Leads, Built, SameList, Cond, Jump, Fits, PatchTo, Scoped, GenStat, Waiting, Grown;
    OpenNone(s, a);
    WhileForm(s, a, c, body);
    CondBeside(s, a, c);
    var (s1, exit) := Cond(s, c);
    OpenNone(s1, a + exit);
    StatGood(s1, [], body);
    WhileEnd(s, a, c, body);
    var (s2, breaks) := GenBlock(s1, [], body);
    var (s3, back) := Jump(s2);
    var s4 := PatchTo(s3, back, |s.code|);
    var s5 := PatchToHere(s4, breaks);
    LeadsOpen(s4, a + exit + breaks, s5, a + exit);
    BuiltBefore(x, s5, a + exit, PatchToHere(s5, exit), a);
    BuiltBefore(x, s4, a + exit + breaks, s5, a + exit);
    LeadsOpen(s2, a + exit + breaks, s3, a + exit + breaks + back);
    BuiltBefore(x, s3, a + exit + breaks + back, s4, a + exit + breaks);
    BuiltFits(x, s3, a + exit + breaks + back);
    LeadsOpen(s1, a + exit, s2, a + exit + breaks);
    BuiltBefore(x, s2, a + exit + breaks, s3, a + exit + breaks + back);
    BuiltBefore(x, s1, a + exit, s2, a + exit + breaks);
    assert (a + exit) + [] == a + exit;
    OpenReady(s2, a + exit + breaks);
    LeadsLonger(s, a, s1, a + exit);
    LeadsLonger(s1, a + exit, s2, a + exit + breaks);
    JumpLonger(s2);
    SameListTrans(s2.code, s3.code, s4.code, a + exit + breaks);
    SamePart(s2.code, s4.code, a + exit, breaks);
    SamePart(s2.code, s4.code, a, exit);
    SamePart(s1.code, s2.code, a, exit);
    SameListTrans(s1.code, s2.code, s4.code, exit);
  }

  lemma {:induction false} WhileRuns(x: Ctx, s: Fs, held: seq<nat>, l: seq<nat>, c: Expr, body: Stat, regs: Regs, log: seq<Event>, rounds: nat)
    requires Open(s, held + l) && LocalsBelow(c, s.nactvar) && Scoped(body, s.nactvar) && Comes(x, s, regs, s.nactvar, log)
    requires var (t, m) := GenStat(s, l, SWhile(c, body)); Built(x, t, held + m)
    requires SafeTest(s, c) && NoRisk(Cond(s, c).0, [], body)
    ensures var (t, m) := GenStat(s, l, SWhile(c, body));
            Arrives(x, t, m, s.nactvar, Exec(x.env, SWhile(c, body), regs, s.nactvar, log, rounds))
    decreases rounds, 1 + Size(body), 1
  {
    hide Open, Leads, Built, SameList, Comes, Off, Cond, Scoped, NoRisk, SafeTest, Eval, Jump, PatchTo, Fits, GenBlock;
    var a, n := held + l, s.nactvar;
    WhileBuilt(x, s, a, c, body);
    var (s1, exit) := Cond(s, c);
    var (s2, breaks) := GenBlock(s1, [], body);
    var (s3, back) := Jump(s2);
    var s4 := PatchTo(s3, back, |s.code|);
    var s5 := PatchToHere(s4, breaks);
    assert GenStat(s, l, SWhile(c, body)) == (PatchToHere(s5, exit), l);
    hide GenStat;
    CondRuns(x, s, a + exit, c, regs, log);
    var v := Eval(x.env, c, regs, log);
    if IsFalse(v.v) {
      OffLater(x, s1, s4, exit, exit, regs, n, v.log);
      OffSame(x, s4, s5, exit, regs, n, v.log);
      OffHere(x, s5, exit, regs, n, v.log);
    } else {
      BlockRuns(x, s1, a + exit, [], body, regs, v.log, rounds);
      var r := Exec(x.env, body, regs, n, v.log, rounds);
      if r.Normal? {
        if rounds > 0 {
          ComesJump(x, s2, r.regs, n, r.log);
          OffBack(x, s3, a + exit + breaks, back, |s.code|, s, r.regs, n, r.log);
          WhileRuns(x, s, held, l, c, body, r.regs, r.log, rounds - 1);
        }
      } else if r.Broke? {
        OffLater(x, s2, s4, breaks, breaks, r.regs, n, r.log);
        OffHere(x, s4, breaks, r.regs, n, r.log);
        ComesHere(x, s5, exit, r.regs, n, r.log);
      }
    }
  }

  // ---- A jump needs code --------------------------------------------------

  lemma TestLonger(s: Fs, e: Exp, truth: bool)
    requires Good(s, e) && !SureKind(e.k, truth)
    ensures |GoIf(s, e, truth).0.code| > Front(s, e)
  {
    hide PatchList, Fits, Paired, ListOk;
    DischargeTwice(s, e);
  }

  /** An expression that is left by jumps has code of its own. */
  lemma {:induction false} JumpsLonger(s: Fs, e: Expr)
    requires Place(s, e) && (Jumps(e, true) || Jumps(e, false))
    ensures var (t, f) := Compiled(s, e); Front(t, f) > |s.code|
    decreases e
  {
    hide Fits, ListOk, Paired, ShapeIs, Gen, GoIf, CodeNot;
    match e
    case ENot(a) =>
      JumpsLonger(s, a);
      GenGood(s, a);
      NotGood(s, a);
      var (t1, f1) := Compiled(s, a);
      CodeNotGood(t1, f1, ShapeOf(a));
      var (t, f) := Compiled(s, e);
      SinceFrontLater(t1, f1, t, f);
    case ELogic(op, a, b) => LogicLonger(s, op, a, b);
  }

  lemma SinceFrontLater(s: Fs, e: Exp, t: Fs, f: Exp)
    requires Since(s, e, t, f)
    ensures Front(t, f) >= Front(s, e) >= 0
  {}

  lemma {:induction false} LogicLonger(s: Fs, op: bool, a: Expr, b: Expr)
    requires var e := ELogic(op, a, b); Place(s, e) && (Jumps(e, true) || Jumps(e, false))
    ensures var (t, f) := Compiled(s, ELogic(op, a, b)); Front(t, f) > |s.code|
    decreases ELogic(op, a, b), 0
  {
    hide Fits, ListOk, Paired, Since, Gen, GoIf, Compiled, ShapeIs;
    GenGood(s, a);
    var (s1, e1) := Compiled(s, a);
    SinceActive(s, Nothing, s1, e1);
    GoIfGood(s1, e1, op, ShapeOf(a));
    var (s2, e2) := GoIf(s1, e1, op);
    SinceActive(s1, e1, s2, e2.(k := VTrue));
    GenGood(s2, b);
    var (s4, e4) := Compiled(s2, b);
    LogicForm(s, op, a, b);
    SinceFrontLater(s, Nothing, s1, e1);
    SinceFrontLater(s1, e1, s2, e2.(k := VTrue));
    SinceFrontLater(s2, Nothing, s4, e4);
    if Jumps(b, true) || Jumps(b, false) {
      JumpsLonger(s2, b);
    } else if Jumps(a, true) || Jumps(a, false) {
      JumpsLonger(s, a);
    } else {
      ShapeSure(s1, e1.k, ShapeOf(a), op);
      TestLonger(s1, e1, op);
    }
  }

  lemma ShapeSure(s: Fs, k: Kind, shape: Shape, truth: bool)
    requires ShapeIs(s, k, shape) && !Sure(shape, truth)
    ensures !SureKind(k, truth)
  {}

  /** Jumps leave a condition only if it has code of its own. */
  lemma CondLonger(s: Fs, e: Expr)
    requires Place(s, e)
    ensures var (u, exit) := Cond(s, e); exit != [] ==> |u.code| > |s.code|
  {
    hide Fits, ListOk, Paired, Since, Gen, GoIf, Compiled, ShapeIs;
    CondForm(s, e);
    CondGood(s, e);
    var (t, f) := Compiled(s, e);
    var h := CondExp(f);
    var (u, g) := GoIf(t, h, true);
    GoIfGood(t, h, true, CondShape(e));
    SinceFrontLater(s, Nothing, t, h);
    SinceFrontLater(t, h, u, g.(k := VTrue));
    if g.f != [] {
      if Jumps(e, false) {
        JumpsLonger(s, e);
        assert Front(t, h) == Front(t, f);
      } else {
        ShapeSure(t, h.k, CondShape(e), true);
        TestLonger(t, h, true);
      }
    }
  }

  // ---- repeat -------------------------------------------------------------

  lemma RepeatBuilt(x: Ctx, s: Fs, a: seq<nat>, body: Stat, c: Expr)
    requires Open(s, a) && Scoped(body, s.nactvar) && LocalsBelow(c, s.nactvar + Declared(body))
    requires Built(x, GenStat(s, a, SRepeat(body, c)).0, a)
    ensures var (s1, breaks) := GenStat(s, [], body); var (u, exit) := Cond(s1, c); var s2 := Settle(u, s.nactvar);
            var s3 := PatchTo(s2, exit, |s.code|); var t := PatchToHere(s3, breaks);
            && Open(s, a + []) && Built(x, s1, a + breaks) && Open(s1, []) && Built(x, u, a + breaks + exit)
            && s1.nactvar == u.nactvar == s.nactvar + Declared(body)
            && Open(s2, a + breaks + exit) && Built(x, s3, a + breaks) && (exit != [] ==> |s.code| < |s2.code|)
            && SameList(s1.code, s2.code, breaks) && SameList(s2.code, s3.code, breaks) && t.nactvar == s.nactvar
            && GenStat(s, a, SRepeat(body, c)) == (t, a)
  {
    hide Open, Leads, Built, SameList, Cond, Fits, PatchTo, Scoped, GenStat, Waiting, Grown;
    OpenNone(s, a);
    assert a + [] == a;
    RepeatForm(s, a, body, c);
    StatGood(s, [], body);
    RepeatEnd(s, a, body, c);
    var (s1, breaks) := GenStat(s, [], body);
    var (u, exit) := Cond(s1, c);
    var s2 := Settle(u, s.nactvar);
    var s3 := PatchTo(s2, exit, |s.code|);
    BuiltBefore(x, s3, a + breaks, PatchToHere(s3, breaks), a);
    BuiltBefore(x, s2, a + breaks + exit, s3, a + breaks);
    BuiltSettle(x, u, a + breaks + exit, s.nactvar);
    LeadsOpen(s, a, s1, a + breaks);
    BuiltBefore(x, s1, a + breaks, u, a + breaks + exit);
    OpenReady(s1, a + breaks);
    CondLonger(s1, c);
    CondLeads(s1, c);
    LeadsLonger(s, a, s1, a + breaks);
    SamePart(s1.code, u.code, a, breaks);
    SamePart(s2.code, s3.code, a, breaks);
  }

  /** Sending other jumps back does not move control. */
  lemma ComesPatch(x: Ctx, s: Fs, l: seq<nat>, m: seq<nat>, target: nat, regs: Regs, n: nat, log: seq<Event>)
    requires Comes(x, s, regs, n, log) && Open(s, l + m)
    ensures Comes(x, PatchTo(s, m, target), regs, n, log)
  {
    if target == |s.code| {
      ComesHere(x, s, m, regs, n, log);
    } else {
      var t := PatchTo(s, m, target);
      SplitList(s.code, l, m);
      PatchListSpec(s.code, m, target, None, target);
      assert Apart(s.jpc, m) by { assert forall j <- m :: j in l + m; }
      PatchedApart(s.code, t.code, m, target, None, target, s.jpc);
      hide PatchList, Patched;
      var held :| At(Now(x, regs, n), s, held, log);
      if LeavesBy(Now(x, regs, n), s.code, s.jpc, held, log) {
        LeavesLater(Now(x, regs, n), s.code, t.code, s.jpc, t.jpc, held, log, VTrue, Result(Bool(true), log));
        assert At(Now(x, regs, n), t, held, log);
      } else {
        var now :| Gets(Now(x, regs, n), |s.code|, now, log);
        ComesFrom(x, t, regs, n, now, log);
      }
    }
  }

  lemma {:induction false} RepeatRuns(x: Ctx, s: Fs, held: seq<nat>, l: seq<nat>, body: Stat, c: Expr, regs: Regs, log: seq<Event>, rounds: nat)
    requires Open(s, held + l) && Scoped(body, s.nactvar) && LocalsBelow(c, s.nactvar + Declared(body)) && Comes(x, s, regs, s.nactvar, log)
    requires var (t, m) := GenStat(s, l, SRepeat(body, c)); Built(x, t, held + m)
    requires NoRisk(s, [], body) && SafeTest(GenStat(s, [], body).0, c)
    ensures var (t, m) := GenStat(s, l, SRepeat(body, c));
            Arrives(x, t, m, s.nactvar, Exec(x.env, SRepeat(body, c), regs, s.nactvar, log, rounds))
    decreases rounds, 1 + Size(body), 1
  {
    hide Open, Leads, Built, SameList, Comes, Off, Cond, Scoped, NoRisk, SafeTest, Eval, PatchTo, Fits;
    var a, n := held + l, s.nactvar;
    RepeatBuilt(x, s, a, body, c);
    var (s1, breaks) := GenStat(s, [], body);
    var (u, exit) := Cond(s1, c);
    var s2 := Settle(u, n);
    var s3 := PatchTo(s2, exit, |s.code|);
    assert GenStat(s, l, SRepeat(body, c)) == (PatchToHere(s3, breaks), l);
    hide GenStat;
    StatRuns(x, s, a, [], body, regs, log, rounds);
    var r := Exec(x.env, body, regs, n, log, rounds);
    if r.Normal? {
      CondRuns(x, s1, a + breaks + exit, c, r.regs, r.log);
      var v := Eval(x.env, c, r.regs, r.log);
      if IsFalse(v.v) {
        if rounds > 0 {
          OffLess(x, u, exit, r.regs, s1.nactvar, n, v.log);
          OffSettled(x, u, exit, n, r.regs, n, v.log);
          OffSome(x, s2, exit, r.regs, n, v.log);
          OffBack(x, s2, a + breaks, exit, |s.code|, s, r.regs, n, v.log);
          RepeatRuns(x, s, held, l, body, c, r.regs, v.log, rounds - 1);
        }
      } else {
        ComesLess(x, u, r.regs, s1.nactvar, n, v.log);
        ComesSettle(x, u, n, r.regs, n, v.log);
        ComesPatch(x, s2, a + breaks, exit, |s.code|, r.regs, n, v.log);
        ComesHere(x, s3, breaks, r.regs, n, v.log);
      }
    } else if r.Broke? {
      OffLater(x, s1, s2, breaks, breaks, r.regs, n, r.log);
      OffLater(x, s2, s3, breaks, breaks, r.regs, n, r.log);
      OffHere(x, s3, breaks, r.regs, n, r.log);
    }
  }

  lemma OffSome(x: Ctx, s: Fs, l: seq<nat>, regs: Regs, n: nat, log: seq<Event>)
    requires Off(x, s, l, regs, n, log)
    ensures l != []
  {}

  // ---- Whole programs -----------------------------------------------------

  /** The code of a statement ends up in `final`, followed by instruction `i` and
      whatever else. */
  ghost predicate Final(final: seq<Instr>, t: Fs, i: Instr) {
    Grown(Emit(t, i).code, {}, final, {})
  }

  /** On the machine the code of the statement does what the statement means: if it
      ends, control comes to the end of its code with the same values in the locals,
      after the same questions. */
  ghost predicate Obeys(env: Env, code: seq<Instr>, s: Fs, st: Stat, regs: Regs, log: seq<Event>, rounds: nat) {
    var t := GenStat(s, [], st).0;
    var end := Exec(env, st, regs, s.nactvar, log, rounds);
    !end.Unfinished? ==>
      && end.Normal?
      && exists after: Regs :: Reaches(env, code, Conf(|s.code|, regs, log), Conf(|t.code|, after, end.log)) && Keeps(end.regs, after, t.nactvar)
  }

  /** So it is for every statement without risk and without a `break` of its own. */
  lemma ProgramCorrect(env: Env, final: seq<Instr>, s: Fs, st: Stat, i: Instr, regs: Regs, log: seq<Event>, rounds: nat)
    requires Open(s, []) && Scoped(st, s.nactvar) && NoRisk(s, [], st) && !Breaks(st)
    requires var t := GenStat(s, [], st).0; Final(final, t, i) && t.k <= env.k
    ensures Obeys(env, final, s, st, regs, log, rounds)
  {
    hide GenStat, Exec, NoRisk, Scoped, Leads, Fits, Paired, ListOk, Reaches, Emit, At;
    StatGood(s, [], st);
    var (t, m) := GenStat(s, [], st);
    LeadsOpen(s, [], t, m);
    var x := Ctx(env, final, Conf(|s.code|, regs, log), regs, Below(s.nactvar));
    var end := Exec(env, st, regs, s.nactvar, log, rounds);
    NoBreak(env, st, regs, s.nactvar, log, rounds);
    FinalBuilt(x, t, m, i);
    assert Now(x, regs, s.nactvar) == x;
    StartAt(x, s, regs, log);
    assert Comes(x, s, regs, s.nactvar, log);
    var none: seq<nat> := [];
    assert none + none == none && none + m == m;
    StatRuns(x, s, none, none, st, regs, log, rounds);
    if end.Normal? {
      var y := Now(x, end.regs, t.nactvar);
      var held :| At(y, t, held, end.log);
      OpenReady(t, m);
      FitsCutEmit(final, t, i);
      LandsAt(y, t, i, held, end.log);
      var after :| Gets(y, |t.code|, after, end.log);
      assert Keeps(end.regs, after, t.nactvar);
    }
  }

  lemma FitsCutEmit(final: seq<Instr>, t: Fs, i: Instr)
    requires Final(final, t, i) && Ready(t)
    ensures Fits(final, Emit(t, i).code[..|t.code|]) && ListOk(t.code, t.jpc)
  {
    EmitFits(final, t, i);
  }

  lemma FinalBuilt(x: Ctx, t: Fs, m: seq<nat>, i: Instr)
    requires Final(x.code, t, i) && Open(t, m) && t.k <= x.env.k
    ensures Built(x, t, m)
  {
    hide Paired;
    EmitSpec(t, i);
    var u := Emit(t, i);
    assert Grown(t.code, Waiting(t, m), u.code, {}) by {
      forall q: nat | q < |t.code| && q !in Waiting(t, m) && !(q + 1 in Waiting(t, m) && t.code[q].TestSet?) ensures u.code[q] == t.code[q] {
        assert u.code[q] == u.code[..|t.code|][q];
      }
    }
    GrownTrans(t.code, Waiting(t, m), u.code, {}, x.code, {});
  }

  /** Programs in which no literal decides an operator are compiled correctly. */
  lemma PlainCorrect(env: Env, final: seq<Instr>, st: Stat, n: nat, i: Instr, regs: Regs, log: seq<Event>, rounds: nat)
    requires Scoped(st, n) && PlainStat(st) && !Breaks(st)
    requires var t := GenStat(Fs([], [], [], n, n), [], st).0; Final(final, t, i) && t.k <= env.k
    ensures Obeys(env, final, Fs([], [], [], n, n), st, regs, log, rounds)
  {
    hide GenStat, Scoped, NoRisk, Final, Obeys;
    var s := Fs([], [], [], n, n);
    assert Open(s, []);
    PlainNoRisk(s, [], st);
    ProgramCorrect(env, final, s, st, i, regs, log, rounds);
  }
}
