/** Statements that move control (`lparser.c`): conditionals, loops and `break`.
    The jumps of each of them wait on a list of its own while what is inside is
    compiled. */
module CodeBlocks {
  import opened CodeVm
  import opened CodeTree
  import opened CodeGen
  import opened CodeLists
  import opened CodeState
  import opened CodeExits
  import opened CodeClose
  import opened CodeOperand
  import opened CodeTests
  import opened CodeCorrect
  import opened CodeTheorems

  /** Locals are named by their registers: a declaration takes the next one. */
  datatype Stat =
    | SSkip
    | SSeq(a: Stat, b: Stat)
    | SLocal(e: Expr)
    | SAssign(r: nat, e: Expr)
    | SDo(body: Stat)
    | SIf(c: Expr, body: Stat, rest: Rest)
    | SWhile(c: Expr, body: Stat)
    | SRepeat(body: Stat, c: Expr)
    | SBreak

  /** What follows the first part of a conditional. */
  datatype Rest =
    | REnd
    | RElse(body: Stat)
    | RElseIf(c: Expr, body: Stat, rest: Rest)

  /** The locals that are active after the statement and were not before. */
  function Declared(st: Stat): nat {
    match st
    case SSeq(a, b) => Declared(a) + Declared(b)
    case SLocal(_) => 1
    case _ => 0
  }

  /** Names refer to active locals, `n` of them. */
  predicate Scoped(st: Stat, n: nat) {
    match st
    case SSkip => true
    case SBreak => true
    case SSeq(a, b) => Scoped(a, n) && Scoped(b, n + Declared(a))
    case SLocal(e) => LocalsBelow(e, n)
    case SAssign(r, e) => r < n && LocalsBelow(e, n)
    case SDo(body) => Scoped(body, n)
    case SIf(c, body, rest) => LocalsBelow(c, n) && Scoped(body, n) && ScopedRest(rest, n)
    case SWhile(c, body) => LocalsBelow(c, n) && Scoped(body, n)
    case SRepeat(body, c) => Scoped(body, n) && LocalsBelow(c, n + Declared(body))
  }

  predicate ScopedRest(rest: Rest, n: nat) {
    match rest
    case REnd => true
    case RElse(body) => Scoped(body, n)
    case RElseIf(c, body, more) => LocalsBelow(c, n) && Scoped(body, n) && ScopedRest(more, n)
  }

  /** A `break` outside any loop of the statement itself. */
  predicate Breaks(st: Stat) {
    match st
    case SBreak => true
    case SSeq(a, b) => Breaks(a) || Breaks(b)
    case SDo(body) => Breaks(body)
    case SIf(_, body, rest) => Breaks(body) || BreaksRest(rest)
    case _ => false
  }

  predicate BreaksRest(rest: Rest) {
    match rest
    case REnd => false
    case RElse(body) => Breaks(body)
    case RElseIf(_, body, more) => Breaks(body) || BreaksRest(more)
  }

  // ---- Compiling ----------------------------------------------------------

  /** `cond`: the jumps taken when the condition is false. */
  function Cond(s: Fs, e: Expr): (Fs, seq<nat>) {
    var (t, f) := Gen(s, e);
    var (u, g) := GoIf(t, if f.k.VNil? then f.(k := VFalse) else f, true);
    (u, g.f)
  }

  /** `luaK_patchlist`. */
  function PatchTo(s: Fs, l: seq<nat>, target: nat): Fs {
    if target == |s.code| then PatchToHere(s, l) else s.(code := PatchList(s.code, l, target, None, target))
  }

  /** The registers when no expression is at hand and `n` locals are active. */
  function Settle(s: Fs, n: nat): Fs {
    s.(freereg := n, nactvar := n)
  }

  /** `localstat` with one name and one value. */
  function LocalCode(s: Fs, e: Expr): Fs {
    Settle(ValueCode(s, e), s.nactvar + 1)
  }

  /** `luaK_storevar` to a local. */
  function AssignCode(s: Fs, r: nat, e: Expr): Fs {
    var (t, f) := Compiled(s, e);
    Settle(ExpToReg(FreeExp(t, f), f, r).0, s.nactvar)
  }

  /** Compiles a statement; `l` is the `breaklist` of the innermost loop. */
  function GenStat(s: Fs, l: seq<nat>, st: Stat): (Fs, seq<nat>)
    decreases st, 0
  {
    match st
    case SSkip => (s, l)
    case SSeq(a, b) => var (t, m) := GenStat(s, l, a); GenStat(t, m, b)
    case SLocal(e) => (LocalCode(s, e), l)
    case SAssign(r, e) => (AssignCode(s, r, e), l)
    case SDo(body) => GenBlock(s, l, body)
    case SIf(c, body, rest) =>
      var (s1, exit) := Cond(s, c);
      var (s2, m) := GenBlock(s1, l, body);
      GenRest(s2, m, [], exit, rest)
    case SWhile(c, body) =>
      var (s1, exit) := Cond(s, c);
      var (s2, breaks) := GenBlock(s1, [], body);
      var (s3, back) := Jump(s2);
      (PatchToHere(PatchToHere(PatchTo(s3, back, |s.code|), breaks), exit), l)
    case SRepeat(body, c) =>
      var (s1, breaks) := GenStat(s, [], body);
      var (s2, exit) := Cond(s1, c);
      (PatchToHere(PatchTo(Settle(s2, s.nactvar), exit, |s.code|), breaks), l)
    case SBreak =>
      var (t, j) := Jump(s);
      (t, l + j)
  }

  /** `enterblock`, the statements, `leaveblock`. */
  function GenBlock(s: Fs, l: seq<nat>, st: Stat): (Fs, seq<nat>)
    decreases st, 1
  {
    var (t, m) := GenStat(s, l, st);
    (Settle(t, s.nactvar), m)
  }

  /** The rest of a conditional: `escape` leaves it, `flist` comes here. */
  function GenRest(s: Fs, l: seq<nat>, escape: seq<nat>, flist: seq<nat>, rest: Rest): (Fs, seq<nat>)
    decreases rest, 0
  {
    match rest
    case REnd => (PatchToHere(s, escape + flist), l)
    case RElse(body) =>
      var (s1, j) := Jump(s);
      var (s2, m) := GenBlock(PatchToHere(s1, flist), l, body);
      (PatchToHere(s2, escape + j), m)
    case RElseIf(c, body, more) =>
      var (s1, j) := Jump(s);
      var (s2, exit) := Cond(PatchToHere(s1, flist), c);
      var (s3, m) := GenBlock(s2, l, body);
      GenRest(s3, m, escape + j, exit, more)
  }

  lemma SeqForm(s: Fs, l: seq<nat>, a: Stat, b: Stat)
    ensures GenStat(s, l, SSeq(a, b)) == GenStat(GenStat(s, l, a).0, GenStat(s, l, a).1, b)
  {
    hide LocalCode, AssignCode, Cond, PatchTo, Jump;
  }

  lemma RepeatForm(s: Fs, l: seq<nat>, body: Stat, e: Expr)
    ensures var (s1, breaks) := GenStat(s, [], body); var (u, exit) := Cond(s1, e);
            GenStat(s, l, SRepeat(body, e)) == (PatchToHere(PatchTo(Settle(u, s.nactvar), exit, |s.code|), breaks), l)
  {
    hide Cond, PatchTo;
  }

  // ---- Lists that wait ----------------------------------------------------

  /** No expression, but jumps that wait. */
  function Hold(l: seq<nat>): Exp {
    Exp(VTrue, l, [])
  }

  function Waiting(s: Fs, l: seq<nat>): set<nat> {
    Owned(s, Hold(l))
  }

  /** Between two statements; `l` are all the jumps that wait for later places. */
  ghost predicate Open(s: Fs, l: seq<nat>) {
    match s case Fs(_, _, _, _, _) =>
    Ready(s) && s.freereg == s.nactvar && ListOk(s.code, l) && Apart(l, s.jpc)
  }

  /** Code has been added, and of the code before only the jumps of `own` and
      their tests may have changed; those that still wait are of `own` or new. */
  ghost predicate Grown(code: seq<Instr>, own: set<nat>, later: seq<Instr>, rest: set<nat>) {
    && Fits(later, code)
    && (forall i: nat {:trigger code[i]} {:trigger later[i]} ::
         i < |code| && i !in own && !(i + 1 in own && code[i].TestSet?) ==> later[i] == code[i])
    && forall j <- rest :: j in own || j >= |code|
  }

  /** No jump is lost: one that is not fixed waits, or did not wait before. */
  ghost predicate Lossless(code: seq<Instr>, own: set<nat>, later: seq<Instr>, rest: set<nat>) {
    forall j: nat :: Pending(later, j) && j !in rest ==> Pending(code, j) && j !in own
  }

  /** What compiling keeps. */
  ghost predicate Leads(s: Fs, l: seq<nat>, t: Fs, m: seq<nat>) {
    match t case Fs(_, _, _, _, _) =>
    Open(t, m) && Grown(s.code, Waiting(s, l), t.code, Waiting(t, m)) && s.k <= t.k
  }

  lemma WaitingIs(s: Fs, l: seq<nat>)
    ensures forall j: nat :: j in Waiting(s, l) <==> j in s.jpc || j in l
  {}

  lemma SinceGrown(s: Fs, e: Exp, t: Fs, f: Exp)
    requires Since(s, e, t, f) && Inert(e.k) && Inert(f.k)
    ensures Grown(s.code, Owned(s, e), t.code, Owned(t, f)) && Lossless(s.code, Owned(s, e), t.code, Owned(t, f))
  {
    assert s.code[..|s.code|] == s.code;
  }

  lemma GrownSelf(code: seq<Instr>, own: set<nat>)
    ensures Grown(code, own, code, own)
  {
    FitsSelf(code);
  }

  lemma GrownTrans(a: seq<Instr>, p: set<nat>, b: seq<Instr>, q: set<nat>, c: seq<Instr>, r: set<nat>)
    requires Grown(a, p, b, q) && Grown(b, q, c, r) && Paired(a)
    ensures Grown(a, p, c, r)
  {
    FitsTrans(c, b, a);
    forall i: nat | i < |a| && i !in p && !(i + 1 in p && a[i].TestSet?) ensures c[i] == a[i] {
      assert b[i] == a[i];
    }
  }

  /** More jumps wait, and go on waiting. */
  lemma GrownMore(a: seq<Instr>, p: set<nat>, b: seq<Instr>, q: set<nat>, more: set<nat>)
    requires Grown(a, p, b, q)
    ensures Grown(a, p + more, b, q + more)
  {}

  /** A list of others is as it was. */
  lemma GrownKeeps(a: seq<Instr>, p: set<nat>, b: seq<Instr>, q: set<nat>, m: seq<nat>)
    requires Grown(a, p, b, q) && ListOk(a, m) && forall j <- m :: j !in p
    requires forall j <- p :: Pending(a, j)
    ensures SameList(a, b, m) && forall j <- m :: j !in q
  {
    forall j <- m ensures Pending(b, j) && (Valued(b, j) <==> Valued(a, j)) && (Valued(a, j) ==> b[j - 1] == a[j - 1]) && j !in q {
      assert Pending(a, j);
      assert a[j] == b[j];
      if j >= 1 {
        var i := j - 1;
        assert a[i] == a[i];
        if i in p { assert Pending(a, i); assert b[i].Jmp?; }
      }
    }
  }

  lemma WaitingPending(s: Fs, l: seq<nat>)
    requires Open(s, l)
    ensures forall j <- Waiting(s, l) :: Pending(s.code, j)
  {}

  lemma LeadsSelf(s: Fs, l: seq<nat>)
    requires Open(s, l)
    ensures Leads(s, l, s, l)
  {
    hide Open;
    GrownSelf(s.code, Waiting(s, l));
  }

  lemma LeadsTrans(s: Fs, l: seq<nat>, t: Fs, m: seq<nat>, u: Fs, n: seq<nat>)
    requires Open(s, l) && Leads(s, l, t, m) && Leads(t, m, u, n)
    ensures Leads(s, l, u, n)
  {
    GrownTrans(s.code, Waiting(s, l), t.code, Waiting(t, m), u.code, Waiting(u, n));
  }

  // ---- The order of the jumps that wait -----------------------------------

  lemma {:induction false} OnceEach(l: seq<nat>, x: nat)
    requires forall i, j :: 0 <= i < j < |l| ==> l[i] != l[j]
    ensures multiset(l)[x] <= 1
  {
    if l != [] {
      assert l == [l[0]] + l[1..];
      OnceEach(l[1..], x);
      if x == l[0] { assert x !in l[1..]; }
    }
  }

  lemma ListPerm(code: seq<Instr>, l: seq<nat>, m: seq<nat>)
    requires ListOk(code, l) && multiset(l) == multiset(m)
    ensures ListOk(code, m)
  {
    forall j <- m ensures Pending(code, j) { assert j in multiset(m); }
    forall i, j | 0 <= i < j < |m| ensures m[i] != m[j] {
      if m[i] == m[j] {
        OnceEach(l, m[i]);
        TwiceThere(m, i, j);
      }
    }
  }

  lemma TwiceThere(m: seq<nat>, i: nat, j: nat)
    requires i < j < |m| && m[i] == m[j]
    ensures multiset(m)[m[i]] >= 2
  {
    var a, b := m[..j], m[j..];
    assert m == a + b;
    assert a[i] in a && b[0] in b;
  }

  lemma OpenPerm(s: Fs, l: seq<nat>, m: seq<nat>)
    requires Open(s, l) && multiset(l) == multiset(m)
    ensures Open(s, m) && Waiting(s, m) == Waiting(s, l)
  {
    ListPerm(s.code, l, m);
    assert forall j: nat :: j in l <==> j in multiset(l);
    assert forall j: nat :: j in m <==> j in multiset(m);
  }

  lemma LeadsPerm(s: Fs, l: seq<nat>, l2: seq<nat>, t: Fs, m: seq<nat>, m2: seq<nat>)
    requires Open(s, l) && Leads(s, l, t, m) && multiset(l) == multiset(l2) && multiset(m) == multiset(m2)
    ensures Leads(s, l2, t, m2)
  {
    OpenPerm(s, l, l2);
    OpenPerm(t, m, m2);
  }

  /** While something is compiled, the jumps of `m` wait. */
  lemma LeadsBeside(s: Fs, l: seq<nat>, t: Fs, n: seq<nat>, m: seq<nat>)
    requires Open(s, l) && Open(s, m) && Apart(m, l) && Leads(s, l, t, n)
    ensures Leads(s, m + l, t, m + n) && SameList(s.code, t.code, m) && Apart(m, n)
  {
    hide Paired, Fits;
    WaitingPending(s, l);
    GrownKeeps(s.code, Waiting(s, l), t.code, Waiting(t, n), m);
    JoinLists(t.code, m, n);
    GrownMore(s.code, Waiting(s, l), t.code, Waiting(t, n), set j | j in m);
    WaitingSum(s, m, l);
    WaitingSum(t, m, n);
    hide Waiting;
    assert Apart(m + n, t.jpc) by { assert forall j <- m + n :: j in n || j in m; WaitingIs(t, n); }
  }

  lemma WaitingSum(s: Fs, m: seq<nat>, l: seq<nat>)
    ensures Waiting(s, m + l) == Waiting(s, l) + (set j | j in m)
  {
    assert forall j <- m + l :: j in l || j in m;
  }

  // ---- Single steps -------------------------------------------------------

  /** An expression whose value has been used up. */
  lemma ValueLeads(s: Fs, t: Fs, n: nat)
    requires Open(s, []) && Since(s, Nothing, t, Nothing) && Ready(t)
    ensures Leads(s, [], Settle(t, n), []) && Lossless(s.code, Waiting(s, []), t.code, Waiting(Settle(t, n), []))
  {
    hide Paired;
    SinceGrown(s, Nothing, t, Nothing);
    assert Hold([]) == Nothing;
    assert Owned(Settle(t, n), Nothing) == Owned(t, Nothing);
  }

  lemma OpenReady(s: Fs, l: seq<nat>)
    requires Open(s, l)
    ensures Ready(s) && s.freereg == s.nactvar
  {}

  lemma LocalLeads(s: Fs, e: Expr)
    requires Open(s, []) && LocalsBelow(e, s.nactvar)
    ensures Leads(s, [], LocalCode(s, e), []) && LocalCode(s, e).nactvar == s.nactvar + 1 && ValueCode(s, e).nactvar == s.nactvar
    ensures Lossless(s.code, Waiting(s, []), LocalCode(s, e).code, Waiting(LocalCode(s, e), []))
  {
    hide Paired, ListOk, Since, Fits, Leads, ValueCode, Open, Good, ShapeIs, Compiled, ExpToReg;
    OpenReady(s, []);
    ValueForm(s, e);
    GenGood(s, e);
    var (t, f) := Compiled(s, e);
    SinceTrans(s, Nothing, t, f, ValueCode(s, e), Nothing);
    SinceActive(s, Nothing, ValueCode(s, e), Nothing);
    ValueLeads(s, ValueCode(s, e), s.nactvar + 1);
  }

  /** `exp2reg` does not look at the number of registers in use. */
  lemma ExpToRegReg(s: Fs, f: Exp, r: nat, n: nat)
    ensures ExpToReg(s.(freereg := n), f, r) == (ExpToReg(s, f, r).0.(freereg := n), ExpToReg(s, f, r).1)
  {
    hide PatchList, CloseJumps, Emit;
    forall t: Fs, i: Instr ensures Emit(t.(freereg := n), i) == Emit(t, i).(freereg := n) { EmitReg(t, i, n); }
    forall t: Fs, g: Exp ensures CloseJumps(t.(freereg := n), g, r) == CloseJumps(t, g, r).(freereg := n) { CloseJumpsReg(t, g, r, n); }
    var (s1, e1) := DischargeVars(s, f);
    var (s2, e2) := DischargeVars(s.(freereg := n), f);
    assert s2 == s1.(freereg := n) && e2 == e1;
    assert DischargeTo(s2, e2, r) == (DischargeTo(s1, e1, r).0.(freereg := n), DischargeTo(s1, e1, r).1);
  }

  lemma CloseJumpsReg(s: Fs, f: Exp, r: nat, n: nat)
    ensures CloseJumps(s.(freereg := n), f, r) == CloseJumps(s, f, r).(freereg := n)
  {
    hide PatchList, Emit;
    forall t: Fs, i: Instr ensures Emit(t.(freereg := n), i) == Emit(t, i).(freereg := n) { EmitReg(t, i, n); }
  }

  lemma AssignForm(s: Fs, r: nat, e: Expr)
    ensures var (t, f) := Compiled(s, e); AssignCode(s, r, e) == Settle(ExpToReg(t, f, r).0, s.nactvar)
  {
    hide ExpToReg, Gen, Compiled;
    var (t, f) := Compiled(s, e);
    var u := FreeExp(t, f);
    assert u == t.(freereg := u.freereg);
    ExpToRegReg(t, f, r, u.freereg);
  }

  lemma AssignLeads(s: Fs, r: nat, e: Expr)
    requires Open(s, []) && LocalsBelow(e, s.nactvar)
    ensures Leads(s, [], AssignCode(s, r, e), []) && AssignCode(s, r, e).nactvar == s.nactvar
    ensures Lossless(s.code, Waiting(s, []), AssignCode(s, r, e).code, Waiting(AssignCode(s, r, e), []))
  {
    hide Paired, ListOk, Since, Fits, Leads, ExpToReg, Compiled, Emit, Open, ShapeIs;
    OpenReady(s, []);
    GenGood(s, e);
    AssignForm(s, r, e);
    var (t, f) := Compiled(s, e);
    ExpToRegGood(t, f, r);
    var u := ExpToReg(t, f, r).0;
    SinceTrans(s, Nothing, t, f, u, Nothing);
    ValueLeads(s, u, s.nactvar);
  }

  /** The condition, its literal `nil` read as false. */
  function CondExp(f: Exp): Exp {
    if f.k.VNil? then f.(k := VFalse) else f
  }

  function CondShape(e: Expr): Shape {
    if ShapeOf(e).SNil? then SFalse else ShapeOf(e)
  }

  lemma CondForm(s: Fs, e: Expr)
    ensures var (t, f) := Compiled(s, e); var (u, g) := GoIf(t, CondExp(f), true); Cond(s, e) == (u, g.f)
  {
    hide GoIf, DischargeVars, Gen;
    var (r, q) := Gen(s, e);
    GoIfDischarged(r, CondExp(q), true);
    CondDischarge(r, q);
  }

  lemma CondDischarge(s: Fs, e: Exp)
    ensures var (t, f) := DischargeVars(s, e); DischargeVars(s, CondExp(e)) == (t, CondExp(f))
    ensures CondExp(e) == if e.k.VNil? then e.(k := VFalse) else e
  {
    hide Emit;
  }

  lemma CondGood(s: Fs, e: Expr)
    requires Place(s, e)
    ensures var (t, f) := Compiled(s, e); var h := CondExp(f); var (u, g) := GoIf(t, h, true);
            && Good(t, h) && Base(t, h) >= t.nactvar && Base(t, h) == s.freereg && ShapeIs(t, h.k, CondShape(e))
            && Since(s, Nothing, t, h) && ListsGood(u, g.(k := VTrue)) && Since(t, h, u, g.(k := VTrue)) && g.t == []
            && u.freereg == s.freereg && u.nactvar == s.nactvar && s.k <= t.k && t.k <= u.k
            && Sound(s, e, t, f)
  {
    hide Paired, ListOk, Fits, Gen, GoIf;
    GenGood(s, e);
    var (t, f) := Compiled(s, e);
    var h := CondExp(f);
    assert Good(t, h) && Since(s, Nothing, t, h);
    SinceActive(s, Nothing, t, h);
    GoIfGood(t, h, true, CondShape(e));
    var (u, g) := GoIf(t, h, true);
    SinceActive(t, h, u, g.(k := VTrue));
  }

  lemma CondLeads(s: Fs, e: Expr)
    requires Open(s, []) && LocalsBelow(e, s.nactvar)
    ensures var (t, m) := Cond(s, e); Leads(s, [], t, m) && t.nactvar == s.nactvar && Lossless(s.code, Waiting(s, []), t.code, Waiting(t, m))
  {
    hide Paired, ListOk, Fits, Since, GoIf, Compiled;
    CondForm(s, e);
    CondGood(s, e);
    var (t, f) := Compiled(s, e);
    var (u, g) := GoIf(t, CondExp(f), true);
    SinceTrans(s, Nothing, t, CondExp(f), u, g.(k := VTrue));
    SinceGrown(s, Nothing, u, g.(k := VTrue));
    assert Hold([]) == Nothing;
    assert Owned(u, g.(k := VTrue)) == Waiting(u, g.f);
  }

  lemma JumpLeads(s: Fs, l: seq<nat>)
    requires Open(s, l)
    ensures var (t, j) := Jump(s);
            && Leads(s, l, t, l + j) && t.nactvar == s.nactvar && ListOk(t.code, j) && Apart(l, j)
            && SameList(s.code, t.code, l) && Open(t, l + j)
  {
    hide Paired, Fits, Since, Grown;
    JumpGrown(s, l);
    JumpGood(s, Hold(l));
    var (t, j) := Jump(s);
    JoinLists(t.code, l, j);
    hide ListOk;
  }

  /** A jump and those held with it wait. */
  lemma JumpGrown(s: Fs, l: seq<nat>)
    requires Open(s, l)
    ensures var (t, j) := Jump(s);
            Grown(s.code, Waiting(s, l), t.code, Waiting(t, l + j)) && Lossless(s.code, Waiting(s, l), t.code, Waiting(t, l + j))
  {
    hide Paired, Fits, ListOk, SameList;
    var (t, j) := Jump(s);
    JumpSince(s, Hold(l));
    hide Jump;
    SinceGrown(s, Hold(l), t, Exp(VTrue, l, [] + j));
    WaitingJumps(t, l, j);
    hide Lossless, Owned, Grown;
  }

  lemma WaitingJumps(t: Fs, l: seq<nat>, j: seq<nat>)
    ensures Owned(t, Exp(VTrue, l, [] + j)) == Waiting(t, l + j)
  {
    assert forall i <- l + j :: i in l || i in j;
  }

  lemma HereLeads(s: Fs, l: seq<nat>, m: seq<nat>)
    requires Open(s, l + m)
    ensures Leads(s, l + m, PatchToHere(s, m), l) && SameList(s.code, PatchToHere(s, m).code, l)
  {
    hide Paired, Fits;
    var t := PatchToHere(s, m);
    GrownSelf(s.code, Waiting(s, l + m));
    SplitList(s.code, l, m);
    JoinLists(s.code, s.jpc, m) by { assert forall j <- m :: j in l + m; }
    assert forall j <- l :: j in l + m;
    assert forall j <- t.jpc :: j in s.jpc || j in m;
    assert forall j <- m :: j in l + m;
  }

  lemma SplitList(code: seq<Instr>, l: seq<nat>, m: seq<nat>)
    requires ListOk(code, l + m)
    ensures ListOk(code, l) && ListOk(code, m) && Apart(l, m) && Apart(m, l)
  {
    var a := l + m;
    forall j <- l ensures j in a && j !in m {
      var i :| 0 <= i < |l| && l[i] == j;
      assert a[i] == j;
      forall q | 0 <= q < |m| ensures m[q] != j { assert a[|l| + q] == m[q]; }
    }
    forall j <- m ensures j in a && j !in l {
      var i :| 0 <= i < |m| && m[i] == j;
      assert a[|l| + i] == j;
    }
    forall i, j | 0 <= i < j < |l| ensures l[i] != l[j] { assert a[i] == l[i] && a[j] == l[j]; }
    forall i, j | 0 <= i < j < |m| ensures m[i] != m[j] { assert a[|l| + i] == m[i] && a[|l| + j] == m[j]; }
  }

  lemma ToLeads(s: Fs, l: seq<nat>, m: seq<nat>, target: nat)
    requires Open(s, l + m)
    ensures Leads(s, l + m, PatchTo(s, m, target), l) && SameList(s.code, PatchTo(s, m, target).code, l)
  {
    if target == |s.code| { HereLeads(s, l, m); } else { BackLeads(s, l, m, target); }
  }

  lemma BackLeads(s: Fs, l: seq<nat>, m: seq<nat>, target: nat)
    requires Open(s, l + m)
    ensures var t := s.(code := PatchList(s.code, m, target, None, target)); Leads(s, l + m, t, l) && SameList(s.code, t.code, l)
  {
    hide PatchList, Patched, Fits, Paired, ListOk, Grown, Waiting;
    var t := s.(code := PatchList(s.code, m, target, None, target));
    BackParts(s, l, m);
    PatchListSpec(s.code, m, target, None, target);
    BackKept(s, l, m, t, target);
    PatchedGrown(s, l, m, t, target);
  }

  lemma BackParts(s: Fs, l: seq<nat>, m: seq<nat>)
    requires Open(s, l + m)
    ensures ListOk(s.code, l) && ListOk(s.code, m) && ListOk(s.code, s.jpc) && Apart(l, m) && Apart(s.jpc, m) && Apart(l, s.jpc) && Paired(s.code)
  {
    hide Paired;
    SplitList(s.code, l, m);
    assert forall j <- l :: j in l + m;
    assert forall j <- m :: j in l + m;
  }

  lemma BackKept(s: Fs, l: seq<nat>, m: seq<nat>, t: Fs, target: nat)
    requires ListOk(s.code, l) && ListOk(s.code, m) && ListOk(s.code, s.jpc) && Apart(l, m) && Apart(s.jpc, m) && Paired(s.code)
    requires Patched(s.code, t.code, m, target, None, target)
    ensures Paired(t.code) && ListOk(t.code, s.jpc) && SameList(s.code, t.code, l)
  {
    PatchedPaired(s.code, t.code, m, target, None, target);
    PatchedApart(s.code, t.code, m, target, None, target, l);
    PatchedApart(s.code, t.code, m, target, None, target, s.jpc);
    hide Patched, Paired;
  }

  lemma PatchedGrown(s: Fs, l: seq<nat>, m: seq<nat>, t: Fs, target: nat)
    requires ListOk(s.code, m) && Patched(s.code, t.code, m, target, None, target) && t.jpc == s.jpc
    ensures Grown(s.code, Waiting(s, l + m), t.code, Waiting(t, l))
  {
    PatchedFits(s.code, t.code, m, target, None, target);
    hide Fits;
    WaitingIs(s, l + m);
    WaitingIs(t, l);
    forall i: nat | i < |s.code| && i !in Waiting(s, l + m) && !(i + 1 in Waiting(s, l + m) && s.code[i].TestSet?)
      ensures t.code[i] == s.code[i]
    {
      assert i !in l + m && (i + 1 in m ==> i + 1 in l + m);
    }
  }

  // ---- All statements -----------------------------------------------------

  /** After a statement that was compiled with break list `l`: the lists are in
      order, and the break list has only grown. */
  ghost predicate StatDone(s: Fs, l: seq<nat>, t: Fs, m: seq<nat>) {
    Leads(s, l, t, m) && l <= m && SameList(s.code, t.code, l)
  }

  lemma OpenSelf(s: Fs, l: seq<nat>)
    requires Open(s, l)
    ensures SameList(s.code, s.code, l)
  {}

  lemma SamePart(a: seq<Instr>, b: seq<Instr>, l: seq<nat>, m: seq<nat>)
    requires SameList(a, b, l + m)
    ensures SameList(a, b, l) && SameList(a, b, m)
  {
    SplitList(a, l, m);
    SplitList(b, l, m);
    assert forall j <- l :: j in l + m;
    assert forall j <- m :: j in l + m;
  }

  lemma SamePrefix(a: seq<Instr>, b: seq<Instr>, l: seq<nat>, m: seq<nat>)
    requires SameList(a, b, m) && l <= m
    ensures SameList(a, b, l)
  {
    assert m == l + m[|l|..];
    SamePart(a, b, l, m[|l|..]);
  }

  lemma OpenLess(s: Fs, l: seq<nat>, m: seq<nat>)
    requires Open(s, l + m)
    ensures Open(s, l) && Open(s, m) && Open(s, []) && Apart(l, m) && Apart(m, l)
  {
    SplitList(s.code, l, m);
    assert forall j <- l :: j in l + m;
    assert forall j <- m :: j in l + m;
  }

  lemma OpenNone(s: Fs, l: seq<nat>)
    requires Open(s, l)
    ensures Open(s, [])
  {}

  lemma LeadsOpen(s: Fs, l: seq<nat>, t: Fs, m: seq<nat>)
    requires Leads(s, l, t, m)
    ensures Open(t, m) && Open(t, [])
  {}

  lemma SettleLeads(s: Fs, l: seq<nat>, t: Fs, m: seq<nat>, n: nat)
    requires Leads(s, l, t, m)
    ensures Leads(s, l, Settle(t, n), m)
  {
    assert Waiting(Settle(t, n), m) == Waiting(t, m);
  }

  /** Code that has no list of its own before it. */
  lemma FreshBeside(s: Fs, t: Fs, n: seq<nat>, m: seq<nat>)
    requires Open(s, m) && Leads(s, [], t, n)
    ensures Leads(s, m, t, m + n) && SameList(s.code, t.code, m) && Apart(m, n)
  {
    hide Leads;
    OpenNone(s, m);
    LeadsBeside(s, [], t, n, m);
    assert m + [] == m;
  }

  /** Whatever is compiled, the lists of waiting jumps are lists of distinct
      unfixed jumps that share none, and nothing but waiting jumps is changed. */
  lemma {:induction false} StatGood(s: Fs, l: seq<nat>, st: Stat)
    requires Open(s, l) && Scoped(st, s.nactvar)
    ensures var (t, m) := GenStat(s, l, st); StatDone(s, l, t, m) && t.nactvar == s.nactvar + Declared(st)
    decreases st, 0
  {
    hide Open, Leads, LocalCode, AssignCode, Cond, PatchTo, SameList, Jump;
    match st
    case SSkip => LeadsSelf(s, l); OpenSelf(s, l);
    case SSeq(a, b) =>
      StatGood(s, l, a);
      var (t, m) := GenStat(s, l, a);
      LeadsOpen(s, l, t, m);
      StatGood(t, m, b);
      var (u, n) := GenStat(t, m, b);
      LeadsTrans(s, l, t, m, u, n);
      SamePrefix(t.code, u.code, l, m);
      SameListTrans(s.code, t.code, u.code, l);
    case SLocal(e) =>
      OpenNone(s, l);
      LocalLeads(s, e);
      FreshBeside(s, LocalCode(s, e), [], l);
      assert l + [] == l;
    case SAssign(r, e) =>
      OpenNone(s, l);
      AssignLeads(s, r, e);
      FreshBeside(s, AssignCode(s, r, e), [], l);
      assert l + [] == l;
    case SDo(body) => BlockGood(s, l, body);
    case SIf(c, body, rest) =>
      CondBeside(s, l, c);
      var (s1, exit) := Cond(s, c);
      BlockBeside(s1, l, body, exit);
      var (s2, m) := GenBlock(s1, l, body);
      LeadsTrans(s, l, s1, l + exit, s2, m + exit);
      assert m + exit == m + ([] + exit);
      LeadsOpen(s, l, s2, m + exit);
      RestGood(s2, m, [], exit, rest);
      var (t, n) := GenRest(s2, m, [], exit, rest);
      LeadsTrans(s, l, s2, m + exit, t, n);
      SameListTrans(s.code, s1.code, s2.code, l);
      SamePrefix(s2.code, t.code, l, m);
      SameListTrans(s.code, s2.code, t.code, l);
    case SWhile(c, body) =>
      CondBeside(s, l, c);
      var (s1, exit) := Cond(s, c);
      OpenNone(s1, l + exit);
      StatGood(s1, [], body);
      WhileEnd(s, l, c, body);
    case SRepeat(body, c) =>
      OpenNone(s, l);
      StatGood(s, [], body);
      RepeatEnd(s, l, body, c);
    case SBreak => JumpLeads(s, l);
  }

  lemma {:induction false} BlockGood(s: Fs, l: seq<nat>, st: Stat)
    requires Open(s, l) && Scoped(st, s.nactvar)
    ensures var (t, m) := GenBlock(s, l, st); StatDone(s, l, t, m) && t.nactvar == s.nactvar
    decreases st, 1
  {
    hide Open, Leads, GenStat, SameList;
    StatGood(s, l, st);
    var (t, m) := GenStat(s, l, st);
    SettleLeads(s, l, t, m, s.nactvar);
  }

  /** A block, while the jumps of `held` wait. */
  lemma {:induction false} BlockBeside(s: Fs, l: seq<nat>, st: Stat, held: seq<nat>)
    requires Open(s, l + held) && Scoped(st, s.nactvar)
    ensures var (t, m) := GenBlock(s, l, st);
            && Leads(s, l, t, m) && Leads(s, l + held, t, m + held) && SameList(s.code, t.code, held)
            && l <= m && SameList(s.code, t.code, l) && t.nactvar == s.nactvar && Open(t, m + held)
    decreases st, 2
  {
    hide Open, Leads, GenBlock, SameList;
    OpenLess(s, l, held);
    BlockGood(s, l, st);
    var (t, m) := GenBlock(s, l, st);
    LeadsBeside(s, l, t, m, held);
    OpenPerm(s, l + held, held + l);
    LeadsPerm(s, held + l, l + held, t, held + m, m + held);
    LeadsOpen(s, l + held, t, m + held);
  }

  lemma CondBeside(s: Fs, l: seq<nat>, c: Expr)
    requires Open(s, l) && LocalsBelow(c, s.nactvar)
    ensures var (t, exit) := Cond(s, c);
            Leads(s, l, t, l + exit) && Leads(s, [], t, exit) && SameList(s.code, t.code, l) && t.nactvar == s.nactvar && Open(t, l + exit)
  {
    hide Open, Leads, Cond, SameList;
    OpenNone(s, l);
    CondLeads(s, c);
    var (t, exit) := Cond(s, c);
    FreshBeside(s, t, exit, l);
    LeadsOpen(s, l, t, l + exit);
  }

  lemma {:induction false} RestGood(s: Fs, l: seq<nat>, escape: seq<nat>, flist: seq<nat>, rest: Rest)
    requires Open(s, l + (escape + flist)) && ScopedRest(rest, s.nactvar)
    ensures var (t, m) := GenRest(s, l, escape, flist, rest);
            Leads(s, l + (escape + flist), t, m) && l <= m && SameList(s.code, t.code, l) && t.nactvar == s.nactvar
    decreases rest, 3
  {
    hide Open, Leads, Cond, SameList, Jump;
    match rest
    case REnd => HereLeads(s, l, escape + flist);
    case RElse(body) =>
      var (s2, j) := Jump(s);
      var s3 := PatchToHere(s2, flist);
      ElseStep(s, l, escape, flist);
      BlockBeside(s3, l, body, escape + j);
      var (s4, m) := GenBlock(s3, l, body);
      LeadsTrans(s, l + (escape + flist), s3, l + (escape + j), s4, m + (escape + j));
      LeadsOpen(s, l + (escape + flist), s4, m + (escape + j));
      HereLeads(s4, m, escape + j);
      LeadsTrans(s, l + (escape + flist), s4, m + (escape + j), PatchToHere(s4, escape + j), m);
      SamePart(s.code, s3.code, l, escape);
      SameListTrans(s.code, s3.code, s4.code, l);
      SamePrefix(s4.code, PatchToHere(s4, escape + j).code, l, m);
      SameListTrans(s.code, s4.code, PatchToHere(s4, escape + j).code, l);
    case RElseIf(c, body, more) =>
      var (s2, j) := Jump(s);
      var s3 := PatchToHere(s2, flist);
      ElseStep(s, l, escape, flist);
      var held := escape + j;
      CondBeside(s3, l + held, c);
      var (s4, exit) := Cond(s3, c);
      assert (l + held) + exit == l + (held + exit);
      LeadsTrans(s, l + (escape + flist), s3, l + held, s4, l + (held + exit));
      BlockBeside(s4, l, body, held + exit);
      var (s5, m) := GenBlock(s4, l, body);
      LeadsTrans(s, l + (escape + flist), s4, l + (held + exit), s5, m + (held + exit));
      LeadsOpen(s, l + (escape + flist), s5, m + (held + exit));
      RestGood(s5, m, held, exit, more);
      var (t, n) := GenRest(s5, m, held, exit, more);
      LeadsTrans(s, l + (escape + flist), s5, m + (held + exit), t, n);
      SamePart(s.code, s3.code, l, escape);
      SamePart(s3.code, s4.code, l, held);
      SameListTrans(s.code, s3.code, s4.code, l);
      SameListTrans(s.code, s4.code, s5.code, l);
      SamePrefix(s5.code, t.code, l, m);
      SameListTrans(s.code, s5.code, t.code, l);
  }

  /** Leaving a part of a conditional, and coming to the next. */
  lemma ElseStep(s: Fs, l: seq<nat>, escape: seq<nat>, flist: seq<nat>)
    requires Open(s, l + (escape + flist))
    ensures var (t, j) := Jump(s); var u := PatchToHere(t, flist);
            && Leads(s, l + (escape + flist), u, l + (escape + j)) && Open(u, l + (escape + j)) && u.nactvar == s.nactvar
            && Open(t, (l + (escape + j)) + flist) && SameList(s.code, t.code, l + escape) && SameList(s.code, t.code, flist)
            && Leads(s, l + (escape + flist), t, (l + (escape + j)) + flist)
  {
    hide Open, Leads, Jump, SameList;
    var (t, j) := Jump(s);
    var a := l + (escape + flist);
    JumpLeads(s, a);
    assert a == (l + escape) + flist;
    SamePart(s.code, t.code, l + escape, flist);
    var b := (l + (escape + j)) + flist;
    LeadsPerm(s, a, a, t, a + j, b);
    LeadsOpen(s, a, t, b);
    HereLeads(t, l + (escape + j), flist);
    LeadsTrans(s, a, t, b, PatchToHere(t, flist), l + (escape + j));
    LeadsOpen(s, a, PatchToHere(t, flist), l + (escape + j));
  }

  lemma WhileForm(s: Fs, l: seq<nat>, c: Expr, body: Stat)
    ensures var (s1, exit) := Cond(s, c); var (s2, breaks) := GenBlock(s1, [], body); var (s3, back) := Jump(s2);
            GenStat(s, l, SWhile(c, body)) == (PatchToHere(PatchToHere(PatchTo(s3, back, |s.code|), breaks), exit), l)
  {
    hide Jump, Cond, PatchTo, GenBlock;
  }

  lemma PatchToKeeps(s: Fs, l: seq<nat>, target: nat)
    ensures PatchTo(s, l, target).nactvar == s.nactvar
  {
    hide PatchList;
  }

  /** The states of a `while` loop: the body, the jump back, what leaves. */
  lemma WhileEnd(s: Fs, l: seq<nat>, c: Expr, body: Stat)
    requires Open(s, l) && LocalsBelow(c, s.nactvar)
    requires var (s1, _) := Cond(s, c); var (t, m) := GenStat(s1, [], body); Leads(s1, [], t, m)
    ensures var (s1, exit) := Cond(s, c); var (s2, breaks) := GenBlock(s1, [], body); var (s3, back) := Jump(s2);
            var s4 := PatchTo(s3, back, |s.code|); var (t, m) := GenStat(s, l, SWhile(c, body));
            && Leads(s1, l + exit, s2, l + exit + breaks) && Leads(s2, l + exit + breaks, s3, l + exit + breaks + back)
            && Leads(s3, l + exit + breaks + back, s4, l + exit + breaks) && Open(s4, l + exit + breaks)
            && Leads(s4, l + exit + breaks, PatchToHere(s4, breaks), l + exit) && Leads(PatchToHere(s4, breaks), l + exit, t, l)
            && SameList(s1.code, s2.code, l + exit) && SameList(s2.code, s3.code, l + exit + breaks) && SameList(s3.code, s4.code, l + exit + breaks)
            && Leads(s, l, t, m) && m == l && SameList(s.code, t.code, l) && t.nactvar == s.nactvar
  {
    hide Open, Leads, Cond, Jump, SameList, Scoped, PatchTo, GenStat, Waiting;
    WhileForm(s, l, c, body);
    CondBeside(s, l, c);
    var (s1, exit) := Cond(s, c);
    var a := l + exit;
    var (b, breaks) := GenStat(s1, [], body);
    SettleLeads(s1, [], b, breaks, s1.nactvar);
    var s2 := Settle(b, s1.nactvar);
    FreshBeside(s1, s2, breaks, a);
    LeadsTrans(s, l, s1, a, s2, a + breaks);
    LeadsOpen(s, l, s2, a + breaks);
    JumpLeads(s2, a + breaks);
    var (s3, back) := Jump(s2);
    LeadsTrans(s, l, s2, a + breaks, s3, a + breaks + back);
    LeadsOpen(s, l, s3, a + breaks + back);
    ToLeads(s3, a + breaks, back, |s.code|);
    var s4 := PatchTo(s3, back, |s.code|);
    PatchToKeeps(s3, back, |s.code|);
    LeadsTrans(s, l, s3, a + breaks + back, s4, a + breaks);
    LeadsOpen(s, l, s4, a + breaks);
    HereLeads(s4, a, breaks);
    var s5 := PatchToHere(s4, breaks);
    LeadsTrans(s, l, s4, a + breaks, s5, a);
    LeadsOpen(s, l, s5, a);
    HereLeads(s5, l, exit);
    LeadsTrans(s, l, s5, a, PatchToHere(s5, exit), l);
    SamePart(s1.code, s2.code, l, exit);
    SameListTrans(s.code, s1.code, s2.code, l);
    SameListTrans(s2.code, s3.code, s4.code, a + breaks);
    SamePart(s2.code, s4.code, a, breaks);
    SamePart(s2.code, s4.code, l, exit);
    SameListTrans(s.code, s2.code, s4.code, l);
  }

  /** The states of a `repeat` loop. */
  lemma RepeatEnd(s: Fs, l: seq<nat>, body: Stat, c: Expr)
    requires Open(s, l)
    requires var (s1, breaks) := GenStat(s, [], body); Leads(s, [], s1, breaks) && LocalsBelow(c, s1.nactvar)
    ensures var (s1, breaks) := GenStat(s, [], body); var (u, exit) := Cond(s1, c); var s2 := Settle(u, s.nactvar);
            var s3 := PatchTo(s2, exit, |s.code|); var (t, m) := GenStat(s, l, SRepeat(body, c));
            && Leads(s, l, s1, l + breaks) && Leads(s1, l + breaks, u, l + breaks + exit) && Leads(u, l + breaks + exit, s2, l + breaks + exit)
            && Leads(s2, l + breaks + exit, s3, l + breaks) && Leads(s3, l + breaks, t, l) && Open(s2, l + breaks + exit) && Open(s3, l + breaks)
            && SameList(s1.code, u.code, l + breaks) && SameList(s2.code, s3.code, l + breaks)
            && Leads(s, l, t, m) && m == l && SameList(s.code, t.code, l) && t.nactvar == s.nactvar
  {
    hide Open, Leads, Cond, SameList;
    var (s1, breaks) := GenStat(s, [], body);
    FreshBeside(s, s1, breaks, l);
    var a := l + breaks;
    LeadsOpen(s, l, s1, a);
    CondBeside(s1, a, c);
    var (u, exit) := Cond(s1, c);
    LeadsSelf(u, a + exit);
    SettleLeads(u, a + exit, u, a + exit, s.nactvar);
    var s2 := Settle(u, s.nactvar);
    LeadsTrans(s, l, s1, a, u, a + exit);
    LeadsTrans(s, l, u, a + exit, s2, a + exit);
    LeadsOpen(s, l, s2, a + exit);
    ToLeads(s2, a, exit, |s.code|);
    var s3 := PatchTo(s2, exit, |s.code|);
    LeadsTrans(s, l, s2, a + exit, s3, a);
    LeadsOpen(s, l, s3, a);
    HereLeads(s3, l, breaks);
    LeadsTrans(s, l, s3, a, PatchToHere(s3, breaks), l);
    SamePart(s1.code, u.code, l, breaks);
    SamePart(s2.code, s3.code, l, breaks);
    SameListTrans(s.code, s1.code, u.code, l);
    SameListTrans(s.code, u.code, s3.code, l);
  }

  // ---- What leaves a loop -------------------------------------------------

  /** Jump `j` has been fixed: it goes to `dest` and delivers nothing. */
  predicate GoesTo(code: seq<Instr>, j: nat, dest: int) {
    j < |code| && code[j] == Jmp(dest - (j + 1)) && !Valued(code, j)
  }

  lemma EmitGoes(s: Fs, l: seq<nat>, i: Instr, j: nat)
    requires Open(s, l) && j in s.jpc
    ensures GoesTo(Emit(s, i).code, j, |s.code|)
  {
    EmitSpec(s, i);
    var r := Emit(s, i).code[..|s.code|];
    assert Pending(s.code, j);
    assert r[j] == PatchedJump(s.code, j, |s.code|, |s.code|);
    if j >= 1 { assert r[j - 1] == Emit(s, i).code[j - 1] && s.code[j - 1] == s.code[j - 1]; }
  }

  lemma BackGoes(s: Fs, l: seq<nat>, m: seq<nat>, target: nat, j: nat)
    requires Open(s, l + m) && target != |s.code| && j in m
    ensures GoesTo(PatchTo(s, m, target).code, j, target) && j !in Waiting(PatchTo(s, m, target), l)
  {
    SplitList(s.code, l, m);
    PatchListSpec(s.code, m, target, None, target);
    var r := PatchTo(s, m, target).code;
    assert Pending(s.code, j) && j in l + m;
    assert r[j] == PatchedJump(s.code, j, target, target);
    if j >= 1 { assert r[j - 1] == r[j - 1]; }
  }

  /** A fixed jump that waits for nothing stays. */
  lemma GoesOn(s: Fs, l: seq<nat>, t: Fs, m: seq<nat>, j: nat, dest: int)
    requires Open(s, l) && Leads(s, l, t, m) && GoesTo(s.code, j, dest) && j !in Waiting(s, l)
    ensures GoesTo(t.code, j, dest)
  {
    assert s.code[j] == t.code[j];
    if j >= 1 {
      var i := j - 1;
      WaitingPending(s, l);
      if i in Waiting(s, l) { assert Pending(s.code, i) && t.code[i].Jmp?; } else { assert t.code[i] == s.code[i]; }
    }
  }

  lemma EmitLeads(s: Fs, l: seq<nat>, i: Instr)
    requires Open(s, l) && !i.TestSet? && !i.Jmp?
    ensures Leads(s, l, Emit(s, i), l) && SameList(s.code, Emit(s, i).code, l)
  {
    hide Paired, Fits;
    EmitGood(s, Hold(l), i, VTrue);
    SinceGrown(s, Hold(l), Emit(s, i), Hold(l));
  }

  /** Once the instruction after a `while` loop is there, exactly the jumps of its
      `break`s and of its condition go to it; the jumps of the list `back` go to the
      condition; those of the loop around wait on; and of the code of condition and
      body nothing else has changed. */
  lemma LoopExits(s: Fs, l: seq<nat>, c: Expr, body: Stat, i: Instr)
    requires Open(s, l) && Scoped(SWhile(c, body), s.nactvar) && !i.TestSet? && !i.Jmp?
    ensures var (s1, exit) := Cond(s, c); var (s2, breaks) := GenBlock(s1, [], body); var back := Jump(s2).1;
            var t := GenStat(s, l, SWhile(c, body)).0; var code := Emit(t, i).code;
            && (forall j <- breaks + exit :: GoesTo(code, j, |t.code|))
            && (forall j <- back :: GoesTo(code, j, |s.code|))
            && SameList(s2.code, code, l)
            && Grown(s2.code, Waiting(s2, l + exit + breaks), code, Waiting(Emit(t, i), l))
  {
    hide Open, Leads, Cond, SameList, Emit, GoesTo, Waiting, Jump, PatchTo, Grown;
    CondBeside(s, l, c);
    var (s1, exit) := Cond(s, c);
    OpenNone(s1, l + exit);
    StatGood(s1, [], body);
    WhileEnd(s, l, c, body);
    hide GenStat;
    var (s2, breaks) := GenBlock(s1, [], body);
    var (s3, back) := Jump(s2);
    var a := l + exit + breaks;
    var s4 := PatchTo(s3, back, |s.code|);
    var s5 := PatchToHere(s4, breaks);
    var t := PatchToHere(s5, exit);
    assert GenStat(s, l, SWhile(c, body)).0 == t by { WhileForm(s, l, c, body); }
    LeadsOpen(s1, l + exit, s2, a);
    LeadsOpen(s2, a, s3, a + back);
    LeadsOpen(s4, a, s5, l + exit);
    LeadsOpen(s5, l + exit, t, l);
    EmitLeads(t, l, i);
    var u := Emit(t, i);
    LeadsTrans(s5, l + exit, t, l, u, l);
    LeadsTrans(s4, a, s5, l + exit, u, l);
    LeadsTrans(s3, a + back, s4, a, u, l);
    LeadsTrans(s2, a, s3, a + back, u, l);
    LeadsGrown(s2, a, u, l);
    forall j <- breaks + exit ensures GoesTo(u.code, j, |t.code|) { EmitGoes(t, l, i, j); }
    LeadsLonger(s, l, s1, l + exit);
    LeadsLonger(s1, l + exit, s2, a);
    JumpLonger(s2);
    forall j <- back ensures GoesTo(u.code, j, |s.code|) {
      BackGoes(s3, a, back, |s.code|, j);
      GoesOn(s4, a, u, l, j, |s.code|);
    }
    SameListTrans(s2.code, s3.code, s4.code, a);
    assert a == l + (exit + breaks);
    SamePart(s2.code, s4.code, l, exit + breaks);
    SameListTrans(s2.code, t.code, u.code, l);
  }

  lemma LeadsGrown(s: Fs, l: seq<nat>, t: Fs, m: seq<nat>)
    requires Leads(s, l, t, m)
    ensures Grown(s.code, Waiting(s, l), t.code, Waiting(t, m))
  {}

  lemma LeadsLonger(s: Fs, l: seq<nat>, t: Fs, m: seq<nat>)
    requires Leads(s, l, t, m)
    ensures |s.code| <= |t.code|
  {}

  lemma JumpLonger(s: Fs)
    ensures |Jump(s).0.code| == |s.code| + 1
  {}
}
