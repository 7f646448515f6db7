/** What the parser's procedures compile is accepted by the bytecode checker: the code
    of any statement, with the RETURN that ends a function. */
module CodeAccepted {
  import opened CodeVm
  import opened CodeTree
  import opened CodeGen
  import opened CodeLists
  import opened CodeState
  import opened CodeExits
  import opened CodeOperand
  import opened CodeTests
  import opened CodeCorrect
  import opened CodeTheorems
  import opened CodeBlocks
  import opened CodeFine
  import opened CodeWords
  import W = ChunkWords
  import Checker = ChunkChecker
  import Control = ChunkControl
  import Operands = ChunkOperands

  // ---- Statements ---------------------------------------------------------

  /** With `m` active locals, `n` registers are enough. */
  predicate RegistersDo(st: Stat, m: nat, n: nat) {
    match st
    case SSkip => true
    case SBreak => true
    case SSeq(a, b) => RegistersDo(a, m, n) && RegistersDo(b, m + Declared(a), n)
    case SLocal(e) => m + Need(e) <= n
    case SAssign(_, e) => m + Need(e) <= n
    case SDo(body) => RegistersDo(body, m, n)
    case SIf(c, body, rest) => m + Need(c) <= n && RegistersDo(body, m, n) && RegistersDoRest(rest, m, n)
    case SWhile(c, body) => m + Need(c) <= n && RegistersDo(body, m, n)
    case SRepeat(body, c) => RegistersDo(body, m, n) && m + Declared(body) + Need(c) <= n
  }

  predicate RegistersDoRest(rest: Rest, m: nat, n: nat) {
    match rest
    case REnd => true
    case RElse(body) => RegistersDo(body, m, n)
    case RElseIf(c, body, more) => m + Need(c) <= n && RegistersDo(body, m, n) && RegistersDoRest(more, m, n)
  }

  predicate NamesIn(st: Stat, k: seq<Value>) {
    match st
    case SSkip => true
    case SBreak => true
    case SSeq(a, b) => NamesIn(a, k) && NamesIn(b, k)
    case SLocal(e) => GlobalsIn(e, k)
    case SAssign(_, e) => GlobalsIn(e, k)
    case SDo(body) => NamesIn(body, k)
    case SIf(c, body, rest) => GlobalsIn(c, k) && NamesIn(body, k) && NamesInRest(rest, k)
    case SWhile(c, body) => GlobalsIn(c, k) && NamesIn(body, k)
    case SRepeat(body, c) => NamesIn(body, k) && GlobalsIn(c, k)
  }

  predicate NamesInRest(rest: Rest, k: seq<Value>) {
    match rest
    case REnd => true
    case RElse(body) => NamesIn(body, k)
    case RElseIf(c, body, more) => GlobalsIn(c, k) && NamesIn(body, k) && NamesInRest(more, k)
  }

  lemma {:induction false} NamesMore(st: Stat, k: seq<Value>, k': seq<Value>)
    requires NamesIn(st, k) && k <= k'
    ensures NamesIn(st, k')
    decreases st
  {
    match st
    case SSeq(a, b) => NamesMore(a, k, k'); NamesMore(b, k, k');
    case SLocal(e) => GlobalsMore(e, k, k');
    case SAssign(_, e) => GlobalsMore(e, k, k');
    case SDo(body) => NamesMore(body, k, k');
    case SIf(c, body, rest) => GlobalsMore(c, k, k'); NamesMore(body, k, k'); NamesMoreRest(rest, k, k');
    case SWhile(c, body) => GlobalsMore(c, k, k'); NamesMore(body, k, k');
    case SRepeat(body, c) => NamesMore(body, k, k'); GlobalsMore(c, k, k');
    case _ =>
  }

  lemma {:induction false} NamesMoreRest(rest: Rest, k: seq<Value>, k': seq<Value>)
    requires NamesInRest(rest, k) && k <= k'
    ensures NamesInRest(rest, k')
    decreases rest
  {
    match rest
    case REnd =>
    case RElse(body) => NamesMore(body, k, k');
    case RElseIf(c, body, more) => GlobalsMore(c, k, k'); NamesMore(body, k, k'); NamesMoreRest(more, k, k');
  }

  /** The code so far is in order. */
  ghost predicate InOrder(s: Fs, n: nat) {
    Fine(s.code, |s.code|, n, s.k)
  }

  lemma OpenRoom(s: Fs, l: seq<nat>, e: Expr, n: nat)
    requires Open(s, l) && LocalsBelow(e, s.nactvar) && InOrder(s, n) && GlobalsIn(e, s.k) && s.nactvar + Need(e) <= n
    ensures Room(s, e, n) && Ready(s) && s.freereg == s.nactvar
  {}

  lemma LocalFine(s: Fs, e: Expr, n: nat)
    requires Open(s, []) && LocalsBelow(e, s.nactvar) && InOrder(s, n) && GlobalsIn(e, s.k) && s.nactvar + Need(e) <= n
    ensures var t := LocalCode(s, e); InOrder(t, n) && s.k <= t.k
  {
    hide Paired, ListOk, Since, Fits, Open, Good, ShapeIs, Compiled, ExpToReg, Fine, ValueCode;
    OpenRoom(s, [], e, n);
    ValueForm(s, e);
    GenGood(s, e);
    GenFine(s, e, n);
    var (t, f) := Compiled(s, e);
    ExpToRegFine(t, f, s.freereg, n);
    ExpToRegReg(t, f, s.freereg, s.freereg + 1);
  }

  lemma AssignFine(s: Fs, r: nat, e: Expr, n: nat)
    requires Open(s, []) && LocalsBelow(e, s.nactvar) && r < s.nactvar && InOrder(s, n) && GlobalsIn(e, s.k) && s.nactvar + Need(e) <= n
    ensures var t := AssignCode(s, r, e); InOrder(t, n) && s.k <= t.k
  {
    hide Paired, ListOk, Since, Fits, Open, Good, ShapeIs, Compiled, ExpToReg, Fine, AssignCode;
    OpenRoom(s, [], e, n);
    AssignForm(s, r, e);
    GenGood(s, e);
    GenFine(s, e, n);
    var (t, f) := Compiled(s, e);
    ExpToRegFine(t, f, r, n);
  }

  lemma CondFine(s: Fs, e: Expr, n: nat)
    requires Open(s, []) && LocalsBelow(e, s.nactvar) && InOrder(s, n) && GlobalsIn(e, s.k) && s.nactvar + Need(e) <= n
    ensures var t := Cond(s, e).0; InOrder(t, n) && s.k <= t.k
  {
    hide Paired, ListOk, Since, Fits, Open, Good, ShapeIs, Compiled, GoIf, Fine, Cond;
    OpenRoom(s, [], e, n);
    CondForm(s, e);
    CondGood(s, e);
    GenFine(s, e, n);
    var (t, f) := Compiled(s, e);
    var h := CondExp(f);
    assert FineAt(t, h, n);
    GoIfFine(t, h, true, CondShape(e), n);
  }

  lemma PatchToFine(s: Fs, l: seq<nat>, target: nat, n: nat)
    requires InOrder(s, n) && ListOk(s.code, l) && target <= |s.code|
    ensures var t := PatchTo(s, l, target); InOrder(t, n) && t.k == s.k
  {
    hide Fine;
    if target != |s.code| {
      PatchListSpec(s.code, l, target, None, target);
      FinePatched(s.code, PatchList(s.code, l, target, None, target), l, target, None, target, |s.code|, n, s.k);
    }
  }

  /** The statement can be compiled here with `n` registers. */
  ghost predicate Compiles(s: Fs, l: seq<nat>, st: Stat, n: nat) {
    Open(s, l) && Scoped(st, s.nactvar) && InOrder(s, n) && NamesIn(st, s.k) && RegistersDo(st, s.nactvar, n)
  }

  lemma {:induction false} StatFine(s: Fs, l: seq<nat>, st: Stat, n: nat)
    requires Compiles(s, l, st, n)
    ensures var t := GenStat(s, l, st).0; InOrder(t, n) && s.k <= t.k
    decreases st, 0
  {
    hide Open, Leads, LocalCode, AssignCode, Cond, PatchTo, SameList, Jump, Fine, ListOk, InOrder;
    match st
    case SSkip =>
    case SSeq(a, b) =>
      StatFine(s, l, a, n);
      StatGood(s, l, a);
      var (t, m) := GenStat(s, l, a);
      LeadsOpen(s, l, t, m);
      NamesMore(b, s.k, t.k);
      StatFine(t, m, b, n);
    case SLocal(e) => OpenNone(s, l); LocalFine(s, e, n);
    case SAssign(r, e) => OpenNone(s, l); AssignFine(s, r, e, n);
    case SDo(body) => BlockFine(s, l, body, n);
    case SIf(c, body, rest) =>
      OpenNone(s, l);
      CondFine(s, c, n);
      CondBeside(s, l, c);
      var (s1, exit) := Cond(s, c);
      OpenLess(s1, l, exit);
      NamesMore(body, s.k, s1.k);
      BlockFine(s1, l, body, n);
      BlockBeside(s1, l, body, exit);
      var (s2, m) := GenBlock(s1, l, body);
      NamesMoreRest(rest, s.k, s2.k);
      assert m + exit == m + ([] + exit);
      RestFine(s2, m, [], exit, rest, n);
    case SWhile(c, body) => WhileFine(s, l, c, body, n);
    case SRepeat(body, c) => RepeatFine(s, l, body, c, n);
    case SBreak => JumpFine(s, n);
  }

  lemma JumpFine(s: Fs, n: nat)
    requires InOrder(s, n)
    ensures var t := Jump(s).0; InOrder(t, n) && t.k == s.k
  {
    hide Fine;
    FineJump(s, n);
  }

  lemma HereFine(s: Fs, l: seq<nat>, n: nat)
    requires InOrder(s, n)
    ensures InOrder(PatchToHere(s, l), n)
  {}

  lemma {:induction false} BlockFine(s: Fs, l: seq<nat>, st: Stat, n: nat)
    requires Compiles(s, l, st, n)
    ensures var t := GenBlock(s, l, st).0; InOrder(t, n) && s.k <= t.k
    decreases st, 1
  {
    hide GenStat, Fine;
    StatFine(s, l, st, n);
  }

  lemma {:induction false} WhileFine(s: Fs, l: seq<nat>, c: Expr, body: Stat, n: nat)
    requires Compiles(s, l, SWhile(c, body), n)
    ensures var t := GenStat(s, l, SWhile(c, body)).0; InOrder(t, n) && s.k <= t.k
    decreases body, 2
  {
    hide Open, Leads, Cond, PatchTo, SameList, Jump, Fine, ListOk, InOrder, GenBlock, GenStat;
    WhileForm(s, l, c, body);
    OpenNone(s, l);
    CondFine(s, c, n);
    CondBeside(s, l, c);
    var (s1, exit) := Cond(s, c);
    OpenNone(s1, l + exit);
    NamesMore(body, s.k, s1.k);
    BlockFine(s1, [], body, n);
    BlockGood(s1, [], body);
    var (s2, breaks) := GenBlock(s1, [], body);
    LeadsOpen(s1, [], s2, breaks);
    JumpFine(s2, n);
    JumpLeads(s2, []);
    var (s3, back) := Jump(s2);
    WhileLonger(s, l, c, body);
    PatchToFine(s3, back, |s.code|, n);
    var s4 := PatchTo(s3, back, |s.code|);
    HereFine(s4, breaks, n);
    HereFine(PatchToHere(s4, breaks), exit, n);
  }

  lemma WhileLonger(s: Fs, l: seq<nat>, c: Expr, body: Stat)
    requires Open(s, l) && LocalsBelow(c, s.nactvar) && Scoped(body, s.nactvar)
    ensures var s1 := Cond(s, c).0; var s2 := GenBlock(s1, [], body).0; |s.code| <= |Jump(s2).0.code|
  {
    hide Open, Leads, Cond, GenBlock;
    CondBeside(s, l, c);
    var (s1, exit) := Cond(s, c);
    OpenNone(s1, l + exit);
    BlockGood(s1, [], body);
    var (s2, breaks) := GenBlock(s1, [], body);
    LeadsLonger(s, l, s1, l + exit);
    LeadsLonger(s1, [], s2, breaks);
  }

  lemma {:induction false} RepeatFine(s: Fs, l: seq<nat>, body: Stat, c: Expr, n: nat)
    requires Compiles(s, l, SRepeat(body, c), n)
    ensures var t := GenStat(s, l, SRepeat(body, c)).0; InOrder(t, n) && s.k <= t.k
    decreases body, 2
  {
    hide Open, Leads, Cond, PatchTo, SameList, Fine, ListOk, InOrder, GenStat;
    RepeatForm(s, l, body, c);
    OpenNone(s, l);
    StatFine(s, [], body, n);
    StatGood(s, [], body);
    var (s1, breaks) := GenStat(s, [], body);
    LeadsOpen(s, [], s1, breaks);
    GlobalsMore(c, s.k, s1.k);
    CondFine(s1, c, n);
    CondBeside(s1, [], c);
    var (s2, exit) := Cond(s1, c);
    assert [] + exit == exit;
    LeadsLonger(s, [], s1, breaks);
    LeadsLonger(s1, [], s2, exit);
    SettleFine(s2, s.nactvar, n);
    OpenLists(s2, exit);
    PatchToFine(Settle(s2, s.nactvar), exit, |s.code|, n);
    HereFine(PatchTo(Settle(s2, s.nactvar), exit, |s.code|), breaks, n);
  }

  lemma SettleFine(s: Fs, m: nat, n: nat)
    requires InOrder(s, n)
    ensures InOrder(Settle(s, m), n)
  {}

  lemma OpenLists(s: Fs, l: seq<nat>)
    requires Open(s, l)
    ensures ListOk(s.code, l) && ListOk(s.code, s.jpc)
  {}

  ghost predicate CompilesRest(s: Fs, l: seq<nat>, escape: seq<nat>, flist: seq<nat>, rest: Rest, n: nat) {
    && Open(s, l + (escape + flist)) && ScopedRest(rest, s.nactvar) && InOrder(s, n) && NamesInRest(rest, s.k)
    && RegistersDoRest(rest, s.nactvar, n)
  }

  lemma {:induction false} RestFine(s: Fs, l: seq<nat>, escape: seq<nat>, flist: seq<nat>, rest: Rest, n: nat)
    requires CompilesRest(s, l, escape, flist, rest, n)
    ensures var t := GenRest(s, l, escape, flist, rest).0; InOrder(t, n) && s.k <= t.k
    decreases rest, 3
  {
    hide Open, Leads, Cond, SameList, Jump, Fine, ListOk, InOrder, GenBlock;
    JumpFine(s, n);
    var (s1, j) := Jump(s);
    HereFine(s1, flist, n);
    var s2 := PatchToHere(s1, flist);
    var held := escape + j;
    ElseStep(s, l, escape, flist);
    OpenLess(s2, l, held);
    match rest
    case REnd => HereFine(s, escape + flist, n);
    case RElse(body) =>
      BlockFine(s2, l, body, n);
      HereFine(GenBlock(s2, l, body).0, held, n);
    case RElseIf(c, body, more) =>
      CondFine(s2, c, n);
      CondBeside(s2, l + held, c);
      var (s3, exit) := Cond(s2, c);
      assert (l + held) + exit == l + (held + exit);
      OpenLess(s3, l, held + exit);
      NamesMore(body, s.k, s3.k);
      BlockFine(s3, l, body, n);
      BlockBeside(s3, l, body, held + exit);
      var (s4, m) := GenBlock(s3, l, body);
      NamesMoreRest(more, s.k, s4.k);
      RestFine(s4, m, held, exit, more, n);
  }

  // ---- Tests of jumps that have been fixed --------------------------------

  /** A jump that could still deliver a value is one that waits. */
  ghost predicate Kept(s: Fs, l: seq<nat>) {
    forall j: nat :: Pending(s.code, j) && Valued(s.code, j) ==> j in s.jpc || j in l
  }

  lemma KeptPerm(s: Fs, l: seq<nat>, m: seq<nat>)
    requires Kept(s, l) && forall j <- l :: j in m
    ensures Kept(s, m)
  {}

  lemma KeptSince(s: Fs, l: seq<nat>, t: Fs, e: seq<nat>)
    requires Open(s, []) && Kept(s, l) && Grown(s.code, Waiting(s, []), t.code, Waiting(t, e)) && Lossless(s.code, Waiting(s, []), t.code, Waiting(t, e))
    ensures Kept(t, l + e)
  {
    WaitingIs(s, []);
    WaitingIs(t, e);
    hide Waiting;
    forall j: nat | Pending(t.code, j) && Valued(t.code, j) ensures j in t.jpc || j in l + e {
      if j !in Waiting(t, e) {
        assert Pending(s.code, j) && j !in s.jpc;
        var i := j - 1;
        assert t.code[i] == t.code[i];
        assert s.code[i].TestSet?;
      }
    }
  }

  lemma KeptJump(s: Fs, l: seq<nat>)
    requires Kept(s, l) && Ready(s)
    ensures var (t, j) := Jump(s); Kept(t, l + j)
  {
    var (t, j) := Jump(s);
    assert |s.code| in j;
    forall i: nat | Pending(t.code, i) && Valued(t.code, i) ensures i in l + j {
      if i < |s.code| { assert Pending(s.code, i) && Valued(s.code, i); }
    }
  }

  lemma KeptHere(s: Fs, l: seq<nat>, m: seq<nat>)
    requires Kept(s, l + m)
    ensures Kept(PatchToHere(s, m), l)
  {}

  lemma KeptTo(s: Fs, l: seq<nat>, m: seq<nat>, target: nat)
    requires Kept(s, l + m) && ListOk(s.code, m)
    ensures Kept(PatchTo(s, m, target), l)
  {
    var t := PatchTo(s, m, target);
    if target != |s.code| {
      PatchListSpec(s.code, m, target, None, target);
      forall j: nat | Pending(t.code, j) && Valued(t.code, j) ensures j in t.jpc || j in l {
        assert s.code[j] == s.code[j] && s.code[j - 1] == s.code[j - 1];
        assert Pending(s.code, j) && Valued(s.code, j);
      }
    }
  }

  /** `held` waits with the break list, whatever it is. */
  lemma {:induction false} StatKept(s: Fs, l: seq<nat>, st: Stat, held: seq<nat>)
    requires Open(s, l) && Scoped(st, s.nactvar) && Kept(s, held + l)
    ensures var (t, m) := GenStat(s, l, st); Kept(t, held + m)
    decreases st, 0
  {
    hide Open, Leads, LocalCode, AssignCode, Cond, PatchTo, SameList, Jump, Kept, ListOk, Grown, Lossless, Waiting;
    match st
    case SSkip =>
    case SSeq(a, b) =>
      StatKept(s, l, a, held);
      StatGood(s, l, a);
      var (t, m) := GenStat(s, l, a);
      LeadsOpen(s, l, t, m);
      StatKept(t, m, b, held);
    case SLocal(e) =>
      OpenNone(s, l);
      LocalLeads(s, e);
      LeadsGrown(s, [], LocalCode(s, e), []);
      KeptSince(s, held + l, LocalCode(s, e), []);
      assert (held + l) + [] == held + l;
    case SAssign(r, e) =>
      OpenNone(s, l);
      AssignLeads(s, r, e);
      LeadsGrown(s, [], AssignCode(s, r, e), []);
      KeptSince(s, held + l, AssignCode(s, r, e), []);
      assert (held + l) + [] == held + l;
    case SDo(body) => BlockKept(s, l, body, held);
    case SIf(c, body, rest) =>
      CondKept(s, l, c, held + l);
      var (s1, exit) := Cond(s, c);
      KeptPerm(s1, (held + l) + exit, (held + exit) + l);
      OpenLess(s1, l, exit);
      BlockKept(s1, l, body, held + exit);
      BlockBeside(s1, l, body, exit);
      var (s2, m) := GenBlock(s1, l, body);
      KeptPerm(s2, (held + exit) + m, held + (m + ([] + exit)));
      assert m + exit == m + ([] + exit);
      RestKept(s2, m, [], exit, rest, held);
    case SWhile(c, body) => WhileKept(s, l, c, body, held);
    case SRepeat(body, c) => RepeatKept(s, l, body, c, held);
    case SBreak =>
      OpenReady(s, l);
      KeptJump(s, held + l);
      assert (held + l) + Jump(s).1 == held + (l + Jump(s).1);
  }

  lemma CondKept(s: Fs, l: seq<nat>, c: Expr, all: seq<nat>)
    requires Open(s, l) && LocalsBelow(c, s.nactvar) && Kept(s, all)
    ensures var (t, exit) := Cond(s, c); Kept(t, all + exit) && Open(t, l + exit) && t.nactvar == s.nactvar
  {
    hide Open, Leads, Cond, SameList, Kept, Grown, Lossless, Waiting;
    OpenNone(s, l);
    CondLeads(s, c);
    CondBeside(s, l, c);
    var (t, exit) := Cond(s, c);
    LeadsGrown(s, [], t, exit);
    KeptSince(s, all, t, exit);
  }

  lemma {:induction false} BlockKept(s: Fs, l: seq<nat>, st: Stat, held: seq<nat>)
    requires Open(s, l) && Scoped(st, s.nactvar) && Kept(s, held + l)
    ensures var (t, m) := GenBlock(s, l, st); Kept(t, held + m)
    decreases st, 1
  {
    hide GenStat;
    StatKept(s, l, st, held);
  }

  lemma {:induction false} WhileKept(s: Fs, l: seq<nat>, c: Expr, body: Stat, held: seq<nat>)
    requires Open(s, l) && Scoped(SWhile(c, body), s.nactvar) && Kept(s, held + l)
    ensures Kept(GenStat(s, l, SWhile(c, body)).0, held + l) && GenStat(s, l, SWhile(c, body)).1 == l
    decreases body, 2
  {
    hide Open, Leads, Cond, PatchTo, SameList, Jump, ListOk, Kept, GenBlock, GenStat;
    WhileForm(s, l, c, body);
    CondKept(s, l, c, held + l);
    var (s1, exit) := Cond(s, c);
    OpenNone(s1, l + exit);
    var all := (held + l) + exit;
    assert all + [] == all;
    BlockKept(s1, [], body, all);
    BlockGood(s1, [], body);
    var (s2, breaks) := GenBlock(s1, [], body);
    LeadsOpen(s1, [], s2, breaks);
    OpenReady(s2, breaks);
    KeptJump(s2, all + breaks);
    OpenNone(s2, breaks);
    JumpLeads(s2, []);
    var (s3, back) := Jump(s2);
    KeptTo(s3, all + breaks, back, |s.code|);
    var s4 := PatchTo(s3, back, |s.code|);
    KeptHere(s4, all, breaks);
    KeptHere(PatchToHere(s4, breaks), held + l, exit);
  }

  lemma {:induction false} RepeatKept(s: Fs, l: seq<nat>, body: Stat, c: Expr, held: seq<nat>)
    requires Open(s, l) && Scoped(SRepeat(body, c), s.nactvar) && Kept(s, held + l)
    ensures Kept(GenStat(s, l, SRepeat(body, c)).0, held + l) && GenStat(s, l, SRepeat(body, c)).1 == l
    decreases body, 2
  {
    hide Open, Leads, Cond, PatchTo, SameList, ListOk, Kept, GenStat;
    RepeatForm(s, l, body, c);
    OpenNone(s, l);
    var all := held + l;
    assert all + [] == all;
    StatKept(s, [], body, all);
    StatGood(s, [], body);
    var (s1, breaks) := GenStat(s, [], body);
    LeadsOpen(s, [], s1, breaks);
    CondKept(s1, [], c, all + breaks);
    var (s2, exit) := Cond(s1, c);
    assert [] + exit == exit;
    OpenLists(s2, exit);
    var s3 := Settle(s2, s.nactvar);
    KeptSettle(s2, s.nactvar, (all + breaks) + exit);
    KeptTo(s3, all + breaks, exit, |s.code|);
    KeptHere(PatchTo(s3, exit, |s.code|), all, breaks);
  }

  lemma KeptSettle(s: Fs, n: nat, l: seq<nat>)
    requires Kept(s, l)
    ensures Kept(Settle(s, n), l)
  {}

  lemma {:induction false} RestKept(s: Fs, l: seq<nat>, escape: seq<nat>, flist: seq<nat>, rest: Rest, held: seq<nat>)
    requires Open(s, l + (escape + flist)) && ScopedRest(rest, s.nactvar) && Kept(s, held + (l + (escape + flist)))
    ensures var (t, m) := GenRest(s, l, escape, flist, rest); Kept(t, held + m)
    decreases rest, 3
  {
    hide Open, Leads, Cond, SameList, Jump, ListOk, Kept, GenBlock;
    assert held + (l + (escape + flist)) == (held + l) + (escape + flist);
    OpenReady(s, l + (escape + flist));
    KeptJump(s, held + (l + (escape + flist)));
    var (s1, j) := Jump(s);
    var s2 := PatchToHere(s1, flist);
    var out := escape + j;
    KeptPerm(s1, (held + (l + (escape + flist))) + j, ((held + out) + l) + flist);
    KeptHere(s1, (held + out) + l, flist);
    ElseStep(s, l, escape, flist);
    OpenLess(s2, l, out);
    match rest
    case REnd => KeptHere(s, held + l, escape + flist);
    case RElse(body) =>
      BlockKept(s2, l, body, held + out);
      var (s3, m) := GenBlock(s2, l, body);
      KeptPerm(s3, (held + out) + m, (held + m) + out);
      KeptHere(s3, held + m, out);
    case RElseIf(c, body, more) =>
      CondKept(s2, l + out, c, (held + out) + l);
      var (s3, exit) := Cond(s2, c);
      assert (l + out) + exit == l + (out + exit);
      OpenLess(s3, l, out + exit);
      KeptPerm(s3, ((held + out) + l) + exit, (held + (out + exit)) + l);
      BlockKept(s3, l, body, held + (out + exit));
      BlockBeside(s3, l, body, out + exit);
      var (s4, m) := GenBlock(s3, l, body);
      KeptPerm(s4, (held + (out + exit)) + m, held + (m + (out + exit)));
      RestKept(s4, m, out, exit, more, held);
  }

  /** Without a `break` of its own a statement leaves the list as it is. */
  lemma {:induction false} NoneBreak(s: Fs, l: seq<nat>, st: Stat)
    requires !Breaks(st)
    ensures GenStat(s, l, st).1 == l
    decreases st
  {
    hide LocalCode, AssignCode, Cond, PatchTo, Jump;
    match st
    case SSeq(a, b) => NoneBreak(s, l, a); NoneBreak(GenStat(s, l, a).0, l, b);
    case SDo(body) => NoneBreak(s, l, body);
    case SIf(c, body, rest) =>
      var (s1, exit) := Cond(s, c);
      NoneBreak(s1, l, body);
      NoneBreakRest(GenBlock(s1, l, body).0, l, [], exit, rest);
    case _ =>
  }

  lemma {:induction false} NoneBreakRest(s: Fs, l: seq<nat>, escape: seq<nat>, flist: seq<nat>, rest: Rest)
    requires !BreaksRest(rest)
    ensures GenRest(s, l, escape, flist, rest).1 == l
    decreases rest
  {
    hide Cond, Jump;
    var (s1, j) := Jump(s);
    var s2 := PatchToHere(s1, flist);
    match rest
    case REnd =>
    case RElse(body) => NoneBreak(s2, l, body);
    case RElseIf(c, body, more) =>
      var (s3, exit) := Cond(s2, c);
      NoneBreak(s3, l, body);
      NoneBreakRest(GenBlock(s3, l, body).0, l, escape + j, exit, more);
  }

  // ---- The end of a function ----------------------------------------------

  /** The instructions of a body when the one that ends the function is added: the jumps
      that are pending go there. */
  function Body(t: Fs): seq<Instr> {
    PatchList(t.code, t.jpc, |t.code|, None, |t.code|)
  }

  /** In order, and no jump waits for the register of a value. */
  ghost predicate Finished(code: seq<Instr>, n: nat, k: seq<Value>) {
    Fine(code, |code|, n, k) && forall i: nat :: i < |code| && code[i].TestSet? ==> code[i].a < n
  }

  lemma BodyFinished(s: Fs, st: Stat, n: nat)
    requires Compiles(s, [], st, n) && s.code == [] && !Breaks(st) && n <= 250
    ensures var t := GenStat(s, [], st).0; Finished(Body(t), n, t.k) && |Body(t)| == |t.code|
  {
    StatFine(s, [], st, n);
    StatGood(s, [], st);
    StatKept(s, [], st, []);
    NoneBreak(s, [], st);
    var (t, m) := GenStat(s, [], st);
    hide GenStat, Fits;
    LeadsOpen(s, [], t, m);
    OpenLists(t, m);
    FineDischarged(t, Call(0), n);
    PatchListSpec(t.code, t.jpc, |t.code|, None, |t.code|);
    var p := Body(t);
    forall i: nat | i < |p| && p[i].TestSet? ensures p[i].a < n {
      assert OperandsFine(p, i, n, t.k) && NextFine(p, i, |p|) by { assert p[i] == p[i]; }
      assert p[i + 1] == p[i + 1] && t.code[i + 1] == t.code[i + 1];
      assert Valued(p, i + 1);
    }
  }

  // ---- The checker --------------------------------------------------------

  /** RETURN 0 1. */
  const RETURN: W.Word := 30 + 8388608

  /** The operands fit the words. */
  lemma FinishedFits(code: seq<Instr>, n: nat, k: seq<Value>)
    requires Finished(code, n, k) && n <= 250 && |k| <= 262144 && |code| <= 131071
    ensures AllFit(code)
  {
    forall i: nat | i < |code| ensures InstrFits(code[i]) {
      assert OperandsFine(code, i, n, k) && NextFine(code, i, |code|) by { assert code[i] == code[i]; }
    }
  }

  /** A function whose code is these instructions and RETURN, with constants of the same
      types, and nothing wrong about it but maybe its code. */
  ghost predicate IsFunction(pt: W.Proto, code: seq<Instr>, n: nat, k: seq<Value>) {
    && AllFit(code) && pt.code == Words(code) + [RETURN]
    && pt.maxstacksize == n && pt.numparams + pt.isVararg % 2 <= n && pt.isVararg / 4 % 2 <= pt.isVararg % 2
    && |pt.upvalues| <= pt.nups && |pt.lineinfo| in {0, |pt.code|}
    && |pt.k| == |k| && forall i: nat :: i < |k| && k[i].Str? ==> pt.k[i].KStr?
  }

  lemma WordAt(pt: W.Proto, code: seq<Instr>, n: nat, k: seq<Value>, pc: nat)
    requires IsFunction(pt, code, n, k) && pc <= |code|
    ensures |pt.code| == |code| + 1
    ensures pc < |code| ==>
              var w, f := pt.code[pc], FieldsOf(code[pc]);
              W.OpOf(w) == f.op && W.ArgA(w) == f.a && W.ArgB(w) == f.b && W.ArgC(w) == f.c
    ensures pc == |code| ==> W.OpOf(pt.code[pc]) == 30 && W.ArgA(pt.code[pc]) == 0 && W.ArgB(pt.code[pc]) == 1 && W.ArgC(pt.code[pc]) == 0
  {
    if pc < |code| {
      EncodedFields(code[pc]);
      assert pt.code[pc] == Encode(code[pc]);
    } else {
      Operands.Composed(30, 0, 1, 0);
    }
    hide W.OpOf, W.ArgA, W.ArgB, W.ArgC, W.ArgBx, Encode, FieldsOf;
  }

  /** Every word is an instruction. */
  lemma {:induction false} AllStarts(pt: W.Proto, code: seq<Instr>, n: nat, k: seq<Value>, pc: nat)
    requires IsFunction(pt, code, n, k) && pc <= |code|
    ensures |pt.code| == |code| + 1 && Control.IsStart(pt.code, pc)
    decreases pc
  {
    hide W.OpOf, W.ArgA, W.ArgB, W.ArgC, W.ArgBx, Control.IsStart, FieldsOf, Control.StartsFrom;
    WordAt(pt, code, n, k, pc);
    if pc == 0 {
      Control.LookStep(pt.code, 0);
    } else {
      AllStarts(pt, code, n, k, pc - 1);
      WordAt(pt, code, n, k, pc - 1);
      assert FieldsOf(code[pc - 1]).op != 34 by { PlainOpcode(code[pc - 1]); }
      Control.StartStep(pt.code, pc);
    }
  }

  lemma PlainOpcode(i: Instr)
    requires InstrFits(i)
    ensures FieldsOf(i).op !in {34, 36, 37, 31, 32, 33, 29, 30, 21, 7, 4, 8}
  {}

  /** Every function has two registers, as many as the field A of a comparison can
      name. */
  lemma NamedFine(pt: W.Proto, code: seq<Instr>, n: nat, k: seq<Value>, pc: nat)
    requires IsFunction(pt, code, n, k) && Finished(code, n, k) && pc < |code| && n >= 2
    ensures var f := FieldsOf(code[pc]); Operands.Named(pt, f.op, f.a, f.b, f.c)
  {
    hide W.OpOf, W.ArgA, W.ArgB, W.ArgC, W.ArgBx;
    assert OperandsFine(code, pc, n, k) by { assert code[pc] == code[pc]; }
    var i := code[pc];
    if i.Cmp? { NamedCmp(pt, i, n, k); }
    else if i.LoadK? || i.GetGlobal? { NamedConst(pt, i, n, k); }
    else { NamedRest(pt, i, n, k); }
    hide OperandsFine, Operands.Named, FieldsOf;
  }

  predicate InstrNamed(i: Instr, n: nat, k: seq<Value>) {
    OperandsFine([i], 0, n, k)
  }

  lemma NamedCmp(pt: W.Proto, i: Instr, n: nat, k: seq<Value>)
    requires InstrFits(i) && i.Cmp? && InstrNamed(i, n, k) && n >= 2 && pt.maxstacksize == n && |pt.k| == |k|
    ensures var f := FieldsOf(i); Operands.Named(pt, f.op, f.a, f.b, f.c)
  {}

  lemma NamedConst(pt: W.Proto, i: Instr, n: nat, k: seq<Value>)
    requires InstrFits(i) && (i.LoadK? || i.GetGlobal?) && InstrNamed(i, n, k) && pt.maxstacksize == n && |pt.k| == |k|
    requires forall j: nat :: j < |k| && k[j].Str? ==> pt.k[j].KStr?
    ensures var f := FieldsOf(i); Operands.Named(pt, f.op, f.a, f.b, f.c)
  {
    var g := if i.LoadK? then i.k else i.g;
    assert g == 512 * (g / 512) + g % 512;
  }

  lemma NamedRest(pt: W.Proto, i: Instr, n: nat, k: seq<Value>)
    requires InstrFits(i) && !i.Cmp? && !i.LoadK? && !i.GetGlobal? && n > 0 && pt.maxstacksize == n
    requires InstrNamed(i, n, k)
    ensures var f := FieldsOf(i); Operands.Named(pt, f.op, f.a, f.b, f.c)
  {}

  lemma ContinuesFine(pt: W.Proto, code: seq<Instr>, n: nat, k: seq<Value>, pc: nat)
    requires IsFunction(pt, code, n, k) && Finished(code, n, k) && pc < |code|
    ensures var f := FieldsOf(code[pc]); Operands.Continues(pt, pc, f.op, f.b, f.c)
  {
    hide W.OpOf, W.ArgA, W.ArgB, W.ArgC, W.ArgBx, Control.IsStart, OperandsFine;
    assert NextFine(code, pc, |code|) by { assert code[pc] == code[pc]; }
    WordAt(pt, code, n, k, pc);
    PlainOpcode(code[pc]);
    if pc + 1 < |code| { WordAt(pt, code, n, k, pc + 1); PlainOpcode(code[pc + 1]); }
    match code[pc]
    case Jmp(sbx) =>
      var x := sbx + 131071;
      assert x == 512 * (x / 512) + x % 512;
      AllStarts(pt, code, n, k, pc + 1 + sbx);
    case _ =>
  }

  lemma FinishedAccepted(pt: W.Proto, code: seq<Instr>, n: nat, k: seq<Value>)
    requires IsFunction(pt, code, n, k) && Finished(code, n, k) && 2 <= n <= 250
    ensures Checker.Accepted(pt)
  {
    hide W.OpOf, W.ArgA, W.ArgB, W.ArgC, W.ArgBx, Control.IsStart, Fine, FieldsOf, Operands.Named, Operands.Continues;
    WordAt(pt, code, n, k, |code|);
    forall pc: nat | pc < |pt.code| ensures Operands.Good(pt, pc) {
      WordAt(pt, code, n, k, pc);
      if pc < |code| {
        NamedFine(pt, code, n, k, pc);
        ContinuesFine(pt, code, n, k, pc);
      } else {
        ReturnGood(pt);
      }
    }
    hide Operands.Good;
    Operands.AcceptedExactly(pt);
  }

  lemma ReturnGood(pt: W.Proto)
    requires pt.maxstacksize > 0 && pt.code != []
    ensures Operands.Named(pt, 30, 0, 1, 0) && Operands.Continues(pt, |pt.code| - 1, 30, 1, 0)
  {}

  /** The instructions of a body fit their words, if there are not too many and not too
      many constants. */
  lemma CompiledFits(s: Fs, st: Stat, n: nat)
    requires Compiles(s, [], st, n) && s.code == [] && !Breaks(st) && n <= 250
    requires var t := GenStat(s, [], st).0; |t.k| <= 262144 && |t.code| <= 131071
    ensures AllFit(Body(GenStat(s, [], st).0))
  {
    hide GenStat;
    var t := GenStat(s, [], st).0;
    BodyFinished(s, st, n);
    FinishedFits(Body(t), n, t.k);
  }

  /** The code of any body without a stray `break`, for which the registers suffice, is
      accepted by the checker when it has been ended with a RETURN; and control never
      leaves it. */
  lemma CompiledAccepted(s: Fs, st: Stat, n: nat, pt: W.Proto, pc: int)
    requires Compiles(s, [], st, n) && s.code == [] && !Breaks(st) && 2 <= n <= 250
    requires var t := GenStat(s, [], st).0; IsFunction(pt, Body(t), n, t.k)
    ensures Checker.Accepted(pt)
    ensures Control.Reached(pt, pc) ==> 0 <= pc < |pt.code|
  {
    hide GenStat;
    var t := GenStat(s, [], st).0;
    BodyFinished(s, st, n);
    FinishedAccepted(pt, Body(t), n, t.k);
    if Control.Reached(pt, pc) {
      SkipsOne(pt, Body(t), n, t.k);
      Control.PlainConfined(pt, pc);
    }
  }

  lemma SkipsOne(pt: W.Proto, code: seq<Instr>, n: nat, k: seq<Value>)
    requires IsFunction(pt, code, n, k)
    ensures forall q :: 0 <= q < |pt.code| && W.Opcode(pt.code[q]).LoadBool? ==> W.ArgC(pt.code[q]) <= 1
  {
    hide W.OpOf, W.ArgA, W.ArgB, W.ArgC, W.ArgBx, FieldsOf;
    forall q | 0 <= q < |pt.code| && W.Opcode(pt.code[q]).LoadBool? ensures W.ArgC(pt.code[q]) <= 1 {
      WordAt(pt, code, n, k, q);
      if q < |code| { NumberOf(code[q]); FlagsAre(code[q]); }
    }
  }

  lemma FlagsAre(i: Instr)
    requires InstrFits(i)
    ensures i.LoadBool? ==> FieldsOf(i).c <= 1
    ensures Name(i).LoadBool? ==> i.LoadBool?
  {}
}
