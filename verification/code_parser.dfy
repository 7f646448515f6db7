/** The parser's procedures for statements, on the code generator's state: every
    list of jumps is the head of a chain through the code. */
module CodeParser {
  import opened CodeVm
  import opened CodeTree
  import opened CodeGen
  import opened CodeLists
  import opened CodeState
  import opened CodeTests
  import opened CodeCorrect
  import opened CodeThreads
  import opened CodeTheorems
  import opened CodeFuncState
  import opened CodeBlocks
  import opened CodeLoops

  datatype BlockCnt = BlockCnt(breaklist: int, isbreakable: bool, nactvar: nat)

  /** The innermost loop, or -1. */
  ghost function Inner(blocks: seq<BlockCnt>): (i: int)
    ensures -1 <= i < |blocks| && (i >= 0 ==> blocks[i].isbreakable)
    ensures forall k :: i < k < |blocks| ==> !blocks[k].isbreakable
  {
    if blocks == [] then -1
    else if blocks[|blocks| - 1].isbreakable then |blocks| - 1 else Inner(blocks[..|blocks| - 1])
  }

  /** Only the break list of the innermost loop may differ. */
  ghost predicate SameBlocks(a: seq<BlockCnt>, b: seq<BlockCnt>) {
    && |a| == |b| && Inner(a) == Inner(b)
    && forall k :: 0 <= k < |a| ==> b[k] == if k == Inner(a) then a[k].(breaklist := b[k].breaklist) else a[k]
  }

  class Parser {
    const fs: FuncState
    /** `fs->bl` and what it leads to, innermost last. */
    var blocks: seq<BlockCnt>

    /** Between two statements; `l` is the break list of the innermost loop. */
    ghost predicate Between(l: seq<nat>)
      reads this, fs
    {
      && fs.Valid() && Open(fs.view, l)
      && var i := Inner(blocks); if i < 0 then l == [] else Chain(fs.code, blocks[i].breaklist, l)
    }

    constructor (nlocals: nat)
      ensures Between([]) && fresh(fs) && fs.view == Fs([], [], [], nlocals, nlocals) && blocks == []
    {
      fs := new FuncState(nlocals);
      blocks := [];
    }

    /** `enterblock`. */
    method EnterBlock(isbreakable: bool)
      requires fs.Valid()
      modifies this
      ensures blocks == old(blocks) + [BlockCnt(NO_JUMP, isbreakable, fs.nactvar)]
    {
      blocks := blocks + [BlockCnt(NO_JUMP, isbreakable, fs.nactvar)];
    }

    /** `leaveblock`, with the break list `l` of the block; those of `m` wait on. */
    method LeaveBlock(ghost l: seq<nat>, ghost m: seq<nat>)
      requires fs.Valid() && Open(fs.view, m + l) && blocks != [] && Chain(fs.code, blocks[|blocks| - 1].breaklist, l)
      modifies this, fs
      ensures var bl := old(blocks)[|old(blocks)| - 1];
              && blocks == old(blocks)[..|old(blocks)| - 1]
              && fs.Valid() && fs.view == CodeGen.PatchToHere(Settle(old(fs.view), bl.nactvar), l)
              && Follows(old(fs.code), old(fs.view), [], fs.code, fs.view, [])
    {
      hide Paired, Follows;
      ghost var c, s := fs.code, fs.view;
      var bl := blocks[|blocks| - 1];
      blocks := blocks[..|blocks| - 1];
      fs.nactvar := bl.nactvar;
      fs.freereg := fs.nactvar;
      fs.view := Settle(fs.view, bl.nactvar);
      OpenLess(old(fs.view), m, l);
      JoinLists(fs.view.code, fs.view.jpc, l);
      fs.PatchToHere(bl.breaklist, l);
      FollowsHere(c, s, fs.code, fs.view, l);
    }

    /** `cond`. */
    method Condition(e: Expr) returns (exits: int)
      requires fs.Valid() && Open(fs.view, []) && LocalsBelow(e, fs.view.nactvar)
      modifies fs
      ensures fs.Valid() && fs.view == Cond(old(fs.view), e).0 && Chain(fs.code, exits, Cond(old(fs.view), e).1)
      ensures Follows(old(fs.code), old(fs.view), [], fs.code, fs.view, Cond(old(fs.view), e).1)
    {
      hide Emit, Paired, Untouched, ListOk, Since, Owned, Usable, CodeGen.GoIf, Gen, ShapeIs, Follows, Lossless, Leads, Open;
      ghost var c, s := fs.code, fs.view;
      OpenReady(s, []);
      CondLeads(s, e);
      var r := fs.Expression(e);
      ghost var (s1, g1) := Gen(s, e);
      ghost var c1 := fs.code;
      if r.k.VNil? { r := r.(k := VFalse); }
      GenCond(s, e);
      var q := fs.GoIf(r, CondExp(g1), true, CondShape(e));
      CondThen(s1, g1);
      GenThen(c, s, e, c1, fs.code);
      MembersAre(s);
      FollowsLossless(c, s, [], fs.code, fs.view, Cond(s, e).1);
      exits := q.f;
    }

    /** `luaK_patchlist`; the jumps of `m` wait on. */
    method PatchBack(list: int, target: nat, ghost l: seq<nat>, ghost m: seq<nat>)
      requires fs.Valid() && Open(fs.view, m + l) && Chain(fs.code, list, l)
      modifies fs
      ensures fs.Valid() && fs.view == PatchTo(old(fs.view), l, target)
      ensures Follows(old(fs.code), old(fs.view), l, fs.code, fs.view, [])
    {
      hide Paired, PatchList, Follows, Patched, ListOk, Chain, Open;
      ghost var c, s := fs.code, fs.view;
      OpenLess(s, m, l);
      OpenHere(s, l);
      ListIn(s, l);
      if target == |fs.code| {
        fs.PatchToHere(list, l);
        FollowsHere(c, s, fs.code, fs.view, l);
        FollowsHeld(c, s, fs.code, fs.view, l);
      } else {
        PatchListSpec(s.code, l, target, None, target);
        PatchedApart(s.code, PatchList(s.code, l, target, None, target), l, target, None, target, s.jpc);
        fs.PatchListAux(list, l, target, None, target);
        KeptOutside(c, s.code, fs.code, l, fs.jpc, s.jpc);
        FollowsBack(c, s, fs.code, fs.view, l, target);
      }
    }

    /** `breakstat`: an error outside a loop. */
    method Break(ghost l: seq<nat>) returns (ok: bool)
      requires Between(l)
      modifies this, fs
      ensures ok <==> Inner(old(blocks)) >= 0
      ensures ok ==> Between(l + Jump(old(fs.view)).1) && fs.view == Jump(old(fs.view)).0 && SameBlocks(old(blocks), blocks)
      ensures ok ==> Follows(old(fs.code), old(fs.view), l, fs.code, fs.view, l + Jump(old(fs.view)).1)
    {
      hide Paired, Open, Chain, Follows, ListOk, Waiting, Jump;
      var bl := |blocks| - 1;
      while bl >= 0 && !blocks[bl].isbreakable
        invariant -1 <= bl < |blocks| && forall k :: bl < k < |blocks| ==> !blocks[k].isbreakable
      {
        bl := bl - 1;
      }
      if bl < 0 { return false; }
      InnerIs(blocks, bl);
      var list := JumpOut(blocks[bl].breaklist, l);
      blocks := blocks[bl := blocks[bl].(breaklist := list)];
      InnerIs(blocks, bl);
      ok := true;
    }

    /** A jump that joins a list. */
    method JumpOut(head: int, ghost l: seq<nat>) returns (list: int)
      requires fs.Valid() && Open(fs.view, l) && Chain(fs.code, head, l)
      modifies fs
      ensures var (t, j) := Jump(old(fs.view)); fs.Valid() && fs.view == t && Open(t, l + j) && Chain(fs.code, list, l + j)
      ensures Follows(old(fs.code), old(fs.view), l, fs.code, fs.view, l + Jump(old(fs.view)).1)
    {
      hide Paired, Open, Chain, Untouched, ListOk, Leads, SameList, Waiting, Follows;
      ghost var c, s, none: seq<nat> := fs.code, fs.view, [];
      assert none + l == l;
      OpenNone(s, l);
      JumpLeads(s, l);
      ghost var (t, m) := Jump(s);
      OpenLess(t, l, m);
      OpenHere(t, l);
      ListIn(t, l);
      var j := fs.JumpAlways();
      ghost var c1 := fs.code;
      FollowsJump(c, s, c1);
      Waits(c, s, none, c1, t, m, head, l);
      FollowsAlso(c, s, none, c1, t, m, l, l, l + m);
      list := fs.Concat(head, j, l, m);
      KeptOutside(c1, t.code, fs.code, l, fs.jpc, t.jpc);
      FollowsConcat(c1, t, fs.code, l);
      FollowsThen(c, s, l, c1, t, l + m, fs.code, t, l + m, l, l);
    }

    // ---- Statements -------------------------------------------------------

    /** A whole function body and the instruction that ends it: the instructions are
        those of the model, and the machine does with them what the body means. */
    method Chunk(st: Stat, i: Instr) returns (ok: bool)
      requires Between([]) && blocks == [] && fs.view.code == [] && fs.view.jpc == [] && Scoped(st, fs.view.nactvar)
      requires !i.TestSet? && !i.Jmp?
      modifies this, fs
      ensures ok <==> !Breaks(st)
      ensures ok ==> fs.code == Emit(GenStat(old(fs.view), [], st).0, i).code && fs.k == GenStat(old(fs.view), [], st).0.k
      ensures ok && NoRisk(old(fs.view), [], st) ==>
                forall env: Env, regs: Regs, log: seq<Event>, rounds: nat :: fs.k <= env.k ==> Obeys(env, fs.code, old(fs.view), st, regs, log, rounds)
    {
      hide Paired, ListOk, Leads, Waiting, Follows, Open, Chain, GenStat, NoRisk, Obeys, Scoped, Emit, Final;
      ghost var s := fs.view;
      ok := Statement(st, []);
      if !ok { return; }
      ghost var c1, t := fs.code, fs.view;
      OpenReady(t, []);
      var pc := fs.Code(i);
      CodeIsReal(s, c1, t, i, fs.code);
      FinalSelf(t, i);
      forall env: Env, regs: Regs, log: seq<Event>, rounds: nat | NoRisk(s, [], st) && fs.k <= env.k ensures Obeys(env, fs.code, s, st, regs, log, rounds) {
        ProgramCorrect(env, fs.code, s, st, i, regs, log, rounds);
      }
    }

    /** `localstat` with one name and one value. */
    method Local(e: Expr, ghost l: seq<nat>)
      requires Between(l) && LocalsBelow(e, fs.view.nactvar)
      modifies fs
      ensures Between(l) && fs.view == LocalCode(old(fs.view), e)
      ensures Follows(old(fs.code), old(fs.view), [], fs.code, fs.view, [])
    {
      hide Emit, Paired, ListOk, Since, ValueCode, Leads, Open, Untouched, Follows, Lossless, Waiting;
      ghost var c, s := fs.code, fs.view;
      OpenNone(s, l);
      OpenReady(s, l);
      LocalLeads(s, e);
      FreshBeside(s, LocalCode(s, e), [], l);
      assert l + [] == l;
      LeadsOpen(s, l, LocalCode(s, e), l);
      var reg := fs.ExpressionToNextReg(e);
      fs.nactvar := fs.nactvar + 1;
      fs.freereg := fs.nactvar;
      assert LocalCode(s, e) == fs.view.(freereg := fs.freereg, nactvar := fs.nactvar);
      fs.view := LocalCode(s, e);
      assert fs.Valid();
      MembersAre(s);
      FollowsLossless(c, s, [], fs.code, fs.view, []);
      HeadStays(c, s, fs.code, fs.view, [], blocks, l);
    }

    /** An assignment to a local. */
    method Assign(r: nat, e: Expr, ghost l: seq<nat>)
      requires Between(l) && LocalsBelow(e, fs.view.nactvar)
      modifies fs
      ensures Between(l) && fs.view == AssignCode(old(fs.view), r, e)
      ensures Follows(old(fs.code), old(fs.view), [], fs.code, fs.view, [])
    {
      hide Emit, Paired, ListOk, Since, Leads, Usable, CodeGen.ExpToReg, CodeGen.DischargeVars, Gen, AssignCode, Untouched, Owned, Follows, Lossless, Waiting;
      ghost var c, s := fs.code, fs.view;
      OpenNone(s, l);
      AssignLeads(s, r, e);
      AssignForm(s, r, e);
      FreshBeside(s, AssignCode(s, r, e), [], l);
      assert l + [] == l;
      LeadsOpen(s, l, AssignCode(s, r, e), l);
      GenUsable(s, e);
      var n := fs.nactvar;
      var x := fs.Expression(e);
      ghost var (s1, g1) := Gen(s, e);
      ghost var c1 := fs.code;
      UsableLists(s1, g1);
      x := fs.DischargeVars(x, g1);
      ghost var (s2, g2) := CodeGen.DischargeVars(s1, g1);
      ghost var c2 := fs.code;
      x := fs.ExpToReg(x, g2, r);
      UsableThen(c1, s1, g1, c2, s2, g2, fs.code);
      GenThen(c, s, e, c1, fs.code);
      fs.freereg := n;
      fs.nactvar := n;
      fs.view := AssignCode(s, r, e);
      MembersAre(s);
      FollowsLossless(c, s, [], fs.code, fs.view, []);
      HeadStays(c, s, fs.code, fs.view, [], blocks, l);
    }

    /** `statement`; the answer is false where a `break` is outside a loop. */
    method Statement(st: Stat, ghost l: seq<nat>) returns (ok: bool)
      requires Between(l) && Scoped(st, fs.view.nactvar)
      modifies this, fs
      ensures ok <==> Inner(old(blocks)) >= 0 || !Breaks(st)
      ensures ok ==> Between(GenStat(old(fs.view), l, st).1) && fs.view == GenStat(old(fs.view), l, st).0 && SameBlocks(old(blocks), blocks)
      ensures ok ==> Follows(old(fs.code), old(fs.view), l, fs.code, fs.view, GenStat(old(fs.view), l, st).1)
      decreases st, 1
    {
      hide Paired, ListOk, Leads, Waiting, Follows, Open, LocalCode, AssignCode, Chain, GenStat, GenBlock, Jump;
      ghost var c, s := fs.code, fs.view;
      StatForms(s, l);
      ok := true;
      match st
      case SSkip => FollowsSelf(c, s, l);
      case SSeq(a, b) => ok := Sequence(a, b, l);
      case SLocal(e) =>
        Local(e, l);
        FollowsAlso(c, s, [], fs.code, fs.view, [], l, l, l);
      case SAssign(r, e) =>
        Assign(r, e, l);
        FollowsAlso(c, s, [], fs.code, fs.view, [], l, l, l);
      case SBreak => ok := Break(l);
      case SDo(body) => ok := Block(body, l);
      case SIf(e, body, rest) => ok := If(e, body, rest, l);
      case SWhile(e, body) =>
        ok := While(e, body, l);
        FollowsAlso(c, s, [], fs.code, fs.view, [], l, l, l);
      case SRepeat(body, e) =>
        ok := Repeat(body, e, l);
        FollowsAlso(c, s, [], fs.code, fs.view, [], l, l, l);
    }

    method Sequence(a: Stat, b: Stat, ghost l: seq<nat>) returns (ok: bool)
      requires Between(l) && Scoped(SSeq(a, b), fs.view.nactvar)
      modifies this, fs
      ensures ok <==> Inner(old(blocks)) >= 0 || !Breaks(SSeq(a, b))
      ensures ok ==> Between(GenStat(old(fs.view), l, SSeq(a, b)).1) && fs.view == GenStat(old(fs.view), l, SSeq(a, b)).0
      ensures ok ==> SameBlocks(old(blocks), blocks) && Follows(old(fs.code), old(fs.view), l, fs.code, fs.view, GenStat(old(fs.view), l, SSeq(a, b)).1)
      decreases SSeq(a, b), 0
    {
      hide Paired, ListOk, Leads, Waiting, Follows, Open, Chain, GenStat;
      ghost var c, s := fs.code, fs.view;
      StatGood(s, l, a);
      ok := Statement(a, l);
      if !ok { return; }
      ghost var c1, t, m := fs.code, fs.view, GenStat(s, l, a).1;
      SeqForm(s, l, a, b);
      ok := Statement(b, m);
      ghost var n := GenStat(t, m, b).1;
      if ok { FollowsThen(c, s, l, c1, t, m, fs.code, fs.view, n, m, n); }
    }

    /** `block`. */
    method Block(st: Stat, ghost l: seq<nat>) returns (ok: bool)
      requires Between(l) && Scoped(st, fs.view.nactvar)
      modifies this, fs
      ensures ok <==> Inner(old(blocks)) >= 0 || !Breaks(st)
      ensures ok ==> Between(GenBlock(old(fs.view), l, st).1) && fs.view == GenBlock(old(fs.view), l, st).0 && SameBlocks(old(blocks), blocks)
      ensures ok ==> Follows(old(fs.code), old(fs.view), l, fs.code, fs.view, GenBlock(old(fs.view), l, st).1)
      decreases st, 2
    {
      hide Paired, ListOk, Leads, Waiting, Follows, Chain, GenStat;
      ghost var c, s, bs := fs.code, fs.view, blocks;
      EnterBlock(false);
      InnerScope(bs, blocks[|bs|]);
      ok := Statement(st, l);
      if !ok { return; }
      ghost var c1, t, m := fs.code, fs.view, GenStat(s, l, st).1;
      StatGood(s, l, st);
      LeaveScope(bs, m);
      FollowsThen(c, s, l, c1, t, m, fs.code, fs.view, m, [], []);
    }

    /** Leaving a block that is no loop. */
    method LeaveScope(ghost bs: seq<BlockCnt>, ghost m: seq<nat>)
      requires Between(m) && |blocks| == |bs| + 1 && SameBlocks(bs + [BlockCnt(NO_JUMP, false, blocks[|bs|].nactvar)], blocks)
      modifies this, fs
      ensures Between(m) && fs.view == Settle(old(fs.view), old(blocks)[|bs|].nactvar)
      ensures blocks == old(blocks)[..|bs|] && SameBlocks(bs, blocks)
      ensures Follows(old(fs.code), old(fs.view), [], fs.code, fs.view, [])
    {
      hide Paired, ListOk, Follows;
      InnerScope(bs, BlockCnt(NO_JUMP, false, blocks[|bs|].nactvar));
      ghost var c, s := fs.code, fs.view;
      ghost var n := blocks[|bs|].nactvar;
      assert m + [] == m && s.jpc + [] == s.jpc;
      assert Chain(c, NO_JUMP, []);
      NoneTouched(s, m);
      assert blocks[..|bs|] == blocks[..|blocks| - 1];
      LeaveBlock([], m);
      assert CodeGen.PatchToHere(Settle(s, n), []) == Settle(s, n);
      HeadStays(c, s, fs.code, fs.view, [], blocks, m);
    }

    /** `whilestat`. */
    method While(e: Expr, body: Stat, ghost l: seq<nat>) returns (ok: bool)
      requires Between(l) && Scoped(SWhile(e, body), fs.view.nactvar)
      modifies this, fs
      ensures ok && Between(l) && GenStat(old(fs.view), l, SWhile(e, body)) == (fs.view, l) && blocks == old(blocks)
      ensures Follows(old(fs.code), old(fs.view), [], fs.code, fs.view, [])
      decreases SWhile(e, body), 0
    {
      hide Paired, ListOk, Leads, Open, Follows, GenStat, Cond, Jump, PatchTo, GenBlock, Waiting, SameList, Chain;
      ghost var c, s, bs := fs.code, fs.view, blocks;
      WhileFacts(s, l, e, body);
      var whileinit := |fs.code|;
      var condexit := Condition(e);
      ghost var c1, s1, exit := fs.code, fs.view, Cond(s, e).1;
      ghost var none: seq<nat> := [];
      assert none + exit == exit;
      EnterBlock(true);
      StartLoop(bs, s1.nactvar);
      NoChain(c1);
      ok := Block(body, []);
      ghost var c2, s2, breaks := fs.code, fs.view, GenBlock(s1, [], body).1;
      Waits(c1, s1, none, c2, s2, breaks, condexit, exit);
      FollowsThen(c, s, none, c1, s1, exit, c2, s2, exit + breaks, none, breaks);
      WhileClose(whileinit, condexit, bs, exit, breaks);
      FollowsThen(c, s, none, c2, s2, exit + breaks, fs.code, fs.view, none, exit + breaks, none);
      HeadStays(c, s, fs.code, fs.view, none, bs, l);
    }

    /** The end of `whilestat`: the jump back, and leaving the loop. */
    method WhileClose(whileinit: nat, condexit: int, ghost bs: seq<BlockCnt>, ghost exit: seq<nat>, ghost breaks: seq<nat>)
      requires |blocks| == |bs| + 1 && fs.Valid() && Open(fs.view, exit + breaks) && Open(fs.view, breaks + exit)
      requires Chain(fs.code, condexit, exit) && Chain(fs.code, blocks[|bs|].breaklist, breaks)
      requires SameBlocks(bs + [BlockCnt(NO_JUMP, true, blocks[|bs|].nactvar)], blocks)
      requires var (s3, back) := Jump(fs.view); var s4 := PatchTo(s3, back, whileinit); var s5 := CodeGen.PatchToHere(s4, breaks);
               var a := exit + breaks;
               && Leads(fs.view, a, s3, a + back) && Open(s3, a + back) && Open(s3, back + exit) && Open(s3, back + breaks)
               && Leads(s3, a + back, s4, a) && Open(s4, a) && Open(s4, exit) && s4 == Settle(s4, blocks[|bs|].nactvar)
               && Leads(s4, a, s5, exit) && ListOk(s5.code, s5.jpc + exit) && Apart(s5.jpc, exit)
      modifies this, fs
      ensures var (s3, back) := Jump(old(fs.view));
              fs.Valid() && fs.view == CodeGen.PatchToHere(CodeGen.PatchToHere(PatchTo(s3, back, whileinit), breaks), exit) && blocks == bs
      ensures Follows(old(fs.code), old(fs.view), exit + breaks, fs.code, fs.view, [])
    {
      hide Paired, ListOk, Leads, Open, Untouched, Jump, PatchTo, Waiting, SameList, Chain, Follows;
      ghost var c2, s2, a, none: seq<nat>, head := fs.code, fs.view, exit + breaks, [], blocks[|bs|].breaklist;
      assert none + exit == exit && none + breaks == breaks;
      OpenLess(s2, exit, breaks);
      var back := fs.JumpAlways();
      ghost var c3, s3, l3 := fs.code, fs.view, Jump(s2).1;
      FollowsJump(c2, s2, c3);
      Waits(c2, s2, none, c3, s3, l3, condexit, exit);
      Waits(c2, s2, none, c3, s3, l3, head, breaks);
      FollowsAlso(c2, s2, none, c3, s3, l3, a, a, a + l3);
      PatchBack(back, whileinit, l3, a);
      ghost var c4, s4 := fs.code, fs.view;
      Waits(c3, s3, l3, c4, s4, none, condexit, exit);
      Waits(c3, s3, l3, c4, s4, none, head, breaks);
      FollowsThen(c2, s2, a, c3, s3, a + l3, c4, s4, a, l3, none);
      LeadsTrans(s2, a, s3, a + l3, s4, a);
      EndLoop(bs, blocks, blocks[|bs|].nactvar);
      LeaveBlock(breaks, exit);
      ghost var c5, s5 := fs.code, fs.view;
      Waits(c4, s4, none, c5, s5, none, condexit, exit);
      FollowsThen(c2, s2, a, c4, s4, a, c5, s5, exit, none, none);
      LeadsTrans(s2, a, s4, a, s5, exit);
      fs.PatchToHere(condexit, exit);
      FollowsHere(c5, s5, fs.code, fs.view, exit);
      FollowsThen(c2, s2, a, c5, s5, exit, fs.code, fs.view, none, none, none);
    }

    /** `repeatstat`, where no local of the body is an upvalue. */
    method Repeat(body: Stat, e: Expr, ghost l: seq<nat>) returns (ok: bool)
      requires Between(l) && Scoped(SRepeat(body, e), fs.view.nactvar)
      modifies this, fs
      ensures ok && Between(l) && GenStat(old(fs.view), l, SRepeat(body, e)) == (fs.view, l) && blocks == old(blocks)
      ensures Follows(old(fs.code), old(fs.view), [], fs.code, fs.view, [])
      decreases SRepeat(body, e), 0
    {
      hide Paired, ListOk, Leads, Open, Follows, GenStat, Cond, PatchTo, Waiting, SameList, Chain;
      ghost var c, s, bs, none: seq<nat> := fs.code, fs.view, blocks, [];
      RepeatFacts(s, l, body, e);
      var repeat_init := |fs.code|;
      EnterBlock(true);
      ghost var inner := blocks;
      EnterBlock(false);
      StartLoop(bs, s.nactvar);
      InnerScope(inner, blocks[|inner|]);
      assert blocks == bs + [BlockCnt(NO_JUMP, true, s.nactvar), BlockCnt(NO_JUMP, false, s.nactvar)];
      NoChain(c);
      ok := Statement(body, []);
      ghost var c1, s1, breaks := fs.code, fs.view, GenStat(s, [], body).1;
      ghost var head := blocks[|bs|].breaklist;
      assert none + breaks == breaks;
      OpenNone(s1, breaks);
      var condexit := Condition(e);
      ghost var c2, u, exit := fs.code, fs.view, Cond(s1, e).1;
      assert none + exit == exit;
      Waits(c1, s1, none, c2, u, exit, head, breaks);
      FollowsThen(c, s, none, c1, s1, breaks, c2, u, breaks + exit, none, exit);
      RepeatClose(condexit, repeat_init, bs, exit, breaks);
      FollowsThen(c, s, none, c2, u, breaks + exit, fs.code, fs.view, none, breaks + exit, none);
      HeadStays(c, s, fs.code, fs.view, none, bs, l);
    }

    /** The end of `repeatstat`: leaving the scope, closing the loop, leaving it. */
    method RepeatClose(condexit: int, repeat_init: nat, ghost bs: seq<BlockCnt>, ghost exit: seq<nat>, ghost breaks: seq<nat>)
      requires |blocks| == |bs| + 2 && fs.Valid() && Open(fs.view, breaks + exit)
      requires Chain(fs.code, condexit, exit) && Chain(fs.code, blocks[|bs|].breaklist, breaks)
      requires SameBlocks(bs + [BlockCnt(NO_JUMP, true, blocks[|bs|].nactvar), BlockCnt(NO_JUMP, false, blocks[|bs| + 1].nactvar)], blocks)
      requires blocks[|bs|].nactvar == blocks[|bs| + 1].nactvar
      requires var n := blocks[|bs|].nactvar; var s2 := Settle(fs.view, n); var s3 := PatchTo(s2, exit, repeat_init);
               && Leads(fs.view, breaks + exit, s2, breaks + exit) && Open(s2, breaks + exit) && Open(s2, exit + breaks)
               && Leads(s2, breaks + exit, s3, breaks) && Open(s3, breaks) && s3 == Settle(s3, n)
      modifies this, fs
      ensures var s3 := PatchTo(Settle(old(fs.view), old(blocks)[|bs|].nactvar), exit, repeat_init);
              fs.Valid() && fs.view == CodeGen.PatchToHere(s3, breaks) && blocks == bs
      ensures Follows(old(fs.code), old(fs.view), breaks + exit, fs.code, fs.view, [])
    {
      hide Paired, ListOk, Leads, Open, Follows, PatchTo, Waiting, Chain;
      ghost var c, u, none: seq<nat> := fs.code, fs.view, [];
      ghost var a, n, head := breaks + exit, blocks[|bs|].nactvar, blocks[|bs|].breaklist;
      assert a + none == a && none + breaks == breaks && u.jpc + none == u.jpc;
      TwoScopes(bs, blocks);
      NoChain(c);
      assert none + exit == exit;
      OpenLess(u, breaks, exit);
      LeaveBlock(none, a);
      ghost var c3, s2 := fs.code, fs.view;
      Waits(c, u, none, c3, s2, none, condexit, exit);
      Waits(c, u, none, c3, s2, none, head, breaks);
      FollowsAlso(c, u, none, c3, s2, none, a, a, a);
      PatchBack(condexit, repeat_init, exit, breaks);
      ghost var c4, s3 := fs.code, fs.view;
      Waits(c3, s2, exit, c4, s3, none, head, breaks);
      FollowsThen(c, u, a, c3, s2, a, c4, s3, breaks, exit, none);
      LeaveBlock(breaks, none);
      LeadsTrans(u, a, s2, a, s3, breaks);
      FollowsThen(c, u, a, c4, s3, breaks, fs.code, fs.view, none, none, none);
    }

    /** `test_then_block`. */
    method TestThenBlock(e: Expr, body: Stat, ghost l: seq<nat>) returns (ok: bool, condexit: int)
      requires Between(l) && LocalsBelow(e, fs.view.nactvar) && Scoped(body, fs.view.nactvar)
      modifies this, fs
      ensures ok <==> Inner(old(blocks)) >= 0 || !Breaks(body)
      ensures ok ==> var (s1, exit) := Cond(old(fs.view), e); var (s2, m) := GenBlock(s1, l, body);
                     && fs.view == s2 && Between(m) && Chain(fs.code, condexit, exit) && SameBlocks(old(blocks), blocks)
                     && Follows(old(fs.code), old(fs.view), l, fs.code, fs.view, m + exit)
      decreases body, 3
    {
      hide Paired, ListOk, Leads, Open, Follows, GenBlock, Cond, Waiting, SameList, Chain;
      ghost var c, s, bs := fs.code, fs.view, blocks;
      CondBeside(s, l, e);
      OpenNone(s, l);
      condexit := Condition(e);
      ghost var c1, s1, exit := fs.code, fs.view, Cond(s, e).1;
      OpenLess(s1, l, exit);
      HeadStays(c, s, c1, s1, exit, bs, l);
      ok := Block(body, l);
      if ok {
        ghost var m := GenBlock(s1, l, body).1;
        Waits(c1, s1, l, fs.code, fs.view, m, condexit, exit);
        FollowsAlso(c, s, [], c1, s1, exit, l, l, l + exit);
        FollowsThen(c, s, l, c1, s1, l + exit, fs.code, fs.view, m + exit, l, m);
      }
    }

    /** `ifstat`. */
    method If(e: Expr, body: Stat, rest: Rest, ghost l: seq<nat>) returns (ok: bool)
      requires Between(l) && Scoped(SIf(e, body, rest), fs.view.nactvar)
      modifies this, fs
      ensures ok <==> Inner(old(blocks)) >= 0 || !Breaks(SIf(e, body, rest))
      ensures ok ==> Between(GenStat(old(fs.view), l, SIf(e, body, rest)).1) && fs.view == GenStat(old(fs.view), l, SIf(e, body, rest)).0
      ensures ok ==> SameBlocks(old(blocks), blocks)
      ensures ok ==> Follows(old(fs.code), old(fs.view), l, fs.code, fs.view, GenStat(old(fs.view), l, SIf(e, body, rest)).1)
      decreases SIf(e, body, rest), 0
    {
      hide Paired, ListOk, Leads, Open, Follows, Waiting, SameList, Chain, GenStat, GenBlock, GenRest, Cond, Jump, Parts;
      ghost var c, s, bs, none: seq<nat> := fs.code, fs.view, blocks, [];
      ghost var whole := GenStat(s, l, SIf(e, body, rest));
      IfFacts(s, l, e, body, rest);
      var done, flist := TestThenBlock(e, body, l);
      if !done { return false; }
      var escapelist := NO_JUMP;
      ghost var m, escape, fl := GenBlock(Cond(s, e).0, l, body).1, none, Cond(s, e).1;
      NoChain(fs.code);
      assert none + fl == fl;
      var r := rest;
      while r.RElseIf?
        invariant Parts(s, l, fs.view, m, escape, fl, r, whole)
        invariant Between(m) && Chain(fs.code, escapelist, escape) && Chain(fs.code, flist, fl)
        invariant SameBlocks(bs, blocks) && Follows(c, s, l, fs.code, fs.view, m + (escape + fl))
        invariant Inner(bs) >= 0 || (Breaks(SIf(e, body, rest)) <==> BreaksRest(r))
        invariant r == rest || r < rest
        decreases r
      {
        ghost var c1, s1, a := fs.code, fs.view, m + (escape + fl);
        PartsStep(s, l, s1, m, escape, fl, r, whole);
        escapelist := LeavePart(escapelist, flist, m, escape, fl);
        ghost var c2, u := fs.code, fs.view;
        escape := escape + Jump(s1).1;
        FollowsThen(c, s, l, c1, s1, a, c2, u, m + escape, a, m + escape);
        done, flist := TestThenBlock(r.c, r.body, m);
        if !done { return false; }
        ghost var n, exit := GenBlock(Cond(u, r.c).0, m, r.body).1, Cond(u, r.c).1;
        Waits(c2, u, m, fs.code, fs.view, n + exit, escapelist, escape);
        FollowsThen(c, s, l, c2, u, m + escape, fs.code, fs.view, n + (escape + exit), m, n + exit);
        m, fl, r := n, exit, r.rest;
      }
      PartsOpen(s, l, fs.view, m, escape, fl, r, whole);
      ghost var c1, s1, a := fs.code, fs.view, m + (escape + fl);
      ok := IfEnd(r, escapelist, flist, m, escape, fl);
      if ok { FollowsThen(c, s, l, c1, s1, a, fs.code, fs.view, whole.1, a, whole.1); }
    }

    /** The end of `ifstat`: an `else` part or none. */
    method IfEnd(r: Rest, escapelist: int, flist: int, ghost m: seq<nat>, ghost escape: seq<nat>, ghost fl: seq<nat>) returns (ok: bool)
      requires Between(m) && Open(fs.view, m + (escape + fl)) && Chain(fs.code, escapelist, escape) && Chain(fs.code, flist, fl)
      requires !r.RElseIf? && ScopedRest(r, fs.view.nactvar)
      modifies this, fs
      ensures ok <==> Inner(old(blocks)) >= 0 || !BreaksRest(r)
      ensures ok ==> Between(GenRest(old(fs.view), m, escape, fl, r).1) && fs.view == GenRest(old(fs.view), m, escape, fl, r).0
      ensures ok ==> SameBlocks(old(blocks), blocks)
      ensures ok ==> Follows(old(fs.code), old(fs.view), m + (escape + fl), fs.code, fs.view, GenRest(old(fs.view), m, escape, fl, r).1)
      decreases r, 4
    {
      hide Paired, ListOk, Leads, Open, Follows, Waiting, SameList, Chain, GenBlock, Jump;
      ghost var c, s, a := fs.code, fs.view, m + (escape + fl);
      if r.REnd? {
        ok := true;
        JoinEnd(escapelist, flist, m, escape, fl);
      } else {
        var out := LeavePart(escapelist, flist, m, escape, fl);
        ghost var c1, s1, l1 := fs.code, fs.view, escape + Jump(s).1;
        ElseFacts(s, m, escape, fl, r.body);
        ok := Block(r.body, m);
        if !ok { return; }
        ghost var c2, s2, n := fs.code, fs.view, GenBlock(s1, m, r.body).1;
        Waits(c1, s1, m, c2, s2, n, out, l1);
        FollowsThen(c, s, a, c1, s1, m + l1, c2, s2, n + l1, m, n);
        fs.PatchToHere(out, l1);
        FollowsHere(c2, s2, fs.code, fs.view, l1);
        HeadStays(c2, s2, fs.code, fs.view, [], blocks, n);
        FollowsThen(c, s, a, c2, s2, n + l1, fs.code, fs.view, n, [], []);
      }
    }

    /** Without an `else` part the last condition leaves for the end, too. */
    method JoinEnd(escapelist: int, flist: int, ghost m: seq<nat>, ghost escape: seq<nat>, ghost fl: seq<nat>)
      requires Between(m) && Open(fs.view, m + (escape + fl)) && Chain(fs.code, escapelist, escape) && Chain(fs.code, flist, fl)
      modifies fs
      ensures Between(m) && fs.view == CodeGen.PatchToHere(old(fs.view), escape + fl)
      ensures Follows(old(fs.code), old(fs.view), m + (escape + fl), fs.code, fs.view, m)
    {
      hide Paired, ListOk, Leads, Open, Untouched, Waiting, SameList, Chain, Follows;
      ghost var c, s, a, none: seq<nat> := fs.code, fs.view, m + (escape + fl), [];
      JoinFacts(s, m, escape, fl);
      var whole := fs.Concat(escapelist, flist, escape, fl);
      ghost var c1 := fs.code;
      FollowsConcat(c, s, c1, escape);
      HeadWaits(c, s, escape, c1, s, escape, blocks, m);
      assert fs.Valid() by { KeptOutside(c, s.code, c1, escape, fs.jpc, s.jpc); }
      fs.PatchToHere(whole, escape + fl);
      FollowsHere(c1, s, fs.code, fs.view, escape + fl);
      HeadStays(c1, s, fs.code, fs.view, none, blocks, m);
      FollowsAlso(c, s, escape, c1, s, escape, a, a, a);
      LeadsSelf(s, a);
      FollowsThen(c, s, a, c1, s, a, fs.code, fs.view, m, none, none);
    }

    /** Leaving a part of a conditional for its end, and coming to the next part. */
    method LeavePart(escapelist: int, flist: int, ghost l: seq<nat>, ghost escape: seq<nat>, ghost fl: seq<nat>) returns (r: int)
      requires Between(l) && Open(fs.view, l + (escape + fl)) && Chain(fs.code, escapelist, escape) && Chain(fs.code, flist, fl)
      modifies fs
      ensures var (t, j) := Jump(old(fs.view)); fs.view == CodeGen.PatchToHere(t, fl) && Chain(fs.code, r, escape + j) && Open(fs.view, l + (escape + j))
      ensures Between(l) && Follows(old(fs.code), old(fs.view), l + (escape + fl), fs.code, fs.view, l + (escape + Jump(old(fs.view)).1))
    {
      hide Paired, ListOk, Leads, Open, Untouched, Jump, Waiting, SameList, Chain, Follows;
      ghost var c, s, a, none: seq<nat> := fs.code, fs.view, l + (escape + fl), [];
      PartFacts(s, l, escape, fl);
      r := JumpOut(escapelist, escape);
      ghost var c2, t, jl := fs.code, fs.view, Jump(s).1;
      ghost var b := l + (escape + jl) + fl;
      Waits(c, s, escape, c2, t, escape + jl, flist, fl);
      HeadWaits(c, s, escape, c2, t, escape + jl, blocks, l);
      FollowsAlso(c, s, escape, c2, t, escape + jl, a, a, b);
      fs.PatchToHere(flist, fl);
      FollowsHere(c2, t, fs.code, fs.view, fl);
      assert none + (escape + jl) == escape + jl;
      Waits(c2, t, none, fs.code, fs.view, none, r, escape + jl);
      HeadStays(c2, t, fs.code, fs.view, none, blocks, l);
      FollowsThen(c, s, a, c2, t, b, fs.code, fs.view, l + (escape + jl), none, none);
    }
  }

  // ---- What happens to other jumps ----------------------------------------

  /** Jumps of others keep their links; and a jump that is on no list any more is
      fixed in the same way in the real code. */
  ghost predicate Follows(c: seq<Instr>, s: Fs, l: seq<nat>, c2: seq<Instr>, t: Fs, m: seq<nat>) {
    && Untouched(c, s.code, c2, Waiting(s, l))
    && forall j: nat :: Pending(t.code, j) && j !in Waiting(t, m) ==>
         (j < |c2| && c2[j] == t.code[j]) || (Pending(s.code, j) && j !in Waiting(s, l))
  }

  /** With nothing waiting any more, real code and model are the same. */
  lemma CodeIsReal(s: Fs, c1: seq<Instr>, t: Fs, i: Instr, c2: seq<Instr>)
    requires s.code == [] && Follows([], s, [], c1, t, []) && ListOk(t.code, t.jpc) && |c1| == |t.code| && i != Jmp(NO_JUMP)
    requires SameCode(c2, Emit(t, i).code) && Untouched(c1, t.code, c2, Members(t.jpc))
    ensures c2 == Emit(t, i).code && Emit(t, i).k == t.k
  {
    var code := Emit(t, i).code;
    WaitingIs(t, []);
    EmitLost(t, Nothing, i, VTrue);
    hide Emit, ListOk;
    assert Nothing.(k := VTrue) == Nothing;
    forall j: nat | j < |code| ensures c2[j] == code[j] {
      if Pending(code, j) {
        assert Pending(t.code, j) && j !in t.jpc;
        assert c1[j] == c1[j];
      } else {
        assert code[j] == code[j];
      }
    }
  }

  lemma FinalSelf(t: Fs, i: Instr)
    ensures Final(Emit(t, i).code, t, i)
  {
    GrownSelf(Emit(t, i).code, {});
  }

  lemma FollowsSelf(c: seq<Instr>, s: Fs, l: seq<nat>)
    ensures Follows(c, s, l, c, s, l)
  {}

  lemma FollowsLossless(c: seq<Instr>, s: Fs, l: seq<nat>, c2: seq<Instr>, t: Fs, m: seq<nat>)
    requires Untouched(c, s.code, c2, Waiting(s, l)) && Lossless(s.code, Waiting(s, l), t.code, Waiting(t, m))
    ensures Follows(c, s, l, c2, t, m)
  {
    hide Untouched, Waiting;
  }

  lemma FollowsJump(c: seq<Instr>, s: Fs, c2: seq<Instr>)
    requires Untouched(c, s.code, c2, {}) && Open(s, [])
    ensures Follows(c, s, [], c2, Jump(s).0, Jump(s).1)
  {
    JumpGrown(s, []);
    assert [] + Jump(s).1 == Jump(s).1;
    hide Jump, Open;
    UntouchedMore(c, s.code, c2, {}, Waiting(s, []));
    FollowsLossless(c, s, [], c2, Jump(s).0, Jump(s).1);
  }

  lemma FollowsHere(c: seq<Instr>, s: Fs, c2: seq<Instr>, t: Fs, l: seq<nat>)
    requires Untouched(c, s.code, c2, Members(s.jpc)) && t.code == s.code && t.jpc == s.jpc + l
    ensures Follows(c, s, [], c2, t, [])
  {
    MembersAre(s);
    WaitingIs(s, []);
    WaitingIs(t, []);
  }

  lemma FollowsHeld(c: seq<Instr>, s: Fs, c2: seq<Instr>, t: Fs, l: seq<nat>)
    requires Follows(c, s, [], c2, t, []) && t.jpc == s.jpc + l
    ensures Follows(c, s, l, c2, t, [])
  {
    WaitingIs(s, []);
    WaitingIs(s, l);
    WaitingIs(t, []);
    UntouchedMore(c, s.code, c2, Waiting(s, []), Waiting(s, l));
  }

  /** Patching a list to a place before. */
  lemma FollowsBack(c: seq<Instr>, s: Fs, c2: seq<Instr>, t: Fs, l: seq<nat>, target: nat)
    requires |c| == |c2| == |s.code| && ListOk(s.code, l) && t.jpc == s.jpc && Patched(s.code, t.code, l, target, None, target)
    requires forall j: nat {:trigger c2[j]} :: j < |c2| && Pending(s.code, j) && j !in l ==> c2[j] == c[j]
    requires forall j <- l :: j < |c2| && c2[j] == t.code[j]
    ensures Follows(c, s, l, c2, t, [])
  {
    WaitingIs(s, l);
    WaitingIs(t, []);
    forall j: nat | j < |c| && Pending(s.code, j) && j !in Waiting(s, l) ensures j < |c2| && c2[j] == c[j] {}
    forall j: nat | Pending(t.code, j) && j !in Waiting(t, []) && j !in l ensures Pending(s.code, j) { assert t.code[j] == t.code[j]; }
  }

  lemma FollowsConcat(c: seq<Instr>, s: Fs, c2: seq<Instr>, l: seq<nat>)
    requires |c2| == |c| && forall j: nat {:trigger c2[j]} :: j < |c2| && j !in l ==> c2[j] == c[j]
    ensures Follows(c, s, l, c2, s, l)
  {
    ConcatUntouched(c, s, c2, l);
  }

  /** One thing after the other: the second works on the lists `a` and leaves the
      lists `b`; the rest of `m` waits. */
  lemma FollowsThen(c: seq<Instr>, s: Fs, l: seq<nat>, c1: seq<Instr>, t: Fs, m: seq<nat>, c2: seq<Instr>, u: Fs, n: seq<nat>, a: seq<nat>, b: seq<nat>)
    requires Leads(s, l, t, m) && |c| == |s.code| && |c1| == |t.code|
    requires Follows(c, s, l, c1, t, m) && Follows(c1, t, a, c2, u, b)
    requires (forall j <- a :: j in m) && (forall j <- b :: j in n) && forall j <- m :: j in a || j in n || j in u.jpc
    ensures Follows(c, s, l, c2, u, n)
  {
    FollowsSets(t, m, a, u, n, b);
    hide Waiting;
    LeadsUntouched(c, s, l, c1, t, m, c2, Waiting(t, a));
    forall j: nat | Pending(u.code, j) && j !in Waiting(u, n)
      ensures (j < |c2| && c2[j] == u.code[j]) || (Pending(s.code, j) && j !in Waiting(s, l))
    {
      assert j !in Waiting(u, b);
      if Pending(t.code, j) && j !in Waiting(t, a) { assert c1[j] == c1[j] && j !in Waiting(t, m); }
    }
  }

  lemma FollowsSets(t: Fs, m: seq<nat>, a: seq<nat>, u: Fs, n: seq<nat>, b: seq<nat>)
    requires (forall j <- a :: j in m) && (forall j <- b :: j in n) && forall j <- m :: j in a || j in n || j in u.jpc
    ensures Waiting(t, a) <= Waiting(t, m) && Waiting(u, b) <= Waiting(u, n)
    ensures forall j <- Waiting(t, m) :: j in Waiting(t, a) || j in Waiting(u, n)
  {
    WaitingIs(t, a);
    WaitingIs(t, m);
    WaitingIs(u, b);
    WaitingIs(u, n);
  }

  /** The same, with other jumps waiting. */
  lemma FollowsAlso(c: seq<Instr>, s: Fs, a: seq<nat>, c2: seq<Instr>, t: Fs, b: seq<nat>, held: seq<nat>, l: seq<nat>, m: seq<nat>)
    requires Follows(c, s, a, c2, t, b)
    requires (forall j: nat :: j in l ==> j in a || j in held) && (forall j <- a :: j in l || j in s.jpc) && forall j <- b :: j in m || j in t.jpc
    requires forall j <- held :: j in m || j in t.jpc || j in a
    ensures Follows(c, s, l, c2, t, m)
  {
    WaitingIs(s, a);
    WaitingIs(s, l);
    WaitingIs(t, b);
    WaitingIs(t, m);
    UntouchedMore(c, s.code, c2, Waiting(s, a), Waiting(s, l));
    hide Waiting, Untouched;
  }

  /** Where the rest of a conditional is about to be compiled. */
  ghost predicate Parts(s0: Fs, l: seq<nat>, s: Fs, m: seq<nat>, escape: seq<nat>, fl: seq<nat>, r: Rest, whole: (Fs, seq<nat>)) {
    match s case Fs(_, _, _, _, _) =>
    && Open(s, m + (escape + fl)) && Leads(s0, l, s, m + (escape + fl)) && ScopedRest(r, s.nactvar)
    && GenRest(s, m, escape, fl, r) == whole
  }

  lemma PartsOpen(s0: Fs, l: seq<nat>, s: Fs, m: seq<nat>, escape: seq<nat>, fl: seq<nat>, r: Rest, whole: (Fs, seq<nat>))
    requires Parts(s0, l, s, m, escape, fl, r, whole)
    ensures Open(s, m + (escape + fl)) && Leads(s0, l, s, m + (escape + fl)) && ScopedRest(r, s.nactvar)
    ensures GenRest(s, m, escape, fl, r) == whole
  {}

  /** One `elseif` part. */
  lemma PartsStep(s0: Fs, l: seq<nat>, s: Fs, m: seq<nat>, escape: seq<nat>, fl: seq<nat>, r: Rest, whole: (Fs, seq<nat>))
    requires Parts(s0, l, s, m, escape, fl, r, whole) && r.RElseIf? && Open(s0, l)
    ensures var (t, j) := Jump(s); var u := CodeGen.PatchToHere(t, fl); var (v, exit) := Cond(u, r.c); var (w, n) := GenBlock(v, m, r.body);
            var out := escape + j; var a := m + (escape + fl);
            && Open(s, a) && Leads(s0, l, s, a) && Leads(s0, l, u, m + out) && Open(u, m + out)
            && LocalsBelow(r.c, u.nactvar) && Scoped(r.body, u.nactvar)
            && Parts(s0, l, w, n, out, exit, r.rest, whole)
  {
    hide Open, Leads, Jump, Cond, GenBlock, SameList;
    var (t, j) := Jump(s);
    var u := CodeGen.PatchToHere(t, fl);
    var out, a := escape + j, m + (escape + fl);
    ElseStep(s, m, escape, fl);
    LeadsTrans(s0, l, s, a, u, m + out);
    CondBeside(u, m + out, r.c);
    var (v, exit) := Cond(u, r.c);
    assert m + out + exit == m + (out + exit);
    LeadsTrans(s0, l, u, m + out, v, m + (out + exit));
    BlockBeside(v, m, r.body, out + exit);
    var (w, n) := GenBlock(v, m, r.body);
    LeadsTrans(s0, l, v, m + (out + exit), w, n + (out + exit));
  }

  lemma IfFacts(s: Fs, l: seq<nat>, e: Expr, body: Stat, rest: Rest)
    requires Open(s, l) && Scoped(SIf(e, body, rest), s.nactvar)
    ensures var (v, exit) := Cond(s, e); var (w, m) := GenBlock(v, l, body); var none: seq<nat> := [];
            && Open(s, l + none) && LocalsBelow(e, s.nactvar) && Scoped(body, s.nactvar)
            && Parts(s, l, w, m, none, exit, rest, GenStat(s, l, SIf(e, body, rest)))
  {
    hide Open, Leads, Cond, GenBlock, SameList, GenRest;
    var none: seq<nat> := [];
    assert l + none == l;
    CondBeside(s, l, e);
    var (v, exit) := Cond(s, e);
    assert none + exit == exit;
    BlockBeside(v, l, body, exit);
    var (w, m) := GenBlock(v, l, body);
    LeadsTrans(s, l, v, l + exit, w, m + exit);
  }

  lemma ElseFacts(s: Fs, m: seq<nat>, escape: seq<nat>, fl: seq<nat>, body: Stat)
    requires Open(s, m + (escape + fl)) && Scoped(body, s.nactvar)
    ensures var (t, j) := Jump(s); var u := CodeGen.PatchToHere(t, fl); var (w, n) := GenBlock(u, m, body);
            var a, out := m + (escape + fl), escape + j;
            && Leads(s, a, u, m + out) && Open(u, m + out) && Scoped(body, u.nactvar) && Leads(s, a, w, n + out)
            && ListOk(w.code, w.jpc + out) && Apart(w.jpc, out) && Open(w, n) && Open(CodeGen.PatchToHere(w, out), n)
  {
    hide Open, Leads, Jump, GenBlock, SameList, ListOk;
    var (t, j) := Jump(s);
    var u := CodeGen.PatchToHere(t, fl);
    var a, out := m + (escape + fl), escape + j;
    ElseStep(s, m, escape, fl);
    BlockBeside(u, m, body, out);
    var (w, n) := GenBlock(u, m, body);
    LeadsTrans(s, a, u, m + out, w, n + out);
    OpenLess(w, n, out);
    OpenHere(w, out);
    HereLeads(w, n, out);
    LeadsOpen(w, n + out, CodeGen.PatchToHere(w, out), n);
  }

  lemma JoinFacts(s: Fs, m: seq<nat>, escape: seq<nat>, fl: seq<nat>)
    requires Open(s, m + (escape + fl))
    ensures ListOk(s.code, escape) && Apart(escape, fl) && Open(s, escape + m) && Apart(s.jpc, escape) && Open(s, m)
    ensures ListOk(s.code, s.jpc + (escape + fl)) && Apart(s.jpc, escape + fl) && Open(CodeGen.PatchToHere(s, escape + fl), m)
  {
    hide Open, Leads, ListOk, SameList;
    OpenLess(s, m, escape + fl);
    OpenLess(s, escape, fl);
    ListIn(s, escape);
    OpenPerm(s, m + (escape + fl), (escape + m) + fl);
    OpenLess(s, escape + m, fl);
    OpenHere(s, escape);
    OpenHere(s, escape + fl);
    HereLeads(s, m, escape + fl);
    LeadsOpen(s, m + (escape + fl), CodeGen.PatchToHere(s, escape + fl), m);
  }

  lemma PartFacts(s: Fs, l: seq<nat>, escape: seq<nat>, fl: seq<nat>)
    requires Open(s, l + (escape + fl))
    ensures var (t, j) := Jump(s); var u := CodeGen.PatchToHere(t, fl); var b := l + (escape + j) + fl;
            && Open(s, escape) && Open(s, escape + fl) && Open(s, escape + l) && Leads(s, l + (escape + fl), t, b)
            && Open(t, escape + j) && Open(t, l) && ListOk(t.code, t.jpc + fl) && Apart(t.jpc, fl)
            && Open(u, l + (escape + j)) && Open(u, l)
  {
    hide Open, Leads, Jump, ListOk, SameList;
    var a := l + (escape + fl);
    ElseStep(s, l, escape, fl);
    var (t, j) := Jump(s);
    OpenLess(s, l, escape + fl);
    OpenLess(s, escape, fl);
    OpenPerm(s, a, (escape + l) + fl);
    OpenLess(s, escape + l, fl);
    var b := l + (escape + j) + fl;
    OpenLess(t, l + (escape + j), fl);
    OpenLess(t, l, escape + j);
    OpenHere(t, fl);
    OpenLess(CodeGen.PatchToHere(t, fl), l, escape + j);
  }

  lemma ListIn(s: Fs, l: seq<nat>)
    requires Open(s, l)
    ensures ListOk(s.code, l)
  {}

  /** The break list of the loop around keeps its chain. */
  lemma HeadWaits(c: seq<Instr>, s: Fs, a: seq<nat>, c2: seq<Instr>, t: Fs, b: seq<nat>, blocks: seq<BlockCnt>, l: seq<nat>)
    requires SameCode(c, s.code) && Follows(c, s, a, c2, t, b) && Open(s, a + l)
    requires var i := Inner(blocks); if i < 0 then l == [] else Chain(c, blocks[i].breaklist, l)
    ensures var i := Inner(blocks); if i < 0 then l == [] else Chain(c2, blocks[i].breaklist, l)
  {
    var i := Inner(blocks);
    if i >= 0 { Waits(c, s, a, c2, t, b, blocks[i].breaklist, l); }
  }

  lemma HeadStays(c: seq<Instr>, s: Fs, c2: seq<Instr>, t: Fs, b: seq<nat>, blocks: seq<BlockCnt>, l: seq<nat>)
    requires SameCode(c, s.code) && Follows(c, s, [], c2, t, b) && Open(s, l)
    requires var i := Inner(blocks); if i < 0 then l == [] else Chain(c, blocks[i].breaklist, l)
    ensures var i := Inner(blocks); if i < 0 then l == [] else Chain(c2, blocks[i].breaklist, l)
  {
    assert [] + l == l;
    HeadWaits(c, s, [], c2, t, b, blocks, l);
  }

  lemma ConcatUntouched(c: seq<Instr>, s: Fs, c2: seq<Instr>, l: seq<nat>)
    requires |c2| == |c| && forall j: nat {:trigger c2[j]} :: j < |c2| && j !in l ==> c2[j] == c[j]
    ensures Untouched(c, s.code, c2, Waiting(s, l))
  {
    WaitingIs(s, l);
    forall j: nat | j < |c| && Pending(s.code, j) && j !in Waiting(s, l) ensures j < |c2| && c2[j] == c[j] {}
  }

  /** The states of a `repeat` loop, by themselves. */
  lemma RepeatFacts(s: Fs, l: seq<nat>, body: Stat, e: Expr)
    requires Open(s, l) && Scoped(SRepeat(body, e), s.nactvar)
    ensures var (s1, breaks) := GenStat(s, [], body); var (u, exit) := Cond(s1, e); var s2 := Settle(u, s.nactvar);
            var s3 := PatchTo(s2, exit, |s.code|); var t := CodeGen.PatchToHere(s3, breaks);
            && Open(s, []) && Leads(s, [], s1, breaks) && Open(s1, breaks) && Ready(s1) && LocalsBelow(e, s1.nactvar) && s1.nactvar >= s.nactvar
            && Leads(s, [], u, breaks + exit) && Open(u, breaks + exit)
            && Leads(u, breaks + exit, s2, breaks + exit) && Open(s2, breaks + exit) && Open(s2, exit + breaks)
            && Leads(s2, breaks + exit, s3, breaks) && Open(s3, breaks) && s3 == Settle(s3, s.nactvar)
            && GenStat(s, l, SRepeat(body, e)) == (t, l) && Open(t, l)
  {
    hide Paired, ListOk, Open, Leads, Cond, PatchTo, SameList, GenStat, Settle;
    RepeatWhole(s, l, body, e);
    StatGood(s, [], body);
    RepeatEnd(s, [], body, e);
    var (s1, breaks) := GenStat(s, [], body);
    var (u, exit) := Cond(s1, e);
    var s2 := Settle(u, s.nactvar);
    var s3 := PatchTo(s2, exit, |s.code|);
    var none: seq<nat> := [];
    assert none + breaks == breaks;
    LeadsOpen(s, [], s1, breaks);
    OpenReady(s1, breaks);
    LeadsTrans(s, [], s1, breaks, u, breaks + exit);
    LeadsOpen(s, [], u, breaks + exit);
    OpenPerm(s2, breaks + exit, exit + breaks);
    SettledTo(u, s.nactvar, exit, |s.code|);
  }

  lemma RepeatWhole(s: Fs, l: seq<nat>, body: Stat, e: Expr)
    requires Open(s, l) && Scoped(SRepeat(body, e), s.nactvar)
    ensures var (s1, breaks) := GenStat(s, [], body); var (u, exit) := Cond(s1, e);
            var t := CodeGen.PatchToHere(PatchTo(Settle(u, s.nactvar), exit, |s.code|), breaks);
            && Open(s, []) && Scoped(body, s.nactvar) && LocalsBelow(e, s.nactvar + Declared(body))
            && GenStat(s, l, SRepeat(body, e)) == (t, l) && Open(t, l)
  {
    hide Paired, ListOk, Open, Leads, Cond, PatchTo, SameList, GenStat, Settle;
    RepeatForm(s, l, body, e);
    StatGood(s, l, SRepeat(body, e));
    LeadsOpen(s, l, GenStat(s, l, SRepeat(body, e)).0, l);
    OpenNone(s, l);
  }

  lemma SettledTo(s: Fs, n: nat, l: seq<nat>, target: nat)
    ensures PatchTo(Settle(s, n), l, target) == Settle(PatchTo(Settle(s, n), l, target), n)
  {}

  /** The states of a `while` loop, by themselves. */
  lemma WhileFacts(s: Fs, l: seq<nat>, e: Expr, body: Stat)
    requires Open(s, l) && Scoped(SWhile(e, body), s.nactvar)
    ensures var (s1, exit) := Cond(s, e); var (s2, breaks) := GenBlock(s1, [], body); var (s3, back) := Jump(s2);
            var s4 := PatchTo(s3, back, |s.code|); var s5 := PatchToHere(s4, breaks); var t := PatchToHere(s5, exit);
            && Open(s, []) && Leads(s, [], s1, exit) && Open(s1, []) && Open(s1, exit) && s1.nactvar == s.nactvar
            && Leads(s, [], s2, exit + breaks) && Open(s2, breaks + exit) && Open(s2, exit + breaks)
            && Leads(s2, exit + breaks, s3, exit + breaks + back) && Open(s3, exit + breaks + back) && Open(s3, back + exit) && Open(s3, back + breaks)
            && Leads(s3, exit + breaks + back, s4, exit + breaks) && Open(s4, exit + breaks) && Open(s4, exit) && s4 == Settle(s4, s1.nactvar)
            && Leads(s4, exit + breaks, s5, exit) && ListOk(s5.code, s5.jpc + exit) && Apart(s5.jpc, exit)
            && GenStat(s, l, SWhile(e, body)) == (t, l) && Open(t, l)
  {
    hide Paired, ListOk, Open, Leads, Cond, Jump, PatchTo, SameList, GenStat;
    WhileWhole(s, l, e, body);
    CondBeside(s, [], e);
    var (s1, exit) := Cond(s, e);
    assert [] + exit == exit;
    OpenNone(s1, exit);
    StatGood(s1, [], body);
    WhileEnd(s, [], e, body);
    var (s2, breaks) := GenBlock(s1, [], body);
    var (s3, back) := Jump(s2);
    var s4 := PatchTo(s3, back, |s.code|);
    var s5 := PatchToHere(s4, breaks);
    LeadsTrans(s, [], s1, exit, s2, exit + breaks);
    LeadsOpen(s, [], s2, exit + breaks);
    OpenPerm(s2, exit + breaks, breaks + exit);
    LeadsOpen(s2, exit + breaks, s3, exit + breaks + back);
    OpenBoth(s3, exit, breaks, back);
    OpenLess(s4, exit, breaks);
    OpenReady(s4, exit + breaks);
    WhileLocals(s, e, body);
    LeadsOpen(s4, exit + breaks, s5, exit);
    OpenHere(s5, exit);
  }

  lemma WhileWhole(s: Fs, l: seq<nat>, e: Expr, body: Stat)
    requires Open(s, l) && Scoped(SWhile(e, body), s.nactvar)
    ensures var (s1, exit) := Cond(s, e); var (s2, breaks) := GenBlock(s1, [], body); var (s3, back) := Jump(s2);
            var t := CodeGen.PatchToHere(CodeGen.PatchToHere(PatchTo(s3, back, |s.code|), breaks), exit);
            && Open(s, []) && Ready(s) && LocalsBelow(e, s.nactvar) && Scoped(body, s.nactvar)
            && GenStat(s, l, SWhile(e, body)) == (t, l) && Open(t, l)
  {
    hide Paired, ListOk, Open, Leads, Cond, Jump, PatchTo, SameList, GenStat, GenBlock;
    WhileForm(s, l, e, body);
    StatGood(s, l, SWhile(e, body));
    LeadsOpen(s, l, GenStat(s, l, SWhile(e, body)).0, l);
    OpenReady(s, l);
    OpenNone(s, l);
  }

  lemma WhileLocals(s: Fs, e: Expr, body: Stat)
    ensures var s1 := Cond(s, e).0; PatchTo(Jump(GenBlock(s1, [], body).0).0, Jump(GenBlock(s1, [], body).0).1, |s.code|).nactvar == s1.nactvar
  {
    hide Cond, GenStat;
  }

  lemma OpenBoth(s: Fs, a: seq<nat>, b: seq<nat>, d: seq<nat>)
    requires Open(s, a + b + d)
    ensures Open(s, d + a) && Open(s, d + b)
  {
    OpenPerm(s, a + b + d, (d + a) + b);
    OpenLess(s, d + a, b);
    OpenPerm(s, a + b + d, (d + b) + a);
    OpenLess(s, d + b, a);
  }

  lemma OpenHere(s: Fs, l: seq<nat>)
    requires Open(s, l)
    ensures ListOk(s.code, s.jpc + l) && Apart(s.jpc, l)
  {
    JoinLists(s.code, s.jpc, l);
  }

  lemma TwoScopes(bs: seq<BlockCnt>, blocks: seq<BlockCnt>)
    requires |blocks| == |bs| + 2
    requires SameBlocks(bs + [BlockCnt(NO_JUMP, true, blocks[|bs|].nactvar), BlockCnt(NO_JUMP, false, blocks[|bs| + 1].nactvar)], blocks)
    ensures blocks[|bs| + 1].breaklist == NO_JUMP && blocks[..|blocks| - 1][..|bs|] == bs
  {
    var a := bs + [BlockCnt(NO_JUMP, true, blocks[|bs|].nactvar), BlockCnt(NO_JUMP, false, blocks[|bs| + 1].nactvar)];
    InnerIs(a, |bs|);
    forall k | 0 <= k < |bs| ensures blocks[k] == bs[k] { assert a[k] == bs[k]; }
    assert a[|bs| + 1].breaklist == NO_JUMP;
  }

  lemma StatForms(s: Fs, l: seq<nat>)
    ensures GenStat(s, l, SSkip) == (s, l) && GenStat(s, l, SBreak) == (Jump(s).0, l + Jump(s).1)
    ensures forall e :: GenStat(s, l, SLocal(e)) == (LocalCode(s, e), l)
    ensures forall r, e :: GenStat(s, l, SAssign(r, e)) == (AssignCode(s, r, e), l)
    ensures forall body :: GenStat(s, l, SDo(body)) == GenBlock(s, l, body)
  {
    hide Jump, LocalCode, AssignCode, GenBlock;
  }

  lemma StartLoop(bs: seq<BlockCnt>, n: nat)
    ensures Inner(bs + [BlockCnt(NO_JUMP, true, n)]) == |bs|
  {}

  lemma EndLoop(bs: seq<BlockCnt>, blocks: seq<BlockCnt>, n: nat)
    requires SameBlocks(bs + [BlockCnt(NO_JUMP, true, n)], blocks)
    ensures |blocks| == |bs| + 1 && blocks[..|bs|] == bs && blocks[|bs|].nactvar == n
  {
    var a := bs + [BlockCnt(NO_JUMP, true, n)];
    assert Inner(a) == |bs|;
    assert a[|bs|].nactvar == n;
    forall k | 0 <= k < |bs| ensures blocks[k] == bs[k] { assert a[k] == bs[k]; }
  }

  lemma NoChain(code: seq<Instr>)
    ensures Chain(code, NO_JUMP, [])
  {}

  lemma MembersAre(s: Fs)
    ensures Members(s.jpc) == Waiting(s, [])
  {}

  /** A list keeps its chain while others are worked on. */
  lemma Waits(c: seq<Instr>, s: Fs, a: seq<nat>, c2: seq<Instr>, t: Fs, b: seq<nat>, head: int, l: seq<nat>)
    requires SameCode(c, s.code) && Follows(c, s, a, c2, t, b) && Open(s, a + l) && Chain(c, head, l)
    ensures Chain(c2, head, l)
  {
    SplitList(s.code, a, l);
    WaitingIs(s, a);
    assert forall j <- l :: j in a + l;
    ChainUntouched(c, s.code, c2, Waiting(s, a), head, l);
  }

  lemma InnerIs(blocks: seq<BlockCnt>, i: int)
    requires 0 <= i < |blocks| && blocks[i].isbreakable && forall k :: i < k < |blocks| ==> !blocks[k].isbreakable
    ensures Inner(blocks) == i
  {}

  lemma InnerScope(blocks: seq<BlockCnt>, b: BlockCnt)
    ensures Inner(blocks + [b]) == if b.isbreakable then |blocks| else Inner(blocks)
  {
    assert (blocks + [b])[..|blocks|] == blocks;
  }

  /** The break list waits while own code is made. */
  lemma NoneTouched(s: Fs, l: seq<nat>)
    requires Open(s, l)
    ensures ListOk(s.code, l) && forall j <- l :: j !in Members(s.jpc)
  {}

  /** Jumps that nobody waits for are not touched by what follows either. */
  lemma LeadsUntouched(c: seq<Instr>, s: Fs, l: seq<nat>, c1: seq<Instr>, t: Fs, m: seq<nat>, c2: seq<Instr>, own: set<nat>)
    requires Leads(s, l, t, m) && |c| == |s.code| && |c1| == |t.code| && own <= Waiting(t, m)
    requires Untouched(c, s.code, c1, Waiting(s, l)) && Untouched(c1, t.code, c2, own)
    ensures Untouched(c, s.code, c2, Waiting(s, l))
  {
    forall j: nat | j < |c| && Pending(s.code, j) && j !in Waiting(s, l) ensures j < |c2| && c2[j] == c[j] {
      assert t.code[j] == s.code[j];
      assert c1[j] == c[j];
      assert j !in own;
    }
  }

  lemma GenCond(s: Fs, e: Expr)
    requires Ready(s) && LocalsBelow(e, s.nactvar)
    ensures var (t, g) := Gen(s, e); Usable(t, g) && Usable(t, CondExp(g))
    ensures var (t, g) := Gen(s, e); var (u, f) := CodeGen.DischargeVars(t, CondExp(g)); ShapeIs(u, f.k, CondShape(e))
  {
    hide Emit, Paired, ListOk, Gen, Usable, Good, Since;
    GenUsable(s, e);
    GenGood(s, e);
    var (t, g) := Gen(s, e);
    CondDischarge(t, g);
    hide CodeGen.DischargeVars;
    CondUsable(t, g);
  }

  lemma CondUsable(s: Fs, g: Exp)
    requires Usable(s, g)
    ensures Usable(s, CondExp(g))
  {
    hide Emit, Paired, ListOk, Fits;
    CondDischarge(s, g);
  }

  lemma CondThen(s: Fs, g: Exp)
    ensures Owned(s, CondExp(g)) == Owned(s, g) && (g.k.VNil? ==> CondExp(g) == g.(k := VFalse))
  {}
}
