/** Jump lists as the code generator keeps them: threaded through the operands of
    the jumps themselves. */
module CodeThreads {
  import opened CodeVm
  import opened CodeGen
  import opened CodeLists

  /** `getjump`: a jump to itself ends a list. */
  function Next(code: seq<Instr>, pc: nat): int
    requires pc < |code| && code[pc].Jmp?
  {
    if code[pc].sbx == NO_JUMP then NO_JUMP else pc + 1 + code[pc].sbx
  }

  /** The list that starts at `head` has exactly the members `l`, in this order,
      and ends. */
  ghost predicate Chain(code: seq<Instr>, head: int, l: seq<nat>)
    decreases |l|
  {
    if l == [] then head == NO_JUMP
    else head == l[0] && l[0] < |code| && code[l[0]].Jmp? && Chain(code, Next(code, l[0]), l[1..])
  }

  /** The real code and the code with all pending jumps blank. */
  ghost predicate SameCode(code: seq<Instr>, blank: seq<Instr>) {
    && |code| == |blank|
    && forall i: nat {:trigger code[i]} {:trigger blank[i]} :: i < |code| ==>
         if blank[i] == Jmp(NO_JUMP) then code[i].Jmp? else code[i] == blank[i]
  }

  /** Pending jumps outside `own` still hold the same link. */
  ghost predicate Untouched(code: seq<Instr>, blank: seq<Instr>, later: seq<Instr>, own: set<nat>) {
    forall j: nat {:trigger code[j]} {:trigger later[j]} ::
      j < |code| && Pending(blank, j) && j !in own ==> j < |later| && later[j] == code[j]
  }

  lemma {:induction false} ChainKept(code: seq<Instr>, later: seq<Instr>, head: int, l: seq<nat>)
    requires Chain(code, head, l) && forall j <- l :: j < |code| && j < |later| && later[j] == code[j]
    ensures Chain(later, head, l)
    decreases |l|
  {
    if l != [] {
      forall j <- l[1..] ensures j in l { assert l == [l[0]] + l[1..]; }
      assert l[0] in l;
      ChainKept(code, later, Next(code, l[0]), l[1..]);
    }
  }

  /** A list of which no member is touched stays as it is. */
  lemma ChainUntouched(code: seq<Instr>, blank: seq<Instr>, later: seq<Instr>, own: set<nat>, head: int, l: seq<nat>)
    requires SameCode(code, blank) && Untouched(code, blank, later, own)
    requires Chain(code, head, l) && ListOk(blank, l) && forall j <- l :: j !in own
    ensures Chain(later, head, l)
  {
    forall j <- l ensures j < |code| && j < |later| && later[j] == code[j] { assert Pending(blank, j); }
    ChainKept(code, later, head, l);
  }

  /** `luaK_concat` writes one link. */
  lemma {:induction false} ChainConcat(code: seq<Instr>, head: int, l: seq<nat>, head2: int, m: seq<nat>)
    requires Chain(code, head, l) && l != [] && Chain(code, head2, m) && m != []
    requires (forall i, j :: 0 <= i < j < |l| ==> l[i] != l[j]) && Apart(l, m)
    ensures var last := l[|l| - 1]; last < |code| && Chain(code[last := Jmp(head2 - (last + 1))], head, l + m)
    decreases |l|
  {
    var last := l[|l| - 1];
    if |l| == 1 {
      assert l[0] in l && m[0] in m;
      ChainKept(code, code[last := Jmp(head2 - (last + 1))], head2, m) by { ChainMembers(code, head2, m); }
      assert (l + m)[1..] == m;
    } else {
      var rest := l[1..];
      assert forall j <- rest :: j in l;
      ChainConcat(code, Next(code, l[0]), rest, head2, m);
      assert rest[|rest| - 1] == last && l[0] != last;
      assert (l + m)[1..] == rest + m;
    }
  }

  lemma {:induction false} ChainMembers(code: seq<Instr>, head: int, l: seq<nat>)
    requires Chain(code, head, l)
    ensures forall j <- l :: j < |code| && code[j].Jmp?
    decreases |l|
  {
    if l != [] {
      ChainMembers(code, Next(code, l[0]), l[1..]);
      assert l == [l[0]] + l[1..];
    }
  }

  lemma PatchListStep(code: seq<Instr>, l: seq<nat>, vtarget: int, reg: Option<nat>, dtarget: int)
    requires l != []
    ensures PatchList(code, l, vtarget, reg, dtarget) ==
            PatchList(FixJump(PatchTest(code, l[0], reg), l[0], if Valued(code, l[0]) then vtarget else dtarget), l[1..], vtarget, reg, dtarget)
  {}
}
