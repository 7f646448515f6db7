/** What patching does to the code: jump lists and later versions of the code. */
module CodeLists {
  import opened CodeVm
  import opened CodeTree
  import opened CodeGen

  /** A jump that is still on a list. */
  predicate Pending(code: seq<Instr>, j: nat) {
    j < |code| && code[j] == Jmp(NO_JUMP)
  }

  ghost predicate ListOk(code: seq<Instr>, l: seq<nat>) {
    && (forall j <- l :: Pending(code, j))
    && forall i, j :: 0 <= i < j < |l| ==> l[i] != l[j]
  }

  predicate Apart(a: seq<nat>, b: seq<nat>) {
    forall j <- a :: j !in b
  }

  // ---- Later versions of the code -----------------------------------------

  /** A test that may still be told where to put the value, or to put it nowhere. */
  predicate Loose(code: seq<Instr>, i: nat) {
    i < |code| && code[i].TestSet? && (i + 1 == |code| || code[i + 1] == Jmp(NO_JUMP))
  }

  predicate Resolves(i: Instr, later: Instr) {
    i.TestSet? && (later == Test(i.b, i.c) || (later.TestSet? && later.b == i.b && later.c == i.c))
  }

  /** `later` is the same code when more jumps have been fixed and more
      instructions added. */
  ghost predicate Fits(later: seq<Instr>, code: seq<Instr>) {
    && |code| <= |later|
    && forall i: nat {:trigger code[i]} {:trigger later[i]} :: i < |code| ==>
         if code[i] == Jmp(NO_JUMP) then later[i].Jmp?
         else if Loose(code, i) then Resolves(code[i], later[i])
         else later[i] == code[i]
  }

  lemma FitsSelf(code: seq<Instr>)
    ensures Fits(code, code)
  {}

  lemma FitsTrans(c: seq<Instr>, b: seq<Instr>, a: seq<Instr>)
    requires Fits(c, b) && Fits(b, a)
    ensures Fits(c, a)
  {
    forall i: nat | i < |a|
      ensures if a[i] == Jmp(NO_JUMP) then c[i].Jmp?
              else if Loose(a, i) then Resolves(a[i], c[i])
              else c[i] == a[i]
    {
      assert i < |b| && i < |c|;
      if i + 1 < |a| { assert i + 1 < |b| && i + 1 < |c|; assert a[i + 1] == a[i + 1]; }
    }
  }

  /** Cutting both versions at the same place, or only the later one beyond it. */
  lemma FitsCut(later: seq<Instr>, code: seq<Instr>, n: nat)
    requires Fits(later, code) && n <= |code|
    requires n == |code| || n == 0 || !code[n - 1].TestSet? || code[n] == Jmp(NO_JUMP)
    ensures Fits(later, code[..n])
  {
    forall i: nat | i < n
      ensures if code[..n][i] == Jmp(NO_JUMP) then later[i].Jmp?
              else if Loose(code[..n], i) then Resolves(code[..n][i], later[i])
              else later[i] == code[..n][i]
    {
      assert code[..n][i] == code[i];
      if i + 1 < n { assert code[..n][i + 1] == code[i + 1]; }
    }
  }

  lemma FitsMore(code: seq<Instr>, more: seq<Instr>)
    ensures Fits(code + more, code)
  {
    forall i: nat | i < |code|
      ensures if code[i] == Jmp(NO_JUMP) then (code + more)[i].Jmp?
              else if Loose(code, i) then Resolves(code[i], (code + more)[i])
              else (code + more)[i] == code[i]
    {
      assert (code + more)[i] == code[i];
    }
  }

  // ---- Patching -----------------------------------------------------------

  /** The test of a patched jump. */
  function PatchedTest(i: Instr, reg: Option<nat>): Instr
    requires i.TestSet?
  {
    if reg.Some? && reg.value != i.b then TestSet(reg.value, i.b, i.c) else Test(i.b, i.c)
  }

  function PatchedJump(code: seq<Instr>, j: nat, vtarget: int, dtarget: int): Instr {
    Jmp((if Valued(code, j) then vtarget else dtarget) - (j + 1))
  }

  /** Position by position: what `patchlistaux` leaves. */
  ghost predicate Patched(code: seq<Instr>, r: seq<Instr>, l: seq<nat>, vtarget: int, reg: Option<nat>, dtarget: int) {
    && |r| == |code|
    && forall i: nat {:trigger code[i]} {:trigger r[i]} :: i < |code| ==>
         r[i] == if i in l then PatchedJump(code, i, vtarget, dtarget)
                 else if i + 1 in l && code[i].TestSet? then PatchedTest(code[i], reg)
                 else code[i]
  }

  /** Every member goes to its target, its test delivers in the right place, and
      nothing else changes. */
  lemma {:induction false} PatchListSpec(code: seq<Instr>, l: seq<nat>, vtarget: int, reg: Option<nat>, dtarget: int)
    requires ListOk(code, l)
    ensures Patched(code, PatchList(code, l, vtarget, reg, dtarget), l, vtarget, reg, dtarget)
    decreases |l|
  {
    if l != [] {
      var j := l[0];
      var c := FixJump(PatchTest(code, j, reg), j, if Valued(code, j) then vtarget else dtarget);
      var rest := l[1..];
      assert l == [j] + rest;
      assert Pending(code, j) && j !in rest;
      PatchOne(code, j, vtarget, reg, dtarget);
      forall i <- rest ensures Pending(c, i) { assert Pending(code, i); }
      PatchListSpec(c, rest, vtarget, reg, dtarget);
      var r := PatchList(c, rest, vtarget, reg, dtarget);
      forall i: nat | i < |code|
        ensures r[i] == if i in l then PatchedJump(code, i, vtarget, dtarget)
                        else if i + 1 in l && code[i].TestSet? then PatchedTest(code[i], reg)
                        else code[i]
      {
        assert c[i] == c[i];
        if i in rest {
          assert Pending(code, i);
          if i >= 1 { assert c[i - 1] == c[i - 1]; }
        } else if i != j {
          assert i in l ==> i in rest;
        }
      }
    }
  }

  lemma PatchOne(code: seq<Instr>, j: nat, vtarget: int, reg: Option<nat>, dtarget: int)
    requires Pending(code, j)
    ensures var c := FixJump(PatchTest(code, j, reg), j, if Valued(code, j) then vtarget else dtarget);
            Patched(code, c, [j], vtarget, reg, dtarget)
  {}

  lemma PatchedFits(code: seq<Instr>, r: seq<Instr>, l: seq<nat>, vtarget: int, reg: Option<nat>, dtarget: int)
    requires ListOk(code, l) && Patched(code, r, l, vtarget, reg, dtarget)
    ensures Fits(r, code)
  {
    forall i: nat | i < |code|
      ensures if code[i] == Jmp(NO_JUMP) then r[i].Jmp?
              else if Loose(code, i) then Resolves(code[i], r[i])
              else r[i] == code[i]
    {
      if i in l { assert Pending(code, i); }
      if i + 1 in l { assert Pending(code, i + 1); }
    }
  }

  /** A list apart from the patched one is as it was. */
  lemma PatchedApart(code: seq<Instr>, r: seq<Instr>, l: seq<nat>, vtarget: int, reg: Option<nat>, dtarget: int, m: seq<nat>)
    requires ListOk(code, l) && Patched(code, r, l, vtarget, reg, dtarget) && ListOk(code, m) && Apart(m, l)
    ensures ListOk(r, m)
    ensures forall j <- m :: Valued(r, j) <==> Valued(code, j)
    ensures forall j <- m :: Valued(r, j) ==> r[j - 1] == code[j - 1]
  {
    forall j <- m ensures Pending(r, j) && (Valued(r, j) <==> Valued(code, j)) && (Valued(r, j) ==> r[j - 1] == code[j - 1]) {
      assert Pending(code, j);
      assert r[j] == r[j];
      if j >= 1 { assert r[j - 1] == r[j - 1]; if j - 1 in l { assert Pending(code, j - 1); } }
    }
  }

  // ---- removevalues -------------------------------------------------------

  ghost predicate Removed(code: seq<Instr>, r: seq<Instr>, l: seq<nat>) {
    && |r| == |code|
    && forall i: nat {:trigger code[i]} {:trigger r[i]} :: i < |code| ==>
         r[i] == if i + 1 in l && code[i].TestSet? then Test(code[i].b, code[i].c) else code[i]
  }

  lemma {:induction false} RemoveValuesSpec(code: seq<Instr>, l: seq<nat>)
    requires ListOk(code, l)
    ensures Removed(code, RemoveValues(code, l), l)
    decreases |l|
  {
    if l != [] {
      var c := PatchTest(code, l[0], None);
      var rest := l[1..];
      assert l == [l[0]] + rest;
      assert Pending(code, l[0]);
      forall i <- rest ensures Pending(c, i) { assert Pending(code, i); }
      RemoveValuesSpec(c, rest);
      var r := RemoveValues(c, rest);
      forall i: nat | i < |code|
        ensures r[i] == if i + 1 in l && code[i].TestSet? then Test(code[i].b, code[i].c) else code[i]
      {
        assert c[i] == c[i];
      }
    }
  }

  /** Taking values away keeps every list. */
  lemma RemovedFits(code: seq<Instr>, r: seq<Instr>, l: seq<nat>)
    requires ListOk(code, l) && Removed(code, r, l)
    ensures Fits(r, code)
    ensures forall m :: ListOk(code, m) ==> ListOk(r, m)
  {
    forall i: nat | i < |code|
      ensures if code[i] == Jmp(NO_JUMP) then r[i].Jmp?
              else if Loose(code, i) then Resolves(code[i], r[i])
              else r[i] == code[i]
    {
      if i + 1 in l { assert Pending(code, i + 1); }
    }
    forall m | ListOk(code, m) ensures ListOk(r, m) {
      forall j <- m ensures Pending(r, j) { assert Pending(code, j); assert r[j] == r[j]; }
    }
  }

  // ---- Emitting -----------------------------------------------------------

  /** Adding an instruction: the pending jumps go there without their values. */
  lemma EmitSpec(s: Fs, i: Instr)
    requires ListOk(s.code, s.jpc)
    ensures var t := Emit(s, i);
            && t == s.(code := t.code, jpc := []) && |t.code| == |s.code| + 1
            && t.code[|s.code|] == i
            && Patched(s.code, t.code[..|s.code|], s.jpc, |s.code|, None, |s.code|)
            && Fits(t.code[..|s.code|], s.code) && Fits(t.code, s.code)
  {
    var n := |s.code|;
    PatchListSpec(s.code, s.jpc, n, None, n);
    var p := PatchList(s.code, s.jpc, n, None, n);
    PatchedFits(s.code, p, s.jpc, n, None, n);
    assert (p + [i])[..n] == p;
    FitsMore(p, [i]);
    FitsTrans(p + [i], p, s.code);
  }

  lemma ListMore(code: seq<Instr>, more: seq<Instr>, l: seq<nat>)
    requires ListOk(code, l)
    ensures ListOk(code + more, l)
    ensures forall j <- l :: j < |code| && (Valued(code + more, j) <==> Valued(code, j))
    ensures forall j <- l :: Valued(code, j) ==> (code + more)[j - 1] == code[j - 1]
  {
    forall j <- l ensures Pending(code + more, j) && j < |code| && (Valued(code + more, j) <==> Valued(code, j)) {
      assert Pending(code, j);
    }
  }

  /** What the members of a list look like, however the rest of the code changes. */
  ghost predicate SameList(code: seq<Instr>, later: seq<Instr>, l: seq<nat>) {
    && ListOk(code, l) && ListOk(later, l)
    && forall j <- l :: (Valued(later, j) <==> Valued(code, j)) && (Valued(code, j) ==> later[j - 1] == code[j - 1])
  }

  lemma EmitApart(s: Fs, i: Instr, m: seq<nat>)
    requires ListOk(s.code, s.jpc) && ListOk(s.code, m) && Apart(m, s.jpc)
    ensures SameList(s.code, Emit(s, i).code, m)
  {
    var n := |s.code|;
    PatchListSpec(s.code, s.jpc, n, None, n);
    var p := PatchList(s.code, s.jpc, n, None, n);
    PatchedApart(s.code, p, s.jpc, n, None, n, m);
    ListMore(p, [i], m);
  }
}
