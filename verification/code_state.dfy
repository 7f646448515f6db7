/** The invariant of the code generator between two operations. */
module CodeState {
  import opened CodeVm
  import opened CodeTree
  import opened CodeGen
  import opened CodeLists

  /** A test that can deliver a value is followed by its jump. */
  ghost predicate Paired(code: seq<Instr>) {
    forall i: nat {:trigger code[i]} :: i < |code| && code[i].TestSet? ==> i + 1 < |code| && code[i + 1].Jmp?
  }

  /** The jumps that an expression still has to send somewhere. */
  function Owned(s: Fs, e: Exp): set<nat> {
    (set j | j in s.jpc) + (set j | j in e.t) + (set j | j in e.f) + (if e.k.VJmp? then {e.k.pc} else {})
  }

  /** The place from which the code may still change: the last instruction of a
      relocatable expression, the test of a comparison. */
  function Front(s: Fs, e: Exp): int {
    if e.k.VReloc? then |s.code| - 1 else if e.k.VJmp? then |s.code| - 2 else |s.code|
  }

  /** `luaK_dischargevars` has nothing left to do. */
  predicate Discharged(k: Kind) {
    !k.VLocal? && !k.VGlobal? && !k.VCall?
  }

  ghost predicate Ready(s: Fs) {
    Paired(s.code) && ListOk(s.code, s.jpc) && s.nactvar <= s.freereg
  }

  /** The lists are sound and share no jump. */
  ghost predicate ListsGood(s: Fs, e: Exp) {
    && Ready(s) && ListOk(s.code, e.t) && ListOk(s.code, e.f)
    && Apart(e.t, e.f) && Apart(e.t, s.jpc) && Apart(e.f, s.jpc)
  }

  /** The value is where the kind says. */
  ghost predicate KindGood(s: Fs, e: Exp) {
    && Discharged(e.k)
    && match e.k
       case VReloc(pc) =>
         pc + 1 == |s.code| && s.jpc == [] && (s.code[pc].GetGlobal? || s.code[pc].Not?)
       case VJmp(pc) =>
         && pc + 1 == |s.code| && pc >= 1 && s.jpc == [] && Pending(s.code, pc) && s.code[pc - 1].Cmp?
         && pc !in e.t && pc !in e.f
       case VNonReloc(r) => r < s.nactvar || (r + 1 == s.freereg && s.jpc == [])
       case _ => true
  }

  ghost predicate Good(s: Fs, e: Exp) {
    match s case Fs(_, _, _, _, _) => ListsGood(s, e) && KindGood(s, e)
  }

  /** The registers in use without the value of the expression itself. */
  function Base(s: Fs, e: Exp): int {
    if e.k.VNonReloc? && e.k.r >= s.nactvar then s.freereg - 1 else s.freereg
  }

  /** No expression. */
  const Nothing := Exp(VTrue, [], [])

  /** What has happened since: jumps have been fixed, code has been added, and
      only jumps of the expression at hand have been touched. */
  ghost predicate Since(s: Fs, e: Exp, t: Fs, f: Exp) {
    match t case Fs(_, _, _, _, _) =>
    && Front(s, e) >= 0 && Front(t, f) >= Front(s, e)
    && (Front(s, e) == 0 || !s.code[Front(s, e) - 1].TestSet?)
    && Fits(t.code, s.code[..Front(s, e)])
    && (forall j <- Owned(t, f) :: j in Owned(s, e) || j >= Front(s, e))
    && (forall i: nat {:trigger s.code[i]} {:trigger t.code[i]} ::
         i < Front(s, e) && i !in Owned(s, e) && !(i + 1 in Owned(s, e) && s.code[i].TestSet?) ==> t.code[i] == s.code[i])
    && t.nactvar == s.nactvar && s.k <= t.k && NoneLost(s, e, t, f)
  }

  /** Every jump that is not fixed yet is on a list, or was not fixed before. */
  ghost predicate NoneLost(s: Fs, e: Exp, t: Fs, f: Exp) {
    forall j: nat :: Pending(t.code, j) && j !in Owned(t, f) ==> j < Front(s, e) && Pending(s.code, j) && j !in Owned(s, e)
  }

  lemma SinceSelf(s: Fs, e: Exp)
    requires Good(s, e)
    ensures Since(s, e, s, e)
  {
    var n := Front(s, e);
    assert s.code == s.code[..n] + s.code[n..];
    FitsMore(s.code[..n], s.code[n..]);
  }

  /** What may still change is no jump of others. */
  lemma PendingFront(s: Fs, e: Exp)
    requires Good(s, e)
    ensures forall j: nat :: Pending(s.code, j) && j !in Owned(s, e) ==> j < Front(s, e)
  {
    hide Paired, ListOk;
  }

  lemma GoodEdge(s: Fs, e: Exp)
    requires Good(s, e)
    ensures Front(s, e) >= 0 && (Front(s, e) == 0 || !s.code[Front(s, e) - 1].TestSet?)
    ensures forall j <- Owned(s, e) :: Pending(s.code, j)
  {}

  lemma SinceTrans(s: Fs, e: Exp, t: Fs, f: Exp, u: Fs, g: Exp)
    requires Since(s, e, t, f) && Since(t, f, u, g)
    ensures Since(s, e, u, g)
  {
    var n, m := Front(s, e), Front(t, f);
    assert Fits(t.code[..m], s.code[..n]);
    FitsTrans(u.code, t.code[..m], s.code[..n]);
    forall i: nat | i < n && i !in Owned(s, e) && !(i + 1 in Owned(s, e) && s.code[i].TestSet?)
      ensures u.code[i] == s.code[i]
    {
      assert t.code[i] == s.code[i];
    }
  }

  /** Lists of other expressions are as they were. */
  lemma SinceApart(s: Fs, e: Exp, t: Fs, f: Exp, m: seq<nat>)
    requires Since(s, e, t, f) && ListOk(s.code, m)
    requires forall j <- m :: j < Front(s, e) && j !in Owned(s, e)
    requires forall j <- Owned(s, e) :: Pending(s.code, j)
    ensures SameList(s.code, t.code, m)
    ensures forall j <- m :: j !in Owned(t, f)
  {
    forall j <- m
      ensures Pending(t.code, j) && (Valued(t.code, j) <==> Valued(s.code, j)) && (Valued(s.code, j) ==> t.code[j - 1] == s.code[j - 1])
    {
      assert Pending(s.code, j);
      assert s.code[j] == t.code[j];
      if j >= 1 { SinceBefore(s, e, t, f, j); }
    }
  }

  lemma SinceBefore(s: Fs, e: Exp, t: Fs, f: Exp, j: nat)
    requires Since(s, e, t, f) && 1 <= j < Front(s, e) && j !in Owned(s, e) && Pending(s.code, j)
    requires forall i <- Owned(s, e) :: Pending(s.code, i)
    ensures Valued(t.code, j) <==> Valued(s.code, j)
    ensures Valued(s.code, j) ==> t.code[j - 1] == s.code[j - 1]
  {
    var i := j - 1;
    if i in Owned(s, e) {
      assert Pending(s.code, i);
      assert s.code[..Front(s, e)][i] == s.code[i];
    } else {
      assert t.code[i] == s.code[i];
    }
  }

  // ---- Single operations --------------------------------------------------

  lemma PatchedPaired(code: seq<Instr>, r: seq<Instr>, l: seq<nat>, vtarget: int, reg: Option<nat>, dtarget: int)
    requires ListOk(code, l) && Patched(code, r, l, vtarget, reg, dtarget) && Paired(code)
    ensures Paired(r)
  {
    forall i: nat | i < |r| && r[i].TestSet? ensures i + 1 < |r| && r[i + 1].Jmp? {
      assert code[i] == code[i];
      assert r[i + 1] == r[i + 1];
    }
  }

  /** Emitting an instruction that settles where a value is. */
  lemma EmitGood(s: Fs, e: Exp, i: Instr, k: Kind)
    requires ListsGood(s, e) && !e.k.VReloc? && !e.k.VJmp? && !i.TestSet? && !i.Jmp?
    requires !k.VJmp?
    ensures var t := Emit(s, i);
            && ListsGood(t, e.(k := k)) && Since(s, e, t, e.(k := k))
            && |t.code| == |s.code| + 1 && t.code[|s.code|] == i && t.jpc == [] && t.freereg == s.freereg && t.k == s.k
            && SameList(s.code, t.code, e.t) && SameList(s.code, t.code, e.f)
  {
    var n := |s.code|;
    var t := Emit(s, i);
    EmitSpec(s, i);
    EmitApart(s, i, e.t);
    EmitApart(s, i, e.f);
    var p := t.code[..n];
    PatchedPaired(s.code, p, s.jpc, n, None, n);
    assert t.code == p + [i];
    assert Paired(t.code) by {
      forall q: nat | q < |t.code| && t.code[q].TestSet? ensures q + 1 < |t.code| && t.code[q + 1].Jmp? {
        assert t.code[q] == p[q];
      }
    }
    EmitSince(s, e, i, k);
  }

  lemma EmitSince(s: Fs, e: Exp, i: Instr, k: Kind)
    requires ListsGood(s, e) && !e.k.VReloc? && !e.k.VJmp? && !k.VJmp? && i != Jmp(NO_JUMP)
    ensures Since(s, e, Emit(s, i), e.(k := k))
  {
    var n := |s.code|;
    var t := Emit(s, i);
    EmitSpec(s, i);
    assert s.code[..n] == s.code;
    forall q: nat | q < n && q !in Owned(s, e) && !(q + 1 in Owned(s, e) && s.code[q].TestSet?)
      ensures t.code[q] == s.code[q]
    {
      assert t.code[q] == t.code[..n][q];
    }
    EmitLost(s, e, i, k);
    hide NoneLost;
  }

  lemma EmitLost(s: Fs, e: Exp, i: Instr, k: Kind)
    requires ListOk(s.code, s.jpc) && !e.k.VReloc? && !e.k.VJmp? && !k.VJmp? && i != Jmp(NO_JUMP)
    ensures NoneLost(s, e, Emit(s, i), e.(k := k)) && Emit(s, i).jpc == [] && |Emit(s, i).code| == |s.code| + 1
  {
    var n := |s.code|;
    var t := Emit(s, i);
    EmitSpec(s, i);
    hide Fits;
    forall j: nat | Pending(t.code, j) && j !in Owned(t, e.(k := k)) ensures j < n && Pending(s.code, j) && j !in Owned(s, e) {
      assert t.code[j] == if j < n then t.code[..n][j] else i;
      assert s.code[j] == s.code[j];
    }
  }

  /** An unconditional jump, and the pending ones with it. */
  lemma JumpGood(s: Fs, e: Exp)
    requires ListsGood(s, e) && !e.k.VReloc? && !e.k.VJmp?
    ensures var (t, l) := Jump(s);
            && ListsGood(t, e) && Since(s, e, t, e.(f := e.f + l)) && ListOk(t.code, l) && Apart(l, e.t) && Apart(l, e.f)
            && t == s.(code := s.code + [Jmp(NO_JUMP)], jpc := []) && l == [|s.code|] + s.jpc
            && SameList(s.code, t.code, e.t) && SameList(s.code, t.code, e.f) && SameList(s.code, t.code, s.jpc)
            && !Valued(t.code, |s.code|)
  {
    var n := |s.code|;
    var (t, l) := Jump(s);
    var more := [Jmp(NO_JUMP)];
    ListMore(s.code, more, e.t);
    ListMore(s.code, more, e.f);
    ListMore(s.code, more, s.jpc);
    assert forall j <- l :: j == n || j in s.jpc;
    forall j <- s.jpc ensures j < n { assert Pending(s.code, j); }
    forall i, j | 0 <= i < j < |l| ensures l[i] != l[j] {
      assert l[j] == s.jpc[j - 1] && l[j] in s.jpc;
      if i > 0 { assert l[i] == s.jpc[i - 1]; }
    }
    forall j <- e.t + e.f ensures j < n { assert Pending(s.code, j); }
    assert Paired(t.code) by {
      forall q: nat | q < |t.code| && t.code[q].TestSet? ensures q + 1 < |t.code| && t.code[q + 1].Jmp? {
        assert t.code[q] == s.code[q];
      }
    }
    JumpSince(s, e);
  }

  lemma JumpSince(s: Fs, e: Exp)
    requires ListOk(s.code, s.jpc) && !e.k.VReloc? && !e.k.VJmp? && Paired(s.code)
    ensures var (t, l) := Jump(s); Since(s, e, t, e.(f := e.f + l))
  {
    hide ListOk;
    var n := |s.code|;
    var (t, l) := Jump(s);
    var g := e.(f := e.f + l);
    FitsMore(s.code, [Jmp(NO_JUMP)]);
    hide Fits;
    assert s.code[..n] == s.code;
    assert l[0] == n && forall j <- s.jpc :: j in l;
    assert forall j <- g.f :: j in e.f || j == n || j in s.jpc;
    assert forall j <- l :: j in g.f;
    forall j: nat | Pending(t.code, j) && j !in Owned(t, g) ensures j < n && Pending(s.code, j) && j !in Owned(s, e) {
      assert j !in l;
    }
  }
}
