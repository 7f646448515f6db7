/** Upvalues are shared variables: the registers, open upvalues and CLOSE
    instructions of one activation do what a separate place for every variable
    would do. */
module ScopeCells {
  import opened ChunkWords
  import opened ScopeResolve

  type Value = int

  type Id = nat

  /** What an activation does to its variables.  `Enter(upval)` is the start of a
      block that the compiler has marked or not, `Leave` its end, with OP_CLOSE if it
      is marked; the rest are declarations, assignments and closures. */
  datatype Op = Enter(upval: bool) | Declare(v: Value) | SetLocal(r: nat, v: Value) | SetUpval(u: Id, v: Value) | Capture(r: nat) | Leave

  // ---- The machine --------------------------------------------------------

  /** Registers; the upvalues that are open, by register, and the values of those
      that are closed; the blocks around. */
  datatype Machine = Machine(regs: seq<Value>, open: map<nat, Id>, closed: map<Id, Value>, blocks: seq<Block>, next: Id)

  /** The register of an open upvalue. */
  function RegOf(regs: nat, open: map<nat, Id>, u: Id): (r: Option<nat>)
    ensures r.Some? ==> r.value < regs && r.value in open && open[r.value] == u
    ensures r.None? ==> forall i :: 0 <= i < regs && i in open ==> open[i] != u
  {
    if regs == 0 then None
    else if regs - 1 in open && open[regs - 1] == u then Some(regs - 1)
    else RegOf(regs - 1, open, u)
  }

  function Holder(m: Machine, u: Id): Option<nat> {
    RegOf(|m.regs|, m.open, u)
  }

  predicate Known(m: Machine, u: Id) {
    u in m.closed || Holder(m, u).Some?
  }

  /** What a closure reads through its upvalue. */
  function ReadUpval(m: Machine, u: Id): Value
    requires Known(m, u)
  {
    if u in m.closed then m.closed[u] else m.regs[Holder(m, u).value]
  }

  /** The upvalue for a register: the one that is open there, or a new one
      (`luaF_findupval`). */
  function IdOf(m: Machine, r: nat): Id {
    if r in m.open then m.open[r] else m.next
  }

  /** What the compiler and the machine see to: registers exist, and the block of a
      captured local is marked (`markupval`). */
  predicate Enabled(m: Machine, op: Op) {
    match op
    case SetLocal(r, _) => r < |m.regs|
    case SetUpval(u, _) => Known(m, u)
    case Capture(r) => r < |m.regs| && Closes(m.blocks, r)
    case Leave => m.blocks != []
    case _ => true
  }

  function CloseReg(m: Machine, r: nat): Machine
    requires r < |m.regs|
  {
    if r in m.open then m.(open := m.open - {r}, closed := m.closed[m.open[r] := m.regs[r]]) else m
  }

  /** `luaF_close`: from register `n` down to the level. */
  function CloseDown(m: Machine, level: nat, n: nat): (t: Machine)
    requires n <= |m.regs|
    ensures t.regs == m.regs && t.blocks == m.blocks && t.next == m.next
    decreases n
  {
    if n <= level then m else CloseDown(CloseReg(m, n - 1), level, n - 1)
  }

  function Step(m: Machine, op: Op): Machine
    requires Enabled(m, op) && Sized(m)
  {
    match op
    case Enter(up) => m.(blocks := m.blocks + [Block(|m.regs|, up)])
    case Declare(v) => m.(regs := m.regs + [v])
    case SetLocal(r, v) => m.(regs := m.regs[r := v])
    case SetUpval(u, v) =>
      if u in m.closed then m.(closed := m.closed[u := v]) else m.(regs := m.regs[Holder(m, u).value := v])
    case Capture(r) => if r in m.open then m else m.(open := m.open[r := m.next], next := m.next + 1)
    case Leave =>
      var b := m.blocks[|m.blocks| - 1];
      var t := if b.upval then CloseDown(m, b.nactvar, |m.regs|) else m;
      t.(regs := t.regs[..b.nactvar], blocks := t.blocks[..|t.blocks| - 1])
  }

  predicate Sized(m: Machine) {
    && (forall b <- m.blocks :: b.nactvar <= |m.regs|)
    && forall i, j :: 0 <= i < j < |m.blocks| ==> m.blocks[i].nactvar <= m.blocks[j].nactvar
  }

  /** Captured locals belong to marked blocks. */
  ghost predicate Inv(m: Machine) {
    Sized(m) && forall r <- m.open :: r < |m.regs| && Closes(m.blocks, r)
  }

  // ---- A place for every variable -----------------------------------------

  type Loc = nat

  /** The places of the active locals, what is in them, and which place a closure
      means by its upvalue. */
  datatype Places = Places(locs: seq<Loc>, store: map<Loc, Value>, ups: map<Id, Loc>, next: Loc)

  /** The same operations, where a declaration makes a new place, and a captured
      place stays what it is. */
  function RefStep(p: Places, op: Op, id: Id, level: nat): Places
    requires op.SetLocal? || op.Capture? ==> op.r < |p.locs|
    requires op.SetUpval? ==> op.u in p.ups
    requires op.Leave? ==> level <= |p.locs|
  {
    match op
    case Enter(_) => p
    case Declare(v) => p.(locs := p.locs + [p.next], store := p.store[p.next := v], next := p.next + 1)
    case SetLocal(r, v) => p.(store := p.store[p.locs[r] := v])
    case SetUpval(u, v) => p.(store := p.store[p.ups[u] := v])
    case Capture(r) => p.(ups := p.ups[id := p.locs[r]])
    case Leave => p.(locs := p.locs[..level])
  }

  /** Every active local has its own place, and the first `n` registers their values. */
  ghost predicate LocalsAgree(m: Machine, p: Places, n: nat) {
    && n <= |m.regs| == |p.locs|
    && (forall i, j :: 0 <= i < j < |p.locs| ==> p.locs[i] != p.locs[j])
    && (forall i :: 0 <= i < |p.locs| ==> p.locs[i] in p.store)
    && (forall i :: 0 <= i < n ==> p.store[p.locs[i]] == m.regs[i])
    && forall l <- p.store :: l < p.next
  }

  /** An open upvalue means the place of its register, which is still in scope. */
  ghost predicate OpenAgree(m: Machine, p: Places, n: nat) {
    forall r <- m.open :: r < n && r < |p.locs| && m.open[r] in p.ups && p.ups[m.open[r]] == p.locs[r] && m.open[r] !in m.closed
  }

  /** A closed one has the value of its place, which is out of scope. */
  ghost predicate ClosedAgree(m: Machine, p: Places, n: nat) {
    && n <= |p.locs|
    && forall u <- m.closed :: u in p.ups && p.ups[u] in p.store && m.closed[u] == p.store[p.ups[u]] && p.ups[u] !in p.locs[..n]
  }

  /** Different upvalues mean different places. */
  ghost predicate UpsAgree(m: Machine, p: Places) {
    && (forall u <- p.ups :: u < m.next && p.ups[u] in p.store)
    && forall u, v :: u in p.ups && v in p.ups && p.ups[u] == p.ups[v] ==> u == v
  }

  /** Machine and places agree, as far as the first `n` registers go: the others are
      going out of scope. */
  ghost predicate Agree(m: Machine, p: Places, n: nat) {
    LocalsAgree(m, p, n) && OpenAgree(m, p, n) && ClosedAgree(m, p, n) && UpsAgree(m, p)
  }

  /** Every upvalue known to the places is open or closed in the machine. */
  ghost predicate Complete(m: Machine, p: Places) {
    forall u <- p.ups :: u in m.closed || exists r :: r in m.open && m.open[r] == u
  }

  lemma HolderIs(m: Machine, p: Places, r: nat)
    requires Agree(m, p, |m.regs|) && r in m.open
    ensures Holder(m, m.open[r]) == Some(r)
  {
    var h := Holder(m, m.open[r]);
    assert h.Some?;
    assert p.ups[m.open[h.value]] == p.locs[h.value] && p.ups[m.open[r]] == p.locs[r];
  }

  /** Reading through an upvalue reads the variable. */
  lemma ReadsAgree(m: Machine, p: Places, u: Id)
    requires Agree(m, p, |m.regs|) && Complete(m, p)
    ensures Known(m, u) <==> u in p.ups
    ensures Known(m, u) ==> ReadUpval(m, u) == p.store[p.ups[u]]
  {
    if u in p.ups && u !in m.closed {
      var r :| r in m.open && m.open[r] == u;
      HolderIs(m, p, r);
    }
  }

  // ---- One step -----------------------------------------------------------

  lemma {:induction false} CloseDownAgrees(m: Machine, p: Places, level: nat, n: nat)
    requires Agree(m, p, n) && Complete(m, p) && level <= n
    ensures var t := CloseDown(m, level, n); Agree(t, p, level) && Complete(t, p) && forall r <- t.open :: r in m.open && t.open[r] == m.open[r]
    decreases n
  {
    if n > level {
      var t := CloseReg(m, n - 1);
      CloseRegAgrees(m, p, n);
      CloseDownAgrees(t, p, level, n - 1);
    }
  }

  lemma CloseRegAgrees(m: Machine, p: Places, n: nat)
    requires Agree(m, p, n) && Complete(m, p) && n > 0
    ensures var t := CloseReg(m, n - 1); Agree(t, p, n - 1) && Complete(t, p) && forall r <- t.open :: r in m.open && t.open[r] == m.open[r]
  {
    var t := CloseReg(m, n - 1);
    assert p.locs[..n] == p.locs[..n - 1] + [p.locs[n - 1]];
    assert ClosedAgree(t, p, n - 1) by { hide UpsAgree, Complete; }
    assert OpenAgree(t, p, n - 1) by { hide ClosedAgree, Complete; OpenLess(m, p, n); }
    assert UpsAgree(t, p) by { hide ClosedAgree, Complete; }
    hide LocalsAgree, OpenAgree, ClosedAgree, UpsAgree;
    forall u <- p.ups ensures u in t.closed || exists r :: r in t.open && t.open[r] == u {
      if u !in m.closed {
        var r :| r in m.open && m.open[r] == u;
        if r != n - 1 { assert r in t.open && t.open[r] == u; }
      }
    }
  }

  lemma OpenLess(m: Machine, p: Places, n: nat)
    requires LocalsAgree(m, p, n) && OpenAgree(m, p, n) && UpsAgree(m, p) && n > 0
    ensures OpenAgree(CloseReg(m, n - 1), p, n - 1)
  {
    if n - 1 in m.open {
      var t := CloseReg(m, n - 1);
      forall r <- t.open ensures t.open[r] !in t.closed {
        assert p.locs[r] != p.locs[n - 1];
        assert m.open[r] != m.open[n - 1];
      }
    }
  }

  /** An unmarked block has no captured local to close. */
  lemma NoneOpen(m: Machine, p: Places)
    requires Inv(m) && Agree(m, p, |m.regs|) && m.blocks != [] && !m.blocks[|m.blocks| - 1].upval
    ensures Agree(m, p, m.blocks[|m.blocks| - 1].nactvar)
  {
    var b := m.blocks[|m.blocks| - 1];
    assert b in m.blocks;
    forall r <- m.open ensures r < b.nactvar { assert Closes(m.blocks, r); }
    assert forall l <- p.locs[..b.nactvar] :: l in p.locs;
    assert p.locs[..|m.regs|] == p.locs;
  }

  lemma {:induction false} FewerBlocks(blocks: seq<Block>, r: nat)
    requires blocks != [] && r < blocks[|blocks| - 1].nactvar
    ensures BlockOf(blocks, r) == BlockOf(blocks[..|blocks| - 1], r)
    ensures Closes(blocks, r) <==> Closes(blocks[..|blocks| - 1], r)
  {}

  lemma LeaveAgrees(m: Machine, p: Places)
    requires Inv(m) && Agree(m, p, |m.regs|) && Complete(m, p) && m.blocks != []
    ensures var t := Step(m, Leave); var level := m.blocks[|m.blocks| - 1].nactvar;
            level <= |p.locs| && Inv(t) && Agree(t, RefStep(p, Leave, 0, level), |t.regs|) && Complete(t, RefStep(p, Leave, 0, level))
  {
    hide Agree, Complete, Inv;
    var b := m.blocks[|m.blocks| - 1];
    OuterSmaller(m);
    var t := if b.upval then CloseDown(m, b.nactvar, |m.regs|) else m;
    if b.upval { CloseDownAgrees(m, p, b.nactvar, |m.regs|); } else { NoneOpen(m, p); }
    OpenBelow(t, p, b.nactvar);
    Truncated(t, p, b.nactvar);
    LeaveInv(m, t);
  }

  lemma OuterSmaller(m: Machine)
    requires Inv(m) && m.blocks != []
    ensures m.blocks[|m.blocks| - 1].nactvar <= |m.regs|
  {
    assert m.blocks[|m.blocks| - 1] in m.blocks;
  }

  lemma OpenBelow(t: Machine, p: Places, n: nat)
    requires Agree(t, p, n)
    ensures n <= |p.locs| == |t.regs| && forall r <- t.open :: r < n
  {}

  lemma LeaveInv(m: Machine, t: Machine)
    requires Inv(m) && m.blocks != [] && t.regs == m.regs && t.blocks == m.blocks && forall r <- t.open :: r in m.open
    requires forall r <- t.open :: r < m.blocks[|m.blocks| - 1].nactvar
    requires m.blocks[|m.blocks| - 1].nactvar <= |m.regs|
    ensures Inv(t.(regs := t.regs[..m.blocks[|m.blocks| - 1].nactvar], blocks := t.blocks[..|t.blocks| - 1]))
  {
    var b := m.blocks[|m.blocks| - 1];
    var w := t.(regs := t.regs[..b.nactvar], blocks := t.blocks[..|t.blocks| - 1]);
    FewerSized(m, w);
    hide Sized, BlockOf;
    forall r <- w.open ensures r < |w.regs| && Closes(w.blocks, r) { FewerBlocks(m.blocks, r); }
  }

  lemma FewerSized(m: Machine, w: Machine)
    requires Sized(m) && m.blocks != [] && w.blocks == m.blocks[..|m.blocks| - 1] && |w.regs| == m.blocks[|m.blocks| - 1].nactvar
    ensures Sized(w)
  {
    forall c <- w.blocks ensures c.nactvar <= |w.regs| {
      var i :| 0 <= i < |w.blocks| && w.blocks[i] == c;
      assert m.blocks[i] == c;
    }
  }

  lemma Truncated(t: Machine, p: Places, level: nat)
    requires Agree(t, p, level) && Complete(t, p)
    ensures var w := t.(regs := t.regs[..level], blocks := t.blocks[..if t.blocks == [] then 0 else |t.blocks| - 1]);
            var q := p.(locs := p.locs[..level]); Agree(w, q, level) && Complete(w, q)
  {
    assert p.locs[..level][..level] == p.locs[..level];
  }

  lemma CaptureAgrees(m: Machine, p: Places, r: nat)
    requires Inv(m) && Agree(m, p, |m.regs|) && Complete(m, p) && Enabled(m, Capture(r))
    ensures var t := Step(m, Capture(r)); var q := RefStep(p, Capture(r), IdOf(m, r), 0);
            Inv(t) && Agree(t, q, |t.regs|) && Complete(t, q)
  {
    hide Agree, Complete, Inv, Closes;
    if r in m.open {
      CaptureAgain(m, p, r);
    } else {
      NewUpvalue(m, p, r);
      CaptureInv(m, r);
    }
  }

  lemma CaptureAgain(m: Machine, p: Places, r: nat)
    requires Agree(m, p, |m.regs|) && r in m.open
    ensures r < |p.locs| && p.ups[m.open[r] := p.locs[r]] == p.ups
  {}

  lemma CaptureInv(m: Machine, r: nat)
    requires Inv(m) && Enabled(m, Capture(r)) && r !in m.open
    ensures Inv(m.(open := m.open[r := m.next], next := m.next + 1))
  {
    hide Closes;
  }

  /** A variable that has no upvalue yet. */
  lemma NotCaptured(m: Machine, p: Places, r: nat)
    requires Agree(m, p, |m.regs|) && Complete(m, p) && r < |m.regs| && r !in m.open
    ensures m.next !in p.ups && forall u <- p.ups :: p.ups[u] != p.locs[r]
  {
    assert p.locs[..|m.regs|] == p.locs && p.locs[r] in p.locs;
    hide UpsAgree;
    assert m.next !in p.ups by { assert UpsAgree(m, p); NextFree(m, p); }
    forall u <- p.ups ensures p.ups[u] != p.locs[r] {
      if u !in m.closed {
        var i :| i in m.open && m.open[i] == u;
        assert p.locs[i] != p.locs[r];
      }
    }
  }

  lemma NextFree(m: Machine, p: Places)
    requires UpsAgree(m, p)
    ensures m.next !in p.ups
  {}

  lemma NewOpen(m: Machine, p: Places, r: nat)
    requires |m.regs| == |p.locs| && OpenAgree(m, p, |m.regs|) && ClosedAgree(m, p, |m.regs|) && r < |m.regs| && m.next !in p.ups
    ensures OpenAgree(m.(open := m.open[r := m.next], next := m.next + 1), p.(ups := p.ups[m.next := p.locs[r]]), |m.regs|)
  {}

  lemma NewUps(m: Machine, p: Places, r: nat)
    requires UpsAgree(m, p) && m.next !in p.ups && r < |p.locs| && p.locs[r] in p.store && forall u <- p.ups :: p.ups[u] != p.locs[r]
    ensures UpsAgree(m.(open := m.open[r := m.next], next := m.next + 1), p.(ups := p.ups[m.next := p.locs[r]]))
  {}

  lemma NewClosed(m: Machine, p: Places, r: nat)
    requires ClosedAgree(m, p, |p.locs|) && m.next !in p.ups && r < |p.locs|
    ensures ClosedAgree(m.(open := m.open[r := m.next], next := m.next + 1), p.(ups := p.ups[m.next := p.locs[r]]), |p.locs|)
  {}

  lemma NewComplete(m: Machine, p: Places, r: nat)
    requires Complete(m, p) && r < |p.locs| && r !in m.open
    ensures Complete(m.(open := m.open[r := m.next], next := m.next + 1), p.(ups := p.ups[m.next := p.locs[r]]))
  {
    var t := m.(open := m.open[r := m.next], next := m.next + 1);
    forall u | u in p.ups || u == m.next ensures u in t.closed || exists i :: i in t.open && t.open[i] == u {
      if u == m.next {
        assert r in t.open && t.open[r] == u;
      } else if u !in m.closed {
        var i :| i in m.open && m.open[i] == u;
        assert i in t.open && t.open[i] == u;
      }
    }
  }

  lemma NewUpvalue(m: Machine, p: Places, r: nat)
    requires Agree(m, p, |m.regs|) && Complete(m, p) && r < |m.regs| && r !in m.open
    ensures var t := m.(open := m.open[r := m.next], next := m.next + 1); var q := p.(ups := p.ups[m.next := p.locs[r]]);
            Agree(t, q, |t.regs|) && Complete(t, q)
  {
    NotCaptured(m, p, r);
    hide OpenAgree, ClosedAgree, UpsAgree, Complete;
    NewOpen(m, p, r);
    NewClosed(m, p, r);
    NewUps(m, p, r);
    NewComplete(m, p, r);
  }

  lemma DeclareAgrees(m: Machine, p: Places, v: Value)
    requires Inv(m) && Agree(m, p, |m.regs|) && Complete(m, p)
    ensures var t := Step(m, Declare(v)); var q := RefStep(p, Declare(v), 0, 0);
            Inv(t) && Agree(t, q, |t.regs|) && Complete(t, q)
  {
    hide Inv, Complete, LocalsAgree, OpenAgree, ClosedAgree, UpsAgree;
    DeclaredInv(m, v);
    DeclaredLocals(m, p, v);
    DeclaredClosed(m, p, v);
    DeclaredUps(m, p, v);
    StillComplete(m, p, m.(regs := m.regs + [v]), p.(locs := p.locs + [p.next], store := p.store[p.next := v], next := p.next + 1));
  }

  lemma DeclaredLocals(m: Machine, p: Places, v: Value)
    requires LocalsAgree(m, p, |m.regs|) && OpenAgree(m, p, |m.regs|)
    ensures var t := m.(regs := m.regs + [v]); var q := p.(locs := p.locs + [p.next], store := p.store[p.next := v], next := p.next + 1);
            LocalsAgree(t, q, |t.regs|) && OpenAgree(t, q, |t.regs|)
  {
    assert p.next !in p.store;
    forall i | 0 <= i < |p.locs| ensures p.locs[i] != p.next {}
  }

  lemma DeclaredClosed(m: Machine, p: Places, v: Value)
    requires LocalsAgree(m, p, |m.regs|) && ClosedAgree(m, p, |m.regs|)
    ensures var t := m.(regs := m.regs + [v]); var q := p.(locs := p.locs + [p.next], store := p.store[p.next := v], next := p.next + 1);
            ClosedAgree(t, q, |t.regs|)
  {
    var t := m.(regs := m.regs + [v]);
    var q := p.(locs := p.locs + [p.next], store := p.store[p.next := v], next := p.next + 1);
    assert p.locs[..|m.regs|] == p.locs && q.locs[..|t.regs|] == q.locs;
    assert p.next !in p.store;
  }

  lemma DeclaredUps(m: Machine, p: Places, v: Value)
    requires UpsAgree(m, p)
    ensures UpsAgree(m.(regs := m.regs + [v]), p.(locs := p.locs + [p.next], store := p.store[p.next := v], next := p.next + 1))
  {}

  lemma DeclaredInv(m: Machine, v: Value)
    requires Inv(m)
    ensures Inv(m.(regs := m.regs + [v]))
  {
    hide Closes;
  }

  lemma StillComplete(m: Machine, p: Places, t: Machine, q: Places)
    requires Complete(m, p) && t.open == m.open && t.closed == m.closed && q.ups == p.ups
    ensures Complete(t, q)
  {}

  lemma SetAgrees(m: Machine, p: Places, r: nat, v: Value)
    requires Inv(m) && Agree(m, p, |m.regs|) && Complete(m, p) && r < |m.regs|
    ensures var t := m.(regs := m.regs[r := v]); var q := p.(store := p.store[p.locs[r] := v]);
            Inv(t) && Agree(t, q, |t.regs|) && Complete(t, q)
  {
    assert p.locs[..|m.regs|] == p.locs;
    assert p.locs[r] in p.locs;
  }

  lemma SetClosedAgrees(m: Machine, p: Places, u: Id, v: Value)
    requires Inv(m) && Agree(m, p, |m.regs|) && Complete(m, p) && u in m.closed
    ensures var t := m.(closed := m.closed[u := v]); var q := p.(store := p.store[p.ups[u] := v]);
            Inv(t) && Agree(t, q, |t.regs|) && Complete(t, q)
  {
    assert p.locs[..|m.regs|] == p.locs;
    forall i | 0 <= i < |p.locs| ensures p.locs[i] != p.ups[u] { assert p.locs[i] in p.locs; }
  }

  lemma EnterAgrees(m: Machine, p: Places, up: bool)
    requires Inv(m) && Agree(m, p, |m.regs|) && Complete(m, p)
    ensures var t := Step(m, Enter(up)); Inv(t) && Agree(t, p, |t.regs|) && Complete(t, p)
  {
    var t := Step(m, Enter(up));
    assert t.blocks[..|t.blocks| - 1] == m.blocks;
    forall r <- t.open ensures Closes(t.blocks, r) { FewerBlocks(t.blocks, r); }
    forall i, j | 0 <= i < j < |t.blocks| ensures t.blocks[i].nactvar <= t.blocks[j].nactvar { assert t.blocks[i] in m.blocks; }
  }

  // ---- Runs ---------------------------------------------------------------

  /** The machine and the places, side by side. */
  datatype Both = Both(m: Machine, p: Places)

  ghost predicate Fine(b: Both) {
    Inv(b.m) && Agree(b.m, b.p, |b.m.regs|) && Complete(b.m, b.p)
  }

  ghost function Next(b: Both, op: Op): Both
    requires Fine(b) && Enabled(b.m, op)
  {
    Ready(b, op);
    Both(Step(b.m, op), RefStep(b.p, op, if op.Capture? then IdOf(b.m, op.r) else 0,
                                if op.Leave? then b.m.blocks[|b.m.blocks| - 1].nactvar else 0))
  }

  lemma Ready(b: Both, op: Op)
    requires Fine(b) && Enabled(b.m, op)
    ensures op.SetLocal? || op.Capture? ==> op.r < |b.p.locs|
    ensures op.SetUpval? ==> op.u in b.p.ups
    ensures op.Leave? ==> b.m.blocks[|b.m.blocks| - 1].nactvar <= |b.p.locs|
  {
    if op.SetUpval? { ReadsAgree(b.m, b.p, op.u); }
    if op.Leave? { assert b.m.blocks[|b.m.blocks| - 1] in b.m.blocks; }
  }

  lemma NextFine(b: Both, op: Op)
    requires Fine(b) && Enabled(b.m, op)
    ensures Fine(Next(b, op))
  {
    hide Agree, Inv, Complete, Closes;
    match op
    case Enter(up) => EnterAgrees(b.m, b.p, up);
    case Declare(v) => DeclareAgrees(b.m, b.p, v);
    case SetLocal(r, v) => SetAgrees(b.m, b.p, r, v);
    case SetUpval(u, v) => SetUpvalAgrees(b.m, b.p, u, v);
    case Capture(r) => CaptureAgrees(b.m, b.p, r);
    case Leave => LeaveAgrees(b.m, b.p);
  }

  lemma SetUpvalAgrees(m: Machine, p: Places, u: Id, v: Value)
    requires Inv(m) && Agree(m, p, |m.regs|) && Complete(m, p) && Known(m, u)
    ensures u in p.ups
    ensures var t := Step(m, Op.SetUpval(u, v)); var q := p.(store := p.store[p.ups[u] := v]);
            Inv(t) && Agree(t, q, |t.regs|) && Complete(t, q)
  {
    hide Agree, Inv, Complete, RegOf;
    ReadsAgree(m, p, u);
    if u in m.closed {
      SetClosedAgrees(m, p, u, v);
    } else {
      SetOpen(m, p, u);
      SetAgrees(m, p, Holder(m, u).value, v);
    }
  }

  lemma SetOpen(m: Machine, p: Places, u: Id)
    requires Agree(m, p, |m.regs|) && Known(m, u) && u !in m.closed
    ensures u in p.ups && Holder(m, u).Some? && Holder(m, u).value < |m.regs| == |p.locs| && p.ups[u] == p.locs[Holder(m, u).value]
  {}

  /** States one after the other, each by an operation that is enabled. */
  ghost predicate Run(bs: seq<Both>, ops: seq<Op>)
    decreases |ops|
  {
    && |bs| == |ops| + 1
    && (ops != [] && Fine(bs[0]) ==> Enabled(bs[0].m, ops[0]) && bs[1] == Next(bs[0], ops[0]) && Run(bs[1..], ops[1..]))
  }

  lemma {:induction false} RunFine(bs: seq<Both>, ops: seq<Op>, i: nat)
    requires Run(bs, ops) && Fine(bs[0]) && i < |bs|
    ensures Fine(bs[i])
    decreases i
  {
    if i > 0 {
      hide Fine, Enabled;
      NextFine(bs[0], ops[0]);
      assert bs[1..][i - 1] == bs[i];
      RunFine(bs[1..], ops[1..], i - 1);
    }
  }

  const START := Both(Machine([], map[], map[], [], 0), Places([], map[], map[], 0))

  /** At any time of any run, a local that is read, in its register or through any
      upvalue, inside its block or after it has been left, has the value last
      assigned to that variable, whoever assigned it; different upvalues are
      different variables. */
  lemma SharedVariables(bs: seq<Both>, ops: seq<Op>, i: nat)
    requires Run(bs, ops) && bs[0] == START && i < |bs|
    ensures var m, p := bs[i].m, bs[i].p;
            && |m.regs| == |p.locs|
            && (forall r :: 0 <= r < |m.regs| ==> p.locs[r] in p.store && m.regs[r] == p.store[p.locs[r]])
            && (forall u :: Known(m, u) <==> u in p.ups)
            && (forall u :: Known(m, u) ==> p.ups[u] in p.store && ReadUpval(m, u) == p.store[p.ups[u]])
            && forall u, w :: u in p.ups && w in p.ups && p.ups[u] == p.ups[w] ==> u == w
  {
    assert Fine(START);
    RunFine(bs, ops, i);
    forall u ensures Known(bs[i].m, u) <==> u in bs[i].p.ups
             ensures Known(bs[i].m, u) ==> ReadUpval(bs[i].m, u) == bs[i].p.store[bs[i].p.ups[u]]
    {
      ReadsAgree(bs[i].m, bs[i].p, u);
    }
  }

  /** Capturing the same variable again gives the same upvalue, whatever happens in
      between, as long as it is in scope. */
  lemma SameUpvalue(b: Both, r: nat)
    requires Fine(b) && Enabled(b.m, Capture(r))
    ensures var id := IdOf(b.m, r); b.p.locs[r] in b.p.ups.Values <==> id in b.p.ups && b.p.ups[id] == b.p.locs[r]
  {
    var m, p := b.m, b.p;
    assert p.locs[..|m.regs|] == p.locs;
    if u: Id :| u in p.ups && p.ups[u] == p.locs[r] {
      assert p.locs[r] in p.locs;
      var i :| i in m.open && m.open[i] == u;
      assert i == r;
    }
  }
}
