/** How names are resolved (`singlevaraux`), how closures get their upvalues
    (`pushclosure`, OP_CLOSURE), and that what is found is the innermost
    declaration. */
module ScopeResolve {
  import opened ChunkWords

  type Name = nat

  const MAXUPVALUES := 60

  // ---- The compiler's state -----------------------------------------------

  datatype Var = Global | Local(r: nat) | Upval(i: nat)

  /** `upvaldesc`, with the name of the upvalue. */
  datatype Desc = Desc(v: Var, name: Name)

  /** `BlockCnt`: how many locals are active outside the block, and whether a local
      of the block is used by an inner function. */
  datatype Block = Block(nactvar: nat, upval: bool)

  /** One function being compiled: its active locals by register, its upvalues, its
      open blocks, the innermost last. */
  datatype Level = Level(actvar: seq<Name>, upvalues: seq<Desc>, blocks: seq<Block>)

  /** `searchvar`: the last of the active locals with this name. */
  function SearchVar(vars: seq<Name>, n: Name): (r: Option<nat>)
    ensures r.Some? ==> r.value < |vars| && vars[r.value] == n && forall i :: r.value < i < |vars| ==> vars[i] != n
    ensures r.None? ==> n !in vars
  {
    if vars == [] then None
    else if vars[|vars| - 1] == n then Some(|vars| - 1)
    else assert vars == vars[..|vars| - 1] + [vars[|vars| - 1]]; SearchVar(vars[..|vars| - 1], n)
  }

  /** The block that a local belongs to: the innermost one opened before it. */
  function BlockOf(blocks: seq<Block>, level: nat): (r: Option<nat>)
    ensures r.Some? ==> r.value < |blocks| && blocks[r.value].nactvar <= level && forall i :: r.value < i < |blocks| ==> blocks[i].nactvar > level
    ensures r.None? ==> forall i :: 0 <= i < |blocks| ==> blocks[i].nactvar > level
  {
    if blocks == [] then None
    else if blocks[|blocks| - 1].nactvar <= level then Some(|blocks| - 1)
    else BlockOf(blocks[..|blocks| - 1], level)
  }

  /** `markupval`. */
  function Mark(l: Level, level: nat): Level {
    match BlockOf(l.blocks, level)
    case None => l
    case Some(b) => l.(blocks := l.blocks[b := l.blocks[b].(upval := true)])
  }

  function SearchUpval(us: seq<Desc>, v: Var): (r: Option<nat>)
    ensures r.Some? ==> r.value < |us| && us[r.value].v == v && forall i :: 0 <= i < r.value ==> us[i].v != v
    ensures r.None? ==> forall i :: 0 <= i < |us| ==> us[i].v != v
  {
    if us == [] then None
    else if us[0].v == v then Some(0)
    else match SearchUpval(us[1..], v) case None => None case Some(i) => Some(i + 1)
  }

  datatype Found = TooMany | Found(v: Var, levels: seq<Level>)

  /** `singlevaraux`: the innermost function first. */
  function Resolve(ls: seq<Level>, n: Name, base: bool): (r: Found)
    ensures r.Found? ==> |r.levels| == |ls|
  {
    if ls == [] then Found(Global, ls) else
      match SearchVar(ls[0].actvar, n)
      case Some(v) => Found(Local(v), if base then ls else [Mark(ls[0], v)] + ls[1..])
      case None =>
        match Resolve(ls[1..], n, false)
        case TooMany => TooMany
        case Found(d, rest) =>
          if d.Global? then Found(Global, [ls[0]] + rest) else
            match SearchUpval(ls[0].upvalues, d)
            case Some(i) => Found(Upval(i), [ls[0]] + rest)
            case None =>
              if |ls[0].upvalues| + 1 > MAXUPVALUES then TooMany
              else Found(Upval(|ls[0].upvalues|), [ls[0].(upvalues := ls[0].upvalues + [Desc(d, n)])] + rest)
  }

  // ---- What the compiler keeps --------------------------------------------

  /** The upvalue is a local or an upvalue of the enclosing function, with its name;
      if it is a local, its block will close it. */
  predicate DescOk(d: Desc, outer: Level) {
    match d.v
    case Global => false
    case Local(r) => r < |outer.actvar| && outer.actvar[r] == d.name && Closes(outer.blocks, r)
    case Upval(i) => i < |outer.upvalues| && outer.upvalues[i].name == d.name
  }

  /** The block of the local is marked, unless it belongs to the function as a whole. */
  predicate Closes(blocks: seq<Block>, r: nat) {
    var b := BlockOf(blocks, r); b.Some? ==> blocks[b.value].upval
  }

  ghost predicate DescsOk(ls: seq<Level>) {
    && (forall k, j {:trigger ls[k].upvalues[j]} :: 0 <= k < |ls| - 1 && 0 <= j < |ls[k].upvalues| ==> DescOk(ls[k].upvalues[j], ls[k + 1]))
    && (ls != [] ==> ls[|ls| - 1].upvalues == [])
  }

  /** Nothing but more upvalues, and more marks. */
  predicate Extended(l: Level, m: Level) {
    && m.actvar == l.actvar && l.upvalues <= m.upvalues && |m.blocks| == |l.blocks|
    && forall b :: 0 <= b < |l.blocks| ==> m.blocks[b].nactvar == l.blocks[b].nactvar && (l.blocks[b].upval ==> m.blocks[b].upval)
  }

  ghost predicate AllExtended(ls: seq<Level>, ms: seq<Level>) {
    |ls| == |ms| && forall k :: 0 <= k < |ls| ==> Extended(ls[k], ms[k])
  }

  lemma {:induction false} SameBlock(a: seq<Block>, b: seq<Block>, r: nat)
    requires |a| == |b| && forall i :: 0 <= i < |a| ==> a[i].nactvar == b[i].nactvar
    ensures BlockOf(a, r) == BlockOf(b, r)
  {
    if a != [] { SameBlock(a[..|a| - 1], b[..|b| - 1], r); }
  }

  lemma DescStays(d: Desc, l: Level, m: Level)
    requires DescOk(d, l) && Extended(l, m)
    ensures DescOk(d, m)
  {
    if d.v.Local? { SameBlock(l.blocks, m.blocks, d.v.r); }
  }

  lemma MarkExtends(l: Level, v: nat)
    ensures Extended(l, Mark(l, v)) && Closes(Mark(l, v).blocks, v)
  {
    SameBlock(l.blocks, Mark(l, v).blocks, v);
  }

  /** The result, seen from the function that asked: what it found is there, and has
      the right name. */
  predicate VarOk(v: Var, n: Name, ls: seq<Level>, base: bool) {
    match v
    case Global => true
    case Local(r) => ls != [] && r < |ls[0].actvar| && ls[0].actvar[r] == n && (base || Closes(ls[0].blocks, r))
    case Upval(i) => ls != [] && i < |ls[0].upvalues| && ls[0].upvalues[i].name == n
  }

  /** Resolving keeps what is known of all upvalues.  In particular an upvalue found
      again has the same name, as the source asserts. */
  lemma {:induction false} ResolveKeeps(ls: seq<Level>, n: Name, base: bool)
    requires DescsOk(ls)
    ensures var r := Resolve(ls, n, base); r.Found? ==> DescsOk(r.levels) && AllExtended(ls, r.levels) && VarOk(r.v, n, r.levels, base)
  {
    if ls != [] {
      var s := SearchVar(ls[0].actvar, n);
      if s.Some? {
        MarkExtends(ls[0], s.value);
        if !base { assert Resolve(ls, n, base).levels[1..] == ls[1..]; }
      } else {
        OuterOk(ls);
        ResolveKeeps(ls[1..], n, false);
        var q := Resolve(ls[1..], n, false);
        var r := Resolve(ls, n, base);
        if r.Found? {
          assert r.levels[1..] == q.levels;
          UpvalueKeeps(ls, n, base, q);
        }
      }
    }
  }

  lemma OuterOk(ls: seq<Level>)
    requires DescsOk(ls) && ls != []
    ensures DescsOk(ls[1..])
  {
    forall k, j | 0 <= k < |ls| - 2 && 0 <= j < |ls[1..][k].upvalues| ensures DescOk(ls[1..][k].upvalues[j], ls[1..][k + 1]) {
      assert DescOk(ls[k + 1].upvalues[j], ls[k + 2]);
    }
  }

  lemma UpvalueKeeps(ls: seq<Level>, n: Name, base: bool, q: Found)
    requires DescsOk(ls) && ls != [] && SearchVar(ls[0].actvar, n).None? && q == Resolve(ls[1..], n, false) && q.Found?
    requires DescsOk(q.levels) && AllExtended(ls[1..], q.levels) && VarOk(q.v, n, q.levels, false)
    ensures var r := Resolve(ls, n, base); r.Found? ==> DescsOk(r.levels) && AllExtended(ls, r.levels) && VarOk(r.v, n, r.levels, base)
  {
    var r := Resolve(ls, n, base);
    if r.Found? {
      var ms := r.levels;
      assert ms[1..] == q.levels;
      if |ls| > 1 {
        forall j | 0 <= j < |ms[0].upvalues| ensures DescOk(ms[0].upvalues[j], ms[1]) {
          if j < |ls[0].upvalues| {
            assert ms[0].upvalues[j] == ls[0].upvalues[j];
            assert DescOk(ls[0].upvalues[j], ls[1]);
            assert Extended(ls[1..][0], q.levels[0]);
            DescStays(ls[0].upvalues[j], ls[1], ms[1]);
          }
        }
        InnerOk(ms);
        forall k | 0 <= k < |ls| ensures Extended(ls[k], ms[k]) {
          if k > 0 { assert Extended(ls[1..][k - 1], q.levels[k - 1]); }
        }
        if r.v.Upval? { assert DescOk(ms[0].upvalues[r.v.i], ms[1]); }
      }
    }
  }

  lemma InnerOk(ms: seq<Level>)
    requires |ms| > 1 && DescsOk(ms[1..]) && forall j :: 0 <= j < |ms[0].upvalues| ==> DescOk(ms[0].upvalues[j], ms[1])
    ensures DescsOk(ms)
  {
    forall k, j | 0 <= k < |ms| - 1 && 0 <= j < |ms[k].upvalues| ensures DescOk(ms[k].upvalues[j], ms[k + 1]) {
      if k > 0 { assert DescOk(ms[1..][k - 1].upvalues[j], ms[1..][k]); }
    }
    assert ms[1..][|ms| - 2] == ms[|ms| - 1];
  }

  // ---- At run time --------------------------------------------------------

  /** Where a variable lives; an upvalue shares the place of the local. */
  type Cell = nat

  /** An activation: the cells of its registers, and those of its closure. */
  datatype Frame = Frame(regs: seq<Cell>, upvals: seq<Cell>)

  predicate Has(fr: Frame, v: Var) {
    match v
    case Global => false
    case Local(r) => r < |fr.regs|
    case Upval(i) => i < |fr.upvals|
  }

  function Denote(v: Var, fr: Frame): Cell
    requires Has(fr, v)
  {
    match v case Local(r) => fr.regs[r] case Upval(i) => fr.upvals[i]
  }

  /** Every function has been made into a closure by an activation of the function
      around it, at the place where it stands. */
  ghost predicate Linked(ls: seq<Level>, frames: seq<Frame>) {
    && |frames| == |ls|
    && (forall k :: 0 <= k < |ls| ==> |frames[k].regs| >= |ls[k].actvar| && |frames[k].upvals| == |ls[k].upvalues|)
    && forall k, j {:trigger ls[k].upvalues[j]} :: 0 <= k < |ls| - 1 && 0 <= j < |ls[k].upvalues| ==>
         Has(frames[k + 1], ls[k].upvalues[j].v) && frames[k].upvals[j] == Denote(ls[k].upvalues[j].v, frames[k + 1])
  }

  /** The innermost declaration of the name that is visible, if any. */
  function Innermost(ls: seq<Level>, n: Name, frames: seq<Frame>): Option<Cell>
    requires |frames| == |ls| && forall k :: 0 <= k < |ls| ==> |frames[k].regs| >= |ls[k].actvar|
  {
    if ls == [] then None else
      match SearchVar(ls[0].actvar, n)
      case Some(v) => Some(frames[0].regs[v])
      case None => Innermost(ls[1..], n, frames[1..])
  }

  /** Whatever else is compiled afterwards (`ms`), when the closures exist the
      variable found is the innermost declaration; and if none is found there is
      none. */
  lemma {:induction false} ResolveDenotes(ls: seq<Level>, n: Name, base: bool, ms: seq<Level>, frames: seq<Frame>)
    requires var r := Resolve(ls, n, base); r.Found? && AllExtended(r.levels, ms)
    requires Linked(ms, frames)
    ensures |frames| == |ls| && forall k :: 0 <= k < |ls| ==> |frames[k].regs| >= |ls[k].actvar|
    ensures var v := Resolve(ls, n, base).v;
            if v.Global? then Innermost(ls, n, frames) == None
            else frames != [] && Has(frames[0], v) && Innermost(ls, n, frames) == Some(Denote(v, frames[0]))
  {
    SameLocals(ls, n, base);
    forall k | 0 <= k < |ls| ensures ms[k].actvar == ls[k].actvar { assert Extended(Resolve(ls, n, base).levels[k], ms[k]); }
    if ls != [] && SearchVar(ls[0].actvar, n).None? {
      var r, q := Resolve(ls, n, base), Resolve(ls[1..], n, false);
      assert r.levels[1..] == q.levels;
      OuterLinked(ms, frames);
      forall k | 0 <= k < |q.levels| ensures Extended(q.levels[k], ms[1..][k]) { assert Extended(r.levels[k + 1], ms[k + 1]); }
      ResolveDenotes(ls[1..], n, false, ms[1..], frames[1..]);
      if !q.v.Global? {
        assert Extended(r.levels[0], ms[0]);
        assert ms[0].upvalues[r.v.i] == r.levels[0].upvalues[r.v.i];
      }
    }
  }

  /** Resolving declares nothing. */
  lemma {:induction false} SameLocals(ls: seq<Level>, n: Name, base: bool)
    ensures var r := Resolve(ls, n, base); r.Found? ==> forall k :: 0 <= k < |ls| ==> r.levels[k].actvar == ls[k].actvar
  {
    if ls != [] && SearchVar(ls[0].actvar, n).None? {
      SameLocals(ls[1..], n, false);
      var r, q := Resolve(ls, n, base), Resolve(ls[1..], n, false);
      if r.Found? {
        forall k | 0 < k < |ls| ensures r.levels[k].actvar == ls[k].actvar { assert r.levels[k] == q.levels[k - 1] && ls[k] == ls[1..][k - 1]; }
      }
    }
  }

  lemma OuterLinked(ms: seq<Level>, frames: seq<Frame>)
    requires Linked(ms, frames) && ms != []
    ensures Linked(ms[1..], frames[1..])
  {
    forall k, j | 0 <= k < |ms| - 2 && 0 <= j < |ms[1..][k].upvalues|
      ensures Has(frames[1..][k + 1], ms[1..][k].upvalues[j].v) && frames[1..][k].upvals[j] == Denote(ms[1..][k].upvalues[j].v, frames[1..][k + 1])
    {
      assert ms[k + 1].upvalues[j] == ms[1..][k].upvalues[j];
    }
  }

  // ---- Closures -----------------------------------------------------------

  predicate DescFits(d: Desc) {
    !d.v.Global? && (if d.v.Local? then d.v.r else d.v.i) < 512
  }

  /** CREATE_ABC, for the words behind a CLOSURE. */
  function CaptureCode(d: Desc): Word
    requires DescFits(d)
  {
    match d.v
    case Local(r) => r * 8388608
    case Upval(i) => 4 + i * 8388608
  }

  lemma CaptureDecodes(d: Desc)
    requires DescFits(d)
    ensures var w := CaptureCode(d);
            if d.v.Local? then Opcode(w) == Move && ArgB(w) == d.v.r else Opcode(w) == GetUpval && ArgB(w) == d.v.i
  {}

  /** The loop of `pushclosure`. */
  method PushClosure(us: seq<Desc>) returns (words: seq<Word>)
    requires forall i :: 0 <= i < |us| ==> DescFits(us[i])
    ensures |words| == |us| && forall i :: 0 <= i < |us| ==> words[i] == CaptureCode(us[i])
  {
    words := [];
    for i := 0 to |us|
      invariant |words| == i && forall j :: 0 <= j < i ==> words[j] == CaptureCode(us[j])
    {
      words := words + [CaptureCode(us[i])];
    }
  }

  /** The loop of OP_CLOSURE: with the words of `pushclosure` the new closure is
      linked to the activation that makes it. */
  method MakeClosure(words: seq<Word>, fr: Frame, ghost us: seq<Desc>) returns (upvals: seq<Cell>)
    requires |words| == |us| && forall i :: 0 <= i < |us| ==> DescFits(us[i]) && Has(fr, us[i].v) && words[i] == CaptureCode(us[i])
    ensures |upvals| == |us| && forall i :: 0 <= i < |us| ==> upvals[i] == Denote(us[i].v, fr)
  {
    hide CaptureCode, Opcode, ArgB;
    upvals := [];
    for i := 0 to |words|
      invariant |upvals| == i && forall j :: 0 <= j < i ==> upvals[j] == Denote(us[j].v, fr)
    {
      CaptureDecodes(us[i]);
      if Opcode(words[i]).GetUpval? {
        upvals := upvals + [fr.upvals[ArgB(words[i])]];
      } else {
        upvals := upvals + [fr.regs[ArgB(words[i])]];
      }
    }
  }

  // ---- The compiler as it runs --------------------------------------------

  class FuncState {
    const prev: FuncState?
    var actvar: seq<Name>
    var upvalues: seq<Desc>
    var blocks: seq<Block>

    constructor (prev: FuncState?)
      ensures this.prev == prev && actvar == [] && upvalues == [] && blocks == []
    {
      this.prev, actvar, upvalues, blocks := prev, [], [], [];
    }

    ghost function View(): Level
      reads this
    {
      Level(actvar, upvalues, blocks)
    }

    method SearchLocal(n: Name) returns (r: Option<nat>)
      ensures r == SearchVar(actvar, n)
    {
      var i := |actvar|;
      assert actvar[..|actvar|] == actvar;
      while i > 0
        invariant 0 <= i <= |actvar| && SearchVar(actvar, n) == SearchVar(actvar[..i], n)
      {
        assert actvar[..i][..i - 1] == actvar[..i - 1];
        i := i - 1;
        if actvar[i] == n { return Some(i); }
      }
      return None;
    }

    method MarkUpval(level: nat)
      modifies `blocks
      ensures View() == Mark(old(View()), level)
    {
      var b := |blocks|;
      assert blocks[..|blocks|] == blocks;
      while b > 0 && blocks[b - 1].nactvar > level
        invariant 0 <= b <= |blocks| && BlockOf(blocks, level) == BlockOf(blocks[..b], level)
      {
        assert blocks[..b][..b - 1] == blocks[..b - 1];
        b := b - 1;
      }
      if b > 0 { blocks := blocks[b - 1 := blocks[b - 1].(upval := true)]; }
    }

    /** `indexupvalue`. */
    method IndexUpvalue(n: Name, v: Var) returns (r: Option<nat>)
      modifies `upvalues
      ensures match SearchUpval(old(upvalues), v)
              case Some(i) => r == Some(i) && upvalues == old(upvalues)
              case None =>
                if |old(upvalues)| + 1 > MAXUPVALUES then r == None
                else r == Some(|old(upvalues)|) && upvalues == old(upvalues) + [Desc(v, n)]
    {
      var i := 0;
      while i < |upvalues|
        invariant 0 <= i <= |upvalues| && upvalues == old(upvalues) && forall j :: 0 <= j < i ==> upvalues[j].v != v
      {
        if upvalues[i].v == v { return Some(i); }
        i := i + 1;
      }
      if |upvalues| + 1 > MAXUPVALUES { return None; }
      upvalues := upvalues + [Desc(v, n)];
      r := Some(i);
    }
  }

  /** The functions being compiled, the innermost first. */
  ghost predicate Chain(fs: FuncState?, chain: seq<FuncState>)
    decreases |chain|
  {
    if fs == null then chain == []
    else chain != [] && chain[0] == fs && fs !in chain[1..] && Chain(fs.prev, chain[1..])
  }

  ghost function Views(chain: seq<FuncState>): (r: seq<Level>)
    reads chain
    ensures |r| == |chain|
  {
    seq(|chain|, i requires 0 <= i < |chain| reads chain => chain[i].View())
  }

  /** `singlevaraux`. */
  method SingleVarAux(fs: FuncState?, n: Name, base: bool, ghost chain: seq<FuncState>) returns (r: Option<Var>)
    requires Chain(fs, chain)
    modifies chain
    ensures Chain(fs, chain)
    ensures var o := Resolve(old(Views(chain)), n, base);
            if o.TooMany? then r == None else r == Some(o.v) && Views(chain) == o.levels
    decreases |chain|
  {
    hide Resolve, Chain, Views;
    ResolveStep(Views(chain), n, base);
    if fs == null {
      ChainEnd(chain);
      return Some(Global);
    }
    ChainTail(fs, chain);
    ViewsTail(chain);
    var v := fs.SearchLocal(n);
    if v.Some? {
      if !base { fs.MarkUpval(v.value); }
      ViewsTail(chain);
      return Some(Local(v.value));
    }
    var outer := SingleVarAux(fs.prev, n, false, chain[1..]);
    ViewsTail(chain);
    if outer.None? { return None; }
    if outer.value.Global? { return Some(Global); }
    var i := fs.IndexUpvalue(n, outer.value);
    ViewsTail(chain);
    r := if i.None? then None else Some(Upval(i.value));
  }

  lemma ChainEnd(chain: seq<FuncState>)
    requires Chain(null, chain)
    ensures chain == [] && Views(chain) == []
  {}

  lemma ChainTail(fs: FuncState, chain: seq<FuncState>)
    requires Chain(fs, chain)
    ensures chain != [] && chain[0] == fs && fs !in chain[1..] && Chain(fs.prev, chain[1..])
  {}

  lemma ViewsTail(chain: seq<FuncState>)
    requires chain != []
    ensures Views(chain) == [chain[0].View()] + Views(chain[1..])
  {}

  lemma ResolveStep(ls: seq<Level>, n: Name, base: bool)
    ensures ls == [] ==> Resolve(ls, n, base) == Found(Global, ls)
    ensures ls != [] ==>
              Resolve(ls, n, base) ==
              match SearchVar(ls[0].actvar, n)
              case Some(v) => Found(Local(v), if base then ls else [Mark(ls[0], v)] + ls[1..])
              case None =>
                match Resolve(ls[1..], n, false)
                case TooMany => TooMany
                case Found(d, rest) =>
                  if d.Global? then Found(Global, [ls[0]] + rest) else
                    match SearchUpval(ls[0].upvalues, d)
                    case Some(i) => Found(Upval(i), [ls[0]] + rest)
                    case None =>
                      if |ls[0].upvalues| + 1 > MAXUPVALUES then TooMany
                      else Found(Upval(|ls[0].upvalues|), [ls[0].(upvalues := ls[0].upvalues + [Desc(d, n)])] + rest)
  {}
}
