/** Whole functions, with the functions in them: what is loaded is what was
    dumped. */
module ChunkTree {
  import opened ChunkWords
  import opened ChunkChecker
  import opened ChunkControl
  import opened ChunkFormat

  const MAXCCALLS := 200

  // ---- Dumping ------------------------------------------------------------

  function PutHead(f: Proto, source: Option<Bytes>): Bytes {
    PutString(source) + (PutInt(f.linedefined) + (PutInt(f.lastlinedefined) + [f.nups, f.numparams, f.isVararg, f.maxstacksize]))
  }

  function PutDebug(f: Proto, strip: bool): Bytes
    requires Fits(f)
  {
    if strip then PutInt(0) + (PutInt(0) + PutInt(0))
    else PutList(f.lineinfo, PutInt) + (PutList(f.locvars, PutLocVar) + PutList(f.upvalues, PutString))
  }

  /** `DumpFunction`; `parent` is the source of the enclosing function. */
  function PutFunction(f: Proto, parent: Option<Bytes>, strip: bool): Bytes
    requires AllFit(f)
    decreases f, 1
  {
    PutHead(f, if f.source == parent || strip then None else f.source)
    + (PutList(f.code, PutWord) + (PutList(f.k, PutConst) + (PutInt(|f.p|) + (PutProtos(f.p, f.source, strip) + PutDebug(f, strip)))))
  }

  function PutProtos(ps: seq<Proto>, parent: Option<Bytes>, strip: bool): Bytes
    requires forall q <- ps :: AllFit(q)
    decreases ps, 0
  {
    if ps == [] then [] else PutFunction(ps[0], parent, strip) + PutProtos(ps[1..], parent, strip)
  }

  /** What fits the format: lengths fit an int. */
  predicate Fits(f: Proto) {
    && StringFits(f.source)
    && |f.code| < 0x8000_0000 && |f.k| < 0x8000_0000 && |f.p| < 0x8000_0000
    && |f.lineinfo| < 0x8000_0000 && |f.locvars| < 0x8000_0000 && |f.upvalues| < 0x8000_0000
    && (forall c <- f.k :: ConstFits(c))
    && (forall v <- f.locvars :: StringFits(v.name))
    && (forall u <- f.upvalues :: StringFits(u))
  }

  predicate AllFit(f: Proto) {
    Fits(f) && forall q <- f.p :: AllFit(q)
  }

  // ---- Loading ------------------------------------------------------------

  datatype Head = Head(source: Option<Bytes>, linedefined: Count, lastlinedefined: Count, nups: Byte, numparams: Byte, isVararg: Byte, maxstacksize: Byte)

  function GetHead(b: Bytes): Loaded<Head> {
    match GetString(b)
    case Err(e) => Err(e)
    case Ok(source, r) =>
      match GetInt(r)
      case Err(e) => Err(e)
      case Ok(line, q) =>
        match GetInt(q)
        case Err(e) => Err(e)
        case Ok(last, t) =>
          match Take(t, 4)
          case Err(e) => Err(e)
          case Ok(x, u) => Ok(Head(source, line, last, x[0], x[1], x[2], x[3]), u)
  }

  datatype Debug = Debug(lineinfo: seq<Int>, locvars: seq<LocVar>, upvalues: seq<Option<Bytes>>)

  function GetDebug(b: Bytes): Loaded<Debug> {
    match GetList(b, GetLine)
    case Err(e) => Err(e)
    case Ok(lines, r) =>
      match GetList(r, GetLocVar)
      case Err(e) => Err(e)
      case Ok(vars, q) =>
        match GetList(q, GetString)
        case Err(e) => Err(e)
        case Ok(ups, t) => Ok(Debug(lines, vars, ups), t)
  }

  function Assemble(h: Head, parent: Bytes, code: seq<Word>, k: seq<Const>, p: seq<Proto>, d: Debug): Proto {
    Proto(Some(SourceOr(h.source, parent)), h.linedefined, h.lastlinedefined, h.nups, h.numparams, h.isVararg, h.maxstacksize,
          code, k, p, d.lineinfo, d.locvars, d.upvalues)
  }

  function SourceOr(source: Option<Bytes>, parent: Bytes): Bytes {
    if source.Some? then source.value else parent
  }

  /** `LoadFunction`, inside `depth` nested calls. */
  function GetFunction(b: Bytes, parent: Bytes, depth: nat): Loaded<Proto>
    decreases MAXCCALLS - depth, 0, 1
  {
    if depth >= MAXCCALLS then Err(TooDeep) else
      match GetHead(b)
      case Err(e) => Err(e)
      case Ok(h, b1) =>
        match GetList(b1, GetWord)
        case Err(e) => Err(e)
        case Ok(code, b2) =>
          match GetList(b2, GetConst)
          case Err(e) => Err(e)
          case Ok(k, b3) =>
            match GetInt(b3)
            case Err(e) => Err(e)
            case Ok(n, b4) =>
              match GetProtos(n, b4, SourceOr(h.source, parent), depth + 1)
              case Err(e) => Err(e)
              case Ok(ps, b5) =>
                match GetDebug(b5)
                case Err(e) => Err(e)
                case Ok(d, b6) =>
                  var f := Assemble(h, parent, code, k, ps, d);
                  if Accepted(f) then Ok(f, b6) else Err(BadCode)
  }

  function GetProtos(n: nat, b: Bytes, parent: Bytes, depth: nat): Loaded<seq<Proto>>
    decreases MAXCCALLS - depth, n, 2
  {
    if n == 0 then Ok([], b) else
      match GetFunction(b, parent, depth)
      case Err(e) => Err(e)
      case Ok(f, r) =>
        match GetProtos(n - 1, r, parent, depth)
        case Err(e) => Err(e)
        case Ok(fs, q) => Ok([f] + fs, q)
  }

  // ---- What comes back ----------------------------------------------------

  /** The tree that a dumped tree is loaded as: a missing source is that of the
      enclosing function, and so are all of them without debug information. */
  function Restored(f: Proto, parent: Bytes, strip: bool): Proto
    decreases f, 1
  {
    var source := if strip then parent else SourceOr(f.source, parent);
    var g := f.(source := Some(source), p := RestoredAll(f.p, source, strip));
    if strip then g.(lineinfo := [], locvars := [], upvalues := []) else g
  }

  function RestoredAll(ps: seq<Proto>, parent: Bytes, strip: bool): (r: seq<Proto>)
    ensures |r| == |ps| && forall i :: 0 <= i < |ps| ==> r[i].nups == ps[i].nups
    decreases ps, 0
  {
    if ps == [] then [] else [Restored(ps[0], parent, strip)] + RestoredAll(ps[1..], parent, strip)
  }

  /** Nested no deeper than this. */
  predicate Within(f: Proto, depth: nat)
    decreases depth
  {
    depth > 0 && forall q <- f.p :: Within(q, depth - 1)
  }

  predicate AllAccepted(f: Proto) {
    Accepted(f) && forall q <- f.p :: AllAccepted(q)
  }

  predicate AllSourced(f: Proto) {
    f.source.Some? && forall q <- f.p :: AllSourced(q)
  }

  /** Nothing changes if debug information is kept and no source is missing, and
      only then. */
  lemma {:induction false} RestoredSame(f: Proto, parent: Bytes)
    ensures Restored(f, parent, false) == f <==> AllSourced(f)
    decreases f, 1
  {
    RestoredAllSame(f.p, SourceOr(f.source, parent));
  }

  lemma {:induction false} RestoredAllSame(ps: seq<Proto>, parent: Bytes)
    ensures RestoredAll(ps, parent, false) == ps <==> forall q <- ps :: AllSourced(q)
    decreases ps, 0
  {
    if ps != [] {
      RestoredSame(ps[0], parent);
      RestoredAllSame(ps[1..], parent);
      assert ps == [ps[0]] + ps[1..];
    }
  }

  // ---- Debug information is not checked -----------------------------------

  predicate SameForChecker(f: Proto, g: Proto) {
    && g.code == f.code && g.k == f.k && g.numparams == f.numparams && g.isVararg == f.isVararg
    && g.maxstacksize == f.maxstacksize && g.nups == f.nups
    && |g.p| == |f.p| && forall i :: 0 <= i < |f.p| ==> g.p[i].nups == f.p[i].nups
  }

  lemma {:induction false} ScanSame(f: Proto, g: Proto, pc: nat)
    requires SameForChecker(f, g) && PreCheck(f) && PreCheck(g) && ScanOk(f, pc)
    ensures ScanOk(g, pc)
    decreases |f.code| - pc
  {
    if pc < |f.code| {
      InstrSame(f, g, pc);
      hide InstrOk;
      ScanSame(f, g, NextStart(f.code, pc));
    }
  }

  lemma InstrSame(f: Proto, g: Proto, pc: nat)
    requires SameForChecker(f, g) && PreCheck(f) && PreCheck(g) && pc < |f.code| && InstrOk(f, pc)
    ensures InstrOk(g, pc)
  {
    hide Decode, OpOf, ArgA, ArgB, ArgC, ArgBx, ArgSbx;
    if Opcode(f.code[pc]).Closure? {
      var n := f.p[ArgBx(f.code[pc])].nups;
      forall q | pc < q <= pc + n ensures CaptureWord(g, q) { assert CaptureWord(f, q); }
    }
  }

  lemma RestoredAccepted(f: Proto, parent: Bytes, strip: bool)
    requires Accepted(f)
    ensures Accepted(Restored(f, parent, strip))
  {
    hide ScanOk;
    ScanSame(f, Restored(f, parent, strip), 0);
  }

  // ---- The round trip -----------------------------------------------------

  lemma GetHeadPut(f: Proto, source: Option<Bytes>, rest: Bytes)
    requires StringFits(source)
    ensures GetHead(PutHead(f, source) + rest) == Ok(Head(source, f.linedefined, f.lastlinedefined, f.nups, f.numparams, f.isVararg, f.maxstacksize), rest)
  {
    var x := [f.nups, f.numparams, f.isVararg, f.maxstacksize];
    var b3 := x + rest;
    var b2 := PutInt(f.lastlinedefined) + b3;
    var b1 := PutInt(f.linedefined) + b2;
    assert PutHead(f, source) + rest == PutString(source) + b1;
    GetStringPut(source, b1);
    GetIntPut(f.linedefined, b2);
    GetIntPut(f.lastlinedefined, b3);
    TakePut(x, rest);
  }

  lemma EmptyList<T>(get: Bytes -> Loaded<T>, rest: Bytes)
    ensures GetList(PutInt(0) + rest, get) == Ok([], rest)
  {
    GetIntPut(0, rest);
  }

  lemma GetDebugPut(f: Proto, strip: bool, rest: Bytes)
    requires Fits(f)
    ensures GetDebug(PutDebug(f, strip) + rest) == Ok(if strip then Debug([], [], []) else Debug(f.lineinfo, f.locvars, f.upvalues), rest)
  {
    if strip {
      assert PutDebug(f, strip) + rest == PutInt(0) + (PutInt(0) + (PutInt(0) + rest));
      EmptyList(GetLine, PutInt(0) + (PutInt(0) + rest));
      EmptyList(GetLocVar, PutInt(0) + rest);
      EmptyList(GetString, rest);
    } else {
      var b2 := PutList(f.upvalues, PutString) + rest;
      var b1 := PutList(f.locvars, PutLocVar) + b2;
      assert PutDebug(f, strip) + rest == PutList(f.lineinfo, PutInt) + b1;
      forall n <- f.lineinfo ensures Inverse(n, PutInt, GetLine) { LineInverse(n); }
      forall v <- f.locvars ensures Inverse(v, PutLocVar, GetLocVar) { LocVarInverse(v); }
      forall s <- f.upvalues ensures Inverse(s, PutString, GetString) { StringInverse(s); }
      GetListPut(f.lineinfo, PutInt, GetLine, b1);
      GetListPut(f.locvars, PutLocVar, GetLocVar, b2);
      GetListPut(f.upvalues, PutString, GetString, rest);
    }
  }

  /** The source that the enclosing function had and the one it has been loaded with. */
  predicate SourcesAgree(dumped: Option<Bytes>, parent: Bytes, strip: bool) {
    !strip && dumped.Some? ==> dumped == Some(parent)
  }

  lemma {:induction false} FunctionBack(f: Proto, dumped: Option<Bytes>, parent: Bytes, strip: bool, depth: nat, rest: Bytes)
    requires AllFit(f) && AllAccepted(f) && depth < MAXCCALLS && Within(f, MAXCCALLS - depth) && SourcesAgree(dumped, parent, strip)
    ensures GetFunction(PutFunction(f, dumped, strip) + rest, parent, depth) == Ok(Restored(f, parent, strip), rest)
    decreases f, 1
  {
    hide PutHead, PutList, PutDebug, GetHead, GetList, GetInt, GetDebug, PutInt, PutProtos, GetProtos, Accepted, Inverse;
    var source := if f.source == dumped || strip then None else f.source;
    var inner := SourceOr(source, parent);
    var b5 := PutDebug(f, strip) + rest;
    var b4 := PutProtos(f.p, f.source, strip) + b5;
    var b3 := PutInt(|f.p|) + b4;
    var b2 := PutList(f.k, PutConst) + b3;
    var b1 := PutList(f.code, PutWord) + b2;
    PutParts(f, dumped, strip, rest);
    GetHeadPut(f, source, b1);
    CodeBack(f, b2);
    ConstsBack(f, b3);
    GetIntPut(|f.p|, b4);
    ProtosBack(f.p, f.source, inner, strip, depth + 1, b5);
    GetDebugPut(f, strip, rest);
    RestoredAccepted(f, parent, strip);
    hide PutFunction;
  }

  lemma PutParts(f: Proto, dumped: Option<Bytes>, strip: bool, rest: Bytes)
    requires AllFit(f)
    ensures PutFunction(f, dumped, strip) + rest ==
            PutHead(f, if f.source == dumped || strip then None else f.source)
            + (PutList(f.code, PutWord) + (PutList(f.k, PutConst) + (PutInt(|f.p|) + (PutProtos(f.p, f.source, strip) + (PutDebug(f, strip) + rest)))))
  {
    hide PutHead, PutList, PutDebug, PutInt, PutProtos;
  }

  lemma CodeBack(f: Proto, rest: Bytes)
    requires Fits(f)
    ensures GetList(PutList(f.code, PutWord) + rest, GetWord) == Ok(f.code, rest)
  {
    forall w <- f.code ensures Inverse(w, PutWord, GetWord) { WordInverse(w); }
    GetListPut(f.code, PutWord, GetWord, rest);
  }

  lemma ConstsBack(f: Proto, rest: Bytes)
    requires Fits(f)
    ensures GetList(PutList(f.k, PutConst) + rest, GetConst) == Ok(f.k, rest)
  {
    forall c <- f.k ensures Inverse(c, PutConst, GetConst) { ConstInverse(c); }
    GetListPut(f.k, PutConst, GetConst, rest);
  }

  lemma {:induction false} ProtosBack(ps: seq<Proto>, dumped: Option<Bytes>, parent: Bytes, strip: bool, depth: nat, rest: Bytes)
    requires depth <= MAXCCALLS && SourcesAgree(dumped, parent, strip)
    requires forall q <- ps :: AllFit(q) && AllAccepted(q) && Within(q, MAXCCALLS - depth)
    ensures GetProtos(|ps|, PutProtos(ps, dumped, strip) + rest, parent, depth) == Ok(RestoredAll(ps, parent, strip), rest)
    decreases ps, 0
  {
    hide AllFit, AllAccepted, GetFunction, PutFunction, Restored;
    if ps == [] {
      assert PutProtos(ps, dumped, strip) + rest == rest;
    } else {
      var more := PutProtos(ps[1..], dumped, strip);
      assert PutProtos(ps, dumped, strip) + rest == PutFunction(ps[0], dumped, strip) + (more + rest);
      assert depth < MAXCCALLS;
      FunctionBack(ps[0], dumped, parent, strip, depth, more + rest);
      ProtosBack(ps[1..], dumped, parent, strip, depth, rest);
    }
  }

  // ---- Chunks -------------------------------------------------------------

  /** `luaU_header`: the signature, version 5.1, format 0, and the sizes. */
  const HEADER: Bytes := [27, 76, 117, 97, 0x51, 0, 1, 4, 8, 4, 8, 0]

  /** The source of what has none: `=?`. */
  const NO_SOURCE: Bytes := [61, 63]

  /** `luaU_dump`. */
  function Dump(f: Proto, strip: bool): Bytes
    requires AllFit(f)
  {
    HEADER + PutFunction(f, None, strip)
  }

  /** `luaU_undump`, when `depth` calls are active. */
  function Undump(b: Bytes, depth: nat): Loaded<Proto> {
    match Take(b, 12)
    case Err(e) => Err(e)
    case Ok(h, r) => if h != HEADER then Err(BadHeader) else GetFunction(r, NO_SOURCE, depth)
  }

  /** Whatever follows it, a dumped tree is loaded as it was, or without its debug
      information. */
  lemma RoundTrip(f: Proto, strip: bool, depth: nat, rest: Bytes)
    requires AllFit(f) && AllAccepted(f) && depth < 200 && Within(f, 200 - depth)
    ensures Undump(Dump(f, strip) + rest, depth) == Ok(Restored(f, ['=' as int, '?' as int], strip), rest)
    ensures !strip && AllSourced(f) ==> Undump(Dump(f, strip) + rest, depth) == Ok(f, rest)
  {
    hide GetFunction, PutFunction, Restored;
    var more := PutFunction(f, None, strip) + rest;
    assert Dump(f, strip) + rest == HEADER + more;
    TakePut(HEADER, more);
    FunctionBack(f, None, NO_SOURCE, strip, depth, rest);
    RestoredSame(f, NO_SOURCE);
  }

  /** Whatever is loaded, from whatever bytes, has been accepted: all functions of
      the tree, nested no deeper than allowed. */
  lemma {:induction false} LoadedAccepted(b: Bytes, parent: Bytes, depth: nat)
    ensures var r := GetFunction(b, parent, depth); r.Ok? ==> AllAccepted(r.v) && depth < 200 && Within(r.v, 200 - depth)
    decreases MAXCCALLS - depth, 0, 1
  {
    hide GetHead, GetList, GetInt, GetDebug, Accepted;
    if depth < MAXCCALLS && GetFunction(b, parent, depth).Ok? {
      var h := GetHead(b);
      var b3 := GetList(GetList(h.rest, GetWord).rest, GetConst).rest;
      var n := GetInt(b3);
      ProtosAccepted(n.v, n.rest, SourceOr(h.v.source, parent), depth + 1);
    }
  }

  lemma {:induction false} ProtosAccepted(n: nat, b: Bytes, parent: Bytes, depth: nat)
    requires depth <= MAXCCALLS
    ensures var r := GetProtos(n, b, parent, depth); r.Ok? ==> forall q <- r.v :: AllAccepted(q) && Within(q, MAXCCALLS - depth)
    decreases MAXCCALLS - depth, n, 2
  {
    hide GetFunction, AllAccepted, Within;
    if n > 0 {
      LoadedAccepted(b, parent, depth);
      var r := GetFunction(b, parent, depth);
      if r.Ok? { ProtosAccepted(n - 1, r.rest, parent, depth); }
    }
  }

  /** Whatever is loaded has its sources: loading fills in those that are missing. */
  lemma {:induction false} LoadedSourced(b: Bytes, parent: Bytes, depth: nat)
    ensures var r := GetFunction(b, parent, depth); r.Ok? ==> AllSourced(r.v)
    decreases MAXCCALLS - depth, 0, 1
  {
    hide GetHead, GetList, GetInt, GetDebug, Accepted;
    if depth < MAXCCALLS && GetFunction(b, parent, depth).Ok? {
      var h := GetHead(b);
      var b3 := GetList(GetList(h.rest, GetWord).rest, GetConst).rest;
      var n := GetInt(b3);
      ProtosSourced(n.v, n.rest, SourceOr(h.v.source, parent), depth + 1);
    }
  }

  lemma {:induction false} ProtosSourced(n: nat, b: Bytes, parent: Bytes, depth: nat)
    requires depth <= MAXCCALLS
    ensures var r := GetProtos(n, b, parent, depth); r.Ok? ==> forall q <- r.v :: AllSourced(q)
    decreases MAXCCALLS - depth, n, 2
  {
    hide GetFunction, AllSourced;
    if n > 0 {
      LoadedSourced(b, parent, depth);
      var r := GetFunction(b, parent, depth);
      if r.Ok? { ProtosSourced(n - 1, r.rest, parent, depth); }
    }
  }

  // ---- Loaded trees can be dumped -----------------------------------------

  lemma {:induction false} GetManyAll<T>(n: nat, b: Bytes, get: Bytes -> Loaded<T>, ok: T -> bool)
    requires forall c :: get(c).Ok? ==> ok(get(c).v)
    ensures var r := GetMany(n, b, get); r.Ok? ==> forall x <- r.v :: ok(x)
    decreases n
  {
    if n > 0 && get(b).Ok? { GetManyAll(n - 1, get(b).rest, get, ok); }
  }

  lemma GetListAll<T>(b: Bytes, get: Bytes -> Loaded<T>, ok: T -> bool)
    requires forall c :: get(c).Ok? ==> ok(get(c).v)
    ensures var r := GetList(b, get); r.Ok? ==> |r.v| < 0x8000_0000 && forall x <- r.v :: ok(x)
  {
    var n := GetInt(b);
    if n.Ok? { GetManyAll(n.v, n.rest, get, ok); }
  }

  predicate LocVarFits(v: LocVar) { StringFits(v.name) }

  predicate Any<T>(x: T) { true }

  lemma StringLoadedFits(b: Bytes)
    ensures GetString(b).Ok? ==> StringFits(GetString(b).v)
  {
    EightBytes();
  }

  lemma ElementsFit()
    ensures forall b :: GetString(b).Ok? ==> StringFits(GetString(b).v)
    ensures forall b :: GetConst(b).Ok? ==> ConstFits(GetConst(b).v)
    ensures forall b :: GetLocVar(b).Ok? ==> LocVarFits(GetLocVar(b).v)
  {
    hide GetString, StringFits;
    forall b ensures GetString(b).Ok? ==> StringFits(GetString(b).v) { StringLoadedFits(b); }
    forall b ensures GetConst(b).Ok? ==> ConstFits(GetConst(b).v) {
      if GetByte(b).Ok? { StringLoadedFits(GetByte(b).rest); }
    }
    forall b ensures GetLocVar(b).Ok? ==> LocVarFits(GetLocVar(b).v) { StringLoadedFits(b); }
  }

  lemma DebugFits(b: Bytes)
    ensures var r := GetDebug(b); r.Ok? ==>
              && |r.v.lineinfo| < 0x8000_0000 && |r.v.locvars| < 0x8000_0000 && |r.v.upvalues| < 0x8000_0000
              && (forall v <- r.v.locvars :: LocVarFits(v)) && forall u <- r.v.upvalues :: StringFits(u)
  {
    hide GetList, GetLocVar, GetString;
    ElementsFit();
    GetListAll(b, GetLine, Any);
    var lines := GetList(b, GetLine);
    if lines.Ok? {
      GetListAll(lines.rest, GetLocVar, LocVarFits);
      var vars := GetList(lines.rest, GetLocVar);
      if vars.Ok? { GetListAll(vars.rest, GetString, StringFits); }
    }
  }

  lemma HeadFits(b: Bytes)
    ensures GetHead(b).Ok? ==> StringFits(GetHead(b).v.source)
  {
    StringLoadedFits(b);
    hide GetString;
  }

  lemma {:induction false} LoadedFits(b: Bytes, parent: Bytes, depth: nat)
    requires StringFits(Some(parent))
    ensures var r := GetFunction(b, parent, depth); r.Ok? ==> AllFit(r.v)
    decreases MAXCCALLS - depth, 0, 1
  {
    hide GetHead, GetList, GetInt, GetDebug, GetConst, GetString, GetLocVar, Accepted, StringFits;
    if depth < MAXCCALLS && GetFunction(b, parent, depth).Ok? {
      HeadFits(b);
      ElementsFit();
      var h := GetHead(b);
      GetListAll(h.rest, GetWord, Any);
      var code := GetList(h.rest, GetWord);
      GetListAll(code.rest, GetConst, ConstFits);
      var n := GetInt(GetList(code.rest, GetConst).rest);
      ProtosFit(n.v, n.rest, SourceOr(h.v.source, parent), depth + 1);
      DebugFits(GetProtos(n.v, n.rest, SourceOr(h.v.source, parent), depth + 1).rest);
    }
  }

  lemma {:induction false} ProtosFit(n: nat, b: Bytes, parent: Bytes, depth: nat)
    requires depth <= MAXCCALLS && StringFits(Some(parent))
    ensures var r := GetProtos(n, b, parent, depth); r.Ok? ==> |r.v| == n && forall q <- r.v :: AllFit(q)
    decreases MAXCCALLS - depth, n, 2
  {
    hide GetFunction, AllFit, StringFits;
    if n > 0 {
      LoadedFits(b, parent, depth);
      var r := GetFunction(b, parent, depth);
      if r.Ok? { ProtosFit(n - 1, r.rest, parent, depth); }
    }
  }

  /** Whatever can be loaded can be dumped, and is loaded unchanged from the dump:
      the loader leaves no source missing. */
  lemma LoadedAgain(b: Bytes, depth: nat, rest: Bytes)
    requires Undump(b, depth).Ok?
    ensures var f := Undump(b, depth).v; AllFit(f) && Undump(Dump(f, false) + rest, depth) == Ok(f, rest)
  {
    hide GetFunction, AllFit, AllAccepted, AllSourced, Within;
    var r := Take(b, 12).rest;
    assert StringFits(Some(NO_SOURCE));
    LoadedFits(r, NO_SOURCE, depth);
    LoadedAccepted(r, NO_SOURCE, depth);
    LoadedSourced(r, NO_SOURCE, depth);
    RoundTrip(Undump(b, depth).v, false, depth, rest);
  }
}
