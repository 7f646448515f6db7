/** The format of precompiled chunks as a list of fields, whose widths and byte order
    are those that the header of the chunk announces; and some chunks byte by byte. */
module ChunkLayout {
  import opened ChunkWords
  import opened ChunkFormat
  import opened ChunkTree

  // ---- Fields -------------------------------------------------------------

  datatype Field = Char(b: Byte) | Integer(n: Int) | Size(size: nat) | Instruction(w: Word) | Raw(x: Bytes)

  /** The width of a field in a chunk with header `h`. */
  function Width(fd: Field, h: Bytes): nat
    requires |h| == 12
  {
    match fd
    case Char(_) => 1
    case Integer(_) => h[7]
    case Size(_) => h[8]
    case Instruction(_) => h[9]
    case Raw(x) => |x|
  }

  /** The bytes of a number from the least to the most significant, or the other way
      round, in as many bytes; a negative number is written as its complement. */
  ghost predicate Digits(b: Bytes, n: int, little: bool) {
    forall i :: 0 <= i < |b| ==>
      b[if little then i else |b| - 1 - i] == ((if n < 0 then n + Pow256(|b|) else n) / Pow256(i)) % 256
  }

  ghost predicate Shows(b: Bytes, fd: Field, h: Bytes)
    requires |h| == 12
  {
    match fd
    case Char(x) => b == [x]
    case Integer(n) => Digits(b, n, h[6] == 1)
    case Size(n) => Digits(b, n, h[6] == 1)
    case Instruction(w) => Digits(b, w, h[6] == 1)
    case Raw(x) => b == x
  }

  /** The fields one after the other, and nothing else. */
  ghost predicate Written(b: Bytes, fds: seq<Field>, h: Bytes)
    requires |h| == 12
    decreases |fds|
  {
    if fds == [] then b == []
    else var w := Width(fds[0], h); w <= |b| && Shows(b[..w], fds[0], h) && Written(b[w..], fds[1..], h)
  }

  // ---- The fields of a function -------------------------------------------

  /** A string has its size before it, which counts a zero after it. */
  function StringFields(s: Option<Bytes>): seq<Field> {
    match s
    case None => [Size(0)]
    case Some(x) => [Size(|x| + 1), Raw(x), Char(0)]
  }

  /** A constant has its type before it: LUA_TNIL, LUA_TBOOLEAN, LUA_TNUMBER or
      LUA_TSTRING. */
  function ConstFields(c: Const): seq<Field> {
    match c
    case KNil => [Char(0)]
    case KBool(b) => [Char(1), Char(if b then 1 else 0)]
    case KNum(x) => [Char(3), Raw(x)]
    case KStr(s) => [Char(4)] + StringFields(s)
  }

  function LocVarFields(v: LocVar): seq<Field> {
    StringFields(v.name) + [Integer(v.startpc), Integer(v.endpc)]
  }

  function AllFields<T>(xs: seq<T>, fields: T -> seq<Field>): seq<Field> {
    if xs == [] then [] else fields(xs[0]) + AllFields(xs[1..], fields)
  }

  function CodeField(w: Word): seq<Field> { [Instruction(w)] }

  function LineField(n: Int): seq<Field> { [Integer(n)] }

  function HeadFields(f: Proto, source: Option<Bytes>): seq<Field> {
    StringFields(source)
    + [Integer(f.linedefined), Integer(f.lastlinedefined), Char(f.nups), Char(f.numparams), Char(f.isVararg), Char(f.maxstacksize)]
  }

  function DebugFields(f: Proto): seq<Field>
    requires Fits(f)
  {
    [Integer(|f.lineinfo|)] + AllFields(f.lineinfo, LineField)
    + ([Integer(|f.locvars|)] + AllFields(f.locvars, LocVarFields))
    + ([Integer(|f.upvalues|)] + AllFields(f.upvalues, StringFields))
  }

  /** A source that is that of the enclosing function is left out. */
  function FunctionFields(f: Proto, parent: Option<Bytes>, strip: bool): seq<Field>
    requires AllFit(f)
    decreases f, 1
  {
    HeadFields(f, if strip || f.source == parent then None else f.source)
    + ([Integer(|f.code|)] + AllFields(f.code, CodeField))
    + ([Integer(|f.k|)] + AllFields(f.k, ConstFields))
    + ([Integer(|f.p|)] + InnerFields(f.p, f.source, strip))
    + (if strip then [Integer(0), Integer(0), Integer(0)] else DebugFields(f))
  }

  function InnerFields(ps: seq<Proto>, parent: Option<Bytes>, strip: bool): seq<Field>
    requires forall q <- ps :: AllFit(q)
    decreases ps, 0
  {
    if ps == [] then [] else FunctionFields(ps[0], parent, strip) + InnerFields(ps[1..], parent, strip)
  }

  // ---- Writing them -------------------------------------------------------

  lemma {:induction false} WrittenBoth(a: Bytes, fs: seq<Field>, b: Bytes, gs: seq<Field>, h: Bytes)
    requires |h| == 12 && Written(a, fs, h) && Written(b, gs, h)
    ensures Written(a + b, fs + gs, h)
    decreases |fs|
  {
    hide Shows;
    if fs == [] {
      assert a + b == b && fs + gs == gs;
    } else {
      var w := Width(fs[0], h);
      WrittenBoth(a[w..], fs[1..], b, gs, h);
      assert (fs + gs)[1..] == fs[1..] + gs;
      assert (a + b)[..w] == a[..w] && (a + b)[w..] == a[w..] + b;
    }
  }

  lemma WrittenOne(b: Bytes, fd: Field, h: Bytes)
    requires |h| == 12 && |b| == Width(fd, h) && Shows(b, fd, h)
    ensures Written(b, [fd], h)
  {
    hide Shows;
    assert b[..|b|] == b && b[|b|..] == [];
  }

  lemma {:induction false} PutDigit(n: nat, k: nat, i: nat)
    requires i < k
    ensures PutNat(n, k)[i] == (n / Pow256(i)) % 256
    decreases i
  {
    if i > 0 {
      PutDigit(n / 256, k - 1, i - 1);
      assert PutNat(n, k)[i] == PutNat(n / 256, k - 1)[i - 1];
      DivDiv(n, Pow256(i - 1));
    }
  }

  lemma DivDiv(n: nat, m: nat)
    requires m > 0
    ensures n / 256 / m == n / (256 * m)
  {
    var q := n / 256 / m;
    var r := n / 256 % m;
    assert n / 256 == q * m + r;
    assert n == 256 * (q * m + r) + n % 256;
    assert n == (256 * m) * q + (256 * r + n % 256);
    assert 256 * r + n % 256 < 256 * m;
    Quotient(n, 256 * m, q, 256 * r + n % 256);
  }

  lemma Quotient(v: nat, n: nat, q: nat, r: nat)
    requires n > 0 && v == n * q + r && r < n
    ensures v / n == q
  {
    var d := v / n - q;
    assert n * d == r - v % n;
    assert 0 - n < n * d < n;
  }

  lemma NumberShown(n: nat, k: nat)
    ensures Digits(PutNat(n, k), n, true)
  {
    forall i | 0 <= i < k ensures PutNat(n, k)[i] == (n / Pow256(i)) % 256 { PutDigit(n, k, i); }
  }

  lemma IntWritten(n: Int)
    ensures Written(PutInt(n), [Integer(n)], HEADER)
  {
    FourBytes();
    NumberShown(if n < 0 then n + 0x1_0000_0000 else n, 4);
    WrittenOne(PutInt(n), Integer(n), HEADER);
  }

  lemma WordWritten(w: Word)
    ensures Written(PutWord(w), CodeField(w), HEADER)
  {
    NumberShown(w, 4);
    WrittenOne(PutWord(w), Instruction(w), HEADER);
  }

  lemma SizeWritten(n: nat)
    ensures Written(PutNat(n, 8), [Size(n)], HEADER)
  {
    NumberShown(n, 8);
    WrittenOne(PutNat(n, 8), Size(n), HEADER);
  }

  lemma StringWritten(s: Option<Bytes>)
    ensures Written(PutString(s), StringFields(s), HEADER)
  {
    hide Written;
    match s
    case None => SizeWritten(0);
    case Some(x) =>
      SizeWritten(|x| + 1);
      WrittenOne(x, Raw(x), HEADER);
      WrittenOne([0], Char(0), HEADER);
      WrittenBoth(x, [Raw(x)], [0], [Char(0)], HEADER);
      WrittenBoth(PutNat(|x| + 1, 8), [Size(|x| + 1)], x + [0], [Raw(x)] + [Char(0)], HEADER);
      assert StringFields(s) == [Size(|x| + 1)] + ([Raw(x)] + [Char(0)]);
  }

  lemma ConstWritten(c: Const)
    ensures Written(PutConst(c), ConstFields(c), HEADER)
  {
    hide Written;
    match c
    case KNil => WrittenOne([0], Char(0), HEADER);
    case KBool(b) =>
      var x: Byte := if b then 1 else 0;
      WrittenOne([1], Char(1), HEADER);
      WrittenOne([x], Char(x), HEADER);
      WrittenBoth([1], [Char(1)], [x], [Char(x)], HEADER);
      assert PutConst(c) == [1] + [x] && ConstFields(c) == [Char(1)] + [Char(x)];
    case KNum(x) =>
      WrittenOne([3], Char(3), HEADER);
      WrittenOne(x, Raw(x), HEADER);
      WrittenBoth([3], [Char(3)], x, [Raw(x)], HEADER);
      assert PutConst(c) == [3] + x && ConstFields(c) == [Char(3)] + [Raw(x)];
    case KStr(s) =>
      WrittenOne([4], Char(4), HEADER);
      StringWritten(s);
      WrittenBoth([4], [Char(4)], PutString(s), StringFields(s), HEADER);
  }

  lemma LocVarWritten(v: LocVar)
    ensures Written(PutLocVar(v), LocVarFields(v), HEADER)
  {
    hide Written;
    StringWritten(v.name);
    IntWritten(v.startpc);
    IntWritten(v.endpc);
    WrittenBoth(PutInt(v.startpc), [Integer(v.startpc)], PutInt(v.endpc), [Integer(v.endpc)], HEADER);
    WrittenBoth(PutString(v.name), StringFields(v.name), PutInt(v.startpc) + PutInt(v.endpc), [Integer(v.startpc)] + [Integer(v.endpc)], HEADER);
    assert PutLocVar(v) == PutString(v.name) + (PutInt(v.startpc) + PutInt(v.endpc));
    assert LocVarFields(v) == StringFields(v.name) + ([Integer(v.startpc)] + [Integer(v.endpc)]);
  }

  lemma {:induction false} ManyWritten<T>(xs: seq<T>, put: T -> Bytes, fields: T -> seq<Field>)
    requires forall x <- xs :: Written(put(x), fields(x), HEADER)
    ensures Written(PutMany(xs, put), AllFields(xs, fields), HEADER)
  {
    if xs != [] {
      ManyWritten(xs[1..], put, fields);
      WrittenBoth(put(xs[0]), fields(xs[0]), PutMany(xs[1..], put), AllFields(xs[1..], fields), HEADER);
    }
  }

  lemma ListWritten<T>(xs: seq<T>, put: T -> Bytes, fields: T -> seq<Field>)
    requires |xs| < 0x8000_0000 && forall x <- xs :: Written(put(x), fields(x), HEADER)
    ensures Written(PutList(xs, put), [Integer(|xs|)] + AllFields(xs, fields), HEADER)
  {
    ManyWritten(xs, put, fields);
    IntWritten(|xs|);
    WrittenBoth(PutInt(|xs|), [Integer(|xs|)], PutMany(xs, put), AllFields(xs, fields), HEADER);
  }

  lemma HeadWritten(f: Proto, source: Option<Bytes>)
    ensures Written(PutHead(f, source), HeadFields(f, source), HEADER)
  {
    hide Written, PutInt, PutString, StringFields;
    var x := [f.nups, f.numparams, f.isVararg, f.maxstacksize];
    var xf := [Char(f.nups)] + [Char(f.numparams)] + [Char(f.isVararg)] + [Char(f.maxstacksize)];
    WrittenOne([f.nups], Char(f.nups), HEADER);
    WrittenOne([f.numparams], Char(f.numparams), HEADER);
    WrittenOne([f.isVararg], Char(f.isVararg), HEADER);
    WrittenOne([f.maxstacksize], Char(f.maxstacksize), HEADER);
    WrittenBoth([f.nups], [Char(f.nups)], [f.numparams], [Char(f.numparams)], HEADER);
    WrittenBoth([f.nups] + [f.numparams], [Char(f.nups)] + [Char(f.numparams)], [f.isVararg], [Char(f.isVararg)], HEADER);
    WrittenBoth([f.nups] + [f.numparams] + [f.isVararg], [Char(f.nups)] + [Char(f.numparams)] + [Char(f.isVararg)], [f.maxstacksize], [Char(f.maxstacksize)], HEADER);
    assert x == [f.nups] + [f.numparams] + [f.isVararg] + [f.maxstacksize];
    IntWritten(f.lastlinedefined);
    WrittenBoth(PutInt(f.lastlinedefined), [Integer(f.lastlinedefined)], x, xf, HEADER);
    IntWritten(f.linedefined);
    WrittenBoth(PutInt(f.linedefined), [Integer(f.linedefined)], PutInt(f.lastlinedefined) + x, [Integer(f.lastlinedefined)] + xf, HEADER);
    StringWritten(source);
    WrittenBoth(PutString(source), StringFields(source), PutInt(f.linedefined) + (PutInt(f.lastlinedefined) + x),
                [Integer(f.linedefined)] + ([Integer(f.lastlinedefined)] + xf), HEADER);
    assert HeadFields(f, source) == StringFields(source) + ([Integer(f.linedefined)] + ([Integer(f.lastlinedefined)] + xf));
  }

  lemma DebugWritten(f: Proto, strip: bool)
    requires Fits(f)
    ensures Written(PutDebug(f, strip), if strip then [Integer(0), Integer(0), Integer(0)] else DebugFields(f), HEADER)
  {
    hide Written, PutInt, PutList, AllFields;
    if strip {
      IntWritten(0);
      WrittenBoth(PutInt(0), [Integer(0)], PutInt(0), [Integer(0)], HEADER);
      WrittenBoth(PutInt(0), [Integer(0)], PutInt(0) + PutInt(0), [Integer(0)] + [Integer(0)], HEADER);
      assert [Integer(0)] + ([Integer(0)] + [Integer(0)]) == [Integer(0), Integer(0), Integer(0)];
    } else {
      forall n <- f.lineinfo ensures Written(PutInt(n), LineField(n), HEADER) { IntWritten(n); }
      forall v <- f.locvars ensures Written(PutLocVar(v), LocVarFields(v), HEADER) { LocVarWritten(v); }
      forall s <- f.upvalues ensures Written(PutString(s), StringFields(s), HEADER) { StringWritten(s); }
      ListWritten(f.lineinfo, PutInt, LineField);
      ListWritten(f.locvars, PutLocVar, LocVarFields);
      ListWritten(f.upvalues, PutString, StringFields);
      var a, b, c := [Integer(|f.lineinfo|)] + AllFields(f.lineinfo, LineField), [Integer(|f.locvars|)] + AllFields(f.locvars, LocVarFields),
                     [Integer(|f.upvalues|)] + AllFields(f.upvalues, StringFields);
      WrittenBoth(PutList(f.locvars, PutLocVar), b, PutList(f.upvalues, PutString), c, HEADER);
      WrittenBoth(PutList(f.lineinfo, PutInt), a, PutList(f.locvars, PutLocVar) + PutList(f.upvalues, PutString), b + c, HEADER);
      assert DebugFields(f) == a + (b + c);
    }
  }

  /** A dumped function is its fields, in the widths of the header. */
  lemma {:induction false} FunctionWritten(f: Proto, parent: Option<Bytes>, strip: bool)
    requires AllFit(f)
    ensures Written(PutFunction(f, parent, strip), FunctionFields(f, parent, strip), HEADER)
    decreases f, 1
  {
    hide Written, PutInt, PutList, AllFields, PutHead, HeadFields, PutDebug, DebugFields, PutProtos, InnerFields;
    var source := if strip || f.source == parent then None else f.source;
    HeadWritten(f, source);
    BodyWritten(f);
    IntWritten(|f.p|);
    InnerWritten(f.p, f.source, strip);
    DebugWritten(f, strip);
    var a, b, c := HeadFields(f, source), [Integer(|f.code|)] + AllFields(f.code, CodeField), [Integer(|f.k|)] + AllFields(f.k, ConstFields);
    var d, e := InnerFields(f.p, f.source, strip), if strip then [Integer(0), Integer(0), Integer(0)] else DebugFields(f);
    var y := PutProtos(f.p, f.source, strip) + PutDebug(f, strip);
    WrittenBoth(PutProtos(f.p, f.source, strip), d, PutDebug(f, strip), e, HEADER);
    WrittenBoth(PutInt(|f.p|), [Integer(|f.p|)], y, d + e, HEADER);
    WrittenBoth(PutList(f.k, PutConst), c, PutInt(|f.p|) + y, [Integer(|f.p|)] + (d + e), HEADER);
    WrittenBoth(PutList(f.code, PutWord), b, PutList(f.k, PutConst) + (PutInt(|f.p|) + y), c + ([Integer(|f.p|)] + (d + e)), HEADER);
    WrittenBoth(PutHead(f, source), a, PutList(f.code, PutWord) + (PutList(f.k, PutConst) + (PutInt(|f.p|) + y)), b + (c + ([Integer(|f.p|)] + (d + e))), HEADER);
    Regroup(a, b, c, [Integer(|f.p|)], d, e);
  }

  lemma Regroup(a: seq<Field>, b: seq<Field>, c: seq<Field>, n: seq<Field>, d: seq<Field>, e: seq<Field>)
    ensures a + (b + (c + (n + (d + e)))) == a + b + c + (n + d) + e
  {}

  lemma BodyWritten(f: Proto)
    requires Fits(f)
    ensures Written(PutList(f.code, PutWord), [Integer(|f.code|)] + AllFields(f.code, CodeField), HEADER)
    ensures Written(PutList(f.k, PutConst), [Integer(|f.k|)] + AllFields(f.k, ConstFields), HEADER)
  {
    hide Written, PutList, AllFields;
    forall w <- f.code ensures Written(PutWord(w), CodeField(w), HEADER) { WordWritten(w); }
    forall c <- f.k ensures Written(PutConst(c), ConstFields(c), HEADER) { ConstWritten(c); }
    ListWritten(f.code, PutWord, CodeField);
    ListWritten(f.k, PutConst, ConstFields);
  }

  lemma {:induction false} InnerWritten(ps: seq<Proto>, parent: Option<Bytes>, strip: bool)
    requires forall q <- ps :: AllFit(q)
    ensures Written(PutProtos(ps, parent, strip), InnerFields(ps, parent, strip), HEADER)
    decreases ps, 0
  {
    if ps != [] {
      FunctionWritten(ps[0], parent, strip);
      InnerWritten(ps[1..], parent, strip);
      WrittenBoth(PutFunction(ps[0], parent, strip), FunctionFields(ps[0], parent, strip), PutProtos(ps[1..], parent, strip), InnerFields(ps[1..], parent, strip), HEADER);
    }
  }

  // ---- The header ---------------------------------------------------------

  /** The header starts with the signature, the version and the format, and then says
      how everything after it is written: byte order first, then the widths of an
      int, a size, an instruction and a number; numbers are not integers. */
  lemma HeaderDescribes(n: Int, s: Option<Bytes>, w: Word, c: Const, parent: Option<Bytes>, f: Proto, strip: bool)
    requires ConstFits(c) && AllFit(f)
    ensures |HEADER| == 12 && HEADER[..6] == [27, 'L' as int, 'u' as int, 'a' as int, 0x51, 0] && HEADER[11] == 0
    ensures HEADER[6] == PutInt(1)[0]
    ensures HEADER[7] == |PutInt(n)|
    ensures |PutString(s)| == HEADER[8] + if s.Some? then |s.value| + 1 else 0
    ensures HEADER[9] == |PutWord(w)|
    ensures c.KNum? ==> |PutConst(c)| == 1 + HEADER[10]
    ensures Dump(f, strip)[..12] == HEADER && Written(Dump(f, strip)[12..], FunctionFields(f, None, strip), HEADER)
  {
    assert Dump(f, strip)[12..] == PutFunction(f, None, strip);
    FunctionWritten(f, None, strip);
  }

  // ---- Byte by byte -------------------------------------------------------

  /** What the compiler makes of an empty file: one RETURN. */
  const EMPTY := Proto(None, 0, 0, 0, 0, 2, 2, [30 + 8388608], [], [], [], [], [])

  lemma SmallNumbers()
    ensures PutNat(0, 8) == [0, 0, 0, 0, 0, 0, 0, 0] && PutNat(2, 8) == [2, 0, 0, 0, 0, 0, 0, 0]
    ensures PutInt(0) == [0, 0, 0, 0] && PutInt(1) == [1, 0, 0, 0] && PutInt(-2) == [254, 255, 255, 255]
    ensures PutWord(30 + 8388608) == [30, 0, 128, 0]
  {
    EightDigits(0);
    EightDigits(2);
    FourDigits(0);
    FourDigits(1);
    FourDigits(0xffff_fffe);
    FourDigits(30 + 8388608);
  }

  lemma FourDigits(n: nat)
    ensures PutNat(n, 4) == [n % 256, n / 256 % 256, n / 256 / 256 % 256, n / 256 / 256 / 256 % 256]
  {
    assert PutNat(n, 4) == [n % 256] + ([n / 256 % 256] + PutNat(n / 256 / 256, 2));
  }

  lemma EightDigits(n: nat)
    requires n < 256
    ensures PutNat(n, 8) == [n, 0, 0, 0, 0, 0, 0, 0]
  {
    assert PutNat(n, 8) == [n] + PutNat(0, 7);
    assert PutNat(0, 7) == [0] + ([0] + ([0] + PutNat(0, 4)));
    FourDigits(0);
  }

  const ZEROS4: Bytes := [0, 0, 0, 0]
  const ZEROS8: Bytes := [0, 0, 0, 0, 0, 0, 0, 0]

  lemma EmptyDumped()
    ensures AllFit(EMPTY) && Dump(EMPTY, true) ==
      [27, 76, 117, 97, 0x51, 0, 1, 4, 8, 4, 8, 0]
      + ((ZEROS8 + (ZEROS4 + (ZEROS4 + [0, 0, 2, 2])))       // no source, lines, upvalues, parameters, flags, registers
      + (([1, 0, 0, 0] + [30, 0, 128, 0])                    // one instruction
      + (ZEROS4 + (ZEROS4                                    // no constants, no functions
      + (ZEROS4 + (ZEROS4 + ZEROS4))))))                     // no lines, locals, names of upvalues
  {
    EmptyParts();
    EmptyFunction();
    hide PutNat, PutInt, PutList, PutFunction, ZEROS4, ZEROS8, AllFit;
  }

  lemma EmptyParts()
    ensures PutNat(0, 8) == ZEROS8 && PutInt(0) == ZEROS4
    ensures PutList(EMPTY.code, PutWord) == [1, 0, 0, 0] + [30, 0, 128, 0] && PutList(EMPTY.k, PutConst) == ZEROS4
  {
    SmallNumbers();
    var code: seq<Word> := [30 + 8388608];
    assert PutMany(code, PutWord) == PutWord(code[0]) + [] by { assert code[1..] == []; }
    hide PutNat, PutInt, PutWord;
    assert PutList(EMPTY.code, PutWord) == PutInt(1) + PutWord(30 + 8388608);
    assert PutList(EMPTY.k, PutConst) == PutInt(0) + [];
  }

  lemma EmptyFunction()
    ensures AllFit(EMPTY)
    ensures PutFunction(EMPTY, None, true) == (PutNat(0, 8) + (PutInt(0) + (PutInt(0) + [0, 0, 2, 2])))
      + (PutList(EMPTY.code, PutWord) + (PutList(EMPTY.k, PutConst) + (PutInt(0) + (PutInt(0) + (PutInt(0) + PutInt(0))))))
  {
    hide PutNat, PutInt, PutWord, PutMany, PutList;
    assert PutHead(EMPTY, None) == PutNat(0, 8) + (PutInt(0) + (PutInt(0) + [0, 0, 2, 2]));
    assert PutProtos(EMPTY.p, EMPTY.source, true) == [];
    assert PutDebug(EMPTY, true) == PutInt(0) + (PutInt(0) + PutInt(0));
    var x := PutDebug(EMPTY, true);
    assert [] + x == x;
  }

  /** A constant of each type, with the text `a`. */
  lemma ConstantsDumped(x: Bytes)
    ensures PutConst(KNil) == [0] && PutConst(KBool(false)) == [1, 0] && PutConst(KBool(true)) == [1, 1]
    ensures PutConst(KNum(x)) == [3] + x
    ensures PutConst(KStr(Some([97]))) == [4, 2, 0, 0, 0, 0, 0, 0, 0, 97, 0]
  {
    SmallNumbers();
    hide PutNat;
    var a: Bytes := [97];
    assert PutConst(KStr(Some(a))) == [4] + (PutNat(2, 8) + (a + [0]));
  }
}
