/** Which bytes the loader accepts, and as what: exactly the spellings of trees that
    the checker accepts.  The format leaves little freedom: any byte but zero is true,
    the byte behind a string is not looked at, and a source that is that of the
    enclosing function may be written or left out. */
module ChunkSpelling {
  import opened ChunkWords
  import opened ChunkChecker
  import opened ChunkFormat
  import opened ChunkTree

  // ---- Spellings ----------------------------------------------------------

  ghost predicate SpellsString(s: Bytes, x: Option<Bytes>) {
    match x
    case None => s == PutNat(0, 8)
    case Some(t) => StringFits(x) && |s| == 8 + |t| + 1 && s[..8] == PutNat(|t| + 1, 8) && s[8..8 + |t|] == t
  }

  ghost predicate SpellsConst(s: Bytes, c: Const) {
    match c
    case KNil => s == [0]
    case KBool(b) => |s| == 2 && s[0] == 1 && (s[1] != 0 <==> b)
    case KNum(x) => |x| == 8 && s == [3] + x
    case KStr(x) => s != [] && s[0] == 4 && SpellsString(s[1..], x)
  }

  ghost predicate SpellsWord(s: Bytes, w: Word) { s == PutWord(w) }

  ghost predicate SpellsLine(s: Bytes, n: Int) { s == PutInt(n) }

  ghost predicate SpellsLocVar(s: Bytes, v: LocVar) {
    |s| >= 8 && SpellsString(s[..|s| - 8], v.name) && s[|s| - 8..] == PutInt(v.startpc) + PutInt(v.endpc)
  }

  ghost predicate SpellsMany<T>(s: Bytes, xs: seq<T>, sp: (Bytes, T) -> bool)
    decreases |xs|
  {
    if xs == [] then s == []
    else exists n: nat :: n <= |s| && sp(s[..n], xs[0]) && SpellsMany(s[n..], xs[1..], sp)
  }

  ghost predicate SpellsList<T>(s: Bytes, xs: seq<T>, sp: (Bytes, T) -> bool) {
    |xs| < 0x8000_0000 && |s| >= 4 && s[..4] == PutInt(|xs|) && SpellsMany(s[4..], xs, sp)
  }

  /** The parts of a function. */
  datatype Parts = Parts(source: Bytes, code: Bytes, k: Bytes, inner: Bytes, lines: Bytes, vars: Bytes, ups: Bytes)

  /** The parts in their order, with the four lines, numbers and flags behind the
      source and the number of functions before those. */
  function Joined(q: Parts, f: Proto): Bytes
    requires |f.p| < 0x8000_0000
  {
    q.source + (PutInt(f.linedefined) + (PutInt(f.lastlinedefined) + ([f.nups, f.numparams, f.isVararg, f.maxstacksize]
    + (q.code + (q.k + (PutInt(|f.p|) + (q.inner + (q.lines + (q.vars + q.ups)))))))))
  }

  ghost predicate SpellsFunction(s: Bytes, f: Proto, parent: Bytes)
    decreases f, 1
  {
    |f.p| < 0x8000_0000 && f.source.Some? && exists q: Parts ::
      && s == Joined(q, f)
      && (SpellsString(q.source, f.source) || (f.source == Some(parent) && SpellsString(q.source, None)))
      && SpellsList(q.code, f.code, SpellsWord) && SpellsList(q.k, f.k, SpellsConst)
      && SpellsProtos(q.inner, f.p, f.source.value)
      && SpellsList(q.lines, f.lineinfo, SpellsLine) && SpellsList(q.vars, f.locvars, SpellsLocVar)
      && SpellsList(q.ups, f.upvalues, SpellsString)
  }

  ghost predicate SpellsProtos(s: Bytes, ps: seq<Proto>, parent: Bytes)
    decreases ps, 0
  {
    if ps == [] then s == []
    else exists n: nat :: n <= |s| && SpellsFunction(s[..n], ps[0], parent) && SpellsProtos(s[n..], ps[1..], parent)
  }

  // ---- What is read has been spelled --------------------------------------

  /** Bytes that are read as `x`, with `rest` left. */
  ghost predicate Starts<T>(b: Bytes, x: T, rest: Bytes, sp: (Bytes, T) -> bool) {
    |rest| <= |b| && b[|b| - |rest|..] == rest && sp(b[..|b| - |rest|], x)
  }

  /** The reader accepts exactly the spellings. */
  ghost predicate Exact<T(!new)>(get: Bytes -> Loaded<T>, sp: (Bytes, T) -> bool) {
    forall b: Bytes, x: T, rest: Bytes :: get(b) == Ok(x, rest) <==> Starts(b, x, rest, sp)
  }

  lemma {:induction false} PutOfNat(b: Bytes)
    ensures PutNat(NatOf(b), |b|) == b
  {
    if b != [] {
      PutOfNat(b[1..]);
      LowestByte(b[0], NatOf(b[1..]));
      assert PutNat(NatOf(b), |b|) == [NatOf(b) % 256] + PutNat(NatOf(b) / 256, |b| - 1);
    }
  }

  lemma LowestByte(x: Byte, n: nat)
    ensures (x + 256 * n) % 256 == x && (x + 256 * n) / 256 == n
  {}

  lemma PutOfInt(b: Bytes)
    requires |b| == 4
    ensures PutInt(IntOf(b)) == b && PutWord(WordOf(b)) == b
  {
    FourBytes();
    PutOfNat(b);
  }

  lemma WordExact()
    ensures Exact(GetWord, SpellsWord)
  {
    forall b: Bytes, w: Word, rest: Bytes ensures GetWord(b) == Ok(w, rest) <==> Starts(b, w, rest, SpellsWord) {
      if |b| >= 4 { PutOfInt(b[..4]); }
      if Starts(b, w, rest, SpellsWord) {
        WordInverse(w);
        assert b == PutWord(w) + rest;
      }
    }
  }

  lemma LineExact()
    ensures Exact(GetLine, SpellsLine)
  {
    forall b: Bytes, n: Int, rest: Bytes ensures GetLine(b) == Ok(n, rest) <==> Starts(b, n, rest, SpellsLine) {
      if |b| >= 4 { PutOfInt(b[..4]); }
      if Starts(b, n, rest, SpellsLine) {
        LineInverse(n);
        assert b == PutInt(n) + rest;
      }
    }
  }

  lemma StringExact()
    ensures Exact(GetString, SpellsString)
  {
    forall b: Bytes, x: Option<Bytes>, rest: Bytes ensures GetString(b) == Ok(x, rest) <==> Starts(b, x, rest, SpellsString) {
      EightBytes();
      if GetString(b) == Ok(x, rest) { StringRead(b, x, rest); }
      if Starts(b, x, rest, SpellsString) { StringSpelled(b, x, rest); }
    }
  }

  lemma StringRead(b: Bytes, x: Option<Bytes>, rest: Bytes)
    requires GetString(b) == Ok(x, rest)
    ensures Starts(b, x, rest, SpellsString)
  {
    EightBytes();
    PutOfNat(b[..8]);
    var size := NatOf(b[..8]);
    var s := b[..|b| - |rest|];
    if size == 0 {
      assert s == b[..8];
    } else {
      assert rest == b[8..][size..] == b[8 + size..];
      assert s == b[..8 + size] && s[..8] == b[..8] && s[8..8 + (size - 1)] == b[8..][..size - 1];
      assert x == Some(b[8..][..size][..size - 1]);
    }
  }

  lemma StringSpelled(b: Bytes, x: Option<Bytes>, rest: Bytes)
    requires Starts(b, x, rest, SpellsString)
    ensures GetString(b) == Ok(x, rest)
  {
    EightBytes();
    var s := b[..|b| - |rest|];
    assert b == s + rest;
    match x
    case None => GetStringPut(None, rest);
    case Some(t) =>
      NatOfPut(|t| + 1, 8);
      assert b[..8] == s[..8] && b[8..] == s[8..] + rest;
      TakePut(s[8..], rest);
      assert s[8..][..|t|] == s[8..8 + |t|];
  }

  lemma ConstExact()
    ensures Exact(GetConst, SpellsConst)
  {
    StringExact();
    hide GetString, SpellsString;
    forall b: Bytes, c: Const, rest: Bytes ensures GetConst(b) == Ok(c, rest) <==> Starts(b, c, rest, SpellsConst) {
      if b != [] { ConstSpelled(b, c, rest); }
    }
  }

  lemma ConstSpelled(b: Bytes, c: Const, rest: Bytes)
    requires b != [] && Exact(GetString, SpellsString)
    ensures GetConst(b) == Ok(c, rest) <==> Starts(b, c, rest, SpellsConst)
  {
    hide GetString, SpellsString;
    var r := b[1..];
    var n := |b| - |rest|;
    match c
    case KNil =>
    case KBool(v) => if Starts(b, c, rest, SpellsConst) { assert b[..n][1] == b[1] && r[1..] == b[2..]; }
    case KNum(x) =>
      if Starts(b, c, rest, SpellsConst) {
        assert b == [3] + (x + rest) by { assert b == b[..n] + rest; }
        TakePut(x, rest);
      }
      if GetConst(b) == Ok(c, rest) { assert b[..9] == [3] + r[..8] && r[8..] == b[9..]; }
    case KStr(x) =>
      if n >= 1 { assert b[..n][1..] == r[..|r| - |rest|] && b[n..] == r[|r| - |rest|..]; }
      assert GetString(r) == Ok(x, rest) <==> Starts(r, x, rest, SpellsString);
  }

  lemma LocVarExact()
    ensures Exact(GetLocVar, SpellsLocVar)
  {
    StringExact();
    forall b: Bytes, v: LocVar, rest: Bytes ensures GetLocVar(b) == Ok(v, rest) <==> Starts(b, v, rest, SpellsLocVar) {
      if GetLocVar(b) == Ok(v, rest) { LocVarRead(b, v, rest); }
      if Starts(b, v, rest, SpellsLocVar) { LocVarSpelled(b, v, rest); }
    }
  }

  lemma CountRead(b: Bytes)
    requires GetInt(b).Ok?
    ensures |b| >= 4 && b[..4] == PutInt(GetInt(b).v) && GetInt(b).rest == b[4..]
  {
    PutOfInt(b[..4]);
  }

  lemma LocVarRead(b: Bytes, v: LocVar, rest: Bytes)
    requires GetLocVar(b) == Ok(v, rest) && Exact(GetString, SpellsString)
    ensures Starts(b, v, rest, SpellsLocVar)
  {
    hide GetString, SpellsString, GetInt, PutInt;
    var r := GetString(b).rest;
    assert Starts(b, v.name, r, SpellsString);
    CountRead(r);
    CountRead(r[4..]);
    assert r[4..][4..] == r[8..] && rest == r[8..];
    var n := |b| - |r|;
    assert r == b[n..];
    var s := b[..n + 8];
    assert s[..n] == b[..n] && s[n..] == r[..8] == r[..4] + r[4..][..4] && b[n + 8..] == r[8..];
  }

  lemma LocVarSpelled(b: Bytes, v: LocVar, rest: Bytes)
    requires Starts(b, v, rest, SpellsLocVar) && Exact(GetString, SpellsString)
    ensures GetLocVar(b) == Ok(v, rest)
  {
    hide GetString, SpellsString, GetInt, PutInt;
    var s := b[..|b| - |rest|];
    var n := |s| - 8;
    var r := PutInt(v.startpc) + (PutInt(v.endpc) + rest);
    assert b == s + rest && s == s[..n] + s[n..];
    assert b == s[..n] + r;
    assert b[..n] == s[..n] && b[n..] == r;
    assert Starts(b, v.name, r, SpellsString);
    GetIntPut(v.startpc, PutInt(v.endpc) + rest);
    GetIntPut(v.endpc, rest);
  }

  // ---- Lists --------------------------------------------------------------

  lemma {:induction false} ManyRead<T(!new)>(n: nat, b: Bytes, get: Bytes -> Loaded<T>, sp: (Bytes, T) -> bool)
    requires Exact(get, sp) && GetMany(n, b, get).Ok?
    ensures var r := GetMany(n, b, get); |r.rest| <= |b| && b[|b| - |r.rest|..] == r.rest && SpellsMany(b[..|b| - |r.rest|], r.v, sp)
  {
    if n > 0 {
      var x, r := get(b).v, get(b).rest;
      assert Starts(b, x, r, sp);
      ManyRead(n - 1, r, get, sp);
      var q := GetMany(n, b, get);
      var m, e := |b| - |r|, |b| - |q.rest|;
      assert b[..e][..m] == b[..m] && b[..e][m..] == r[..|r| - |q.rest|];
      assert r[|r| - |q.rest|..] == b[e..];
      assert q.v[0] == x && q.v[1..] == GetMany(n - 1, r, get).v;
    }
  }

  lemma {:induction false} ManySpelled<T(!new)>(s: Bytes, xs: seq<T>, rest: Bytes, get: Bytes -> Loaded<T>, sp: (Bytes, T) -> bool)
    requires Exact(get, sp) && SpellsMany(s, xs, sp)
    ensures GetMany(|xs|, s + rest, get) == Ok(xs, rest)
    decreases |xs|
  {
    if xs == [] {
      assert s + rest == rest;
    } else {
      var n: nat :| n <= |s| && sp(s[..n], xs[0]) && SpellsMany(s[n..], xs[1..], sp);
      var b, r := s + rest, s[n..] + rest;
      assert |b| - |r| == n && b[..n] == s[..n] && b[n..] == r;
      assert Starts(b, xs[0], r, sp);
      ManySpelled(s[n..], xs[1..], rest, get, sp);
      assert xs == [xs[0]] + xs[1..];
    }
  }

  lemma ListRead<T(!new)>(b: Bytes, get: Bytes -> Loaded<T>, sp: (Bytes, T) -> bool) returns (s: Bytes)
    requires Exact(get, sp) && GetList(b, get).Ok?
    ensures var r := GetList(b, get); b == s + r.rest && SpellsList(s, r.v, sp)
  {
    CountRead(b);
    hide Exact, GetInt, PutInt;
    var n := GetInt(b);
    ManyRead(n.v, n.rest, get, sp);
    var r := GetList(b, get);
    s := b[..|b| - |r.rest|];
    assert s[..4] == b[..4] && s[4..] == b[4..][..|b| - 4 - |r.rest|];
    assert b[4..][|b| - 4 - |r.rest|..] == b[|b| - |r.rest|..];
  }

  lemma ListSpelled<T(!new)>(s: Bytes, xs: seq<T>, rest: Bytes, get: Bytes -> Loaded<T>, sp: (Bytes, T) -> bool)
    requires Exact(get, sp) && SpellsList(s, xs, sp)
    ensures GetList(s + rest, get) == Ok(xs, rest)
  {
    hide Exact;
    assert s + rest == PutInt(|xs|) + (s[4..] + rest) by { assert s == s[..4] + s[4..]; }
    GetIntPut(|xs|, s[4..] + rest);
    ManySpelled(s[4..], xs, rest, get, sp);
  }

  // ---- Functions ----------------------------------------------------------

  /** The head of a function, with its source as `x`. */
  lemma HeadRead(b: Bytes) returns (s: Bytes)
    requires GetHead(b).Ok?
    ensures var h, r := GetHead(b).v, GetHead(b).rest;
            && SpellsString(s, h.source)
            && b == s + (PutInt(h.linedefined) + (PutInt(h.lastlinedefined) + ([h.nups, h.numparams, h.isVararg, h.maxstacksize] + r)))
  {
    StringExact();
    hide GetString, SpellsString, GetInt, PutInt;
    var b1 := GetString(b).rest;
    assert Starts(b, GetString(b).v, b1, SpellsString);
    CountRead(b1);
    CountRead(b1[4..]);
    var b3 := b1[4..][4..];
    s := b[..|b| - |b1|];
    var x := b3[..4];
    assert x == [x[0], x[1], x[2], x[3]];
    assert b == s + b1 && b1 == b1[..4] + b1[4..] && b1[4..] == b1[4..][..4] + b3 && b3 == x + b3[4..];
  }

  lemma HeadSpelled(s: Bytes, h: Head, rest: Bytes)
    requires SpellsString(s, h.source)
    ensures GetHead(s + (PutInt(h.linedefined) + (PutInt(h.lastlinedefined) + ([h.nups, h.numparams, h.isVararg, h.maxstacksize] + rest)))) == Ok(h, rest)
  {
    StringExact();
    hide GetString, SpellsString, GetInt, PutInt;
    var x := [h.nups, h.numparams, h.isVararg, h.maxstacksize];
    var b3 := x + rest;
    var b2 := PutInt(h.lastlinedefined) + b3;
    var b1 := PutInt(h.linedefined) + b2;
    var b := s + b1;
    assert b[..|s|] == s && b[|s|..] == b1 && |b| - |b1| == |s|;
    assert Starts(b, h.source, b1, SpellsString);
    GetIntPut(h.linedefined, b2);
    GetIntPut(h.lastlinedefined, b3);
    TakePut(x, rest);
  }

  lemma DebugRead(b: Bytes) returns (lines: Bytes, vars: Bytes, ups: Bytes)
    requires GetDebug(b).Ok?
    ensures var d, r := GetDebug(b).v, GetDebug(b).rest;
            && SpellsList(lines, d.lineinfo, SpellsLine) && SpellsList(vars, d.locvars, SpellsLocVar) && SpellsList(ups, d.upvalues, SpellsString)
            && b == lines + (vars + (ups + r))
  {
    LineExact();
    LocVarExact();
    StringExact();
    hide GetList, SpellsList, Exact;
    lines := ListRead(b, GetLine, SpellsLine);
    var b1 := GetList(b, GetLine).rest;
    vars := ListRead(b1, GetLocVar, SpellsLocVar);
    ups := ListRead(GetList(b1, GetLocVar).rest, GetString, SpellsString);
  }

  lemma DebugSpelled(lines: Bytes, vars: Bytes, ups: Bytes, d: Debug, rest: Bytes)
    requires SpellsList(lines, d.lineinfo, SpellsLine) && SpellsList(vars, d.locvars, SpellsLocVar) && SpellsList(ups, d.upvalues, SpellsString)
    ensures GetDebug(lines + (vars + (ups + rest))) == Ok(d, rest)
  {
    LineExact();
    LocVarExact();
    StringExact();
    hide GetList, SpellsList, Exact;
    ListSpelled(lines, d.lineinfo, vars + (ups + rest), GetLine, SpellsLine);
    ListSpelled(vars, d.locvars, ups + rest, GetLocVar, SpellsLocVar);
    ListSpelled(ups, d.upvalues, rest, GetString, SpellsString);
  }

  lemma {:induction false} FunctionRead(b: Bytes, parent: Bytes, depth: nat) returns (s: Bytes)
    requires GetFunction(b, parent, depth).Ok?
    ensures var r := GetFunction(b, parent, depth); b == s + r.rest && SpellsFunction(s, r.v, parent)
    decreases MAXCCALLS - depth, 0, 1
  {
    hide GetHead, GetList, GetInt, GetDebug, Accepted, SpellsString, SpellsList, PutInt;
    WordExact();
    ConstExact();
    hide Exact;
    var h := GetHead(b);
    var source := HeadRead(b);
    var code := ListRead(h.rest, GetWord, SpellsWord);
    var b2 := GetList(h.rest, GetWord);
    var k := ListRead(b2.rest, GetConst, SpellsConst);
    var b3 := GetList(b2.rest, GetConst);
    CountRead(b3.rest);
    var n := GetInt(b3.rest);
    var inner := ProtosRead(n.v, n.rest, SourceOr(h.v.source, parent), depth + 1);
    var ps := GetProtos(n.v, n.rest, SourceOr(h.v.source, parent), depth + 1);
    var lines, vars, ups := DebugRead(ps.rest);
    var q := Parts(source, code, k, inner, lines, vars, ups);
    var r := GetFunction(b, parent, depth);
    s := Joined(q, r.v);
    assert b3.rest == PutInt(n.v) + n.rest;
    assert ps.rest == lines + (vars + ups) + r.rest;
    Reassociate(q, r.v, r.rest);
  }

  /** What follows the last part follows the whole. */
  lemma Reassociate(q: Parts, f: Proto, rest: Bytes)
    requires |f.p| < 0x8000_0000
    ensures Joined(q, f) + rest ==
            q.source + (PutInt(f.linedefined) + (PutInt(f.lastlinedefined) + ([f.nups, f.numparams, f.isVararg, f.maxstacksize]
            + (q.code + (q.k + (PutInt(|f.p|) + (q.inner + (q.lines + (q.vars + (q.ups + rest))))))))))
  {
    hide PutInt;
  }

  lemma {:induction false} ProtosRead(n: nat, b: Bytes, parent: Bytes, depth: nat) returns (s: Bytes)
    requires depth <= MAXCCALLS && GetProtos(n, b, parent, depth).Ok?
    ensures var r := GetProtos(n, b, parent, depth); |r.v| == n && b == s + r.rest && SpellsProtos(s, r.v, parent)
    decreases MAXCCALLS - depth, n, 2
  {
    hide GetFunction, SpellsFunction;
    if n == 0 {
      s := [];
    } else {
      var x := FunctionRead(b, parent, depth);
      var f := GetFunction(b, parent, depth);
      var y := ProtosRead(n - 1, f.rest, parent, depth);
      s := x + y;
      var r := GetProtos(n, b, parent, depth);
      assert s[..|x|] == x && s[|x|..] == y && r.v[0] == f.v && r.v[1..] == GetProtos(n - 1, f.rest, parent, depth).v;
      assert b == s + r.rest;
    }
  }

  lemma {:induction false} FunctionSpelled(s: Bytes, f: Proto, parent: Bytes, depth: nat, rest: Bytes)
    requires SpellsFunction(s, f, parent) && AllAccepted(f) && depth < MAXCCALLS && Within(f, MAXCCALLS - depth)
    ensures GetFunction(s + rest, parent, depth) == Ok(f, rest)
    decreases f, 1
  {
    hide GetHead, GetList, GetInt, GetDebug, Accepted, SpellsString, SpellsList, PutInt, GetProtos, SpellsProtos;
    WordExact();
    ConstExact();
    hide Exact;
    var q: Parts :| s == Joined(q, f)
      && (SpellsString(q.source, f.source) || (f.source == Some(parent) && SpellsString(q.source, None)))
      && SpellsList(q.code, f.code, SpellsWord) && SpellsList(q.k, f.k, SpellsConst)
      && SpellsProtos(q.inner, f.p, f.source.value)
      && SpellsList(q.lines, f.lineinfo, SpellsLine) && SpellsList(q.vars, f.locvars, SpellsLocVar)
      && SpellsList(q.ups, f.upvalues, SpellsString);
    Reassociate(q, f, rest);
    hide Joined, SpellsFunction;
    var b5 := q.lines + (q.vars + (q.ups + rest));
    var b4 := q.inner + b5;
    var b3 := PutInt(|f.p|) + b4;
    var b2 := q.k + b3;
    var b1 := q.code + b2;
    var h := Head(if SpellsString(q.source, f.source) then f.source else None, f.linedefined, f.lastlinedefined, f.nups, f.numparams, f.isVararg, f.maxstacksize);
    HeadSpelled(q.source, h, b1);
    ListSpelled(q.code, f.code, b2, GetWord, SpellsWord);
    ListSpelled(q.k, f.k, b3, GetConst, SpellsConst);
    GetIntPut(|f.p|, b4);
    ProtosSpelled(q.inner, f.p, f.source.value, depth + 1, b5);
    DebugSpelled(q.lines, q.vars, q.ups, Debug(f.lineinfo, f.locvars, f.upvalues), rest);
    assert SourceOr(h.source, parent) == f.source.value;
  }

  lemma {:induction false} ProtosSpelled(s: Bytes, ps: seq<Proto>, parent: Bytes, depth: nat, rest: Bytes)
    requires depth <= MAXCCALLS && SpellsProtos(s, ps, parent) && forall q <- ps :: AllAccepted(q) && Within(q, MAXCCALLS - depth)
    ensures GetProtos(|ps|, s + rest, parent, depth) == Ok(ps, rest)
    decreases ps, 0
  {
    hide GetFunction, SpellsFunction, AllAccepted;
    if ps == [] {
      assert s + rest == rest;
    } else {
      var n: nat :| n <= |s| && SpellsFunction(s[..n], ps[0], parent) && SpellsProtos(s[n..], ps[1..], parent);
      assert s + rest == s[..n] + (s[n..] + rest);
      assert ps[0] in ps && Within(ps[0], MAXCCALLS - depth);
      FunctionSpelled(s[..n], ps[0], parent, depth, s[n..] + rest);
      ProtosSpelled(s[n..], ps[1..], parent, depth, rest);
      assert ps == [ps[0]] + ps[1..];
    }
  }

  // ---- Chunks -------------------------------------------------------------

  /** Bytes are loaded as a tree, with some of them left, exactly if they are the
      header, a spelling of the tree and those left, and the tree is accepted
      throughout and nested no deeper than the calls left of 200. */
  lemma LoadsExactly(b: Bytes, depth: nat, f: Proto, rest: Bytes)
    ensures Undump(b, depth) == Ok(f, rest) <==>
            && depth < 200 && Within(f, 200 - depth) && AllAccepted(f)
            && exists s: Bytes :: b == [27, 'L' as int, 'u' as int, 'a' as int, 0x51, 0, 1, 4, 8, 4, 8, 0] + (s + rest)
                 && SpellsFunction(s, f, ['=' as int, '?' as int])
  {
    hide GetFunction, SpellsFunction, AllAccepted, Within;
    if Undump(b, depth) == Ok(f, rest) {
      var r := b[12..];
      var s := FunctionRead(r, NO_SOURCE, depth);
      LoadedAccepted(r, NO_SOURCE, depth);
      assert b == b[..12] + r;
    }
    if depth < 200 && Within(f, 200 - depth) && AllAccepted(f) {
      forall s: Bytes | b == HEADER + (s + rest) && SpellsFunction(s, f, NO_SOURCE) ensures Undump(b, depth) == Ok(f, rest) {
        FunctionSpelled(s, f, NO_SOURCE, depth, rest);
        TakePut(HEADER, s + rest);
      }
    }
  }
}
