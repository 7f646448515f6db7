/** The buffered input stream (`lzio.c`) and the loader of precompiled chunks
    (`lundump.c`). */
module ChunkLoad {
  import opened ChunkWords
  import opened ChunkChecker
  import opened ChunkFormat
  import opened ChunkTree

  /** What the reader function will give: an empty block ends the stream. */
  function Stream(blocks: seq<Bytes>): Bytes {
    if blocks == [] || blocks[0] == [] then [] else blocks[0] + Stream(blocks[1..])
  }

  /** `ZIO`. */
  class Zio {
    var buffer: Bytes
    var blocks: seq<Bytes>

    constructor (blocks: seq<Bytes>)
      ensures Rest() == Stream(blocks)
    {
      buffer, this.blocks := [], blocks;
    }

    /** All bytes still to come, however they are split into blocks. */
    ghost function Rest(): Bytes
      reads this
    {
      buffer + Stream(blocks)
    }

    /** `luaZ_fill` and `luaZ_lookahead`: whether there is a next byte; if so it is
        in the buffer. */
    method LookAhead() returns (more: bool)
      modifies this
      ensures more == (old(Rest()) != [])
      ensures more ==> buffer != [] && Rest() == old(Rest())
    {
      if buffer == [] {
        if blocks == [] { return false; }
        var block := blocks[0];
        blocks := blocks[1..];
        if block == [] { return false; }
        buffer := block;
      }
      more := true;
    }

    /** `luaZ_read`: the next `n` bytes, or how many are missing. */
    method Read(n: nat) returns (b: Bytes, missing: nat)
      modifies this
      ensures if n <= |old(Rest())| then missing == 0 && b == old(Rest())[..n] && Rest() == old(Rest())[n..]
              else missing == n - |old(Rest())|
    {
      hide Stream;
      b, missing := [], n;
      ghost var all := Rest();
      while missing > 0
        invariant |b| + missing == n && all == b + Rest()
      {
        var more := LookAhead();
        if !more { return; }
        var m := if missing <= |buffer| then missing else |buffer|;
        MoveBytes(b, buffer, m, Stream(blocks));
        b := b + buffer[..m];
        buffer := buffer[m..];
        missing := missing - m;
      }
      Divided(b, Rest());
    }
  }

  lemma MoveBytes(b: Bytes, x: Bytes, m: nat, rest: Bytes)
    requires m <= |x|
    ensures b + (x + rest) == (b + x[..m]) + (x[m..] + rest)
  {
    assert x == x[..m] + x[m..];
  }

  lemma Divided(b: Bytes, rest: Bytes)
    ensures (b + rest)[..|b|] == b && (b + rest)[|b|..] == rest
  {}

  datatype Result<+T> = Success(value: T) | Failure(error: Error) {
    predicate IsFailure() { Failure? }
    function PropagateFailure<U>(): Result<U>
      requires Failure?
    {
      Failure(error)
    }
    function Extract(): T
      requires Success?
    {
      value
    }
  }

  /** The result agrees with what the bytes say, and these are what is left. */
  ghost predicate Did<T>(r: Result<T>, l: Loaded<T>, rest: Bytes) {
    match l
    case Err(e) => r == Failure(e)
    case Ok(v, q) => r == Success(v) && rest == q
  }

  function Prepend<T>(xs: seq<T>, l: Loaded<seq<T>>): Loaded<seq<T>> {
    match l case Err(e) => Err(e) case Ok(ys, r) => Ok(xs + ys, r)
  }

  lemma Ends<T>(xs: seq<T>, l: Loaded<seq<T>>, rest: Bytes)
    ensures Prepend([], l) == l && Prepend(xs, Ok([], rest)) == Ok(xs, rest)
  {
    if l.Ok? { assert [] + l.v == l.v; }
    assert xs + [] == xs;
  }

  /** One more element of a list has been read. */
  lemma OneMore<T>(xs: seq<T>, n: nat, b: Bytes, get: Bytes -> Loaded<T>)
    requires n > 0
    ensures Prepend(xs, GetMany(n, b, get)) ==
            match get(b) case Err(e) => Err(e) case Ok(x, r) => Prepend(xs + [x], GetMany(n - 1, r, get))
  {
    if get(b).Ok? {
      var m := GetMany(n - 1, get(b).rest, get);
      if m.Ok? { assert xs + ([get(b).v] + m.v) == (xs + [get(b).v]) + m.v; }
    }
  }

  /** `LoadState`; `nCcalls` counts the nested calls. */
  class LoadState {
    const z: Zio
    var nCcalls: nat

    constructor (z: Zio, depth: nat)
      ensures this.z == z && nCcalls == depth
    {
      this.z, nCcalls := z, depth;
    }

    method LoadBlock(n: nat) returns (r: Result<Bytes>)
      modifies z
      ensures Did(r, Take(old(z.Rest()), n), z.Rest())
    {
      var b, missing := z.Read(n);
      r := if missing != 0 then Failure(UnexpectedEnd) else Success(b);
    }

    method LoadChar() returns (r: Result<Byte>)
      modifies z
      ensures Did(r, GetByte(old(z.Rest())), z.Rest())
    {
      var b :- LoadBlock(1);
      r := Success(b[0]);
    }

    method LoadInt() returns (r: Result<Count>)
      modifies z
      ensures Did(r, GetInt(old(z.Rest())), z.Rest())
    {
      var b :- LoadBlock(4);
      var n := IntOf(b);
      r := if n < 0 then Failure(BadInteger) else Success(n);
    }

    method LoadString() returns (r: Result<Option<Bytes>>)
      modifies z
      ensures Did(r, GetString(old(z.Rest())), z.Rest())
    {
      var b :- LoadBlock(8);
      var size := NatOf(b);
      if size == 0 { return Success(None); }
      var s :- LoadBlock(size);
      r := Success(Some(s[..size - 1]));
    }

    /** `LoadCode`: all words in one block. */
    method LoadCode() returns (r: Result<seq<Word>>)
      modifies z
      ensures Did(r, GetList(old(z.Rest()), GetWord), z.Rest())
    {
      var n :- LoadInt();
      ghost var start := z.Rest();
      WordsBlock(start, n);
      var b :- LoadBlock(4 * n);
      r := Success(seq(n, i requires 0 <= i < n => WordOf(b[4 * i..4 * i + 4])));
      assert r.value == WordsOf(start[..4 * n]);
    }

    /** The line numbers, in the same way. */
    method LoadLines() returns (r: Result<seq<Int>>)
      modifies z
      ensures Did(r, GetList(old(z.Rest()), GetLine), z.Rest())
    {
      var n :- LoadInt();
      ghost var start := z.Rest();
      LinesBlock(start, n);
      var b :- LoadBlock(4 * n);
      r := Success(seq(n, i requires 0 <= i < n => IntOf(b[4 * i..4 * i + 4])));
      assert r.value == LinesOf(start[..4 * n]);
    }

    method LoadConstant() returns (r: Result<Const>)
      modifies z
      ensures Did(r, GetConst(old(z.Rest())), z.Rest())
    {
      var t :- LoadChar();
      if t == 0 {
        r := Success(KNil);
      } else if t == 1 {
        var x :- LoadChar();
        r := Success(KBool(x != 0));
      } else if t == 3 {
        var x :- LoadBlock(8);
        r := Success(KNum(x));
      } else if t == 4 {
        var s :- LoadString();
        r := Success(KStr(s));
      } else {
        r := Failure(BadConstant);
      }
    }

    /** The first half of `LoadConstants`. */
    method LoadConstants() returns (r: Result<seq<Const>>)
      modifies z
      ensures Did(r, GetList(old(z.Rest()), GetConst), z.Rest())
    {
      hide GetConst;
      var n :- LoadInt();
      ghost var start := z.Rest();
      var k: seq<Const> := [];
      Ends(k, GetMany(n, start, GetConst), start);
      while |k| < n
        invariant |k| <= n && GetMany(n, start, GetConst) == Prepend(k, GetMany(n - |k|, z.Rest(), GetConst))
      {
        OneMore(k, n - |k|, z.Rest(), GetConst);
        var c :- LoadConstant();
        k := k + [c];
      }
      Ends(k, GetMany(n, start, GetConst), z.Rest());
      r := Success(k);
    }

    method LoadLocVar() returns (r: Result<LocVar>)
      modifies z
      ensures Did(r, GetLocVar(old(z.Rest())), z.Rest())
    {
      hide GetString, GetInt;
      var name :- LoadString();
      var startpc :- LoadInt();
      var endpc :- LoadInt();
      r := Success(LocVar(name, startpc, endpc));
    }

    method LoadLocVars() returns (r: Result<seq<LocVar>>)
      modifies z
      ensures Did(r, GetList(old(z.Rest()), GetLocVar), z.Rest())
    {
      hide GetLocVar;
      var n :- LoadInt();
      ghost var start := z.Rest();
      var vs: seq<LocVar> := [];
      Ends(vs, GetMany(n, start, GetLocVar), start);
      while |vs| < n
        invariant |vs| <= n && GetMany(n, start, GetLocVar) == Prepend(vs, GetMany(n - |vs|, z.Rest(), GetLocVar))
      {
        OneMore(vs, n - |vs|, z.Rest(), GetLocVar);
        var v :- LoadLocVar();
        vs := vs + [v];
      }
      Ends(vs, GetMany(n, start, GetLocVar), z.Rest());
      r := Success(vs);
    }

    method LoadUpvalues() returns (r: Result<seq<Option<Bytes>>>)
      modifies z
      ensures Did(r, GetList(old(z.Rest()), GetString), z.Rest())
    {
      hide GetString;
      var n :- LoadInt();
      ghost var start := z.Rest();
      var us: seq<Option<Bytes>> := [];
      Ends(us, GetMany(n, start, GetString), start);
      while |us| < n
        invariant |us| <= n && GetMany(n, start, GetString) == Prepend(us, GetMany(n - |us|, z.Rest(), GetString))
      {
        OneMore(us, n - |us|, z.Rest(), GetString);
        var u :- LoadString();
        us := us + [u];
      }
      Ends(us, GetMany(n, start, GetString), z.Rest());
      r := Success(us);
    }

    method LoadDebug() returns (r: Result<Debug>)
      modifies z
      ensures Did(r, GetDebug(old(z.Rest())), z.Rest())
    {
      hide GetList;
      var lines :- LoadLines();
      var vars :- LoadLocVars();
      var ups :- LoadUpvalues();
      r := Success(Debug(lines, vars, ups));
    }

    method LoadHead() returns (r: Result<Head>)
      modifies z
      ensures Did(r, GetHead(old(z.Rest())), z.Rest())
    {
      hide GetString, GetInt;
      var source :- LoadString();
      var line :- LoadInt();
      var last :- LoadInt();
      var x :- LoadBlock(4);
      r := Success(Head(source, line, last, x[0], x[1], x[2], x[3]));
    }

    /** The second half of `LoadConstants`: the functions inside. */
    method LoadProtos(n: nat, parent: Bytes) returns (r: Result<seq<Proto>>)
      requires nCcalls <= MAXCCALLS
      modifies this, z
      ensures Did(r, GetProtos(n, old(z.Rest()), parent, old(nCcalls)), z.Rest())
      ensures r.Success? ==> nCcalls == old(nCcalls)
      decreases MAXCCALLS - nCcalls, 1
    {
      hide GetFunction;
      ghost var start, depth := z.Rest(), nCcalls;
      var ps: seq<Proto> := [];
      Ends(ps, GetProtos(n, start, parent, depth), start);
      while |ps| < n
        invariant |ps| <= n && nCcalls == depth
        invariant GetProtos(n, start, parent, depth) == Prepend(ps, GetProtos(n - |ps|, z.Rest(), parent, depth))
      {
        OneMoreProto(ps, n - |ps|, z.Rest(), parent, depth);
        var f :- LoadFunction(parent);
        ps := ps + [f];
      }
      Ends(ps, GetProtos(n, start, parent, depth), z.Rest());
      r := Success(ps);
    }

    /** `LoadFunction`. */
    method LoadFunction(parent: Bytes) returns (r: Result<Proto>)
      requires nCcalls <= MAXCCALLS
      modifies this, z
      ensures Did(r, GetFunction(old(z.Rest()), parent, old(nCcalls)), z.Rest())
      ensures r.Success? ==> nCcalls == old(nCcalls)
      decreases MAXCCALLS - nCcalls, 0
    {
      hide GetHead, GetList, GetInt, GetDebug, GetProtos, Accepted;
      nCcalls := nCcalls + 1;
      if nCcalls > MAXCCALLS { return Failure(TooDeep); }
      var h :- LoadHead();
      var code :- LoadCode();
      var k :- LoadConstants();
      var n :- LoadInt();
      var ps :- LoadProtos(n, SourceOr(h.source, parent));
      var d :- LoadDebug();
      var f := Assemble(h, parent, code, k, ps, d);
      var ok := CheckCode(f);
      if !ok { return Failure(BadCode); }
      nCcalls := nCcalls - 1;
      r := Success(f);
    }

    /** `luaU_undump`: what is loaded depends on the bytes alone, not on the blocks
        in which they come. */
    method LoadChunk() returns (r: Result<Proto>)
      requires nCcalls <= MAXCCALLS
      modifies this, z
      ensures Did(r, Undump(old(z.Rest()), old(nCcalls)), z.Rest())
    {
      hide GetFunction;
      var h :- LoadBlock(12);
      if h != HEADER { return Failure(BadHeader); }
      r := LoadFunction(NO_SOURCE);
    }
  }

  lemma OneMoreProto(xs: seq<Proto>, n: nat, b: Bytes, parent: Bytes, depth: nat)
    requires n > 0
    ensures Prepend(xs, GetProtos(n, b, parent, depth)) ==
            match GetFunction(b, parent, depth) case Err(e) => Err(e) case Ok(x, r) => Prepend(xs + [x], GetProtos(n - 1, r, parent, depth))
  {
    hide GetFunction;
    var g := GetFunction(b, parent, depth);
    if g.Ok? {
      var m := GetProtos(n - 1, g.rest, parent, depth);
      if m.Ok? { assert xs + ([g.v] + m.v) == (xs + [g.v]) + m.v; }
    }
  }

  function WordsOf(b: Bytes): seq<Word>
    requires |b| % 4 == 0
  {
    if b == [] then [] else [WordOf(b[..4])] + WordsOf(b[4..])
  }

  function LinesOf(b: Bytes): seq<Int>
    requires |b| % 4 == 0
  {
    if b == [] then [] else [IntOf(b[..4])] + LinesOf(b[4..])
  }

  /** Reading words one by one is reading them as one block. */
  lemma {:induction false} WordsBlock(b: Bytes, n: nat)
    ensures if 4 * n <= |b| then GetMany(n, b, GetWord) == Ok(WordsOf(b[..4 * n]), b[4 * n..])
            else GetMany(n, b, GetWord) == Err(UnexpectedEnd)
    ensures 4 * n <= |b| ==> |WordsOf(b[..4 * n])| == n && forall i :: 0 <= i < n ==> WordsOf(b[..4 * n])[i] == WordOf(b[..4 * n][4 * i..4 * i + 4])
    decreases n
  {
    if n > 0 && |b| >= 4 {
      var r := b[4..];
      WordsBlock(r, n - 1);
      if 4 * n <= |b| {
        var x := b[..4 * n];
        assert x[..4] == b[..4] && x[4..] == r[..4 * (n - 1)] && b[4 * n..] == r[4 * (n - 1)..];
        forall i | 0 <= i < n ensures WordsOf(x)[i] == WordOf(x[4 * i..4 * i + 4]) {
          if i > 0 { assert x[4..][4 * (i - 1)..4 * (i - 1) + 4] == x[4 * i..4 * i + 4]; }
        }
      }
    }
  }

  lemma {:induction false} LinesBlock(b: Bytes, n: nat)
    ensures if 4 * n <= |b| then GetMany(n, b, GetLine) == Ok(LinesOf(b[..4 * n]), b[4 * n..])
            else GetMany(n, b, GetLine) == Err(UnexpectedEnd)
    ensures 4 * n <= |b| ==> |LinesOf(b[..4 * n])| == n && forall i :: 0 <= i < n ==> LinesOf(b[..4 * n])[i] == IntOf(b[..4 * n][4 * i..4 * i + 4])
    decreases n
  {
    if n > 0 && |b| >= 4 {
      var r := b[4..];
      LinesBlock(r, n - 1);
      if 4 * n <= |b| {
        var x := b[..4 * n];
        assert x[..4] == b[..4] && x[4..] == r[..4 * (n - 1)] && b[4 * n..] == r[4 * (n - 1)..];
        forall i | 0 <= i < n ensures LinesOf(x)[i] == IntOf(x[4 * i..4 * i + 4]) {
          if i > 0 { assert x[4..][4 * (i - 1)..4 * (i - 1) + 4] == x[4 * i..4 * i + 4]; }
        }
      }
    }
  }
}
