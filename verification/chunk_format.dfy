/** The format of precompiled chunks, as `ldump.c` writes and `lundump.c` reads
    it, on a machine with little-endian words, ints of 4 bytes, sizes and numbers
    of 8. */
module ChunkFormat {
  import opened ChunkWords

  datatype Error = UnexpectedEnd | BadInteger | BadConstant | BadCode | TooDeep | BadHeader

  /** What has been read, and what is left. */
  datatype Loaded<+T> = Ok(v: T, rest: Bytes) | Err(e: Error)

  // ---- Integers -----------------------------------------------------------

  function Pow256(k: nat): (r: nat)
    ensures r > 0
  {
    if k == 0 then 1 else 256 * Pow256(k - 1)
  }

  function PutNat(n: nat, k: nat): (r: Bytes)
    ensures |r| == k
  {
    if k == 0 then [] else [n % 256] + PutNat(n / 256, k - 1)
  }

  function NatOf(b: Bytes): (r: nat)
    ensures r < Pow256(|b|)
  {
    if b == [] then 0 else b[0] + 256 * NatOf(b[1..])
  }

  lemma {:induction false} NatOfPut(n: nat, k: nat)
    requires n < Pow256(k)
    ensures NatOf(PutNat(n, k)) == n
  {
    if k > 0 {
      NatOfPut(n / 256, k - 1);
      assert PutNat(n, k)[1..] == PutNat(n / 256, k - 1);
    }
  }

  lemma FourBytes()
    ensures Pow256(4) == 0x1_0000_0000
  {}

  lemma EightBytes()
    ensures Pow256(8) == 0x1_0000_0000_0000_0000
  {
    FourBytes();
    assert Pow256(8) == 256 * 256 * 256 * 256 * Pow256(4);
  }

  function PutInt(n: Int): (r: Bytes)
    ensures |r| == 4
  {
    PutNat(if n < 0 then n + 0x1_0000_0000 else n, 4)
  }

  function IntOf(b: Bytes): Int
    requires |b| == 4
  {
    FourBytes();
    var n := NatOf(b);
    if n >= 0x8000_0000 then n - 0x1_0000_0000 else n
  }

  lemma IntOfPut(n: Int)
    ensures IntOf(PutInt(n)) == n
  {
    FourBytes();
    NatOfPut(if n < 0 then n + 0x1_0000_0000 else n, 4);
  }

  function WordOf(b: Bytes): Word
    requires |b| == 4
  {
    FourBytes();
    NatOf(b)
  }

  // ---- Blocks -------------------------------------------------------------

  function Take(b: Bytes, n: nat): Loaded<Bytes> {
    if n <= |b| then Ok(b[..n], b[n..]) else Err(UnexpectedEnd)
  }

  lemma TakePut(x: Bytes, rest: Bytes)
    ensures Take(x + rest, |x|) == Ok(x, rest)
  {
    assert (x + rest)[..|x|] == x && (x + rest)[|x|..] == rest;
  }

  function GetByte(b: Bytes): Loaded<Byte> {
    if b == [] then Err(UnexpectedEnd) else Ok(b[0], b[1..])
  }

  function GetInt(b: Bytes): Loaded<Count> {
    match Take(b, 4)
    case Err(e) => Err(e)
    case Ok(x, r) => if IntOf(x) < 0 then Err(BadInteger) else Ok(IntOf(x), r)
  }

  lemma GetIntPut(n: Count, rest: Bytes)
    ensures GetInt(PutInt(n) + rest) == Ok(n, rest)
  {
    TakePut(PutInt(n), rest);
    IntOfPut(n);
  }

  // ---- Strings ------------------------------------------------------------

  /** A string with its size, which counts a terminating zero; no string has the
      size zero. */
  function PutString(s: Option<Bytes>): Bytes {
    match s
    case None => PutNat(0, 8)
    case Some(x) => PutNat(|x| + 1, 8) + (x + [0])
  }

  function GetString(b: Bytes): Loaded<Option<Bytes>> {
    match Take(b, 8)
    case Err(e) => Err(e)
    case Ok(x, r) =>
      var size := NatOf(x);
      if size == 0 then Ok(None, r) else
        match Take(r, size)
        case Err(e) => Err(e)
        case Ok(s, q) => Ok(Some(s[..size - 1]), q)
  }

  predicate StringFits(s: Option<Bytes>) {
    s.Some? ==> |s.value| + 1 < 0x1_0000_0000_0000_0000
  }

  lemma GetStringPut(s: Option<Bytes>, rest: Bytes)
    requires StringFits(s)
    ensures GetString(PutString(s) + rest) == Ok(s, rest)
  {
    EightBytes();
    match s
    case None =>
      TakePut(PutNat(0, 8), rest);
      NatOfPut(0, 8);
    case Some(x) =>
      var n := PutNat(|x| + 1, 8);
      assert PutString(s) + rest == n + ((x + [0]) + rest);
      TakePut(n, (x + [0]) + rest);
      NatOfPut(|x| + 1, 8);
      TakePut(x + [0], rest);
      assert (x + [0])[..|x|] == x;
  }

  // ---- Lists --------------------------------------------------------------

  function PutMany<T>(xs: seq<T>, put: T -> Bytes): Bytes {
    if xs == [] then [] else put(xs[0]) + PutMany(xs[1..], put)
  }

  function GetMany<T>(n: nat, b: Bytes, get: Bytes -> Loaded<T>): (r: Loaded<seq<T>>)
    ensures r.Ok? ==> |r.v| == n
  {
    if n == 0 then Ok([], b) else
      match get(b)
      case Err(e) => Err(e)
      case Ok(x, r) =>
        match GetMany(n - 1, r, get)
        case Err(e) => Err(e)
        case Ok(xs, q) => Ok([x] + xs, q)
  }

  ghost predicate Inverse<T>(x: T, put: T -> Bytes, get: Bytes -> Loaded<T>) {
    forall rest :: get(put(x) + rest) == Ok(x, rest)
  }

  lemma {:induction false} GetManyPut<T>(xs: seq<T>, put: T -> Bytes, get: Bytes -> Loaded<T>, rest: Bytes)
    requires forall x <- xs :: Inverse(x, put, get)
    ensures GetMany(|xs|, PutMany(xs, put) + rest, get) == Ok(xs, rest)
  {
    if xs == [] {
      assert PutMany(xs, put) + rest == rest;
    } else {
      var more := PutMany(xs[1..], put);
      assert PutMany(xs, put) + rest == put(xs[0]) + (more + rest);
      assert Inverse(xs[0], put, get);
      GetManyPut(xs[1..], put, get, rest);
      assert xs == [xs[0]] + xs[1..];
    }
  }

  /** A list with its length. */
  function PutList<T>(xs: seq<T>, put: T -> Bytes): Bytes
    requires |xs| < 0x8000_0000
  {
    PutInt(|xs|) + PutMany(xs, put)
  }

  function GetList<T>(b: Bytes, get: Bytes -> Loaded<T>): Loaded<seq<T>> {
    match GetInt(b)
    case Err(e) => Err(e)
    case Ok(n, r) => GetMany(n, r, get)
  }

  lemma GetListPut<T>(xs: seq<T>, put: T -> Bytes, get: Bytes -> Loaded<T>, rest: Bytes)
    requires |xs| < 0x8000_0000 && forall x <- xs :: Inverse(x, put, get)
    ensures GetList(PutList(xs, put) + rest, get) == Ok(xs, rest)
  {
    assert PutList(xs, put) + rest == PutInt(|xs|) + (PutMany(xs, put) + rest);
    GetIntPut(|xs|, PutMany(xs, put) + rest);
    GetManyPut(xs, put, get, rest);
  }

  // ---- Vectors of words ---------------------------------------------------

  /** `LoadVector`: the block of all elements is read at once. */
  function GetWord(b: Bytes): Loaded<Word> {
    match Take(b, 4)
    case Err(e) => Err(e)
    case Ok(x, r) => Ok(WordOf(x), r)
  }

  function GetLine(b: Bytes): Loaded<Int> {
    match Take(b, 4)
    case Err(e) => Err(e)
    case Ok(x, r) => Ok(IntOf(x), r)
  }

  function PutWord(w: Word): Bytes {
    PutNat(w, 4)
  }

  lemma WordInverse(w: Word)
    ensures Inverse(w, PutWord, GetWord)
  {
    forall rest ensures GetWord(PutWord(w) + rest) == Ok(w, rest) {
      FourBytes();
      TakePut(PutNat(w, 4), rest);
      NatOfPut(w, 4);
    }
  }

  lemma LineInverse(n: Int)
    ensures Inverse(n, PutInt, GetLine)
  {
    forall rest ensures GetLine(PutInt(n) + rest) == Ok(n, rest) {
      TakePut(PutInt(n), rest);
      IntOfPut(n);
    }
  }

  // ---- Constants and debug information ------------------------------------

  function PutConst(c: Const): Bytes {
    match c
    case KNil => [0]
    case KBool(b) => [1, if b then 1 else 0]
    case KNum(x) => [3] + x
    case KStr(s) => [4] + PutString(s)
  }

  function GetConst(b: Bytes): Loaded<Const> {
    match GetByte(b)
    case Err(e) => Err(e)
    case Ok(t, r) =>
      if t == 0 then Ok(KNil, r)
      else if t == 1 then
        (match GetByte(r) case Err(e) => Err(e) case Ok(x, q) => Ok(KBool(x != 0), q))
      else if t == 3 then
        (match Take(r, 8) case Err(e) => Err(e) case Ok(x, q) => Ok(KNum(x), q))
      else if t == 4 then
        (match GetString(r) case Err(e) => Err(e) case Ok(s, q) => Ok(KStr(s), q))
      else Err(BadConstant)
  }

  predicate ConstFits(c: Const) {
    (c.KNum? ==> |c.bytes| == 8) && (c.KStr? ==> StringFits(c.s))
  }

  lemma ConstInverse(c: Const)
    requires ConstFits(c)
    ensures Inverse(c, PutConst, GetConst)
  {
    forall rest ensures GetConst(PutConst(c) + rest) == Ok(c, rest) {
      var b := PutConst(c) + rest;
      match c
      case KNil => assert b[1..] == rest;
      case KBool(x) => assert b[1..][1..] == rest;
      case KNum(x) =>
        assert b[1..] == x + rest;
        TakePut(x, rest);
      case KStr(s) =>
        assert b[1..] == PutString(s) + rest;
        GetStringPut(s, rest);
    }
  }

  function PutLocVar(v: LocVar): Bytes {
    PutString(v.name) + PutInt(v.startpc) + PutInt(v.endpc)
  }

  function GetLocVar(b: Bytes): Loaded<LocVar> {
    match GetString(b)
    case Err(e) => Err(e)
    case Ok(name, r) =>
      match GetInt(r)
      case Err(e) => Err(e)
      case Ok(startpc, q) =>
        match GetInt(q)
        case Err(e) => Err(e)
        case Ok(endpc, t) => Ok(LocVar(name, startpc, endpc), t)
  }

  lemma LocVarInverse(v: LocVar)
    requires StringFits(v.name)
    ensures Inverse(v, PutLocVar, GetLocVar)
  {
    forall rest ensures GetLocVar(PutLocVar(v) + rest) == Ok(v, rest) {
      assert PutLocVar(v) + rest == PutString(v.name) + (PutInt(v.startpc) + (PutInt(v.endpc) + rest));
      GetStringPut(v.name, PutInt(v.startpc) + (PutInt(v.endpc) + rest));
      GetIntPut(v.startpc, PutInt(v.endpc) + rest);
      GetIntPut(v.endpc, rest);
    }
  }

  lemma StringInverse(s: Option<Bytes>)
    requires StringFits(s)
    ensures Inverse(s, PutString, GetString)
  {
    forall rest ensures GetString(PutString(s) + rest) == Ok(s, rest) { GetStringPut(s, rest); }
  }
}
