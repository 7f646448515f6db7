/** The writer of precompiled chunks (`ldump.c`). */
module ChunkDump {
  import opened ChunkWords
  import opened ChunkFormat
  import opened ChunkTree

  /** `DumpState`: what the writer function has been given, and whether debug
      information is left out. */
  class DumpState {
    var out: Bytes
    const strip: bool

    constructor (strip: bool)
      ensures out == [] && this.strip == strip
    {
      out, this.strip := [], strip;
    }

    method DumpBlock(b: Bytes)
      modifies `out
      ensures out == old(out) + b
    {
      out := out + b;
    }

    /** The bytes of a variable. */
    method DumpNat(n: nat, size: nat)
      modifies `out
      ensures out == old(out) + PutNat(n, size)
    {
      var i, m := 0, n;
      while i < size
        invariant 0 <= i <= size && out + PutNat(m, size - i) == old(out) + PutNat(n, size)
      {
        assert out + PutNat(m, size - i) == (out + [m % 256]) + PutNat(m / 256, size - i - 1);
        DumpBlock([m % 256]);
        m, i := m / 256, i + 1;
      }
    }

    method DumpInt(n: Int)
      modifies `out
      ensures out == old(out) + PutInt(n)
    {
      DumpNat(if n < 0 then n + 0x1_0000_0000 else n, 4);
    }

    method DumpString(s: Option<Bytes>)
      modifies `out
      ensures out == old(out) + PutString(s)
    {
      if s.None? {
        DumpNat(0, 8);
      } else {
        DumpNat(|s.value| + 1, 8);
        DumpBlock(s.value + [0]);
      }
    }

    method DumpCode(f: Proto)
      requires Fits(f)
      modifies `out
      ensures out == old(out) + PutList(f.code, PutWord)
    {
      hide PutInt, PutNat;
      DumpInt(|f.code|);
      assert f.code[0..] == f.code;
      for i := 0 to |f.code|
        invariant out + PutMany(f.code[i..], PutWord) == old(out) + PutList(f.code, PutWord)
      {
        ManyStep(out, f.code, i, PutWord);
        DumpNat(f.code[i], 4);
      }
    }

    method DumpLines(f: Proto)
      requires Fits(f)
      modifies `out
      ensures out == old(out) + PutList(f.lineinfo, PutInt)
    {
      hide PutInt;
      DumpInt(|f.lineinfo|);
      assert f.lineinfo[0..] == f.lineinfo;
      for i := 0 to |f.lineinfo|
        invariant out + PutMany(f.lineinfo[i..], PutInt) == old(out) + PutList(f.lineinfo, PutInt)
      {
        ManyStep(out, f.lineinfo, i, PutInt);
        DumpInt(f.lineinfo[i]);
      }
    }

    /** The first half of `DumpConstants`. */
    method DumpConstants(f: Proto)
      requires Fits(f)
      modifies `out
      ensures out == old(out) + PutList(f.k, PutConst)
    {
      hide PutInt, PutConst;
      DumpInt(|f.k|);
      assert f.k[0..] == f.k;
      for i := 0 to |f.k|
        invariant out + PutMany(f.k[i..], PutConst) == old(out) + PutList(f.k, PutConst)
      {
        ManyStep(out, f.k, i, PutConst);
        DumpConstant(f.k[i]);
      }
    }

    method DumpConstant(c: Const)
      modifies `out
      ensures out == old(out) + PutConst(c)
    {
      hide PutString;
      match c
      case KNil => DumpBlock([0]);
      case KBool(b) =>
        DumpBlock([1]);
        DumpBlock([if b then 1 else 0]);
      case KNum(x) =>
        DumpBlock([3]);
        DumpBlock(x);
      case KStr(s) =>
        DumpBlock([4]);
        DumpString(s);
    }

    /** Its second half: the functions inside. */
    method DumpProtos(f: Proto)
      requires AllFit(f)
      modifies `out
      ensures out == old(out) + PutInt(|f.p|) + PutProtos(f.p, f.source, strip)
      decreases f, 0
    {
      hide PutInt, PutFunction;
      DumpInt(|f.p|);
      assert f.p[0..] == f.p;
      for i := 0 to |f.p|
        invariant out + PutProtos(f.p[i..], f.source, strip) == old(out) + PutInt(|f.p|) + PutProtos(f.p, f.source, strip)
      {
        assert f.p[i..][1..] == f.p[i + 1..];
        assert out + PutProtos(f.p[i..], f.source, strip) == (out + PutFunction(f.p[i], f.source, strip)) + PutProtos(f.p[i + 1..], f.source, strip);
        DumpFunction(f.p[i], f.source);
      }
    }

    method DumpLocVars(f: Proto)
      requires Fits(f)
      modifies `out
      ensures out == old(out) + PutList(f.locvars, PutLocVar)
    {
      hide PutInt, PutString;
      DumpInt(|f.locvars|);
      assert f.locvars[0..] == f.locvars;
      for i := 0 to |f.locvars|
        invariant out + PutMany(f.locvars[i..], PutLocVar) == old(out) + PutList(f.locvars, PutLocVar)
      {
        ManyStep(out, f.locvars, i, PutLocVar);
        ghost var before := out;
        DumpString(f.locvars[i].name);
        DumpInt(f.locvars[i].startpc);
        DumpInt(f.locvars[i].endpc);
        assert out == before + PutLocVar(f.locvars[i]);
      }
    }

    method DumpUpvalues(f: Proto)
      requires Fits(f)
      modifies `out
      ensures out == old(out) + PutList(f.upvalues, PutString)
    {
      hide PutInt, PutString;
      DumpInt(|f.upvalues|);
      assert f.upvalues[0..] == f.upvalues;
      for i := 0 to |f.upvalues|
        invariant out + PutMany(f.upvalues[i..], PutString) == old(out) + PutList(f.upvalues, PutString)
      {
        ManyStep(out, f.upvalues, i, PutString);
        DumpString(f.upvalues[i]);
      }
    }

    method DumpDebug(f: Proto)
      requires Fits(f)
      modifies `out
      ensures out == old(out) + PutDebug(f, strip)
    {
      hide PutInt, PutList;
      if strip {
        DumpInt(0);
        DumpInt(0);
        DumpInt(0);
      } else {
        DumpLines(f);
        DumpLocVars(f);
        DumpUpvalues(f);
      }
    }

    method DumpHead(f: Proto, source: Option<Bytes>)
      modifies `out
      ensures out == old(out) + PutHead(f, source)
    {
      hide PutInt, PutString;
      DumpString(source);
      DumpInt(f.linedefined);
      DumpInt(f.lastlinedefined);
      DumpBlock([f.nups, f.numparams, f.isVararg, f.maxstacksize]);
    }

    method DumpFunction(f: Proto, parent: Option<Bytes>)
      requires AllFit(f)
      modifies `out
      ensures out == old(out) + PutFunction(f, parent, strip)
      decreases f, 1
    {
      hide PutInt, PutHead, PutList, PutProtos, PutDebug;
      DumpHead(f, if f.source == parent || strip then None else f.source);
      DumpCode(f);
      DumpConstants(f);
      DumpProtos(f);
      DumpDebug(f);
    }

    /** `luaU_dump`. */
    method DumpChunk(f: Proto)
      requires AllFit(f) && out == []
      modifies `out
      ensures out == Dump(f, strip)
    {
      DumpBlock(HEADER);
      DumpFunction(f, None);
    }
  }

  lemma ManyStep<T>(out: Bytes, xs: seq<T>, i: nat, put: T -> Bytes)
    requires i < |xs|
    ensures out + PutMany(xs[i..], put) == (out + put(xs[i])) + PutMany(xs[i + 1..], put)
  {
    assert xs[i..][1..] == xs[i + 1..];
  }
}
