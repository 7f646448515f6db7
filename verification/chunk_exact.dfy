/** Exactly which dumped trees can be loaded. */
module ChunkExact {
  import opened ChunkWords
  import opened ChunkChecker
  import opened ChunkFormat
  import opened ChunkTree

  /** All functions of the tree, as they come back, are accepted, and none is nested
      too deeply. */
  predicate Loads(f: Proto, parent: Bytes, strip: bool, depth: nat)
    decreases f
  {
    && depth < 200 && Accepted(Restored(f, parent, strip))
    && forall q <- f.p :: Loads(q, Inherited(f, parent, strip), strip, depth + 1)
  }

  function Inherited(f: Proto, parent: Bytes, strip: bool): Bytes {
    if strip then parent else SourceOr(f.source, parent)
  }

  lemma {:induction false} FunctionExactly(f: Proto, dumped: Option<Bytes>, parent: Bytes, strip: bool, depth: nat, rest: Bytes)
    requires AllFit(f) && depth <= 200 && SourcesAgree(dumped, parent, strip)
    ensures var r := GetFunction(PutFunction(f, dumped, strip) + rest, parent, depth);
            if Loads(f, parent, strip, depth) then r == Ok(Restored(f, parent, strip), rest) else r.Err?
    decreases f, 1
  {
    hide PutHead, PutList, PutDebug, GetHead, GetList, GetInt, GetDebug, PutInt, PutProtos, GetProtos, Accepted, Inverse;
    if depth < 200 {
      var source := if f.source == dumped || strip then None else f.source;
      var b5 := PutDebug(f, strip) + rest;
      var b4 := PutProtos(f.p, f.source, strip) + b5;
      var b3 := PutInt(|f.p|) + b4;
      var b2 := PutList(f.k, PutConst) + b3;
      var b1 := PutList(f.code, PutWord) + b2;
      PutParts(f, dumped, strip, rest);
      GetHeadPut(f, source, b1);
      CodeBack(f, b2);
      ConstsBack(f, b3);
      GetIntPut(|f.p|, b4);
      assert SourceOr(source, parent) == Inherited(f, parent, strip);
      ProtosExactly(f.p, f.source, Inherited(f, parent, strip), strip, depth + 1, b5);
      GetDebugPut(f, strip, rest);
      hide PutFunction;
    }
  }

  lemma {:induction false} ProtosExactly(ps: seq<Proto>, dumped: Option<Bytes>, parent: Bytes, strip: bool, depth: nat, rest: Bytes)
    requires depth <= 200 && SourcesAgree(dumped, parent, strip) && forall q <- ps :: AllFit(q)
    ensures var r := GetProtos(|ps|, PutProtos(ps, dumped, strip) + rest, parent, depth);
            if forall q <- ps :: Loads(q, parent, strip, depth) then r == Ok(RestoredAll(ps, parent, strip), rest) else r.Err?
    decreases ps, 0
  {
    hide AllFit, GetFunction, PutFunction, Restored, Loads;
    if ps == [] {
      assert PutProtos(ps, dumped, strip) + rest == rest;
    } else {
      var more := PutProtos(ps[1..], dumped, strip);
      assert PutProtos(ps, dumped, strip) + rest == PutFunction(ps[0], dumped, strip) + (more + rest);
      FunctionExactly(ps[0], dumped, parent, strip, depth, more + rest);
      ProtosExactly(ps[1..], dumped, parent, strip, depth, rest);
      assert ps == [ps[0]] + ps[1..];
    }
  }

  lemma {:induction false} LoadsIs(f: Proto, parent: Bytes, strip: bool, depth: nat)
    ensures Loads(f, parent, strip, depth) <==> depth < 200 && Within(f, 200 - depth) && AllAccepted(Restored(f, parent, strip))
    decreases f, 1
  {
    hide Accepted;
    LoadAllIs(f.p, Inherited(f, parent, strip), strip, depth + 1);
  }

  lemma {:induction false} LoadAllIs(ps: seq<Proto>, parent: Bytes, strip: bool, depth: nat)
    ensures (forall q <- ps :: Loads(q, parent, strip, depth)) <==>
            (ps == [] || (depth < 200 && forall q <- ps :: Within(q, 200 - depth))) && forall q <- RestoredAll(ps, parent, strip) :: AllAccepted(q)
    decreases ps, 0
  {
    hide Loads, Within, AllAccepted, Restored;
    if ps != [] {
      LoadsIs(ps[0], parent, strip, depth);
      LoadAllIs(ps[1..], parent, strip, depth);
      assert ps == [ps[0]] + ps[1..];
      var r := RestoredAll(ps[1..], parent, strip);
      assert forall q :: q in [Restored(ps[0], parent, strip)] + r <==> q == Restored(ps[0], parent, strip) || q in r;
      assert forall q :: q in ps <==> q == ps[0] || q in ps[1..];
    }
  }

  /** A dumped tree is loaded exactly if it is nested no deeper than the calls that
      are left of 200 and all its functions, as they come back, are accepted; with
      everything kept that is to be kept. */
  lemma RoundTripExactly(f: Proto, strip: bool, depth: nat, rest: Bytes)
    requires AllFit(f) && depth <= 200
    ensures var r := Undump(Dump(f, strip) + rest, depth);
            var g := Restored(f, ['=' as int, '?' as int], strip);
            if depth < 200 && Within(f, 200 - depth) && AllAccepted(g) then r == Ok(g, rest) else r.Err?
  {
    hide GetFunction, PutFunction, Restored, Loads;
    var more := PutFunction(f, None, strip) + rest;
    assert Dump(f, strip) + rest == HEADER + more;
    TakePut(HEADER, more);
    FunctionExactly(f, None, NO_SOURCE, strip, depth, rest);
    LoadsIs(f, NO_SOURCE, strip, depth);
  }
}
