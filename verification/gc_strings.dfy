/** The intern table: `luaS_newlstr`, `newlstr` and `luaS_resize`. */
module GcStrings {
  import opened GcHeap
  import opened GcMark
  import opened GcPropagate
  import opened GcAtomic
  import opened GcInvariant
  import opened GcBarrier
  import StringHash

  const MAX_INT := 0x7FFF_FFFD
  const MIN_STRING_TABLE := 32

  // ---- Resizing -----------------------------------------------------------

  function NewBucket(s: State, r: Ref, n: nat): (b: nat)
    requires r in s.objs && s.objs[r].Str? && n > 0
    ensures b < n
  {
    StringHash.Bucket(s.objs[r].bytes, n)
  }

  /** Relinks one chain: every string goes to the front of its new bucket. */
  function RehashChain(s: State, l: seq<Ref>, h: seq<seq<Ref>>): (t: seq<seq<Ref>>)
    requires |h| > 0 && forall r <- l :: r in s.objs && s.objs[r].Str?
    ensures |t| == |h|
    decreases |l|
  {
    if l == [] then h else
      var b := NewBucket(s, l[0], |h|);
      RehashChain(s, l[1..], h[b := [l[0]] + h[b]])
  }

  function RehashFrom(s: State, i: nat, h: seq<seq<Ref>>): (t: seq<seq<Ref>>)
    requires StringTable(s) && i <= |s.g.strt| && |h| > 0
    ensures |t| == |h|
    decreases |s.g.strt| - i
  {
    if i == |s.g.strt| then h else
      RehashFrom(s, i + 1, RehashChain(s, s.g.strt[i], h))
  }

  /** `luaS_resize`: nothing happens while strings are being swept. */
  function Resize(s: State, n: nat): State
    requires StringTable(s) && n > 0
  {
    if s.g.phase == SweepString then s
    else s.(g := s.g.(strt := RehashFrom(s, 0, seq(n, _ => []))))
  }

  lemma {:induction false} RehashChainSpec(s: State, l: seq<Ref>, h: seq<seq<Ref>>)
    requires |h| > 0 && Distinct(l) && forall r <- l :: r in s.objs && s.objs[r].Str?
    requires forall b :: 0 <= b < |h| ==> Distinct(h[b]) && Disjoint(l, h[b])
    ensures var t := RehashChain(s, l, h);
            && (forall b :: 0 <= b < |h| ==> Distinct(t[b]))
            && forall b, r :: 0 <= b < |h| ==> (r in t[b] <==> r in h[b] || (r in l && NewBucket(s, r, |h|) == b))
    decreases |l|
  {
    if l != [] {
      var b := NewBucket(s, l[0], |h|);
      var h' := h[b := [l[0]] + h[b]];
      TailMembers(l);
      assert l[0] !in h[b];
      assert Distinct([l[0]] + h[b]);
      forall c | 0 <= c < |h'| ensures Distinct(h'[c]) && Disjoint(l[1..], h'[c]) {
        if c == b { assert forall x :: x in h'[c] <==> x == l[0] || x in h[c]; }
      }
      RehashChainSpec(s, l[1..], h');
      forall c, r | 0 <= c < |h|
        ensures r in RehashChain(s, l, h)[c] <==> r in h[c] || (r in l && NewBucket(s, r, |h|) == c)
      {
        assert r in h'[c] <==> r in h[c] || (c == b && r == l[0]);
      }
    }
  }

  /** Strings of the old buckets before `i` are in their new buckets. */
  ghost predicate Rehashed(s: State, i: nat, h: seq<seq<Ref>>)
    requires StringTable(s) && |h| > 0
  {
    && (forall b :: 0 <= b < |h| ==> Distinct(h[b]))
    && forall b, r :: 0 <= b < |h| ==>
        (r in h[b] <==> r in s.objs && s.objs[r].Str? && NewBucket(s, r, |s.g.strt|) < i && NewBucket(s, r, |h|) == b)
  }

  lemma RehashStep(s: State, i: nat, h: seq<seq<Ref>>)
    requires StringTable(s) && i < |s.g.strt| && |h| > 0 && Rehashed(s, i, h)
    ensures Rehashed(s, i + 1, RehashChain(s, s.g.strt[i], h))
  {
    var l := s.g.strt[i];
    forall b | 0 <= b < |h| ensures Disjoint(l, h[b]) {
      forall r <- l ensures r !in h[b] {
        assert NewBucket(s, r, |s.g.strt|) == i;
      }
    }
    RehashChainSpec(s, l, h);
    var t := RehashChain(s, l, h);
    forall r ensures r in l <==> r in s.objs && s.objs[r].Str? && NewBucket(s, r, |s.g.strt|) == i {
      if r in s.objs && s.objs[r].Str? {
        assert r in s.g.strt[NewBucket(s, r, |s.g.strt|)];
      }
    }
    hide RehashChain, NewBucket, StringTable;
  }

  lemma {:induction false} RehashAll(s: State, i: nat, h: seq<seq<Ref>>)
    requires StringTable(s) && i <= |s.g.strt| && |h| > 0 && Rehashed(s, i, h)
    ensures Rehashed(s, |s.g.strt|, RehashFrom(s, i, h))
    decreases |s.g.strt| - i
  {
    if i < |s.g.strt| {
      RehashStep(s, i, h);
      hide RehashChain, Rehashed, StringTable;
      RehashAll(s, i + 1, RehashChain(s, s.g.strt[i], h));
    }
  }

  /** Resizing keeps the table canonical: same strings, every one in the bucket
      of its hash. */
  lemma ResizeTable(s: State, n: nat)
    requires StringTable(s) && n > 0
    ensures StringTable(Resize(s, n))
    ensures Resize(s, n) == s.(g := s.g.(strt := Resize(s, n).g.strt))
  {
    if s.g.phase != SweepString {
      var h := seq(n, _ => []);
      assert Rehashed(s, 0, h);
      RehashAll(s, 0, h);
      var t := Resize(s, n);
      hide RehashFrom;
      RehashedTable(s, t);
    }
  }

  lemma RehashedTable(s: State, t: State)
    requires StringTable(s) && |t.g.strt| > 0 && Rehashed(s, |s.g.strt|, t.g.strt)
    requires t == s.(g := s.g.(strt := t.g.strt))
    ensures StringTable(t)
  {
    assert Strings(t) == Strings(s);
    hide Strings, Distinct;
    forall r <- t.objs | t.objs[r].Str?
      ensures r in t.g.strt[StringHash.Bucket(t.objs[r].bytes, |t.g.strt|)]
    {
      assert NewBucket(s, r, |s.g.strt|) < |s.g.strt|;
      assert NewBucket(s, r, |t.g.strt|) == StringHash.Bucket(t.objs[r].bytes, |t.g.strt|);
    }
  }

  /** `checkSizes`: halve a table that is less than a quarter full. */
  function CheckSizes(s: State): State
    requires StringTable(s)
  {
    if s.g.nuse < |s.g.strt| / 4 && |s.g.strt| > MIN_STRING_TABLE * 2
    then Resize(s, |s.g.strt| / 2) else s
  }

  // ---- Interning ----------------------------------------------------------

  /** The first string of a chain with these bytes. */
  function Lookup(s: State, l: seq<Ref>, bytes: seq<bv8>): (q: Option<Ref>)
    ensures q.Some? ==> q.value in l && q.value in s.objs && s.objs[q.value] == Str(bytes)
    ensures q.None? ==> forall r <- l :: r in s.objs ==> s.objs[r] != Str(bytes)
    decreases |l|
  {
    if l == [] then None
    else if l[0] in s.objs && s.objs[l[0]] == Str(bytes) then Some(l[0])
    else
      assert l == [l[0]] + l[1..];
      Lookup(s, l[1..], bytes)
  }

  const NEW_MARK := Mark(Gray, false, false, false)

  /** The mark of a new object: the current white. */
  function FreshMark(s: State): Mark {
    NEW_MARK.(color := White(s.g.cur))
  }

  /** `newlstr`: a new string at the front of its chain; a crowded table grows. */
  function NewString(s: State, bytes: seq<bv8>, r: Ref): State
    requires StringTable(s) && r !in s.objs
    requires Lookup(s, s.g.strt[StringHash.Bucket(bytes, |s.g.strt|)], bytes).None?
  {
    var t := AddString(s, bytes, r);
    AddStringTable(s, bytes, r);
    if t.g.nuse > |t.g.strt| && |t.g.strt| <= MAX_INT / 2 then Resize(t, |t.g.strt| * 2) else t
  }

  function AddString(s: State, bytes: seq<bv8>, r: Ref): State
    requires |s.g.strt| > 0
  {
    var b := StringHash.Bucket(bytes, |s.g.strt|);
    s.(objs := s.objs[r := Str(bytes)], mark := s.mark[r := FreshMark(s)],
       g := s.g.(strt := s.g.strt[b := [r] + s.g.strt[b]], nuse := s.g.nuse + 1, tmp := s.g.tmp + {r}))
  }

  /** `luaS_newlstr`: an existing string is returned, brought back to life if it
      is dead but not swept yet. */
  function Intern(s: State, bytes: seq<bv8>, r: Ref): State
    requires StringTable(s) && r !in s.objs && s.mark.Keys == s.objs.Keys
  {
    var q := Lookup(s, s.g.strt[StringHash.Bucket(bytes, |s.g.strt|)], bytes);
    if q.Some? then Revive(s, q.value) else NewString(s, bytes, r)
  }

  /** `changewhite` on a dead object; the object is now in the caller's hands. */
  function Revive(s: State, q: Ref): State
    requires q in s.mark
  {
    var t := if IsDead(s, q) then SetColor(s, q, White(s.g.cur)) else s;
    t.(g := t.g.(tmp := t.g.tmp + {q}))
  }

  lemma NotThere(s: State, bytes: seq<bv8>)
    requires StringTable(s)
    requires Lookup(s, s.g.strt[StringHash.Bucket(bytes, |s.g.strt|)], bytes).None?
    ensures forall r <- s.objs :: s.objs[r] != Str(bytes)
  {}

  lemma AddStringTable(s: State, bytes: seq<bv8>, r: Ref)
    requires StringTable(s) && r !in s.objs
    requires Lookup(s, s.g.strt[StringHash.Bucket(bytes, |s.g.strt|)], bytes).None?
    ensures StringTable(AddString(s, bytes, r))
  {
    var t := AddString(s, bytes, r);
    NotThere(s, bytes);
    AddStringCount(s, t, bytes, r);
    AddStringChains(s, t, bytes, r);
    AddStringObjs(s, t, bytes, r);
    hide AddString, Lookup, Strings, Distinct;
    AddedTable(s, t, bytes, r);
  }

  lemma AddedTable(s: State, t: State, bytes: seq<bv8>, r: Ref)
    requires StringTable(s) && r !in s.objs && |t.g.strt| == |s.g.strt|
    requires forall x <- s.objs :: s.objs[x] != Str(bytes)
    requires forall x :: x in t.objs <==> x in s.objs || x == r
    requires forall x <- t.objs :: t.objs[x] == if x == r then Str(bytes) else s.objs[x]
    requires forall c :: 0 <= c < |t.g.strt| ==> Distinct(t.g.strt[c])
    requires forall c, x :: 0 <= c < |t.g.strt| ==>
      (x in t.g.strt[c] <==> x in s.g.strt[c] || (x == r && c == StringHash.Bucket(bytes, |s.g.strt|)))
    requires t.g.nuse == |Strings(t)|
    ensures StringTable(t)
  {
    hide Strings, Distinct;
    var n := |s.g.strt|;
    assert forall c, x :: 0 <= c < n && x in t.g.strt[c] ==>
      x in t.objs && t.objs[x].Str? && StringHash.Bucket(t.objs[x].bytes, n) == c;
    assert forall x <- t.objs :: t.objs[x].Str? ==> x in t.g.strt[StringHash.Bucket(t.objs[x].bytes, n)];
  }

  lemma AddStringObjs(s: State, t: State, bytes: seq<bv8>, r: Ref)
    requires |s.g.strt| > 0 && r !in s.objs && t == AddString(s, bytes, r)
    ensures forall x :: x in t.objs <==> x in s.objs || x == r
    ensures forall x <- t.objs :: t.objs[x] == if x == r then Str(bytes) else s.objs[x]
  {}

  lemma AddStringCount(s: State, t: State, bytes: seq<bv8>, r: Ref)
    requires StringTable(s) && r !in s.objs && t == AddString(s, bytes, r)
    ensures t.g.nuse == |Strings(t)|
  {
    assert Strings(t) == Strings(s) + {r};
    assert r !in Strings(s);
  }

  lemma AddStringChains(s: State, t: State, bytes: seq<bv8>, r: Ref)
    requires StringTable(s) && r !in s.objs && t == AddString(s, bytes, r)
    ensures |t.g.strt| == |s.g.strt|
    ensures forall c :: 0 <= c < |t.g.strt| ==> Distinct(t.g.strt[c])
    ensures forall c, x :: 0 <= c < |t.g.strt| ==>
      (x in t.g.strt[c] <==> x in s.g.strt[c] || (x == r && c == StringHash.Bucket(bytes, |s.g.strt|)))
  {
    hide Strings;
    var b := StringHash.Bucket(bytes, |s.g.strt|);
    assert r !in s.g.strt[b];
    assert Distinct([r] + s.g.strt[b]);
  }
}
