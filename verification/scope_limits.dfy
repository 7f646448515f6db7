/** When names can be resolved: a function has room for 60 upvalues. */
module ScopeLimits {
  import opened ChunkWords
  import opened ScopeResolve

  predicate Declared(ls: seq<Level>, n: Name) {
    exists k :: 0 <= k < |ls| && n in ls[k].actvar
  }

  /** What a name is already, seen from the first function: a local, or an upvalue
      there is for it. */
  function Known(ls: seq<Level>, n: Name): Option<Var> {
    if ls == [] then None else
      match SearchVar(ls[0].actvar, n)
      case Some(r) => Some(Local(r))
      case None =>
        match Known(ls[1..], n)
        case None => None
        case Some(v) => (match SearchUpval(ls[0].upvalues, v) case None => None case Some(i) => Some(Upval(i)))
  }

  lemma {:induction false} KnownDeclared(ls: seq<Level>, n: Name)
    requires Known(ls, n).Some?
    ensures Declared(ls, n) && !Known(ls, n).value.Global?
  {
    if n in ls[0].actvar {
      assert 0 <= 0 < |ls| && n in ls[0].actvar;
    } else {
      KnownDeclared(ls[1..], n);
      DeclaredTail(ls, n);
    }
  }

  lemma DeclaredTail(ls: seq<Level>, n: Name)
    requires ls != []
    ensures Declared(ls, n) <==> n in ls[0].actvar || Declared(ls[1..], n)
  {
    if Declared(ls[1..], n) {
      var k :| 0 <= k < |ls| - 1 && n in ls[1..][k].actvar;
      assert n in ls[k + 1].actvar;
    }
    if Declared(ls, n) && n !in ls[0].actvar {
      var k :| 0 <= k < |ls| && n in ls[k].actvar;
      assert n in ls[1..][k - 1].actvar;
    }
  }

  // ---- One name -----------------------------------------------------------

  /** Function `k` stands between the place where the name is used and its
      declaration, has no upvalue for it, and no room for one more. */
  ghost predicate NoRoom(ls: seq<Level>, n: Name, k: nat) {
    && k < |ls| && (forall j :: 0 <= j <= k ==> n !in ls[j].actvar)
    && Declared(ls[k + 1..], n) && Known(ls[k..], n).None? && |ls[k].upvalues| >= 60
  }

  lemma NoRoomTail(ls: seq<Level>, n: Name)
    requires ls != [] && n !in ls[0].actvar
    ensures (exists k :: NoRoom(ls, n, k)) <==> NoRoom(ls, n, 0) || exists k :: NoRoom(ls[1..], n, k)
  {
    hide Known, Declared;
    forall k: nat | k < |ls| - 1 ensures NoRoom(ls[1..], n, k) <==> NoRoom(ls, n, k + 1) {
      assert ls[1..][k + 1..] == ls[k + 2..] && ls[1..][k..] == ls[k + 1..];
      if NoRoom(ls[1..], n, k) {
        forall j | 0 <= j <= k + 1 ensures n !in ls[j].actvar { if j > 0 { assert ls[j] == ls[1..][j - 1]; } }
      }
      if NoRoom(ls, n, k + 1) {
        forall j | 0 <= j <= k ensures n !in ls[1..][j].actvar { assert ls[1..][j] == ls[j + 1]; }
      }
    }
    forall k: nat | k > 0 && NoRoom(ls, n, k) ensures NoRoom(ls[1..], n, k - 1) {}
  }

  /** Exactly when resolving fails; and what is found is what was known, or a new
      upvalue where nothing was, or a global where nothing is declared. */
  lemma {:induction false} ResolveExactly(ls: seq<Level>, n: Name, base: bool)
    requires DescsOk(ls)
    ensures Resolve(ls, n, base).TooMany? <==> exists k :: NoRoom(ls, n, k)
    ensures var r := Resolve(ls, n, base); r.Found? ==>
              if !Declared(ls, n) then r.v.Global? else
              match Known(ls, n) case Some(v) => r.v == v case None => ls != [] && r.v == Upval(|ls[0].upvalues|)
  {
    if ls != [] {
      DeclaredTail(ls, n);
      if n !in ls[0].actvar {
        OuterOk(ls);
        ResolveExactly(ls[1..], n, false);
        NoRoomTail(ls, n);
        ResolveHere(ls, n, base);
      } else {
        ResolvedLocal(ls, n, base);
      }
    }
  }

  lemma ResolvedLocal(ls: seq<Level>, n: Name, base: bool)
    requires ls != [] && n in ls[0].actvar
    ensures Resolve(ls, n, base).Found? && Known(ls, n) == Some(Resolve(ls, n, base).v) && !Resolve(ls, n, base).v.Global?
    ensures forall k :: !NoRoom(ls, n, k)
  {
    hide Declared;
  }

  lemma ResolveHere(ls: seq<Level>, n: Name, base: bool)
    requires DescsOk(ls) && ls != [] && n !in ls[0].actvar
    requires var q := Resolve(ls[1..], n, false); q.Found? ==>
               if !Declared(ls[1..], n) then q.v.Global? else
               match Known(ls[1..], n) case Some(v) => q.v == v case None => |ls| > 1 && q.v == Upval(|ls[1].upvalues|)
    ensures var q, r := Resolve(ls[1..], n, false), Resolve(ls, n, base);
            && (r.TooMany? <==> q.TooMany? || NoRoom(ls, n, 0))
            && (r.Found? ==>
                 if !Declared(ls[1..], n) then r.v.Global? else
                 match Known(ls, n) case Some(v) => r.v == v case None => r.v == Upval(|ls[0].upvalues|))
  {
    hide Declared;
    var q := Resolve(ls[1..], n, false);
    assert ls[0..] == ls;
    if Known(ls[1..], n).Some? { KnownDeclared(ls[1..], n); }
    if q.Found? && Known(ls[1..], n).None? && |ls| > 1 {
      forall j | 0 <= j < |ls[0].upvalues| ensures ls[0].upvalues[j].v != Upval(|ls[1].upvalues|) {
        assert DescOk(ls[0].upvalues[j], ls[1]);
      }
    }
  }

  /** In particular: while no function has 60 upvalues, every name is resolved. */
  lemma RoomForAll(ls: seq<Level>, n: Name, base: bool)
    requires DescsOk(ls) && forall k :: 0 <= k < |ls| ==> |ls[k].upvalues| < 60
    ensures Resolve(ls, n, base).Found?
  {
    ResolveExactly(ls, n, base);
  }

  // ---- Marks --------------------------------------------------------------

  /** Function `k` declares the name, and none inside it does. */
  ghost predicate Declares(ls: seq<Level>, n: Name, k: nat) {
    k < |ls| && n in ls[k].actvar && forall j :: 0 <= j < k ==> n !in ls[j].actvar
  }

  /** The only block that is marked is the innermost one that holds the local found,
      if it is used from an inner function. */
  ghost predicate OnlyMarked(ls: seq<Level>, ms: seq<Level>, n: Name, base: bool) {
    |ms| == |ls| && forall k: nat :: k < |ls| ==> LevelMarked(ls[k], ms[k], n, Declares(ls, n, k) && (k > 0 || !base))
  }

  ghost predicate LevelMarked(l: Level, m: Level, n: Name, hit: bool) {
    |m.blocks| == |l.blocks| && forall b: nat :: b < |l.blocks| ==>
      m.blocks[b].nactvar == l.blocks[b].nactvar && (m.blocks[b].upval <==> l.blocks[b].upval || (hit && Holds(l, n, b)))
  }

  /** Block `b` is the innermost one opened before the last local with this name. */
  ghost predicate Holds(l: Level, n: Name, b: nat) {
    && b < |l.blocks|
    && exists r: nat :: r < |l.actvar| && l.actvar[r] == n && (forall q :: r < q < |l.actvar| ==> l.actvar[q] != n)
        && l.blocks[b].nactvar <= r && forall c :: b < c < |l.blocks| ==> l.blocks[c].nactvar > r
  }

  lemma {:induction false} ResolveMarks(ls: seq<Level>, n: Name, base: bool)
    ensures var r := Resolve(ls, n, base); r.Found? ==> OnlyMarked(ls, r.levels, n, base)
    decreases |ls|
  {
    var r := Resolve(ls, n, base);
    if ls != [] && r.Found? {
      if n in ls[0].actvar {
        MarksHere(ls, n, base);
      } else {
        ResolveMarks(ls[1..], n, false);
        MarksOuter(ls, n, base);
      }
    }
  }

  lemma MarksHere(ls: seq<Level>, n: Name, base: bool)
    requires ls != [] && n in ls[0].actvar
    ensures OnlyMarked(ls, Resolve(ls, n, base).levels, n, base)
  {
    var v := SearchVar(ls[0].actvar, n).value;
    var ms := Resolve(ls, n, base).levels;
    forall b: nat | b < |ls[0].blocks| ensures Holds(ls[0], n, b) <==> BlockOf(ls[0].blocks, v) == Some(b) { HoldsIs(ls[0], n, b, v); }
    hide Holds;
    assert forall k: nat :: 0 < k < |ls| ==> ms[k] == ls[k] && !Declares(ls, n, k);
  }

  lemma HoldsIs(l: Level, n: Name, b: nat, v: nat)
    requires SearchVar(l.actvar, n) == Some(v) && b < |l.blocks|
    ensures Holds(l, n, b) <==> BlockOf(l.blocks, v) == Some(b)
  {
    assert forall r: nat :: r < |l.actvar| && l.actvar[r] == n && (forall q :: r < q < |l.actvar| ==> l.actvar[q] != n) ==> r == v;
  }

  lemma MarksOuter(ls: seq<Level>, n: Name, base: bool)
    requires ls != [] && n !in ls[0].actvar && Resolve(ls, n, base).Found?
    requires Resolve(ls[1..], n, false).Found? && OnlyMarked(ls[1..], Resolve(ls[1..], n, false).levels, n, false)
    ensures OnlyMarked(ls, Resolve(ls, n, base).levels, n, base)
  {
    hide LevelMarked, Declares, OnlyMarked;
    var q, ms := Resolve(ls[1..], n, false).levels, Resolve(ls, n, base).levels;
    assert ms == [ms[0]] + q && ms[0].blocks == ls[0].blocks;
    hide Resolve;
    NotHere(ls, n);
    Unmarked(ls[0], ms[0], n);
    OneMore(ls, q, ms[0], n, base);
  }

  lemma OneMore(ls: seq<Level>, q: seq<Level>, m: Level, n: Name, base: bool)
    requires ls != [] && n !in ls[0].actvar && LevelMarked(ls[0], m, n, false) && !Declares(ls, n, 0) && OnlyMarked(ls[1..], q, n, false)
    ensures OnlyMarked(ls, [m] + q, n, base)
  {
    hide LevelMarked, Declares;
    var ms := [m] + q;
    forall k: nat | k < |ls| ensures LevelMarked(ls[k], ms[k], n, Declares(ls, n, k) && (k > 0 || !base)) {
      if k > 0 {
        assert LevelMarked(ls[1..][k - 1], q[k - 1], n, Declares(ls[1..], n, k - 1));
        DeclaresShift(ls, n, k - 1);
      }
    }
  }

  lemma DeclaresShift(ls: seq<Level>, n: Name, k: nat)
    requires ls != [] && n !in ls[0].actvar
    ensures Declares(ls[1..], n, k) <==> Declares(ls, n, k + 1)
  {
    if Declares(ls[1..], n, k) {
      forall j | 0 <= j < k + 1 ensures n !in ls[j].actvar { if j > 0 { assert ls[j] == ls[1..][j - 1]; } }
    }
    if Declares(ls, n, k + 1) {
      forall j | 0 <= j < k ensures n !in ls[1..][j].actvar { assert ls[1..][j] == ls[j + 1]; }
    }
  }

  lemma Unmarked(l: Level, m: Level, n: Name)
    requires m.blocks == l.blocks
    ensures LevelMarked(l, m, n, false)
  {}

  lemma NotHere(ls: seq<Level>, n: Name)
    requires ls != [] && n !in ls[0].actvar
    ensures !Declares(ls, n, 0)
  {}

  // ---- All names of a body ------------------------------------------------

  function Names(us: seq<Desc>): (r: set<Name>) {
    set j | 0 <= j < |us| :: us[j].name
  }

  function Locals(l: Level): set<Name> {
    set n | n in l.actvar
  }

  /** Those of the names that the first function needs upvalues for. */
  ghost function Passing(ls: seq<Level>, names: set<Name>): set<Name>
    requires ls != []
  {
    set n | n in names && n !in ls[0].actvar && Declared(ls[1..], n)
  }

  /** The upvalues of every function are those for the names, one for each. */
  ghost predicate Tidy(ls: seq<Level>, names: set<Name>)
    decreases |ls|
  {
    ls != [] ==>
      && (forall i, j :: 0 <= i < j < |ls[0].upvalues| ==> ls[0].upvalues[i].name != ls[0].upvalues[j].name)
      && Names(ls[0].upvalues) == Passing(ls, names)
      && (forall j :: 0 <= j < |ls[0].upvalues| ==> Known(ls[1..], ls[0].upvalues[j].name) == Some(ls[0].upvalues[j].v))
      && Tidy(ls[1..], names - Locals(ls[0]))
  }

  /** No function needs more than 60. */
  ghost predicate Fits(ls: seq<Level>, names: set<Name>)
    decreases |ls|
  {
    ls != [] ==> |Passing(ls, names)| <= 60 && Fits(ls[1..], names - Locals(ls[0]))
  }

  lemma {:induction false} NamesSize(us: seq<Desc>)
    requires forall i, j :: 0 <= i < j < |us| ==> us[i].name != us[j].name
    ensures |Names(us)| == |us|
  {
    if us != [] {
      var m := |us| - 1;
      NamesSize(us[..m]);
      assert us[m].name !in Names(us[..m]);
      forall n ensures n in Names(us) <==> n in Names(us[..m]) + {us[m].name} {
        if n in Names(us) { var j :| 0 <= j < |us| && us[j].name == n; if j < m { assert us[..m][j].name == n; } }
        if n in Names(us[..m]) { var j :| 0 <= j < m && us[..m][j].name == n; assert us[j].name == n; }
        assert us[m].name in Names(us);
      }
      assert Names(us) == Names(us[..m]) + {us[m].name};
    }
  }

  /** Different names are different variables. */
  lemma {:induction false} KnownInjective(ls: seq<Level>, a: Name, b: Name)
    requires Known(ls, a).Some? && Known(ls, a) == Known(ls, b)
    ensures a == b
    decreases |ls|
  {
    if a !in ls[0].actvar && b !in ls[0].actvar { KnownInjective(ls[1..], a, b); }
  }

  /** More upvalues and marks leave what is known as it is. */
  lemma {:induction false} KnownStays(ls: seq<Level>, ms: seq<Level>, n: Name)
    requires AllExtended(ls, ms) && Known(ls, n).Some?
    ensures Known(ms, n) == Known(ls, n)
    decreases |ls|
  {
    assert Extended(ls[0], ms[0]);
    if n !in ls[0].actvar {
      forall k | 0 <= k < |ls| - 1 ensures Extended(ls[1..][k], ms[1..][k]) { assert Extended(ls[k + 1], ms[k + 1]); }
      KnownStays(ls[1..], ms[1..], n);
      assert forall i :: 0 <= i < |ls[0].upvalues| ==> ms[0].upvalues[i] == ls[0].upvalues[i];
    }
  }

  lemma {:induction false} DeclaredStays(ls: seq<Level>, ms: seq<Level>, n: Name)
    requires |ls| == |ms| && forall k :: 0 <= k < |ls| ==> ms[k].actvar == ls[k].actvar
    ensures Declared(ls, n) <==> Declared(ms, n)
  {
    if Declared(ms, n) { var k :| 0 <= k < |ms| && n in ms[k].actvar; assert n in ls[k].actvar; }
    if Declared(ls, n) { var k :| 0 <= k < |ls| && n in ls[k].actvar; assert n in ms[k].actvar; }
  }

  lemma PassingMore(ls: seq<Level>, names: set<Name>, n: Name)
    requires ls != []
    ensures Passing(ls, names + {n}) == Passing(ls, names) + (if n !in ls[0].actvar && Declared(ls[1..], n) then {n} else {})
    ensures (names + {n}) - Locals(ls[0]) == (names - Locals(ls[0])) + (if n in ls[0].actvar then {} else {n})
  {
    hide Declared;
  }

  lemma PassingSame(ls: seq<Level>, ms: seq<Level>, names: set<Name>)
    requires ls != [] && |ls| == |ms| && forall k :: 0 <= k < |ls| ==> ms[k].actvar == ls[k].actvar
    ensures Passing(ms, names) == Passing(ls, names) && Locals(ms[0]) == Locals(ls[0])
  {
    forall n ensures Declared(ms[1..], n) <==> Declared(ls[1..], n) {
      forall k | 0 <= k < |ls| - 1 ensures ms[1..][k].actvar == ls[1..][k].actvar { assert ms[k + 1].actvar == ls[k + 1].actvar; }
      DeclaredStays(ls[1..], ms[1..], n);
    }
    hide Declared;
  }

  /** One more name. */
  lemma {:induction false} ResolveTidy(ls: seq<Level>, names: set<Name>, n: Name, base: bool)
    requires DescsOk(ls) && Tidy(ls, names) && Fits(ls, names)
    ensures var r := Resolve(ls, n, base);
            && (r.Found? <==> Fits(ls, names + {n}))
            && (r.Found? ==> Tidy(r.levels, names + {n}))
            && (r.Found? ==> if Declared(ls, n) then Known(r.levels, n) == Some(r.v) else r.v.Global?)
    decreases |ls|
  {
    if ls != [] {
      PassingMore(ls, names, n);
      DeclaredTail(ls, n);
      if n in ls[0].actvar {
        LocalTidy(ls, names, n, base);
      } else {
        OuterOk(ls);
        ResolveTidy(ls[1..], names - Locals(ls[0]), n, false);
        ResolveKeeps(ls[1..], n, false);
        SameLocals(ls[1..], n, false);
        var q := Resolve(ls[1..], n, false);
        if q.Found? {
          if q.v.Global? { GlobalTidy(ls, names, n, base, q); } else { UpvalTidy(ls, names, n, base, q); }
        }
      }
    }
  }

  lemma LocalTidy(ls: seq<Level>, names: set<Name>, n: Name, base: bool)
    requires ls != [] && n in ls[0].actvar && Tidy(ls, names) && Fits(ls, names)
    ensures var r := Resolve(ls, n, base);
            r.Found? && Fits(ls, names + {n}) && Tidy(r.levels, names + {n}) && Known(r.levels, n) == Some(r.v)
  {
    hide Declared;
    PassingMore(ls, names, n);
    var r := Resolve(ls, n, base);
    assert r.levels[1..] == ls[1..];
    assert Passing(r.levels, names + {n}) == Passing(ls, names);
    assert Locals(r.levels[0]) == Locals(ls[0]);
  }

  /** What is known of the upvalues there are, after the functions around have been
      extended. */
  lemma UpvalsStay(ls: seq<Level>, names: set<Name>, ms: seq<Level>)
    requires ls != [] && Tidy(ls, names) && AllExtended(ls[1..], ms)
    ensures forall j :: 0 <= j < |ls[0].upvalues| ==> Known(ms, ls[0].upvalues[j].name) == Some(ls[0].upvalues[j].v)
  {
    hide Known, AllExtended, Passing, Names;
    forall j | 0 <= j < |ls[0].upvalues| ensures Known(ms, ls[0].upvalues[j].name) == Some(ls[0].upvalues[j].v) {
      KnownStays(ls[1..], ms, ls[0].upvalues[j].name);
    }
  }

  lemma GlobalTidy(ls: seq<Level>, names: set<Name>, n: Name, base: bool, q: Found)
    requires ls != [] && n !in ls[0].actvar && Tidy(ls, names) && Fits(ls, names)
    requires q == Resolve(ls[1..], n, false) && q.Found? && q.v.Global? && AllExtended(ls[1..], q.levels)
    requires forall k :: 0 <= k < |ls| - 1 ==> q.levels[k].actvar == ls[1..][k].actvar
    requires Fits(ls[1..], (names - Locals(ls[0])) + {n}) && Tidy(q.levels, (names - Locals(ls[0])) + {n})
    requires if Declared(ls[1..], n) then Known(q.levels, n) == Some(q.v) else q.v.Global?
    ensures var r := Resolve(ls, n, base);
            r.Found? && Fits(ls, names + {n}) && Tidy(r.levels, names + {n}) && !Declared(ls, n) && r.v.Global?
  {
    if Known(q.levels, n).Some? { KnownDeclared(q.levels, n); }
    PassingMore(ls, names, n);
    DeclaredTail(ls, n);
    UpvalsStay(ls, names, q.levels);
    var r := Resolve(ls, n, base);
    assert r.levels[1..] == q.levels;
    PassingSame(ls, r.levels, names + {n});
    hide Declared, Known, Passing, Names;
  }

  lemma UpvalTidy(ls: seq<Level>, names: set<Name>, n: Name, base: bool, q: Found)
    requires ls != [] && n !in ls[0].actvar && Tidy(ls, names) && Fits(ls, names)
    requires q == Resolve(ls[1..], n, false) && q.Found? && !q.v.Global? && AllExtended(ls[1..], q.levels)
    requires forall k :: 0 <= k < |ls| - 1 ==> q.levels[k].actvar == ls[1..][k].actvar
    requires Fits(ls[1..], (names - Locals(ls[0])) + {n}) && Tidy(q.levels, (names - Locals(ls[0])) + {n})
    requires if Declared(ls[1..], n) then Known(q.levels, n) == Some(q.v) else q.v.Global?
    ensures var r := Resolve(ls, n, base);
            && (r.Found? <==> Fits(ls, names + {n}))
            && (r.Found? ==> Tidy(r.levels, names + {n}) && Known(r.levels, n) == Some(r.v))
  {
    PassingMore(ls, names, n);
    UpvalsStay(ls, names, q.levels);
    FoundAmong(ls[0].upvalues, q.levels, n, q.v);
    NamesSize(ls[0].upvalues);
    if SearchUpval(ls[0].upvalues, q.v).Some? { OldUpval(ls, names, n, base, q); } else { NewUpval(ls, names, n, base, q); }
  }

  lemma OldUpval(ls: seq<Level>, names: set<Name>, n: Name, base: bool, q: Found)
    requires ls != [] && n !in ls[0].actvar && Tidy(ls, names) && Fits(ls, names) && n in Names(ls[0].upvalues)
    requires q == Resolve(ls[1..], n, false) && q.Found? && !q.v.Global? && AllExtended(ls[1..], q.levels)
    requires forall k :: 0 <= k < |ls| - 1 ==> q.levels[k].actvar == ls[1..][k].actvar
    requires Fits(ls[1..], (names - Locals(ls[0])) + {n}) && Tidy(q.levels, (names - Locals(ls[0])) + {n})
    requires Known(q.levels, n) == Some(q.v) && SearchUpval(ls[0].upvalues, q.v).Some?
    ensures var r := Resolve(ls, n, base);
            r.Found? && Fits(ls, names + {n}) && Tidy(r.levels, names + {n}) && Known(r.levels, n) == Some(r.v)
  {
    hide Resolve, Passing, Names, AllExtended, Known, SearchUpval;
    PassingMore(ls, names, n);
    UpvalsStay(ls, names, q.levels);
    OldLevels(ls, n, base, q);
    assert n in Passing(ls, names);
    assert Passing(ls, names) <= Passing(ls, names + {n}) == Passing(ls, names) by { OldPassing(ls, names, n); }
    OldTidy(ls, names, n, q.levels);
    OneFits(ls, names, n);
  }

  lemma OldPassing(ls: seq<Level>, names: set<Name>, n: Name)
    requires ls != [] && n in Passing(ls, names)
    ensures Passing(ls, names + {n}) == Passing(ls, names)
  {
    PassingMore(ls, names, n);
  }

  lemma OldTidy(ls: seq<Level>, names: set<Name>, n: Name, q: seq<Level>)
    requires ls != [] && n !in ls[0].actvar && |q| == |ls| - 1 && Names(ls[0].upvalues) == Passing(ls, names + {n})
    requires forall k :: 0 <= k < |ls| - 1 ==> q[k].actvar == ls[1..][k].actvar
    requires Tidy(ls, names) && Tidy(q, (names - Locals(ls[0])) + {n})
    requires forall j :: 0 <= j < |ls[0].upvalues| ==> Known(q, ls[0].upvalues[j].name) == Some(ls[0].upvalues[j].v)
    ensures Tidy([ls[0]] + q, names + {n})
  {
    hide Passing, Names, Known;
    var ms := [ls[0]] + q;
    assert ms[1..] == q;
    forall k | 0 <= k < |ls| ensures ms[k].actvar == ls[k].actvar { if k > 0 { assert ls[k] == ls[1..][k - 1]; } }
    PassingSame(ls, ms, names + {n});
    PassingMore(ls, names, n);
    hide Locals, Tidy;
    assert forall i, j :: 0 <= i < j < |ls[0].upvalues| ==> ls[0].upvalues[i].name != ls[0].upvalues[j].name by { NamesDiffer(ls, names); }
    TidyCons(ms, names + {n});
  }

  lemma NamesDiffer(ls: seq<Level>, names: set<Name>)
    requires ls != [] && Tidy(ls, names)
    ensures forall i, j :: 0 <= i < j < |ls[0].upvalues| ==> ls[0].upvalues[i].name != ls[0].upvalues[j].name
  {}

  lemma OldLevels(ls: seq<Level>, n: Name, base: bool, q: Found)
    requires ls != [] && n !in ls[0].actvar && q == Resolve(ls[1..], n, false) && q.Found? && !q.v.Global? && SearchUpval(ls[0].upvalues, q.v).Some?
    requires Known(q.levels, n) == Some(q.v)
    ensures var r := Resolve(ls, n, base);
            r.Found? && r.levels == [ls[0]] + q.levels && Known(r.levels, n) == Some(r.v)
  {
    var r := Resolve(ls, n, base);
    assert r.levels[1..] == q.levels;
  }

  lemma OneFits(ls: seq<Level>, names: set<Name>, n: Name)
    requires ls != [] && Fits(ls, names) && n !in ls[0].actvar && Fits(ls[1..], (names - Locals(ls[0])) + {n})
    requires |Passing(ls, names + {n})| <= 60
    ensures Fits(ls, names + {n})
  {
    PassingMore(ls, names, n);
    hide Passing, Declared;
  }

  lemma TidyCons(ls: seq<Level>, names: set<Name>)
    requires ls != []
    requires forall i, j :: 0 <= i < j < |ls[0].upvalues| ==> ls[0].upvalues[i].name != ls[0].upvalues[j].name
    requires Names(ls[0].upvalues) == Passing(ls, names)
    requires forall j :: 0 <= j < |ls[0].upvalues| ==> Known(ls[1..], ls[0].upvalues[j].name) == Some(ls[0].upvalues[j].v)
    requires Tidy(ls[1..], names - Locals(ls[0]))
    ensures Tidy(ls, names)
  {
    hide Passing, Names, Known, Locals;
  }

  lemma NewUpval(ls: seq<Level>, names: set<Name>, n: Name, base: bool, q: Found)
    requires ls != [] && n !in ls[0].actvar && Tidy(ls, names) && Fits(ls, names) && n !in Names(ls[0].upvalues)
    requires |Names(ls[0].upvalues)| == |ls[0].upvalues|
    requires q == Resolve(ls[1..], n, false) && q.Found? && !q.v.Global? && AllExtended(ls[1..], q.levels)
    requires forall k :: 0 <= k < |ls| - 1 ==> q.levels[k].actvar == ls[1..][k].actvar
    requires Fits(ls[1..], (names - Locals(ls[0])) + {n}) && Tidy(q.levels, (names - Locals(ls[0])) + {n})
    requires Known(q.levels, n) == Some(q.v) && SearchUpval(ls[0].upvalues, q.v).None? && Declared(ls[1..], n)
    ensures var r := Resolve(ls, n, base);
            && (r.Found? <==> Fits(ls, names + {n}))
            && (r.Found? ==> Tidy(r.levels, names + {n}) && Known(r.levels, n) == Some(r.v))
  {
    PassingMore(ls, names, n);
    hide Declared;
    var r := Resolve(ls, n, base);
    assert |Passing(ls, names + {n})| == |ls[0].upvalues| + 1;
    if r.Found? {
      OneFits(ls, names, n);
      NewTidy(ls, names, n, base, q);
    }
  }

  lemma NewTidy(ls: seq<Level>, names: set<Name>, n: Name, base: bool, q: Found)
    requires ls != [] && n !in ls[0].actvar && Tidy(ls, names) && n !in Names(ls[0].upvalues)
    requires q == Resolve(ls[1..], n, false) && q.Found? && !q.v.Global? && AllExtended(ls[1..], q.levels)
    requires forall k :: 0 <= k < |ls| - 1 ==> q.levels[k].actvar == ls[1..][k].actvar
    requires Tidy(q.levels, (names - Locals(ls[0])) + {n})
    requires Known(q.levels, n) == Some(q.v) && SearchUpval(ls[0].upvalues, q.v).None? && Declared(ls[1..], n)
    requires Resolve(ls, n, base).Found?
    ensures var r := Resolve(ls, n, base); Tidy(r.levels, names + {n}) && Known(r.levels, n) == Some(r.v)
  {
    hide Declared, AllExtended;
    var r := Resolve(ls, n, base);
    assert r.levels[1..] == q.levels && r.levels[0].upvalues == ls[0].upvalues + [Desc(q.v, n)];
    UpvalsStay(ls, names, q.levels);
    PassingMore(ls, names, n);
    PassingSame(ls, r.levels, names + {n});
    MoreNames(ls[0].upvalues, Desc(q.v, n));
    NewFound(ls[0].upvalues, Desc(q.v, n));
    AllNamed(ls[0].upvalues);
    assert Known(r.levels, n) == Some(r.v);
    hide Passing, Names, SearchUpval, Resolve, Locals, Known;
    TidyCons(r.levels, names + {n});
  }

  lemma AllNamed(us: seq<Desc>)
    ensures forall j :: 0 <= j < |us| ==> us[j].name in Names(us)
  {}

  lemma MoreNames(us: seq<Desc>, d: Desc)
    ensures Names(us + [d]) == Names(us) + {d.name}
  {
    forall n ensures n in Names(us + [d]) <==> n in Names(us) + {d.name} {
      if n in Names(us) { var j :| 0 <= j < |us| && us[j].name == n; assert (us + [d])[j].name == n; }
      assert (us + [d])[|us|].name == d.name;
    }
  }

  lemma {:induction false} NewFound(us: seq<Desc>, d: Desc)
    requires SearchUpval(us, d.v).None?
    ensures SearchUpval(us + [d], d.v) == Some(|us|)
  {
    if us != [] { assert (us + [d])[1..] == us[1..] + [d]; NewFound(us[1..], d); }
  }

  /** A function has an upvalue for the variable exactly if it has one with the name. */
  lemma FoundAmong(us: seq<Desc>, ms: seq<Level>, n: Name, v: Var)
    requires Known(ms, n) == Some(v) && forall j :: 0 <= j < |us| ==> Known(ms, us[j].name) == Some(us[j].v)
    ensures SearchUpval(us, v).Some? <==> n in Names(us)
  {
    hide Known;
    var s := SearchUpval(us, v);
    if s.Some? {
      KnownInjective(ms, us[s.value].name, n);
      assert us[s.value].name in Names(us);
    }
    if n in Names(us) { var j :| 0 <= j < |us| && us[j].name == n; assert us[j].v == v; }
  }

  lemma {:induction false} FitsSame(ls: seq<Level>, ms: seq<Level>, names: set<Name>)
    requires |ls| == |ms| && forall k :: 0 <= k < |ls| ==> ms[k].actvar == ls[k].actvar
    ensures Fits(ls, names) <==> Fits(ms, names)
    decreases |ls|
  {
    if ls != [] {
      PassingSame(ls, ms, names);
      hide Passing;
      forall k | 0 <= k < |ls| - 1 ensures ms[1..][k].actvar == ls[1..][k].actvar { assert ms[k + 1].actvar == ls[k + 1].actvar; }
      FitsSame(ls[1..], ms[1..], names - Locals(ls[0]));
    }
  }

  lemma {:induction false} FitsFewer(ls: seq<Level>, few: set<Name>, many: set<Name>)
    requires few <= many && Fits(ls, many)
    ensures Fits(ls, few)
    decreases |ls|
  {
    if ls != [] {
      SubsetSize(Passing(ls, few), Passing(ls, many));
      FitsFewer(ls[1..], few - Locals(ls[0]), many - Locals(ls[0]));
    }
  }

  lemma SubsetSize(a: set<Name>, b: set<Name>)
    requires a <= b
    ensures |a| <= |b|
  {
    assert b == a + (b - a);
  }

  /** The names used in the innermost function, one after the other. */
  function ResolveAll(ls: seq<Level>, ns: seq<Name>): Option<seq<Level>>
    decreases |ns|
  {
    if ns == [] then Some(ls) else
      match Resolve(ls, ns[0], true)
      case TooMany => None
      case Found(_, ms) => ResolveAll(ms, ns[1..])
  }

  function SetOf(ns: seq<Name>): set<Name> {
    set n | n in ns
  }

  lemma {:induction false} ResolveAllFits(ls: seq<Level>, names: set<Name>, ns: seq<Name>)
    requires DescsOk(ls) && Tidy(ls, names) && Fits(ls, names)
    ensures ResolveAll(ls, ns).Some? <==> Fits(ls, names + SetOf(ns))
    decreases |ns|
  {
    hide DescsOk, Tidy, Fits, Resolve, AllExtended;
    var all := names + SetOf(ns);
    if ns == [] {
      assert all == names;
    } else {
      var n := ns[0];
      var r := Resolve(ls, n, true);
      ResolveTidy(ls, names, n, true);
      ResolveKeeps(ls, n, true);
      SameLocals(ls, n, true);
      assert all == (names + {n}) + SetOf(ns[1..]) by { assert ns == [n] + ns[1..]; }
      if r.Found? {
        FitsSame(ls, r.levels, names + {n});
        ResolveAllFits(r.levels, names + {n}, ns[1..]);
        FitsSame(ls, r.levels, all);
      } else if Fits(ls, all) {
        FitsFewer(ls, names + {n}, all);
      }
    }
  }

  // ---- Counting -----------------------------------------------------------

  /** The names that function `k` captures: used inside it, declared around it. */
  ghost function CapturedBy(ls: seq<Level>, names: set<Name>, k: nat): set<Name>
    requires k < |ls|
  {
    set n | n in names && (forall j :: 0 <= j <= k ==> n !in ls[j].actvar) && Declared(ls[k + 1..], n)
  }

  lemma {:induction false} FitsCounts(ls: seq<Level>, names: set<Name>)
    ensures Fits(ls, names) <==> forall k :: 0 <= k < |ls| ==> |CapturedBy(ls, names, k)| <= 60
    decreases |ls|
  {
    if ls != [] {
      FitsCounts(ls[1..], names - Locals(ls[0]));
      assert CapturedBy(ls, names, 0) == Passing(ls, names);
      forall k | 0 <= k < |ls| - 1 ensures CapturedBy(ls[1..], names - Locals(ls[0]), k) == CapturedBy(ls, names, k + 1) { CapturedTail(ls, names, k); }
      hide Passing, CapturedBy, Locals;
      if Fits(ls, names) {
        forall k | 0 <= k < |ls| ensures |CapturedBy(ls, names, k)| <= 60 {
          if k > 0 { assert CapturedBy(ls[1..], names - Locals(ls[0]), k - 1) == CapturedBy(ls, names, k); }
        }
      }
    }
  }

  lemma CapturedTail(ls: seq<Level>, names: set<Name>, k: nat)
    requires k + 1 < |ls|
    ensures CapturedBy(ls[1..], names - Locals(ls[0]), k) == CapturedBy(ls, names, k + 1)
  {
    assert ls[1..][k + 1..] == ls[k + 2..];
    hide Declared;
    forall n ensures n in CapturedBy(ls[1..], names - Locals(ls[0]), k) <==> n in CapturedBy(ls, names, k + 1) {
      if n in CapturedBy(ls, names, k + 1) {
        forall j | 0 <= j <= k ensures n !in ls[1..][j].actvar { assert ls[1..][j] == ls[j + 1]; }
        assert n !in ls[0].actvar;
      }
      if n in CapturedBy(ls[1..], names - Locals(ls[0]), k) {
        forall j | 0 <= j <= k + 1 ensures n !in ls[j].actvar { if j > 0 { assert ls[j] == ls[1..][j - 1]; } }
      }
    }
  }

  lemma {:induction false} TidyFirst(ls: seq<Level>)
    requires forall k :: 0 <= k < |ls| ==> ls[k].upvalues == []
    ensures Tidy(ls, {}) && Fits(ls, {}) && DescsOk(ls)
    decreases |ls|
  {
    if ls != [] {
      forall k | 0 <= k < |ls| - 1 ensures ls[1..][k].upvalues == [] { assert ls[1..][k] == ls[k + 1]; }
      TidyFirst(ls[1..]);
      assert {} - Locals(ls[0]) == {};
      assert Names([]) == {} && Passing(ls, {}) == {};
    }
  }

  /** For any nesting of functions that have no upvalues yet and any names used in the
      innermost one: all are resolved exactly if none of the functions captures more
      than 60 different ones. */
  lemma ResolveAllExactly(ls: seq<Level>, ns: seq<Name>)
    requires forall k :: 0 <= k < |ls| ==> ls[k].upvalues == []
    ensures ResolveAll(ls, ns).Some? <==> forall k :: 0 <= k < |ls| ==> |CapturedBy(ls, SetOf(ns), k)| <= 60
  {
    hide Tidy, Fits, DescsOk, CapturedBy, ResolveAll;
    TidyFirst(ls);
    ResolveAllFits(ls, {}, ns);
    assert {} + SetOf(ns) == SetOf(ns);
    FitsCounts(ls, SetOf(ns));
  }
}
