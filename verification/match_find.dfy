/** `string.find` and `string.match`. */
module MatchFind {
  import opened MatchPattern
  import opened MatchSearch
  import opened MatchState

  const SPECIALS := "^$*+?.([%-"

  // ---- Plain search -------------------------------------------------------

  predicate OccursAt(s: string, w: string, i: nat) {
    i + |w| <= |s| && s[i..i + |w|] == w
  }

  /** `lmemfind`: the first occurrence.  The first character is looked for on its
      own, then the others are compared. */
  method LMemFind(s: string, w: string) returns (r: Option<nat>)
    ensures r.Some? ==> OccursAt(s, w, r.value) && forall i :: 0 <= i < r.value ==> !OccursAt(s, w, i)
    ensures r.None? ==> forall i: nat :: !OccursAt(s, w, i)
  {
    if |w| == 0 { return Some(0); }
    if |w| > |s| { return None; }
    var rest := |w| - 1;
    var from := 0;
    while |s| - rest > from
      invariant 0 <= from <= |s| - rest
      invariant forall i :: 0 <= i < from ==> !OccursAt(s, w, i)
    {
      var init := MemChr(s, w[0], from, |s| - rest);
      forall i | from <= i < (if init.Some? then init.value else |s| - rest) ensures !OccursAt(s, w, i) {
        assert i + |w| <= |s| ==> s[i..i + |w|][0] == s[i];
      }
      if init.None? { break; }
      assert s[init.value..init.value + |w|] == [s[init.value]] + s[init.value + 1..init.value + |w|];
      assert w == [w[0]] + w[1..];
      if s[init.value + 1..init.value + |w|] == w[1..] { return init; }
      from := init.value + 1;
    }
    return None;
  }

  method MemChr(s: string, c: char, from: nat, to: nat) returns (r: Option<nat>)
    requires from <= to <= |s|
    ensures r.Some? ==> from <= r.value < to && s[r.value] == c && forall i :: from <= i < r.value ==> s[i] != c
    ensures r.None? ==> forall i :: from <= i < to ==> s[i] != c
  {
    var i := from;
    while i < to
      invariant from <= i <= to && forall j :: from <= j < i ==> s[j] != c
    {
      if s[i] == c { return Some(i); }
      i := i + 1;
    }
    return None;
  }

  // ---- Patterns without special characters --------------------------------

  /** The characters of a C string. */
  function CLength(p: string): (n: nat)
    ensures n <= |p| && (n < |p| ==> p[n] == ZERO) && forall k :: 0 <= k < n ==> p[k] != ZERO
  {
    if p == [] || p[0] == ZERO then 0 else 1 + CLength(p[1..])
  }

  /** `strpbrk`: special characters before the first zero. */
  predicate HasSpecial(p: string) {
    exists k :: 0 <= k < CLength(p) && p[k] in SPECIALS
  }

  method FindSpecial(p: string) returns (r: bool)
    ensures r == HasSpecial(p)
  {
    var k := 0;
    var n := CLength(p);
    while k < n
      invariant 0 <= k <= n && forall j :: 0 <= j < k ==> p[j] !in SPECIALS
    {
      if p[k] in SPECIALS { return true; }
      k := k + 1;
    }
    return false;
  }

  /** The short cut is sound: where a pattern has nothing special in it, searching
      for it as a pattern and as a plain string is the same.  (A closing
      parenthesis is not among the characters that rule the short cut out.) */
  lemma {:induction false} PlainAgrees(s: string, p: string, i: nat, k: nat)
    requires i <= |s| && k <= |p| && !HasSpecial(p) && ')' !in p && ZERO !in p
    ensures Search(s, p, i, k, []) == if OccursAt(s, p[k..], i) then Succeeds(i + |p| - k, []) else Fails
    decreases |p| - k
  {
    hide HasSpecial, Search, OccursAt;
    if k == |p| {
      PlainEnd(s, p, i);
    } else {
      PlainStep(s, p, i, k);
      OccursStep(s, p[k..], i);
      assert p[k..][1..] == p[k + 1..];
      if i < |s| { PlainAgrees(s, p, i + 1, k + 1); }
    }
  }

  lemma PlainEnd(s: string, p: string, i: nat)
    requires i <= |s|
    ensures OccursAt(s, p[|p|..], i) && Search(s, p, i, |p|, []) == Succeeds(i, [])
  {
    assert p[|p|..] == [] && s[i..i] == [];
  }

  lemma OccursStep(s: string, w: string, i: nat)
    requires w != []
    ensures OccursAt(s, w, i) <==> i < |s| && s[i] == w[0] && OccursAt(s, w[1..], i + 1)
  {
    assert w == [w[0]] + w[1..];
    if i + |w| <= |s| { assert s[i..i + |w|] == [s[i]] + s[i + 1..i + |w|]; }
  }

  lemma PlainStep(s: string, p: string, i: nat, k: nat)
    requires i <= |s| && k < |p| && !HasSpecial(p) && ')' !in p && ZERO !in p
    ensures Search(s, p, i, k, []) == if i < |s| && s[i] == p[k] then Search(s, p, i + 1, k + 1, []) else Fails
  {
    NoZero(p);
    assert p[k] in p && p[k] !in SPECIALS;
    if k + 1 < |p| { assert p[k + 1] in p && p[k + 1] !in SPECIALS; }
    PlainItem(p, k, At(s, i));
    OnceStep(s, p, i, k);
  }

  lemma OnceStep(s: string, p: string, i: nat, k: nat)
    requires i <= |s| && k < |p| && ItemAt(p, k) == Next(Once(k, k + 1), k + 1) && (Single(p, k, k + 1, At(s, i)) <==> p[k] == At(s, i))
    ensures Search(s, p, i, k, []) == if i < |s| && s[i] == p[k] then Search(s, p, i + 1, k + 1, []) else Fails
  {
    hide ItemAt, Single;
  }

  lemma NoZero(p: string)
    requires ZERO !in p
    ensures CLength(p) == |p|
  {}

  lemma PlainItem(p: string, k: nat, c: char)
    requires k < |p| && p[k] !in SPECIALS && p[k] != ')' && p[k] != ZERO && (k + 1 < |p| ==> p[k + 1] !in SPECIALS)
    ensures ItemAt(p, k) == Next(Once(k, k + 1), k + 1)
    ensures Single(p, k, k + 1, c) <==> p[k] == c
  {
    assert '^' in SPECIALS && '$' in SPECIALS && '.' in SPECIALS && '(' in SPECIALS && '[' in SPECIALS && '%' in SPECIALS;
    assert '?' in SPECIALS && '*' in SPECIALS && '+' in SPECIALS && '-' in SPECIALS;
  }

  /** Searching for `p` as a pattern is searching for it as a plain string, in every
      subject and at every place. */
  ghost predicate ShortCutSound(p: string) {
    forall s, i :: 0 <= i <= |s| ==> SameAsPlain(s, p, i)
  }

  predicate SameAsPlain(s: string, p: string, i: nat)
    requires i <= |s|
  {
    Search(s, p, i, 0, []) == if OccursAt(s, p, i) then Succeeds(i + |p|, []) else Fails
  }

  /** Exactly when the short cut that is taken for patterns without special
      characters is sound: a closing parenthesis is not among the characters that
      rule it out, and what comes after a zero is not looked at. */
  lemma PlainExactly(p: string)
    requires !HasSpecial(p)
    ensures ShortCutSound(p) <==> ')' !in p && ZERO !in p
  {
    if ')' !in p && ZERO !in p {
      forall s, i | 0 <= i <= |s| ensures SameAsPlain(s, p, i) {
        PlainAgrees(s, p, i, 0);
        assert p[0..] == p;
      }
    } else {
      var n := FirstOdd(p);
      PlainWalk(p, 0, n);
      OddItem(p, n);
      assert !SameAsPlain(p[..n], p, 0);
    }
  }

  /** The first closing parenthesis or zero. */
  lemma FirstOdd(p: string) returns (n: nat)
    requires ')' in p || ZERO in p
    ensures n < |p| && (p[n] == ')' || p[n] == ZERO) && forall k :: 0 <= k < n ==> p[k] != ')' && p[k] != ZERO
  {
    n := 0;
    while p[n] != ')' && p[n] != ZERO
      invariant 0 <= n < |p| && forall k :: 0 <= k < n ==> p[k] != ')' && p[k] != ZERO
      decreases |p| - n
    {
      assert exists k :: n < k < |p| && (p[k] == ')' || p[k] == ZERO);
      n := n + 1;
    }
  }

  /** Up to there the pattern matches its own text. */
  lemma {:induction false} PlainWalk(p: string, k: nat, n: nat)
    requires !HasSpecial(p) && k <= n < |p| && (p[n] == ')' || p[n] == ZERO) && forall j :: 0 <= j < n ==> p[j] != ')' && p[j] != ZERO
    ensures Search(p[..n], p, k, k, []) == Search(p[..n], p, n, n, [])
    decreases n - k
  {
    hide Search, HasSpecial;
    if k < n {
      NotSpecial(p, k, n);
      if k + 1 < n { NotSpecial(p, k + 1, n); } else { assert p[n] !in SPECIALS; }
      assert p[..n][k] == p[k];
      PlainItem(p, k, p[k]);
      OnceStep(p[..n], p, k, k);
      PlainWalk(p, k + 1, n);
    }
  }

  lemma NotSpecial(p: string, k: nat, n: nat)
    requires !HasSpecial(p) && k < n < |p| && forall j :: 0 <= j < n ==> p[j] != ZERO
    ensures p[k] !in SPECIALS
  {
    assert CLength(p) >= n;
  }

  /** There it ends, or fails for want of an opening parenthesis. */
  lemma OddItem(p: string, n: nat)
    requires n < |p| && (p[n] == ')' || p[n] == ZERO)
    ensures Search(p[..n], p, n, n, []) == if p[n] == ZERO then Succeeds(n, []) else Raises(InvalidCapture)
  {}

  /** `("ab"):find("a\0b")` is nil, although the pattern up to its zero matches. */
  lemma ZeroInPattern()
    ensures var s, p := "ab", ['a', ZERO, 'b'];
            !HasSpecial(p) && (forall i: nat :: !OccursAt(s, p, i)) && Search(s, p, 0, 0, []) == Succeeds(1, [])
  {
    var s, p := "ab", ['a', ZERO, 'b'];
    assert CLength(p) == 1 && p[0] !in SPECIALS && p[1] !in SPECIALS;
    PlainItem(p, 0, 'a');
    assert ItemAt(p, 1) == End;
  }

  /** `(")"):find(")")` is 1, although as a pattern it is an error. */
  lemma ParenthesisInPattern()
    ensures !HasSpecial(")") && OccursAt(")", ")", 0) && Search(")", ")", 0, 0, []) == Raises(InvalidCapture)
  {
    assert ")"[0] == ')';
  }

  // ---- Captures as values -------------------------------------------------

  datatype Result = Text(s: string) | Number(n: int)

  datatype Reply = NotFound | Match(start: nat, end: nat, results: seq<Result>) | Error(e: Error)

  /** `push_onecapture`. */
  function ResultOf(s: string, c: Capture): Result
    requires c.len >= 0 ==> c.init + c.len <= |s|
  {
    if c.len >= 0 then Text(s[c.init..c.init + c.len]) else Number(c.init + 1)
  }

  function Results(s: string, caps: seq<Capture>): seq<Result>
    requires CapturesOk(|s|, caps)
  {
    seq(|caps|, l requires 0 <= l < |caps| => assert caps[l] in caps; ResultOf(s, caps[l]))
  }

  /** `push_captures`: all of them, or the whole match if there are none and it is
      asked for. */
  method PushCaptures(m: Matcher, start: nat, end: nat, whole: bool) returns (r: Reply)
    requires m.Valid() && start <= end <= |m.src| && CapturesOk(end, m.Contents())
    ensures r == Pushed(m.src, m.Contents(), start, end, whole)
  {
    ghost var caps := m.Contents();
    CapturesLater(end, |m.src|, caps);
    var results: seq<Result> := [];
    if m.level == 0 && whole { return Match(start, end, [Text(m.src[start..end])]); }
    var i: nat := 0;
    while i < m.level
      invariant 0 <= i <= m.level && |results| == i && results == Results(m.src, caps)[..i]
      invariant forall l :: 0 <= l < i ==> caps[l].len != UNFINISHED
    {
      assert m.capture[i] == caps[i] && caps[i] in caps;
      if m.capture[i].len == UNFINISHED { return Error(UnfinishedCapture); }
      results := results + [ResultOf(m.src, m.capture[i])];
      i := i + 1;
    }
    r := Match(start, end, results);
  }

  function Pushed(s: string, caps: seq<Capture>, start: nat, end: nat, whole: bool): Reply
    requires start <= end <= |s| && CapturesOk(end, caps)
  {
    CapturesLater(end, |s|, caps);
    if |caps| == 0 && whole then Match(start, end, [Text(s[start..end])])
    else if exists c <- caps :: c.len == UNFINISHED then Error(UnfinishedCapture)
    else Match(start, end, Results(s, caps))
  }

  // ---- Trying one start after the other -----------------------------------

  /** The reply of the first start from `i` on where the search does not fail. */
  function FirstMatch(s: string, p: string, i: nat, k: nat, anchor: bool, whole: bool): Reply
    requires i <= |s| && k <= |p|
    decreases |s| - i
  {
    match Search(s, p, i, k, [])
    case Raises(e) => Error(e)
    case Succeeds(end, caps) => Pushed(s, caps, i, end, whole)
    case Fails => if i < |s| && !anchor then FirstMatch(s, p, i + 1, k, anchor, whole) else NotFound
  }

  /** The start of the search.  Places count from 1; a negative one counts from the
      end, -1 being the last character; what lies before the text is its start, what
      lies behind it its end. */
  function StartAt(init: int, n: nat): (r: nat)
    ensures 1 <= init <= n + 1 ==> r == init - 1
    ensures init <= -1 && n + init >= 0 ==> r == n + init
    ensures init == 0 || n + init < 0 ==> r == 0
    ensures init > n ==> r == n
  {
    var pos := if init >= 0 then init else if init + n + 1 >= 0 then init + n + 1 else 0;
    if pos - 1 < 0 then 0 else if pos - 1 > n then n else pos - 1
  }

  lemma Shifted(s: string, w: string, i: nat, j: nat)
    requires i <= |s|
    ensures OccursAt(s[i..], w, j) <==> OccursAt(s, w, i + j)
  {
    if i + j + |w| <= |s| { assert s[i..][j..j + |w|] == s[i + j..i + j + |w|]; }
  }

  /** `str_find_aux`. */
  method StrFindAux(s: string, p: string, init: int, find: bool, plain: bool) returns (r: Reply)
    ensures var i := StartAt(init, |s|);
            if find && (plain || !HasSpecial(p)) then
              match r
              case NotFound => forall j :: j >= i ==> !OccursAt(s, p, j)
              case Match(start, end, results) =>
                i <= start && OccursAt(s, p, start) && end == start + |p| && results == [] && forall j :: i <= j < start ==> !OccursAt(s, p, j)
              case Error(_) => false
            else
              var anchor := At(p, 0) == '^'; r == FirstMatch(s, p, i, if anchor then 1 else 0, anchor, !find)
  {
    hide HasSpecial, FirstMatch;
    var i := StartAt(init, |s|);
    var special := FindSpecial(p);
    if find && (plain || !special) {
      var found := LMemFind(s[i..], p);
      forall j: nat | j >= i && (found.Some? ==> j < i + found.value) ensures !OccursAt(s, p, j) { Shifted(s, p, i, j - i); }
      if found.None? { return NotFound; }
      Shifted(s, p, i, found.value);
      return Match(i + found.value, i + found.value + |p|, []);
    }
    var anchor := At(p, 0) == '^';
    r := FindMatch(s, p, i, if anchor then 1 else 0, anchor, !find);
  }

  /** Its loop over the starts. */
  method FindMatch(s: string, p: string, i: nat, k: nat, anchor: bool, whole: bool) returns (r: Reply)
    requires i <= |s| && k <= |p|
    ensures r == FirstMatch(s, p, i, k, anchor, whole)
  {
    hide Search, Pushed;
    var m := new Matcher(s);
    var q := i;
    while true
      invariant m.Valid() && fresh(m) && fresh(m.capture) && m.src == s && i <= q <= |s|
      invariant FirstMatch(s, p, i, k, anchor, whole) == FirstMatch(s, p, q, k, anchor, whole)
      decreases |s| - q
    {
      m.level := 0;
      assert m.Contents() == [];
      var answer := m.Match(p, q, k);
      match answer
      case Found(end) =>
        r := PushCaptures(m, q, end, whole);
        return;
      case Failed(e) => return Error(e);
      case NoMatch =>
      if q == |s| || anchor { return NotFound; }
      q := q + 1;
    }
  }

  /** Nothing is wrong with the pattern, and all its captures are finished. */
  predicate Complete(p: string, k: nat, st: seq<Status>)
    requires k <= |p|
    decreases |p| - k
  {
    match ItemAt(p, k)
    case End => Opened !in st
    case Bad(_) => false
    case Next(it, n) => After(it, st).Some? && Complete(p, n, After(it, st).value)
  }

  lemma {:induction false} CompleteWell(p: string, k: nat, st: seq<Status>)
    requires k <= |p| && Complete(p, k, st)
    ensures WellFormed(p, k, st)
    decreases |p| - k
  {
    match ItemAt(p, k)
    case Next(it, n) => CompleteWell(p, n, After(it, st).value);
    case _ =>
  }

  /** Whatever a complete pattern has matched, its captures are finished. */
  lemma {:induction false} PlayedClosed(s: string, p: string, i: nat, k: nat, caps: seq<Capture>, counts: seq<nat>)
    requires i <= |s| && k <= |p| && CapturesOk(i, caps) && Complete(p, k, Statuses(caps))
    ensures var r := Play(s, p, i, k, caps, counts); r.Won? ==> i <= r.end <= |s| && CapturesOk(r.end, r.caps) && forall c <- r.caps :: c.len != UNFINISHED
    decreases |p| - k
  {
    hide ItemAt, Move, CapturesOk, Statuses;
    match ItemAt(p, k)
    case End => NoneOpen(caps);
    case Next(it, n) =>
      if it.Repeat? {
        if counts != [] && Allowed(it.op, counts[0]) && Repeats(s, p, it.k, it.ep, i, counts[0]) {
          CapturesLater(i, i + counts[0], caps);
          PlayedClosed(s, p, i + counts[0], n, caps, counts[1..]);
        }
      } else {
        MoveFine(s, p, it, i, caps);
        var r := Move(s, p, it, i, caps);
        if r.To? { PlayedClosed(s, p, r.i, n, r.caps, counts); }
      }
    case Bad(_) =>
  }

  lemma NoneOpen(caps: seq<Capture>)
    requires Opened !in Statuses(caps)
    ensures forall c <- caps :: c.len != UNFINISHED
  {
    forall c <- caps ensures c.len != UNFINISHED {
      var l :| 0 <= l < |caps| && caps[l] == c;
      assert Statuses(caps)[l] == StatusOf(c);
    }
  }

  /** Some choice makes the pattern match at `i`. */
  ghost predicate MatchesAt(s: string, p: string, i: nat, k: nat)
    requires i <= |s| && k <= |p|
  {
    exists counts :: Play(s, p, i, k, [], counts).Won?
  }

  /** The reply is the leftmost match, and of those that start there the first
      choice. */
  ghost predicate Leftmost(s: string, p: string, i: nat, k: nat, anchor: bool, whole: bool, r: Reply)
    requires i <= |s| && k <= |p|
  {
    && !r.Error?
    && (r.NotFound? ==> forall j :: i <= j <= (if anchor then i else |s|) ==> !MatchesAt(s, p, j, k))
    && (r.Match? ==>
          && i <= r.start <= r.end <= |s| && (anchor ==> r.start == i)
          && (forall j :: i <= j < r.start ==> !MatchesAt(s, p, j, k))
          && IsFirst(s, p, k, whole, r))
  }

  ghost predicate IsFirst(s: string, p: string, k: nat, whole: bool, r: Reply)
    requires r.Match? && r.start <= r.end <= |s| && k <= |p|
  {
    exists counts, caps: seq<Capture> ::
      && Play(s, p, r.start, k, [], counts) == Won(r.end, caps) && First(s, p, r.start, k, [], counts)
      && CapturesOk(|s|, caps) && r.results == if caps == [] && whole then [Text(s[r.start..r.end])] else Results(s, caps)
  }

  /** For a complete pattern there is no error; the match reported is the leftmost,
      and of those that start there the first choice. */
  lemma {:induction false} FirstIsLeftmost(s: string, p: string, i: nat, k: nat, anchor: bool, whole: bool)
    requires i <= |s| && k <= |p| && Complete(p, k, [])
    ensures Leftmost(s, p, i, k, anchor, whole, FirstMatch(s, p, i, k, anchor, whole))
    decreases |s| - i
  {
    FoundHere(s, p, i, k, whole);
    hide Search, Pushed, Complete, IsFirst, MatchesAt;
    if Search(s, p, i, k, []).Fails? && i < |s| && !anchor {
      FirstIsLeftmost(s, p, i + 1, k, anchor, whole);
      LeftmostLater(s, p, i, k, whole, FirstMatch(s, p, i + 1, k, anchor, whole));
    } else {
      assert Leftmost(s, p, i, k, anchor, whole, FirstMatch(s, p, i, k, anchor, whole)) by { hide Complete; }
    }
  }

  lemma LeftmostLater(s: string, p: string, i: nat, k: nat, whole: bool, r: Reply)
    requires i < |s| && k <= |p| && !MatchesAt(s, p, i, k) && Leftmost(s, p, i + 1, k, false, whole, r)
    ensures Leftmost(s, p, i, k, false, whole, r)
  {
    hide IsFirst, MatchesAt;
  }

  /** The search at one start. */
  lemma FoundHere(s: string, p: string, i: nat, k: nat, whole: bool)
    requires i <= |s| && k <= |p| && Complete(p, k, [])
    ensures var r := Search(s, p, i, k, []);
            && !r.Raises? && (r.Fails? ==> !MatchesAt(s, p, i, k))
            && (r.Succeeds? ==> i <= r.end <= |s| && var t := Pushed(s, r.caps, i, r.end, whole);
                  t.Match? && t.start == i && t.end == r.end && IsFirst(s, p, k, whole, t))
  {
    hide Search, First, Results;
    CompleteWell(p, k, []);
    assert Statuses([]) == [];
    SearchIsBest(s, p, i, k, []);
    NoError(s, p, i, k, []);
    var r := Search(s, p, i, k, []);
    if r.Succeeds? {
      var counts :| Play(s, p, i, k, [], counts) == Won(r.end, r.caps) && First(s, p, i, k, [], counts);
      PlayedClosed(s, p, i, k, [], counts);
      CapturesLater(r.end, |s|, r.caps);
    }
  }
}
