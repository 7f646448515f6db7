/** What a pattern matches, in two ways: by searching, and by saying which choice
    of repetition counts is wanted. */
module MatchSearch {
  import opened MatchPattern

  // ---- Captures -----------------------------------------------------------

  const UNFINISHED := -1
  const POSITION := -2
  const MAXCAPTURES := 32

  datatype Capture = Capture(init: nat, len: int)

  /** Captures lie in the part of the subject that has been matched. */
  predicate CapturesOk(i: nat, caps: seq<Capture>) {
    |caps| <= MAXCAPTURES && forall c <- caps :: POSITION <= c.len && c.init <= i && (c.len >= 0 ==> c.init + c.len <= i)
  }

  lemma CapturesLater(i: nat, j: nat, caps: seq<Capture>)
    requires CapturesOk(i, caps) && i <= j
    ensures CapturesOk(j, caps)
  {}

  /** `capture_to_close`: the last capture that is still open. */
  function LastOpen(caps: seq<Capture>): (r: Option<nat>)
    ensures r.Some? ==> r.value < |caps| && caps[r.value].len == UNFINISHED && forall l :: r.value < l < |caps| ==> caps[l].len != UNFINISHED
    ensures r.None? ==> forall l :: 0 <= l < |caps| ==> caps[l].len != UNFINISHED
  {
    if caps == [] then None
    else if caps[|caps| - 1].len == UNFINISHED then Some(|caps| - 1)
    else LastOpen(caps[..|caps| - 1])
  }

  // ---- Items without choice -----------------------------------------------

  /** How many more opening than closing characters `s[i..to]` has, the first one
      opening.  If both are the same the others close. */
  function Depth(s: string, i: nat, to: nat, b: char, e: char): int
    requires i < to <= |s|
  {
    if to == i + 1 then 1
    else Depth(s, i, to - 1, b, e) + (if s[to - 1] == e then -1 else if s[to - 1] == b then 1 else 0)
  }

  /** `s[i..j]` is the shortest balanced string from `i` on. */
  ghost predicate Balanced(s: string, i: nat, b: char, e: char, j: nat) {
    && i < j <= |s| && s[i] == b && Depth(s, i, j, b, e) == 0
    && forall q :: i < q < j ==> Depth(s, i, q, b, e) > 0
  }

  /** The scan for the end of a balanced string. */
  function BalanceFrom(s: string, i: nat, q: nat, depth: int, b: char, e: char): (r: Option<nat>)
    requires i < q <= |s| && depth == Depth(s, i, q, b, e) > 0
    requires s[i] == b && forall t :: i < t < q ==> Depth(s, i, t, b, e) > 0
    ensures r.Some? ==> Balanced(s, i, b, e, r.value)
    ensures r.None? ==> forall j :: !Balanced(s, i, b, e, j)
    decreases |s| - q
  {
    if q == |s| then
      None
    else
      var d := depth + (if s[q] == e then -1 else if s[q] == b then 1 else 0);
      assert d == Depth(s, i, q + 1, b, e);
      if d == 0 then Some(q + 1) else BalanceFrom(s, i, q + 1, d, b, e)
  }

  function BalanceEnd(s: string, i: nat, b: char, e: char): (r: Option<nat>)
    requires i <= |s|
    ensures r.Some? ==> Balanced(s, i, b, e, r.value)
    ensures r.None? ==> forall j :: !Balanced(s, i, b, e, j)
  {
    if i < |s| && s[i] == b then BalanceFrom(s, i, i + 1, 1, b, e) else None
  }

  datatype Moved = Stuck | Fault(e: Error) | To(i: nat, caps: seq<Capture>)

  /** One item that leaves no choice, at position `i` of the subject. */
  function Move(s: string, p: string, it: Item, i: nat, caps: seq<Capture>): (r: Moved)
    requires i <= |s| && CapturesOk(i, caps) && !it.Repeat?
    ensures r.To? ==> i <= r.i <= |s| && CapturesOk(r.i, r.caps)
  {
    match it
    case Open(position) =>
      if |caps| >= MAXCAPTURES then Fault(TooManyCaptures)
      else To(i, caps + [Capture(i, if position then POSITION else UNFINISHED)])
    case Close =>
      (match LastOpen(caps)
       case None => Fault(InvalidCapture)
       case Some(l) => To(i, caps[l := caps[l].(len := i - caps[l].init)]))
    case Balance(b, e) =>
      (match BalanceEnd(s, i, b, e)
       case None => Stuck
       case Some(j) => CapturesLater(i, j, caps); To(j, caps))
    case Frontier(k, ec) =>
      if InSet(p, k, ec, if i == 0 then ZERO else s[i - 1]) || !InSet(p, k, ec, At(s, i)) then Stuck else To(i, caps)
    case Back(d) =>
      var l := d as int - '1' as int;
      if l < 0 || l >= |caps| || caps[l].len == UNFINISHED then Fault(InvalidIndex)
      else
        var c := caps[l];
        if c.len >= 0 && c.len <= |s| - i && s[c.init..c.init + c.len] == s[i..i + c.len]
        then CapturesLater(i, i + c.len, caps); To(i + c.len, caps) else Stuck
    case Anchor => if i == |s| then To(i, caps) else Stuck
    case Once(k, ep) => if i < |s| && Single(p, k, ep, s[i]) then CapturesLater(i, i + 1, caps); To(i + 1, caps) else Stuck
    case _ => Stuck
  }

  // ---- Searching ----------------------------------------------------------

  /** How many characters from `i` on are in the class. */
  function Span(s: string, p: string, k: nat, ep: nat, i: nat): (n: nat)
    requires i <= |s|
    ensures i + n <= |s| && forall q :: i <= q < i + n ==> Single(p, k, ep, s[q])
    ensures i + n < |s| ==> !Single(p, k, ep, s[i + n])
    decreases |s| - i
  {
    if i < |s| && Single(p, k, ep, s[i]) then 1 + Span(s, p, k, ep, i + 1) else 0
  }

  datatype Outcome = Fails | Raises(e: Error) | Succeeds(end: nat, caps: seq<Capture>)

  /** The search from item `k` of the pattern and position `i` of the subject on. */
  function Search(s: string, p: string, i: nat, k: nat, caps: seq<Capture>): (r: Outcome)
    requires i <= |s| && k <= |p| && CapturesOk(i, caps)
    ensures r.Succeeds? ==> i <= r.end <= |s| && CapturesOk(r.end, r.caps)
    decreases |p| - k, 0, 0
  {
    match ItemAt(p, k)
    case End => Succeeds(i, caps)
    case Bad(e) => Raises(e)
    case Next(it, n) =>
      if it.Repeat? then
        var m := Span(s, p, it.k, it.ep, i);
        if it.op == '-' then Shortest(s, p, i, n, caps, 0, m)
        else if it.op == '+' && m == 0 then Fails
        else Longest(s, p, i, n, caps, if it.op == '?' && m > 0 then 1 else m, if it.op == '+' then 1 else 0)
      else
        (match Move(s, p, it, i, caps)
         case Stuck => Fails
         case Fault(e) => Raises(e)
         case To(j, c) => Search(s, p, j, n, c))
  }

  /** From `c` repetitions down to `lo`. */
  function Longest(s: string, p: string, i: nat, n: nat, caps: seq<Capture>, c: nat, lo: nat): (r: Outcome)
    requires i + c <= |s| && n <= |p| && lo <= c && CapturesOk(i, caps)
    ensures r.Succeeds? ==> i <= r.end <= |s| && CapturesOk(r.end, r.caps)
    decreases |p| - n, 1, c
  {
    CapturesLater(i, i + c, caps);
    var r := Search(s, p, i + c, n, caps);
    if r.Fails? && c > lo then Longest(s, p, i, n, caps, c - 1, lo) else r
  }

  /** From `c` repetitions up to `hi`. */
  function Shortest(s: string, p: string, i: nat, n: nat, caps: seq<Capture>, c: nat, hi: nat): (r: Outcome)
    requires i + hi <= |s| && n <= |p| && c <= hi && CapturesOk(i, caps)
    ensures r.Succeeds? ==> i <= r.end <= |s| && CapturesOk(r.end, r.caps)
    decreases |p| - n, 1, hi - c
  {
    CapturesLater(i, i + c, caps);
    var r := Search(s, p, i + c, n, caps);
    if r.Fails? && c < hi then Shortest(s, p, i, n, caps, c + 1, hi) else r
  }

  // ---- Choices ------------------------------------------------------------

  /** A repetition operator allows this many. */
  predicate Allowed(op: char, c: nat) {
    if op == '?' then c <= 1 else if op == '+' then c >= 1 else true
  }

  datatype Played = Lost | Broken(e: Error) | Won(end: nat, caps: seq<Capture>)

  /** What comes of the pattern from item `k` on when its repeated items take the
      given numbers of characters: no search is left.  The numbers are used up when
      the end of the pattern is reached, or something that is wrong with it. */
  function Play(s: string, p: string, i: nat, k: nat, caps: seq<Capture>, counts: seq<nat>): Played
    requires i <= |s| && k <= |p| && CapturesOk(i, caps)
    decreases |p| - k
  {
    match ItemAt(p, k)
    case End => if counts == [] then Won(i, caps) else Lost
    case Bad(e) => if counts == [] then Broken(e) else Lost
    case Next(it, n) =>
      if it.Repeat? then
        if counts == [] || !Allowed(it.op, counts[0]) || !Repeats(s, p, it.k, it.ep, i, counts[0]) then Lost
        else CapturesLater(i, i + counts[0], caps); Play(s, p, i + counts[0], n, caps, counts[1..])
      else
        (match Move(s, p, it, i, caps)
         case To(j, c) => Play(s, p, j, n, c, counts)
         case Fault(e) => if counts == [] then Broken(e) else Lost
         case Stuck => Lost)
  }

  predicate Repeats(s: string, p: string, k: nat, ep: nat, i: nat, c: nat) {
    i + c <= |s| && forall q :: i <= q < i + c ==> Single(p, k, ep, s[q])
  }

  /** The order in which choices are to be taken: at the first item where they
      differ the longer repetition comes first, or the shorter one for `-`. */
  predicate Before(p: string, k: nat, a: seq<nat>, b: seq<nat>)
    requires k <= |p|
    decreases |p| - k
  {
    match ItemAt(p, k)
    case Next(it, n) =>
      if !it.Repeat? then Before(p, n, a, b)
      else if a == [] || b == [] then false
      else if a[0] == b[0] then Before(p, n, a[1..], b[1..])
      else if it.op == '-' then a[0] < b[0] else a[0] > b[0]
    case _ => false
  }

  // ---- Well-formed patterns -----------------------------------------------

  datatype Status = Opened | Closed | Located

  function StatusOf(c: Capture): Status {
    if c.len == UNFINISHED then Opened else if c.len == POSITION then Located else Closed
  }

  function Statuses(caps: seq<Capture>): seq<Status> {
    seq(|caps|, l requires 0 <= l < |caps| => StatusOf(caps[l]))
  }

  function LastOpened(st: seq<Status>): (r: Option<nat>)
    ensures r.Some? ==> r.value < |st| && st[r.value] == Opened && forall l :: r.value < l < |st| ==> st[l] != Opened
    ensures r.None? ==> forall l :: 0 <= l < |st| ==> st[l] != Opened
  {
    if st == [] then None else if st[|st| - 1] == Opened then Some(|st| - 1) else LastOpened(st[..|st| - 1])
  }

  /** The captures after an item, if it may come where there are captures `st`. */
  function After(it: Item, st: seq<Status>): Option<seq<Status>> {
    match it
    case Open(position) =>
      if |st| < MAXCAPTURES then Some(st + [if position then Located else Opened]) else None
    case Close =>
      (match LastOpened(st) case Some(l) => Some(st[l := Closed]) case None => None)
    case Back(d) =>
      var l := d as int - '1' as int;
      if 0 <= l < |st| && st[l] != Opened then Some(st) else None
    case _ => Some(st)
  }

  /** Nothing is wrong with the pattern from item `k` on, when there are captures
      `st`: its items can be read, captures are closed after they were opened, and
      only finished ones are referred to.  Which they are does not depend on the
      subject. */
  predicate WellFormed(p: string, k: nat, st: seq<Status>)
    requires k <= |p|
    decreases |p| - k
  {
    match ItemAt(p, k)
    case End => true
    case Bad(_) => false
    case Next(it, n) => After(it, st).Some? && WellFormed(p, n, After(it, st).value)
  }

  lemma MoveFine(s: string, p: string, it: Item, i: nat, caps: seq<Capture>)
    requires i <= |s| && CapturesOk(i, caps) && After(it, Statuses(caps)).Some? && !it.Repeat?
    ensures var r := Move(s, p, it, i, caps);
            !r.Fault? && (r.To? ==> Statuses(r.caps) == After(it, Statuses(caps)).value)
  {
    hide InSet, Single, CapturesOk;
    match it
    case Open(position) => OpenStatus(caps, Capture(i, if position then POSITION else UNFINISHED));
    case Close => CloseStatus(i, caps);
    case _ =>
  }

  lemma OpenStatus(caps: seq<Capture>, c: Capture)
    ensures Statuses(caps + [c]) == Statuses(caps) + [StatusOf(c)]
  {}

  lemma CloseStatus(i: nat, caps: seq<Capture>)
    requires CapturesOk(i, caps)
    ensures LastOpen(caps) == LastOpened(Statuses(caps))
    ensures var l := LastOpen(caps); l.Some? ==>
              Statuses(caps[l.value := caps[l.value].(len := i - caps[l.value].init)]) == Statuses(caps)[l.value := Closed]
  {
    hide LastOpen, LastOpened;
    var st := Statuses(caps);
    assert forall l :: 0 <= l < |caps| ==> (caps[l].len == UNFINISHED <==> st[l] == Opened);
  }

  /** Then no choice comes upon anything that is wrong. */
  lemma {:induction false} NeverBroken(s: string, p: string, i: nat, k: nat, caps: seq<Capture>, counts: seq<nat>)
    requires i <= |s| && k <= |p| && CapturesOk(i, caps) && WellFormed(p, k, Statuses(caps))
    ensures !Play(s, p, i, k, caps, counts).Broken?
    decreases |p| - k
  {
    hide ItemAt, Move, CapturesOk, Statuses, After;
    match ItemAt(p, k)
    case End =>
    case Next(it, n) =>
      if it.Repeat? {
        AfterRepeat(it, Statuses(caps));
        if counts != [] && Repeats(s, p, it.k, it.ep, i, counts[0]) {
          CapturesLater(i, i + counts[0], caps);
          NeverBroken(s, p, i + counts[0], n, caps, counts[1..]);
        }
      } else {
        MoveFine(s, p, it, i, caps);
        var r := Move(s, p, it, i, caps);
        if r.To? { NeverBroken(s, p, r.i, n, r.caps, counts); }
      }
  }

  lemma AfterRepeat(it: Item, st: seq<Status>)
    requires it.Repeat?
    ensures After(it, st) == Some(st)
  {}

  // ---- The search finds the first choice ----------------------------------

  /** The choice has come to the outcome. */
  predicate Gives(r: Outcome, q: Played) {
    match r
    case Fails => false
    case Raises(e) => q == Broken(e)
    case Succeeds(end, c) => q == Won(end, c)
  }

  /** The outcome of a search among all choices: that of the first one that is not
      lost, be it an error. */
  ghost predicate Best(s: string, p: string, i: nat, k: nat, caps: seq<Capture>, r: Outcome)
    requires i <= |s| && k <= |p| && CapturesOk(i, caps)
  {
    if r.Fails? then forall counts :: Play(s, p, i, k, caps, counts).Lost?
    else exists counts :: Gives(r, Play(s, p, i, k, caps, counts)) && First(s, p, i, k, caps, counts)
  }

  /** Every other choice that is not lost comes after this one. */
  ghost predicate First(s: string, p: string, i: nat, k: nat, caps: seq<Capture>, counts: seq<nat>)
    requires i <= |s| && k <= |p| && CapturesOk(i, caps)
  {
    forall other :: !Play(s, p, i, k, caps, other).Lost? && other != counts ==> Before(p, k, counts, other)
  }

  /** For every pattern: the search fails exactly if all choices of repetition counts
      are lost; otherwise it ends as the first of those that are not, in the order
      prescribed. */
  lemma {:induction false} SearchIsBest(s: string, p: string, i: nat, k: nat, caps: seq<Capture>)
    requires i <= |s| && k <= |p| && CapturesOk(i, caps)
    ensures Best(s, p, i, k, caps, Search(s, p, i, k, caps))
    decreases |p| - k, 0, 0
  {
    match ItemAt(p, k)
    case End => EndIsBest(s, p, i, k, caps);
    case Bad(_) => EndIsBest(s, p, i, k, caps);
    case Next(it, n) =>
      if it.Repeat? { RepeatIsBest(s, p, i, k, caps); } else {
        var r := Move(s, p, it, i, caps);
        if r.To? {
          SearchIsBest(s, p, r.i, n, r.caps);
          MoveBest(s, p, i, k, caps, r.i, r.caps, Search(s, p, r.i, n, r.caps));
        } else if r.Fault? {
          EndIsBest(s, p, i, k, caps);
        }
      }
  }

  /** Where the choices come to an end. */
  lemma EndIsBest(s: string, p: string, i: nat, k: nat, caps: seq<Capture>)
    requires i <= |s| && k <= |p| && CapturesOk(i, caps)
    requires ItemAt(p, k).Next? ==> !ItemAt(p, k).item.Repeat? && Move(s, p, ItemAt(p, k).item, i, caps).Fault?
    ensures Best(s, p, i, k, caps, Search(s, p, i, k, caps))
  {
    hide ItemAt, Move, Before;
    assert Gives(Search(s, p, i, k, caps), Play(s, p, i, k, caps, []));
    assert First(s, p, i, k, caps, []);
  }

  /** With a well-formed pattern there is no error. */
  lemma NoError(s: string, p: string, i: nat, k: nat, caps: seq<Capture>)
    requires i <= |s| && k <= |p| && CapturesOk(i, caps) && WellFormed(p, k, Statuses(caps))
    ensures !Search(s, p, i, k, caps).Raises?
  {
    hide Search, Play, First, WellFormed;
    SearchIsBest(s, p, i, k, caps);
    var r := Search(s, p, i, k, caps);
    if r.Raises? {
      var counts :| Gives(r, Play(s, p, i, k, caps, counts)) && First(s, p, i, k, caps, counts);
      NeverBroken(s, p, i, k, caps, counts);
    }
  }

  lemma MoveBest(s: string, p: string, i: nat, k: nat, caps: seq<Capture>, j: nat, c: seq<Capture>, r: Outcome)
    requires i <= |s| && k <= |p| && CapturesOk(i, caps) && ItemAt(p, k).Next? && !ItemAt(p, k).item.Repeat?
    requires j <= |s| && CapturesOk(j, c) && Move(s, p, ItemAt(p, k).item, i, caps) == To(j, c) && Best(s, p, j, ItemAt(p, k).next, c, r)
    ensures Best(s, p, i, k, caps, r)
  {
    var n := ItemAt(p, k).next;
    forall counts ensures Play(s, p, i, k, caps, counts) == Play(s, p, j, n, c, counts) {}
    if !r.Fails? {
      var counts :| Gives(r, Play(s, p, j, n, c, counts)) && First(s, p, j, n, c, counts);
      assert First(s, p, i, k, caps, counts);
    }
  }

  // ---- Repetition ---------------------------------------------------------

  /** The same, for the choices whose first count is from `lo` to `hi`. */
  ghost predicate BestIn(s: string, p: string, i: nat, k: nat, caps: seq<Capture>, r: Outcome, lo: nat, hi: nat)
    requires i <= |s| && k <= |p| && CapturesOk(i, caps)
  {
    if r.Fails? then forall counts :: In(counts, lo, hi) ==> Play(s, p, i, k, caps, counts).Lost?
    else exists counts :: In(counts, lo, hi) && Gives(r, Play(s, p, i, k, caps, counts)) && FirstIn(s, p, i, k, caps, counts, lo, hi)
  }

  ghost predicate FirstIn(s: string, p: string, i: nat, k: nat, caps: seq<Capture>, counts: seq<nat>, lo: nat, hi: nat)
    requires i <= |s| && k <= |p| && CapturesOk(i, caps)
  {
    forall other :: In(other, lo, hi) && !Play(s, p, i, k, caps, other).Lost? && other != counts ==> Before(p, k, counts, other)
  }

  predicate In(counts: seq<nat>, lo: nat, hi: nat) {
    counts != [] && lo <= counts[0] <= hi
  }

  /** All choices that can work. */
  lemma AllIn(s: string, p: string, i: nat, k: nat, caps: seq<Capture>, counts: seq<nat>)
    requires i <= |s| && k <= |p| && CapturesOk(i, caps) && ItemAt(p, k).Next? && ItemAt(p, k).item.Repeat?
    requires !Play(s, p, i, k, caps, counts).Lost?
    ensures var it := ItemAt(p, k).item; var m := Span(s, p, it.k, it.ep, i);
            In(counts, if it.op == '+' then 1 else 0, if it.op == '?' && m > 0 then 1 else m)
  {
    var it := ItemAt(p, k).item;
    var m := Span(s, p, it.k, it.ep, i);
    assert i + m < |s| ==> !Single(p, it.k, it.ep, s[i + m]);
  }

  lemma RepeatIsBest(s: string, p: string, i: nat, k: nat, caps: seq<Capture>)
    requires i <= |s| && k <= |p| && CapturesOk(i, caps)
    requires ItemAt(p, k).Next? && ItemAt(p, k).item.Repeat?
    ensures Best(s, p, i, k, caps, Search(s, p, i, k, caps))
    decreases |p| - ItemAt(p, k).next, 2, 0
  {
    var it, n := ItemAt(p, k).item, ItemAt(p, k).next;
    var m := Span(s, p, it.k, it.ep, i);
    var lo := if it.op == '+' then 1 else 0;
    var hi := if it.op == '?' && m > 0 then 1 else m;
    var r := Search(s, p, i, k, caps);
    if it.op == '-' {
      ShortestIsBest(s, p, i, k, caps, 0);
    } else if lo <= hi {
      LongestIsBest(s, p, i, k, caps, hi);
    }
    forall counts | !Play(s, p, i, k, caps, counts).Lost? ensures In(counts, lo, hi) { AllIn(s, p, i, k, caps, counts); }
    if !r.Fails? {
      var counts :| In(counts, lo, hi) && Gives(r, Play(s, p, i, k, caps, counts)) && FirstIn(s, p, i, k, caps, counts, lo, hi);
      assert First(s, p, i, k, caps, counts);
    }
  }

  /** The choices with one first count. */
  lemma OneCount(s: string, p: string, i: nat, k: nat, caps: seq<Capture>, c: nat, r: Outcome)
    requires i <= |s| && k <= |p| && CapturesOk(i, caps) && ItemAt(p, k).Next? && ItemAt(p, k).item.Repeat?
    requires var it := ItemAt(p, k).item; Allowed(it.op, c) && Repeats(s, p, it.k, it.ep, i, c)
    requires CapturesOk(i + c, caps) && Best(s, p, i + c, ItemAt(p, k).next, caps, r)
    ensures BestIn(s, p, i, k, caps, r, c, c)
  {
    var n := ItemAt(p, k).next;
    forall counts: seq<nat> | In(counts, c, c) ensures Play(s, p, i, k, caps, counts) == Play(s, p, i + c, n, caps, counts[1..]) {}
    if !r.Fails? {
      var rest :| Gives(r, Play(s, p, i + c, n, caps, rest)) && First(s, p, i + c, n, caps, rest);
      var counts := [c] + rest;
      assert counts[1..] == rest;
      forall other | In(other, c, c) && !Play(s, p, i, k, caps, other).Lost? && other != counts ensures Before(p, k, counts, other) {
        assert other == [c] + other[1..];
      }
    }
  }

  lemma {:induction false} LongestIsBest(s: string, p: string, i: nat, k: nat, caps: seq<Capture>, c: nat)
    requires i <= |s| && k <= |p| && CapturesOk(i, caps)
    requires ItemAt(p, k).Next? && ItemAt(p, k).item.Repeat? && ItemAt(p, k).item.op != '-'
    requires var it := ItemAt(p, k).item; (if it.op == '+' then 1 else 0) <= c && Allowed(it.op, c) && Repeats(s, p, it.k, it.ep, i, c)
    ensures var lo := if ItemAt(p, k).item.op == '+' then 1 else 0;
            BestIn(s, p, i, k, caps, Longest(s, p, i, ItemAt(p, k).next, caps, c, lo), lo, c)
    decreases |p| - ItemAt(p, k).next, 1, c
  {
    var it, n := ItemAt(p, k).item, ItemAt(p, k).next;
    var lo := if it.op == '+' then 1 else 0;
    CapturesLater(i, i + c, caps);
    SearchIsBest(s, p, i + c, n, caps);
    var r := Search(s, p, i + c, n, caps);
    OneCount(s, p, i, k, caps, c, r);
    if r.Fails? && c > lo {
      LongestIsBest(s, p, i, k, caps, c - 1);
      MoreIn(s, p, i, k, caps, Longest(s, p, i, n, caps, c - 1, lo), lo, c - 1, lo, c);
    } else {
      LessPreferred(s, p, i, k, caps, r, c, lo, c);
    }
  }

  /** Choices that fail can be added. */
  lemma MoreIn(s: string, p: string, i: nat, k: nat, caps: seq<Capture>, r: Outcome, lo: nat, hi: nat, lo2: nat, hi2: nat)
    requires i <= |s| && k <= |p| && CapturesOk(i, caps) && BestIn(s, p, i, k, caps, r, lo, hi) && lo2 <= lo && hi <= hi2
    requires forall counts :: In(counts, lo2, hi2) && !In(counts, lo, hi) ==> Play(s, p, i, k, caps, counts).Lost?
    ensures BestIn(s, p, i, k, caps, r, lo2, hi2)
  {
    if !r.Fails? {
      var counts :| In(counts, lo, hi) && Gives(r, Play(s, p, i, k, caps, counts)) && FirstIn(s, p, i, k, caps, counts, lo, hi);
      assert FirstIn(s, p, i, k, caps, counts, lo2, hi2);
    }
  }

  /** Choices that come later can be added. */
  lemma LessPreferred(s: string, p: string, i: nat, k: nat, caps: seq<Capture>, r: Outcome, c: nat, lo: nat, hi: nat)
    requires i <= |s| && k <= |p| && CapturesOk(i, caps) && BestIn(s, p, i, k, caps, r, c, c) && lo <= c <= hi
    requires ItemAt(p, k).Next? && ItemAt(p, k).item.Repeat? && if ItemAt(p, k).item.op == '-' then lo == c else hi == c
    requires r.Fails? ==> lo == c == hi
    ensures BestIn(s, p, i, k, caps, r, lo, hi)
  {
    if !r.Fails? {
      var counts :| In(counts, c, c) && Gives(r, Play(s, p, i, k, caps, counts)) && FirstIn(s, p, i, k, caps, counts, c, c);
      assert FirstIn(s, p, i, k, caps, counts, lo, hi);
    }
  }

  lemma {:induction false} ShortestIsBest(s: string, p: string, i: nat, k: nat, caps: seq<Capture>, c: nat)
    requires i <= |s| && k <= |p| && CapturesOk(i, caps)
    requires ItemAt(p, k).Next? && ItemAt(p, k).item.Repeat? && ItemAt(p, k).item.op == '-'
    requires var it := ItemAt(p, k).item; c <= Span(s, p, it.k, it.ep, i)
    ensures var it := ItemAt(p, k).item; var m := Span(s, p, it.k, it.ep, i);
            BestIn(s, p, i, k, caps, Shortest(s, p, i, ItemAt(p, k).next, caps, c, m), c, m)
    decreases |p| - ItemAt(p, k).next, 1, |s| - c
  {
    var it, n := ItemAt(p, k).item, ItemAt(p, k).next;
    var m := Span(s, p, it.k, it.ep, i);
    CapturesLater(i, i + c, caps);
    SearchIsBest(s, p, i + c, n, caps);
    var r := Search(s, p, i + c, n, caps);
    OneCount(s, p, i, k, caps, c, r);
    if r.Fails? && c < m {
      ShortestIsBest(s, p, i, k, caps, c + 1);
      MoreIn(s, p, i, k, caps, Shortest(s, p, i, n, caps, c + 1, m), c + 1, m, c, m);
    } else {
      LessPreferred(s, p, i, k, caps, r, c, c, m);
    }
  }
}
