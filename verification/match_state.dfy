/** The matcher as it runs (`MatchState`): captures in a fixed array, undone on
    the way back, loops for the repetitions. */
module MatchState {
  import opened MatchPattern
  import opened MatchSearch

  datatype Answer = Found(end: nat) | NoMatch | Failed(e: Error)

  /** `matchbracketclass`. */
  method MatchBracketClass(p: string, k: nat, ec: nat, c: char) returns (r: bool)
    ensures r == InSet(p, k, ec, c)
  {
    SetIs(p, k, ec, c);
    hide Members, Any, InSet;
    var sig := true;
    var q := k + 1;
    if At(p, q) == '^' {
      sig := false;
      q := q + 1;
    }
    var found := MatchMember(p, q, ec, c);
    r := found == sig;
  }

  /** Its loop over the members of the set. */
  method MatchMember(p: string, start: nat, ec: nat, c: char) returns (r: bool)
    ensures r == Any(Members(p, start, ec), c)
  {
    hide Members, InClass, Any, Has, At;
    var q := start;
    while q < ec
      invariant Any(Members(p, start, ec), c) == Any(Members(p, q, ec), c)
      decreases ec - q
    {
      MembersStep(p, q, ec, c);
      if At(p, q) == '%' {
        q := q + 1;
        if InClass(At(p, q), c) { return true; }
      } else if At(p, q + 1) == '-' && q + 2 < ec {
        q := q + 2;
        if At(p, q - 2) <= c && c <= At(p, q) { return true; }
      } else if At(p, q) == c {
        return true;
      }
      q := q + 1;
    }
    NoMembers(p, q, ec, c);
    r := false;
  }

  lemma SetIs(p: string, k: nat, ec: nat, c: char)
    ensures var negated := At(p, k + 1) == '^';
            InSet(p, k, ec, c) == (Any(Members(p, if negated then k + 2 else k + 1, ec), c) != negated)
  {
    AnyMember(Members(p, if At(p, k + 1) == '^' then k + 2 else k + 1, ec), c);
  }

  predicate Any(ms: seq<Member>, c: char) {
    ms != [] && (Has(ms[0], c) || Any(ms[1..], c))
  }

  lemma {:induction false} AnyMember(ms: seq<Member>, c: char)
    ensures Any(ms, c) <==> exists m <- ms :: Has(m, c)
  {
    if ms != [] {
      AnyMember(ms[1..], c);
      assert ms == [ms[0]] + ms[1..];
    }
  }

  lemma NoMembers(p: string, q: nat, ec: nat, c: char)
    requires q >= ec
    ensures !Any(Members(p, q, ec), c)
  {}

  lemma MembersStep(p: string, q: nat, ec: nat, c: char)
    requires q < ec
    ensures Any(Members(p, q, ec), c) ==
            if At(p, q) == '%' then InClass(At(p, q + 1), c) || Any(Members(p, q + 2, ec), c)
            else if At(p, q + 1) == '-' && q + 2 < ec then At(p, q) <= c <= At(p, q + 2) || Any(Members(p, q + 3, ec), c)
            else At(p, q) == c || Any(Members(p, q + 1, ec), c)
  {
    var ms := Members(p, q, ec);
    assert ms[1..] == if At(p, q) == '%' then Members(p, q + 2, ec)
                      else if At(p, q + 1) == '-' && q + 2 < ec then Members(p, q + 3, ec) else Members(p, q + 1, ec);
  }

  /** `classend`. */
  method FindClassEnd(p: string, k: nat) returns (r: ClassEnd)
    requires k < |p|
    ensures r == EndOfClass(p, k)
  {
    var q := k + 1;
    if p[k] == '%' {
      if At(p, q) == ZERO { return Malformed(EndsWithEscape); }
      return Ends(q + 1);
    }
    if p[k] == '[' {
      if At(p, q) == '^' { q := q + 1; }
      while true
        invariant q <= |p|
        invariant EndOfClass(p, k) == match SetEnd(p, q) case None => Malformed(MissingBracket) case Some(e) => Ends(e + 1)
        decreases |p| - q
      {
        if At(p, q) == ZERO { return Malformed(MissingBracket); }
        q := q + 1;
        if p[q - 1] == '%' && At(p, q) != ZERO { q := q + 1; }
        if At(p, q) == ']' { break; }
      }
      return Ends(q + 1);
    }
    return Ends(q);
  }

  /** `singlematch`. */
  method SingleMatch(p: string, k: nat, ep: nat, c: char) returns (r: bool)
    ensures r == Single(p, k, ep, c)
  {
    if At(p, k) == '.' { return true; }
    if At(p, k) == '%' { return InClass(At(p, k + 1), c); }
    if At(p, k) == '[' {
      if ep == 0 { return false; }
      r := MatchBracketClass(p, k, ep - 1, c);
      return;
    }
    r := At(p, k) == c;
  }

  /** `matchbalance`, behind the check of the pattern. */
  method MatchBalance(s: string, i: nat, b: char, e: char) returns (r: Option<nat>)
    requires i <= |s|
    ensures r == BalanceEnd(s, i, b, e)
  {
    if i == |s| || s[i] != b { return None; }
    var cont := 1;
    var q := i + 1;
    while q < |s|
      invariant i < q <= |s| && cont == Depth(s, i, q, b, e) > 0
      invariant forall t :: i < t < q ==> Depth(s, i, t, b, e) > 0
      invariant BalanceEnd(s, i, b, e) == BalanceFrom(s, i, q, cont, b, e)
    {
      if s[q] == e {
        cont := cont - 1;
        if cont == 0 { return Some(q + 1); }
      } else if s[q] == b {
        cont := cont + 1;
      }
      q := q + 1;
    }
    return None;
  }

  /** The switch of `match`: what comes next in the pattern. */
  method NextItem(p: string, k: nat) returns (r: Parse)
    requires k <= |p|
    ensures r == ItemAt(p, k)
  {
    hide EndOfClass;
    if At(p, k) == ZERO { return End; }
    if p[k] == '(' { return if At(p, k + 1) == ')' then Next(Open(true), k + 2) else Next(Open(false), k + 1); }
    if p[k] == ')' { return Next(Close, k + 1); }
    if p[k] == '$' && At(p, k + 1) == ZERO { return Next(Anchor, k + 1); }
    if p[k] == '%' {
      if At(p, k + 1) == 'b' {
        if At(p, k + 2) == ZERO || At(p, k + 3) == ZERO { return Bad(UnbalancedPattern); }
        return Next(Balance(p[k + 2], p[k + 3]), k + 4);
      }
      if At(p, k + 1) == 'f' {
        if At(p, k + 2) != '[' { return Bad(MissingSet); }
        var e := FindClassEnd(p, k + 2);
        return if e.Ends? then Next(Frontier(k + 2, e.ep - 1), e.ep) else Bad(e.e);
      }
      if IsDigit(At(p, k + 1)) { return Next(Back(p[k + 1]), k + 2); }
    }
    var e := FindClassEnd(p, k);
    if e.Malformed? { return Bad(e.e); }
    return if At(p, e.ep) in "?*+-" then Next(Repeat(k, e.ep, p[e.ep]), e.ep + 1) else Next(Once(k, e.ep), e.ep);
  }

  class Matcher {
    const src: string
    const capture: array<Capture>
    var level: nat

    constructor (s: string)
      ensures Valid() && fresh(capture) && src == s && Contents() == []
    {
      src, level := s, 0;
      capture := new Capture[MAXCAPTURES](_ => Capture(0, UNFINISHED));
    }

    ghost predicate Valid()
      reads this
    {
      capture.Length == MAXCAPTURES && level <= MAXCAPTURES
    }

    /** The captures so far. */
    ghost function Contents(): (r: seq<Capture>)
      reads this, capture
      requires Valid()
      ensures |r| == level
    {
      capture[..level]
    }

    /** The outcome of the search and the captures that go with it; those there were
        `before`, if there is no match. */
    ghost predicate Agrees(r: Answer, o: Outcome, before: seq<Capture>)
      reads this, capture
      requires Valid()
    {
      match o
      case Raises(e) => r == Failed(e)
      case Fails => r == NoMatch && Contents() == before
      case Succeeds(end, caps) => r == Found(end) && Contents() == caps
    }

    /** `match`. */
    method Match(p: string, i0: nat, k0: nat) returns (r: Answer)
      requires Valid() && i0 <= |src| && k0 <= |p| && CapturesOk(i0, Contents())
      modifies this, capture
      ensures Valid() && Agrees(r, Search(src, p, i0, k0, old(Contents())), old(Contents()))
      decreases |p| - k0, 0
    {
      var i: nat, k: nat := i0, k0;
      ghost var caps := Contents();
      while true
        invariant Valid() && i <= |src| && k0 <= k <= |p| && Contents() == caps && CapturesOk(i, caps)
        invariant Search(src, p, i, k, caps) == Search(src, p, i0, k0, caps)
        decreases |p| - k
      {
        var item := NextItem(p, k);
        if item.End? { return Found(i); }
        if item.Bad? { return Failed(item.e); }
        var it, n := item.item, item.next;
        if it.Open? {
          r := StartCapture(p, i, n, if it.position then POSITION else UNFINISHED);
          return;
        } else if it.Close? {
          r := EndCapture(p, i, n);
          return;
        } else if it.Repeat? {
          r := Repetition(p, i, k, it, n);
          return;
        } else {
          var step := Advance(p, it, i);
          if step.Failed? || step.NoMatch? { return step; }
          i, k := step.end, n;
        }
      }
    }

    /** The items that change no capture: their part of `match`. */
    method Advance(p: string, it: Item, i: nat) returns (r: Answer)
      requires Valid() && i <= |src| && CapturesOk(i, Contents()) && !it.Open? && !it.Close? && !it.Repeat?
      ensures match Move(src, p, it, i, Contents())
              case Stuck => r == NoMatch
              case Fault(e) => r == Failed(e)
              case To(j, c) => r == Found(j) && c == Contents()
    {
      match it
      case Balance(b, e) =>
        var end := MatchBalance(src, i, b, e);
        r := if end.Some? then Found(end.value) else NoMatch;
      case Frontier(k, ec) =>
        var before := MatchBracketClass(p, k, ec, if i == 0 then ZERO else src[i - 1]);
        var here := MatchBracketClass(p, k, ec, At(src, i));
        r := if before || !here then NoMatch else Found(i);
      case Back(d) => r := MatchCapture(i, d);
      case Anchor => r := if i == |src| then Found(i) else NoMatch;
      case Once(k, ep) =>
        r := NoMatch;
        if i < |src| {
          var m := SingleMatch(p, k, ep, src[i]);
          if m { r := Found(i + 1); }
        }
    }

    /** `check_capture` and `match_capture`.  A position capture has a length no
        subject has. */
    method MatchCapture(i: nat, d: char) returns (r: Answer)
      requires Valid() && i <= |src| && CapturesOk(i, Contents())
      ensures match Move(src, "", Back(d), i, Contents())
              case Stuck => r == NoMatch
              case Fault(e) => r == Failed(e)
              case To(j, c) => r == Found(j)
    {
      var l := d as int - '1' as int;
      if l < 0 || l >= level || capture[l].len == UNFINISHED { return Failed(InvalidIndex); }
      var c := capture[l];
      assert c == Contents()[l] && c in Contents();
      if c.len >= 0 && |src| - i >= c.len && src[c.init..c.init + c.len] == src[i..i + c.len] {
        return Found(i + c.len);
      }
      return NoMatch;
    }

    /** `start_capture`. */
    method StartCapture(p: string, i: nat, k: nat, what: int) returns (r: Answer)
      requires Valid() && i <= |src| && k <= |p| && CapturesOk(i, Contents()) && (what == POSITION || what == UNFINISHED)
      modifies this, capture
      ensures Valid()
      ensures var o := if |old(Contents())| >= MAXCAPTURES then Raises(TooManyCaptures)
                       else Search(src, p, i, k, old(Contents()) + [Capture(i, what)]);
              Agrees(r, o, old(Contents()))
      decreases |p| - k, 1
    {
      ghost var caps := Contents();
      if level >= MAXCAPTURES { return Failed(TooManyCaptures); }
      capture[level] := Capture(i, what);
      level := level + 1;
      assert Contents() == caps + [Capture(i, what)];
      r := Match(p, i, k);
      if r.NoMatch? {
        assert Contents() == caps + [Capture(i, what)];
        level := level - 1;
        assert Contents() == (caps + [Capture(i, what)])[..level];
      }
    }

    /** `capture_to_close`. */
    method CaptureToClose() returns (r: Option<nat>)
      requires Valid()
      ensures r == LastOpen(Contents())
    {
      ghost var caps := Contents();
      var l: nat := level;
      assert caps[..level] == caps;
      while l > 0
        invariant 0 <= l <= level && LastOpen(caps) == LastOpen(caps[..l])
      {
        assert caps[..l][..l - 1] == caps[..l - 1];
        l := l - 1;
        if capture[l].len == UNFINISHED { return Some(l); }
      }
      return None;
    }

    /** `end_capture`. */
    method EndCapture(p: string, i: nat, k: nat) returns (r: Answer)
      requires Valid() && i <= |src| && k <= |p| && CapturesOk(i, Contents())
      modifies this, capture
      ensures Valid()
      ensures var caps := old(Contents());
              var o := match LastOpen(caps)
                       case None => Raises(InvalidCapture)
                       case Some(l) => Search(src, p, i, k, caps[l := caps[l].(len := i - caps[l].init)]);
              Agrees(r, o, caps)
      decreases |p| - k, 1
    {
      hide LastOpen, Search;
      ghost var caps := Contents();
      var open := CaptureToClose();
      if open.None? { return Failed(InvalidCapture); }
      var l := open.value;
      ghost var closed := caps[l := caps[l].(len := i - caps[l].init)];
      capture[l] := capture[l].(len := i - capture[l].init);
      assert Contents() == closed;
      assert CapturesOk(i, closed);
      r := Match(p, i, k);
      if r.NoMatch? {
        capture[l] := capture[l].(len := UNFINISHED);
        assert Contents() == closed[l := caps[l]] == caps;
      }
    }

    /** The repeated items' part of `match`. */
    method Repetition(p: string, i: nat, k: nat, it: Item, n: nat) returns (r: Answer)
      requires Valid() && i <= |src| && k < n <= |p| && CapturesOk(i, Contents()) && ItemAt(p, k) == Next(it, n) && it.Repeat?
      modifies this, capture
      ensures Valid() && Agrees(r, Search(src, p, i, k, old(Contents())), old(Contents()))
      decreases |p| - n, 3
    {
      hide Search, ItemAt, Longest, Shortest, Span, Single, Agrees, CapturesOk;
      RepeatSearch(src, p, i, k, Contents(), it, n);
      var m := false;
      if i < |src| { m := SingleMatch(p, it.k, it.ep, src[i]); }
      if it.op == '?' {
        r := Optional(p, i, n, m);
      } else if it.op == '*' {
        r := MaxExpand(p, i, it, n);
      } else if it.op == '+' {
        if m { r := MaxExpand(p, i + 1, it, n); } else { r := NoAnswer(); }
      } else {
        r := MinExpand(p, i, it, n);
      }
    }

    method NoAnswer() returns (r: Answer)
      requires Valid()
      ensures Agrees(r, Fails, Contents())
    {
      r := NoMatch;
    }

    /** The case of `?`: `m` says whether the next character is in the class. */
    method Optional(p: string, i: nat, n: nat, m: bool) returns (r: Answer)
      requires Valid() && i <= |src| && n <= |p| && CapturesOk(i, Contents()) && (m ==> i < |src| && CapturesOk(i + 1, Contents()))
      modifies this, capture
      ensures Valid()
      ensures var caps := old(Contents());
              var t := if m then Search(src, p, i + 1, n, caps) else Fails;
              Agrees(r, if t.Fails? then Search(src, p, i, n, caps) else t, caps)
      decreases |p| - n, 1
    {
      hide Search, CapturesOk;
      if m {
        r := Match(p, i + 1, n);
        if !r.NoMatch? { return; }
      }
      r := Match(p, i, n);
    }

    /** `max_expand`. */
    method MaxExpand(p: string, i: nat, it: Item, n: nat) returns (r: Answer)
      requires Valid() && i <= |src| && n <= |p| && CapturesOk(i, Contents()) && it.Repeat?
      modifies this, capture
      ensures Valid()
      ensures Agrees(r, Longest(src, p, i, n, old(Contents()), Span(src, p, it.k, it.ep, i), 0), old(Contents()))
      decreases |p| - n, 1
    {
      hide Search, Single, Longest, Span, CapturesOk;
      ghost var caps := Contents();
      var c := CountMax(p, i, it);
      ghost var most := c;
      while true
        invariant Valid() && 0 <= c <= most && i + c <= |src| && Contents() == caps
        invariant Longest(src, p, i, n, caps, most, 0) == Longest(src, p, i, n, caps, c, 0)
        decreases c
      {
        CapturesLater(i, i + c, caps);
        LongestStep(src, p, i, n, caps, c);
        r := Match(p, i + c, n);
        if !r.NoMatch? || c == 0 { return; }
        c := c - 1;
      }
    }

    /** Its first loop: how many there are. */
    method CountMax(p: string, i: nat, it: Item) returns (c: nat)
      requires i <= |src| && it.Repeat?
      ensures c == Span(src, p, it.k, it.ep, i)
    {
      c := 0;
      while i + c < |src|
        invariant i + c <= |src| && Span(src, p, it.k, it.ep, i) == c + Span(src, p, it.k, it.ep, i + c)
      {
        var m := SingleMatch(p, it.k, it.ep, src[i + c]);
        if !m { return; }
        c := c + 1;
      }
    }

    /** `min_expand`. */
    method MinExpand(p: string, i: nat, it: Item, n: nat) returns (r: Answer)
      requires Valid() && i <= |src| && n <= |p| && CapturesOk(i, Contents()) && it.Repeat?
      modifies this, capture
      ensures Valid()
      ensures Agrees(r, Shortest(src, p, i, n, old(Contents()), 0, Span(src, p, it.k, it.ep, i)), old(Contents()))
      decreases |p| - n, 1
    {
      hide Search, Single, Shortest, CapturesOk;
      ghost var caps := Contents();
      ghost var most := Span(src, p, it.k, it.ep, i);
      var q: nat := i;
      while true
        invariant Valid() && i <= q <= i + most && Contents() == caps
        invariant Shortest(src, p, i, n, caps, 0, most) == Shortest(src, p, i, n, caps, q - i, most)
        decreases i + most - q
      {
        CapturesLater(i, q, caps);
        ShortestStep(src, p, i, n, caps, q - i, most);
        r := Match(p, q, n);
        if !r.NoMatch? { return; }
        var m := false;
        if q < |src| { m := SingleMatch(p, it.k, it.ep, src[q]); }
        if !m { return; }
        q := q + 1;
      }
    }
  }

  /** A repeated item, by its operator and whether the next character is in it. */
  lemma RepeatSearch(s: string, p: string, i: nat, k: nat, caps: seq<Capture>, it: Item, n: nat)
    requires i <= |s| && k <= |p| && CapturesOk(i, caps) && ItemAt(p, k) == Next(it, n) && it.Repeat?
    ensures i < |s| ==> CapturesOk(i + 1, caps)
    ensures var m := i < |s| && Single(p, it.k, it.ep, s[i]); var r := Search(s, p, i, k, caps);
            var c := Span(s, p, it.k, it.ep, i);
            match it.op
            case '?' =>
              if !m then r == Search(s, p, i, n, caps)
              else r == var t := Search(s, p, i + 1, n, caps); if t.Fails? then Search(s, p, i, n, caps) else t
            case '*' => r == Longest(s, p, i, n, caps, c, 0)
            case '+' => if m then r == Longest(s, p, i + 1, n, caps, Span(s, p, it.k, it.ep, i + 1), 0) else r == Fails
            case _ => r == Shortest(s, p, i, n, caps, 0, c)
  {
    SearchRepeat(s, p, i, k, caps, it, n);
    hide Search, ItemAt, CapturesOk, Longest, Single;
    if i < |s| { CapturesLater(i, i + 1, caps); }
    if it.op == '?' {
      AtMostOne(s, p, i, n, caps);
    } else if it.op == '+' && i < |s| && Single(p, it.k, it.ep, s[i]) {
      SpanMore(s, p, it.k, it.ep, i, n, caps);
    }
  }

  lemma SearchRepeat(s: string, p: string, i: nat, k: nat, caps: seq<Capture>, it: Item, n: nat)
    requires i <= |s| && k <= |p| && CapturesOk(i, caps) && ItemAt(p, k) == Next(it, n) && it.Repeat?
    ensures var m := Span(s, p, it.k, it.ep, i);
            Search(s, p, i, k, caps) ==
              if it.op == '-' then Shortest(s, p, i, n, caps, 0, m)
              else if it.op == '+' && m == 0 then Fails
              else Longest(s, p, i, n, caps, if it.op == '?' && m > 0 then 1 else m, if it.op == '+' then 1 else 0)
  {
    hide ItemAt;
  }

  lemma LongestStep(s: string, p: string, i: nat, n: nat, caps: seq<Capture>, c: nat)
    requires i + c <= |s| && n <= |p| && CapturesOk(i, caps) && CapturesOk(i + c, caps)
    ensures var r := Search(s, p, i + c, n, caps);
            Longest(s, p, i, n, caps, c, 0) == if r.Fails? && c > 0 then Longest(s, p, i, n, caps, c - 1, 0) else r
  {
    hide Search, CapturesOk;
  }

  lemma ShortestStep(s: string, p: string, i: nat, n: nat, caps: seq<Capture>, c: nat, hi: nat)
    requires i + hi <= |s| && n <= |p| && c <= hi && CapturesOk(i, caps) && CapturesOk(i + c, caps)
    ensures var r := Search(s, p, i + c, n, caps);
            Shortest(s, p, i, n, caps, c, hi) == if r.Fails? && c < hi then Shortest(s, p, i, n, caps, c + 1, hi) else r
  {
    hide Search, CapturesOk;
  }

  lemma AtMostOne(s: string, p: string, i: nat, n: nat, caps: seq<Capture>)
    requires i <= |s| && n <= |p| && CapturesOk(i, caps)
    ensures Longest(s, p, i, n, caps, 0, 0) == Search(s, p, i, n, caps)
    ensures i < |s| ==> CapturesOk(i + 1, caps)
    ensures i < |s| ==> Longest(s, p, i, n, caps, 1, 0) ==
                          (var t := Search(s, p, i + 1, n, caps); if t.Fails? then Search(s, p, i, n, caps) else t)
  {
    hide Search;
    if i < |s| { CapturesLater(i, i + 1, caps); }
  }

  /** One repetition is taken, then as many more as possible. */
  lemma SpanMore(s: string, p: string, k: nat, ep: nat, i: nat, n: nat, caps: seq<Capture>)
    requires i < |s| && n <= |p| && CapturesOk(i, caps) && Single(p, k, ep, s[i])
    ensures CapturesOk(i + 1, caps)
    ensures Longest(s, p, i, n, caps, Span(s, p, k, ep, i), 1) == Longest(s, p, i + 1, n, caps, Span(s, p, k, ep, i + 1), 0)
  {
    LongestShift(s, p, i, n, caps, Span(s, p, k, ep, i + 1));
  }

  lemma {:induction false} LongestShift(s: string, p: string, i: nat, n: nat, caps: seq<Capture>, c: nat)
    requires i + 1 + c <= |s| && n <= |p| && CapturesOk(i, caps)
    ensures CapturesOk(i + 1, caps)
    ensures Longest(s, p, i, n, caps, c + 1, 1) == Longest(s, p, i + 1, n, caps, c, 0)
    decreases c
  {
    assert i + (c + 1) == i + 1 + c;
    if c > 0 { LongestShift(s, p, i, n, caps, c - 1); }
  }
}
