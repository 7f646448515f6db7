/** What patterns mean, said without the functions that the matcher and its model
    share: item by item for any pattern, and then for patterns written as in
    section 5.4.1 of the Lua 5.1 Reference Manual, from the characters of their text
    to what they match. */
module MatchMeaning {
  import opened MatchPattern
  import opened MatchSearch

  // ---- Items that leave no choice -----------------------------------------

  /** A capture is opened at `i`, the 32 of a pattern not being used up. */
  predicate Opens(i: nat, len: int, caps: seq<Capture>, c: seq<Capture>) {
    |caps| < 32 && c == caps + [Capture(i, len)]
  }

  /** The last unfinished capture ends at `i`. */
  ghost predicate ClosesLast(i: nat, caps: seq<Capture>, c: seq<Capture>) {
    exists l: nat :: l < |caps| && caps[l].len == -1 && (forall m :: l < m < |caps| ==> caps[m].len != -1)
      && c == caps[l := Capture(caps[l].init, i - caps[l].init)]
  }

  /** The characters from `i` to `j` are those of capture `n`, which is finished and
      has text. */
  predicate SameText(s: string, n: int, caps: seq<Capture>, i: nat, j: nat) {
    && 1 <= n <= |caps| && caps[n - 1].len >= 0
    && i <= j <= |s| && j - i == caps[n - 1].len && caps[n - 1].init + caps[n - 1].len <= |s|
    && forall q :: i <= q < j ==> s[q] == s[caps[n - 1].init + (q - i)]
  }

  /** The item takes the characters from `i` to `j` and leaves the captures `c`. */
  ghost predicate Passes(s: string, p: string, it: Item, i: nat, caps: seq<Capture>, j: nat, c: seq<Capture>)
    requires i <= |s|
  {
    match it
    case Open(position) => j == i && Opens(i, if position then -2 else -1, caps, c)
    case Close => j == i && ClosesLast(i, caps, c)
    case Balance(b, e) => Balanced(s, i, b, e, j) && c == caps
    case Frontier(k, ec) =>
      && j == i && c == caps
      && !InSet(p, k, ec, if i > 0 then s[i - 1] else '\0') && InSet(p, k, ec, if i < |s| then s[i] else '\0')
    case Back(d) => SameText(s, d as int - '0' as int, caps, i, j) && c == caps
    case Anchor => j == i == |s| && c == caps
    case Once(k, ep) => j == i + 1 <= |s| && Single(p, k, ep, s[i]) && c == caps
    case Repeat(_, _, _) => false
  }

  lemma MovePasses(s: string, p: string, it: Item, i: nat, caps: seq<Capture>, j: nat, c: seq<Capture>)
    requires i <= |s| && CapturesOk(i, caps) && !it.Repeat?
    ensures Move(s, p, it, i, caps) == To(j, c) <==> Passes(s, p, it, i, caps, j, c)
  {
    hide InSet, Single;
    match it
    case Balance(b, e) => BalancedOnce(s, i, b, e, j);
    case Close => ClosesIs(i, caps, c);
    case Back(d) => BackIs(s, p, d, i, caps, j);
    case _ =>
  }

  lemma ClosesIs(i: nat, caps: seq<Capture>, c: seq<Capture>)
    ensures ClosesLast(i, caps, c) <==> LastOpen(caps).Some? && var l := LastOpen(caps).value; c == caps[l := caps[l].(len := i - caps[l].init)]
  {
    hide LastOpen;
    var r := LastOpen(caps);
    if ClosesLast(i, caps, c) {
      var l: nat :| l < |caps| && caps[l].len == -1 && (forall m :: l < m < |caps| ==> caps[m].len != -1)
        && c == caps[l := Capture(caps[l].init, i - caps[l].init)];
      assert r.Some? && r.value == l;
    }
  }

  lemma BackIs(s: string, p: string, d: char, i: nat, caps: seq<Capture>, j: nat)
    requires i <= |s| && CapturesOk(i, caps)
    ensures Move(s, p, Back(d), i, caps) == To(j, caps) <==> SameText(s, d as int - '0' as int, caps, i, j)
  {
    var l := d as int - '1' as int;
    if 0 <= l < |caps| && caps[l].len >= 0 && caps[l].len <= |s| - i {
      var c := caps[l];
      assert c in caps;
      var a, b := s[c.init..c.init + c.len], s[i..i + c.len];
      if a == b {
        forall q | i <= q < i + c.len ensures s[q] == s[c.init + (q - i)] { assert a[q - i] == b[q - i]; }
      } else {
        var q :| 0 <= q < c.len && a[q] != b[q];
        assert s[i + q] == b[q] && s[c.init + ((i + q) - i)] == a[q];
      }
    }
  }

  lemma BalancedOnce(s: string, i: nat, b: char, e: char, j: nat)
    requires i <= |s|
    ensures BalanceEnd(s, i, b, e) == Some(j) <==> Balanced(s, i, b, e, j)
  {
    hide BalanceEnd, Depth;
  }

  /** A choice of repetition counts wins at an item without choice exactly if the
      item passes there and the choice wins from there on. */
  lemma PlayPasses(s: string, p: string, i: nat, k: nat, caps: seq<Capture>, counts: seq<nat>, end: nat, caps': seq<Capture>)
    requires i <= |s| && k <= |p| && CapturesOk(i, caps) && ItemAt(p, k).Next? && !ItemAt(p, k).item.Repeat?
    ensures Play(s, p, i, k, caps, counts) == Won(end, caps') <==>
            exists j: nat, c :: Passes(s, p, ItemAt(p, k).item, i, caps, j, c) && j <= |s| && CapturesOk(j, c)
              && Play(s, p, j, ItemAt(p, k).next, c, counts) == Won(end, caps')
  {
    hide ItemAt, Passes, CapturesOk;
    var it, n := ItemAt(p, k).item, ItemAt(p, k).next;
    forall j: nat, c ensures Move(s, p, it, i, caps) == To(j, c) <==> Passes(s, p, it, i, caps, j, c) { MovePasses(s, p, it, i, caps, j, c); }
    hide Move;
  }

  /** So does the search, and what the matcher answers. */
  lemma SearchPasses(s: string, p: string, i: nat, k: nat, caps: seq<Capture>, j: nat, c: seq<Capture>)
    requires i <= |s| && k <= |p| && CapturesOk(i, caps) && ItemAt(p, k).Next? && !ItemAt(p, k).item.Repeat?
    ensures Passes(s, p, ItemAt(p, k).item, i, caps, j, c) ==>
              j <= |s| && CapturesOk(j, c) && Search(s, p, i, k, caps) == Search(s, p, j, ItemAt(p, k).next, c)
    ensures Search(s, p, i, k, caps).Succeeds? ==>
              exists j: nat, c :: Passes(s, p, ItemAt(p, k).item, i, caps, j, c)
  {
    hide ItemAt, Passes, CapturesOk;
    var it := ItemAt(p, k).item;
    var r := Move(s, p, it, i, caps);
    MovePasses(s, p, it, i, caps, j, c);
    if r.To? { MovePasses(s, p, it, i, caps, r.i, r.caps); }
  }
}
