/** What is wrong with a pattern, by its text, and what the matcher answers for any
    pattern, right or wrong. */
module MatchErrors {
  import opened MatchPattern
  import opened MatchSearch
  import opened MatchFind
  import opened MatchManual

  // ---- The end of a set ---------------------------------------------------

  /** How many escapes there are in a row before `r`, from `q` on. */
  function EscapesBefore(p: string, q: nat, r: nat): nat
    requires r <= |p|
    decreases r
  {
    if q < r && p[r - 1] == '%' then 1 + EscapesBefore(p, q, r - 1) else 0
  }

  /** The bracket at `r` can close a set whose members start at `q`: it is not the
      first member, and the escapes before it pair off. */
  ghost predicate Closes(p: string, q: nat, r: nat) {
    && q < r < |p| && p[r] == ']' && EscapesBefore(p, q, r) % 2 == 0
    && forall t :: q <= t < r ==> p[t] != '\0'
  }

  lemma {:induction false} EscapesSplit(p: string, q: nat, m: nat, r: nat)
    requires q <= m <= r <= |p|
    ensures EscapesBefore(p, q, r) == EscapesBefore(p, m, r) + if EscapesBefore(p, m, r) == r - m then EscapesBefore(p, q, m) else 0
    decreases r
  {
    if m < r { EscapesSplit(p, q, m, r - 1); }
  }

  /** Members that are left out before `m` do not matter to a bracket behind it. */
  lemma ClosesLater(p: string, q: nat, m: nat, r: nat)
    requires q < m < r && m <= |p| && EscapesBefore(p, q, m) % 2 == 0 && forall t :: q <= t < m ==> p[t] != '\0'
    ensures Closes(p, q, r) <==> Closes(p, m, r)
  {
    if r < |p| { EscapesSplit(p, q, m, r); }
  }

  /** The set ends at the first bracket that can close it. */
  lemma {:induction false} SetEndExactly(p: string, q: nat)
    requires q <= |p|
    ensures match SetEnd(p, q)
            case Some(e) => Closes(p, q, e) && forall r: nat :: r < e ==> !Closes(p, q, r)
            case None => forall r: nat :: !Closes(p, q, r)
    decreases |p| - q
  {
    if q < |p| && p[q] != '\0' {
      var m := if p[q] == '%' && At(p, q + 1) != '\0' then q + 2 else q + 1;
      assert EscapesBefore(p, q, q + 1) == if p[q] == '%' then 1 else 0;
      assert m == q + 2 ==> EscapesBefore(p, q, m) % 2 == 0;
      if At(p, m) == ']' {
        assert Closes(p, q, m);
      } else if m == q + 1 && p[q] == '%' {
        Stopped(p, q, m);
      } else {
        SetEndExactly(p, m);
        forall r: nat ensures Closes(p, q, r) <==> Closes(p, m, r) { if m < r { ClosesLater(p, q, m, r); } }
      }
    }
  }

  /** Nothing closes behind the end of the pattern. */
  lemma Stopped(p: string, q: nat, m: nat)
    requires q < m <= |p| && m == q + 1 && p[q] == '%' && At(p, m) == '\0'
    ensures SetEnd(p, m).None? && forall r: nat :: !Closes(p, q, r)
  {
    forall r: nat ensures !Closes(p, q, r) {
      if m < r < |p| { assert p[m] == '\0'; }
    }
  }

  // ---- Items that cannot be read ------------------------------------------

  /** Where the members of a set begin. */
  function MembersFrom(p: string, b: nat): nat {
    if At(p, b + 1) == '^' then b + 2 else b + 1
  }

  /** The bracket at `b` opens a set that nothing closes. */
  ghost predicate Unclosed(p: string, b: nat) {
    b < |p| && p[b] == '[' && forall r: nat :: !Closes(p, MembersFrom(p, b), r)
  }

  /** What is wrong at `k`; past the end and at a zero there is nothing. */
  ghost predicate Wrong(p: string, k: nat, e: Error) {
    k < |p| &&
    var a, b, c := At(p, k + 1), At(p, k + 2), At(p, k + 3);
    match e
    case EndsWithEscape => p[k] == '%' && a == '\0'
    case UnbalancedPattern => p[k] == '%' && a == 'b' && (b == '\0' || c == '\0')
    case MissingSet => p[k] == '%' && a == 'f' && b != '['
    case MissingBracket => Unclosed(p, k) || (p[k] == '%' && a == 'f' && Unclosed(p, k + 2))
    case _ => false
  }

  lemma EndOfSet(p: string, b: nat)
    requires b < |p| && p[b] == '['
    ensures EndOfClass(p, b) == Malformed(MissingBracket) <==> Unclosed(p, b)
    ensures EndOfClass(p, b).Malformed? ==> EndOfClass(p, b) == Malformed(MissingBracket)
  {
    hide SetEnd, Closes;
    SetEndExactly(p, MembersFrom(p, b));
  }

  lemma BadExactly(p: string, k: nat, e: Error)
    requires k <= |p|
    ensures ItemAt(p, k) == Bad(e) <==> Wrong(p, k, e)
    ensures ItemAt(p, k) == End <==> k == |p| || p[k] == '\0'
  {
    hide SetEnd, Closes, Unclosed;
    if k < |p| && p[k] == '[' { EndOfSet(p, k); }
    if k < |p| && p[k] != '[' { assert !Unclosed(p, k) by { NotASet(p, k); } }
    if k < |p| && p[k] == '%' && At(p, k + 1) == 'f' && At(p, k + 2) == '[' { EndOfSet(p, k + 2); }
    if k + 2 <= |p| && At(p, k + 2) != '[' { NotASet(p, k + 2); }
  }

  lemma NotASet(p: string, b: nat)
    requires At(p, b) != '['
    ensures !Unclosed(p, b)
  {}

  /** What goes wrong with an item at position `i`: a capture too many, none to close,
      or a reference to one that is not there or not finished. */
  ghost predicate GoesWrong(it: Item, caps: seq<Capture>, e: Error) {
    match e
    case TooManyCaptures => it.Open? && |caps| >= 32
    case InvalidCapture => it.Close? && forall l :: 0 <= l < |caps| ==> caps[l].len != -1
    case InvalidIndex =>
      it.Back? && var n := it.d as int - '0' as int; n < 1 || n > |caps| || caps[n - 1].len == -1
    case _ => false
  }

  lemma FaultExactly(s: string, p: string, it: Item, i: nat, caps: seq<Capture>, e: Error)
    requires i <= |s| && CapturesOk(i, caps) && !it.Repeat?
    ensures Move(s, p, it, i, caps) == Fault(e) <==> GoesWrong(it, caps, e)
  {
    hide InSet, Single, BalanceEnd;
  }

  /** A choice ends in error `e` exactly where its counts are used up and the pattern
      is wrong, or the item goes wrong; or later on. */
  lemma BrokenExactly(s: string, p: string, i: nat, k: nat, caps: seq<Capture>, e: Error)
    requires i <= |s| && k <= |p| && CapturesOk(i, caps) && (ItemAt(p, k).Next? ==> !ItemAt(p, k).item.Repeat?)
    ensures Search(s, p, i, k, caps) == Raises(e) <==>
            || Wrong(p, k, e)
            || (ItemAt(p, k).Next? && GoesWrong(ItemAt(p, k).item, caps, e))
            || exists j: nat, c :: Follows(s, p, i, k, caps, j, c) && Search(s, p, j, ItemAt(p, k).next, c) == Raises(e)
  {
    hide ItemAt, Move, CapturesOk, Wrong, GoesWrong;
    BadExactly(p, k, e);
    if ItemAt(p, k).Next? {
      var it := ItemAt(p, k).item;
      FaultExactly(s, p, it, i, caps, e);
      var r := Move(s, p, it, i, caps);
      if r.To? { assert Follows(s, p, i, k, caps, r.i, r.caps); }
    }
  }

  ghost predicate Follows(s: string, p: string, i: nat, k: nat, caps: seq<Capture>, j: nat, c: seq<Capture>)
    requires i <= |s| && k <= |p| && CapturesOk(i, caps)
    ensures Follows(s, p, i, k, caps, j, c) ==> j <= |s| && CapturesOk(j, c) && ItemAt(p, k).Next?
  {
    ItemAt(p, k).Next? && !ItemAt(p, k).item.Repeat? && Move(s, p, ItemAt(p, k).item, i, caps) == To(j, c)
  }

  // ---- The answer for any pattern -----------------------------------------

  ghost predicate LostAt(s: string, p: string, j: nat, k: nat)
    requires j <= |s| && k <= |p|
  {
    forall counts :: Play(s, p, j, k, [], counts).Lost?
  }

  ghost predicate FirstAt(s: string, p: string, j: nat, k: nat, q: Played)
    requires j <= |s| && k <= |p|
  {
    exists counts :: Play(s, p, j, k, [], counts) == q && First(s, p, j, k, [], counts)
  }

  /** What is reported of a choice. */
  ghost predicate Reported(s: string, j: nat, q: Played, whole: bool, r: Reply)
    requires j <= |s|
  {
    match q
    case Lost => false
    case Broken(e) => r == Error(e)
    case Won(end, caps) =>
      && j <= end <= |s|
      && if caps == [] && whole then r == Match(j, end, [Result.Text(s[j..end])])
         else if exists l :: 0 <= l < |caps| && caps[l].len == -1 then r == Error(UnfinishedCapture)
         else r.Match? && r.start == j && r.end == end && ReportsAll(s, caps, r.results)
  }

  /** The reply comes from the leftmost start where a choice is not lost, and there from
      the first such choice. */
  ghost predicate Answer(s: string, p: string, i: nat, k: nat, anchor: bool, whole: bool, r: Reply)
    requires i <= |s| && k <= |p|
  {
    if r.NotFound? then forall j :: i <= j <= (if anchor then i else |s|) ==> LostAt(s, p, j, k)
    else exists j, q ::
      && i <= j <= |s| && (anchor ==> j == i) && (forall t :: i <= t < j ==> LostAt(s, p, t, k))
      && FirstAt(s, p, j, k, q) && Reported(s, j, q, whole, r)
  }

  lemma {:induction false} FindExactly(s: string, p: string, i: nat, k: nat, anchor: bool, whole: bool)
    requires i <= |s| && k <= |p|
    ensures Answer(s, p, i, k, anchor, whole, FirstMatch(s, p, i, k, anchor, whole))
    decreases |s| - i
  {
    hide Search, Pushed, LostAt, FirstAt, Reported;
    AnswerHere(s, p, i, k, whole);
    var r := FirstMatch(s, p, i, k, anchor, whole);
    if Search(s, p, i, k, []).Fails? {
      if i < |s| && !anchor {
        FindExactly(s, p, i + 1, k, anchor, whole);
        AnswerLater(s, p, i, k, whole, r);
      }
    } else {
      var q :| FirstAt(s, p, i, k, q) && Reported(s, i, q, whole, r);
      assert !r.NotFound? by { ReportedFound(s, i, q, whole, r); }
    }
  }

  lemma ReportedFound(s: string, j: nat, q: Played, whole: bool, r: Reply)
    requires j <= |s| && Reported(s, j, q, whole, r)
    ensures !r.NotFound?
  {}

  lemma AnswerLater(s: string, p: string, i: nat, k: nat, whole: bool, r: Reply)
    requires i < |s| && k <= |p| && LostAt(s, p, i, k) && Answer(s, p, i + 1, k, false, whole, r)
    ensures Answer(s, p, i, k, false, whole, r)
  {
    hide LostAt, FirstAt, Reported;
    if !r.NotFound? {
      var j, q :| i + 1 <= j <= |s| && (forall t :: i + 1 <= t < j ==> LostAt(s, p, t, k)) && FirstAt(s, p, j, k, q) && Reported(s, j, q, whole, r);
      assert forall t :: i <= t < j ==> LostAt(s, p, t, k);
    }
  }

  /** At one start. */
  lemma AnswerHere(s: string, p: string, i: nat, k: nat, whole: bool)
    requires i <= |s| && k <= |p|
    ensures match Search(s, p, i, k, [])
            case Fails => LostAt(s, p, i, k)
            case Raises(e) => exists q :: FirstAt(s, p, i, k, q) && Reported(s, i, q, whole, Error(e))
            case Succeeds(end, caps) => exists q :: FirstAt(s, p, i, k, q) && Reported(s, i, q, whole, Pushed(s, caps, i, end, whole))
  {
    hide Search, First, Play, Pushed, ReportsAll;
    SearchIsBest(s, p, i, k, []);
    var r := Search(s, p, i, k, []);
    if !r.Fails? {
      var counts :| Gives(r, Play(s, p, i, k, [], counts)) && First(s, p, i, k, [], counts);
      var q := Play(s, p, i, k, [], counts);
      assert FirstAt(s, p, i, k, q);
      if r.Succeeds? { PushedReports(s, r.caps, i, r.end, whole); }
    }
  }

  lemma PushedReports(s: string, caps: seq<Capture>, j: nat, end: nat, whole: bool)
    requires j <= end <= |s| && CapturesOk(end, caps)
    ensures Reported(s, j, Won(end, caps), whole, Pushed(s, caps, j, end, whole))
  {
    CapturesLater(end, |s|, caps);
    hide ReportsAll, Results;
    if forall c <- caps :: c.len != UNFINISHED {
      ResultsReport(s, caps);
    } else {
      var c :| c in caps && c.len == UNFINISHED;
      var l :| 0 <= l < |caps| && caps[l] == c;
    }
  }
}
