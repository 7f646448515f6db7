/** Patterns as section 5.4.1 of the Lua 5.1 Reference Manual describes them: what
    they are made of, how they are written, and what they match.  Patterns whose
    text the manual gives no meaning (a set such as `[%a-z]`, an escaped letter that
    names nothing) are in the model of the matcher but not here. */
module MatchManual {
  import opened MatchPattern
  import opened MatchSearch
  import opened MatchMeaning
  import opened MatchFind

  // ---- What patterns are made of ------------------------------------------

  datatype Part = One(c: char) | Span(lo: char, hi: char) | Of(letter: char) | Quoted(c: char)

  datatype Class = Dot | Plain(c: char) | Kind(letter: char) | Escaped(c: char) | Set(negated: bool, parts: seq<Part>)

  datatype Elem =
    | Begin
    | Finish
    | Here
    | Between(x: char, y: char)
    | Border(negated: bool, parts: seq<Part>)
    | Again(n: nat)
    | Final
    | Char(cls: Class)
    | Many(cls: Class, op: char)

  // ---- How they are written -----------------------------------------------

  const DIGITS := "0123456789"
  const MAGIC := "^$()%.[]*+-?"
  const KINDS := "acdlpsuwxzACDLPSUWXZ"
  const OPERATORS := "?*+-"

  predicate Lower(c: char) { c in "abcdefghijklmnopqrstuvwxyz" }
  predicate Upper(c: char) { c in "ABCDEFGHIJKLMNOPQRSTUVWXYZ" }
  predicate Digit(c: char) { c in DIGITS }
  predicate Hex(c: char) { c in "0123456789abcdefABCDEF" }
  predicate Space(c: char) { c in [' ', '\t', '\n', 11 as char, 12 as char, '\r'] }
  predicate Control(c: char) { c as int < 32 || c as int == 127 }
  predicate Punctuation(c: char) { c in "!\"#$%&'()*+,-./" || c in ":;<=>?@" || c in "[\\]^_`" || c in "{|}~" }
  predicate Alphanumeric(c: char) { Lower(c) || Upper(c) || Digit(c) }

  function PartText(m: Part): (r: string)
    ensures r != []
  {
    match m
    case One(c) => [c]
    case Span(lo, hi) => [lo, '-', hi]
    case Of(l) => ['%', l]
    case Quoted(c) => ['%', c]
  }

  function PartsText(ms: seq<Part>): string {
    if ms == [] then [] else PartText(ms[0]) + PartsText(ms[1..])
  }

  function SetText(negated: bool, ms: seq<Part>): string {
    (if negated then "[^" else "[") + (PartsText(ms) + "]")
  }

  function ClassText(cls: Class): string {
    match cls
    case Dot => "."
    case Plain(c) => [c]
    case Kind(l) => ['%', l]
    case Escaped(c) => ['%', c]
    case Set(negated, ms) => SetText(negated, ms)
  }

  function ElemText(e: Elem): string {
    match e
    case Begin => "("
    case Finish => ")"
    case Here => "()"
    case Between(x, y) => ['%', 'b', x, y]
    case Border(negated, ms) => "%f" + SetText(negated, ms)
    case Again(n) => if 1 <= n <= 9 then ['%', DIGITS[n]] else []
    case Final => "$"
    case Char(cls) => ClassText(cls)
    case Many(cls, op) => ClassText(cls) + [op]
  }

  function Text(es: seq<Elem>): string {
    if es == [] then [] else ElemText(es[0]) + Text(es[1..])
  }

  predicate InSetPlain(c: char) {
    c != '\0' && c !in "%]-^"
  }

  predicate PartLegal(m: Part) {
    match m
    case One(c) => InSetPlain(c)
    case Span(lo, hi) => InSetPlain(lo) && InSetPlain(hi)
    case Of(l) => l in KINDS
    case Quoted(c) => c != '\0' && !Alphanumeric(c)
  }

  predicate SetLegal(ms: seq<Part>) {
    ms != [] && forall m <- ms :: PartLegal(m)
  }

  predicate ClassLegal(cls: Class) {
    match cls
    case Dot => true
    case Plain(c) => c != '\0' && c !in MAGIC
    case Kind(l) => l in KINDS
    case Escaped(c) => c != '\0' && !Alphanumeric(c)
    case Set(_, ms) => SetLegal(ms)
  }

  predicate ElemLegal(e: Elem) {
    match e
    case Between(x, y) => x != '\0' && y != '\0'
    case Border(_, ms) => SetLegal(ms)
    case Again(n) => 1 <= n <= 9
    case Char(cls) => ClassLegal(cls)
    case Many(cls, op) => ClassLegal(cls) && op in OPERATORS
    case _ => true
  }

  /** An opening parenthesis with a closing one right behind it is written for a
      position, and a dollar anchors only at the end. */
  predicate Legal(es: seq<Elem>) {
    es != [] ==>
      && ElemLegal(es[0]) && Legal(es[1..])
      && (es[0].Begin? && |es| > 1 ==> !es[1].Finish?)
      && (es[0].Final? ==> |es| == 1)
  }

  // ---- What they match ----------------------------------------------------

  /** The characters of the named classes; in upper case all others. */
  predicate InKind(letter: char, c: char) {
    match letter
    case 'a' => Lower(c) || Upper(c)
    case 'c' => Control(c)
    case 'd' => Digit(c)
    case 'l' => Lower(c)
    case 'p' => Punctuation(c)
    case 's' => Space(c)
    case 'u' => Upper(c)
    case 'w' => Alphanumeric(c)
    case 'x' => Hex(c)
    case 'z' => c == '\0'
    case 'A' => !Lower(c) && !Upper(c)
    case 'C' => !Control(c)
    case 'D' => !Digit(c)
    case 'L' => !Lower(c)
    case 'P' => !Punctuation(c)
    case 'S' => !Space(c)
    case 'U' => !Upper(c)
    case 'W' => !Alphanumeric(c)
    case 'X' => !Hex(c)
    case 'Z' => c != '\0'
    case _ => false
  }

  predicate InPart(m: Part, c: char) {
    match m
    case One(d) => c == d
    case Span(lo, hi) => lo <= c <= hi
    case Of(l) => InKind(l, c)
    case Quoted(d) => c == d
  }

  predicate Denotes(cls: Class, c: char) {
    match cls
    case Dot => true
    case Plain(d) => c == d
    case Kind(l) => InKind(l, c)
    case Escaped(d) => c == d
    case Set(negated, ms) => negated != exists m <- ms :: InPart(m, c)
  }

  /** The element takes the characters from `i` to `j` and leaves the captures `c`. */
  ghost predicate Takes(s: string, e: Elem, i: nat, caps: seq<Capture>, j: nat, c: seq<Capture>)
    requires i <= |s|
  {
    match e
    case Begin => j == i && Opens(i, -1, caps, c)
    case Here => j == i && Opens(i, -2, caps, c)
    case Finish => j == i && ClosesLast(i, caps, c)
    case Between(x, y) => Balanced(s, i, x, y, j) && c == caps
    case Border(negated, ms) =>
      && j == i && c == caps
      && !Denotes(Set(negated, ms), if i > 0 then s[i - 1] else '\0')
      && Denotes(Set(negated, ms), if i < |s| then s[i] else '\0')
    case Again(n) => SameText(s, n, caps, i, j) && c == caps
    case Final => j == i == |s| && c == caps
    case Char(cls) => j == i + 1 <= |s| && Denotes(cls, s[i]) && c == caps
    case Many(_, _) => false
  }

  /** With these repetition counts the pattern matches the characters from `i` to
      `end`, and its captures are `caps'` then. */
  ghost predicate Reads(s: string, es: seq<Elem>, i: nat, caps: seq<Capture>, counts: seq<nat>, end: nat, caps': seq<Capture>)
    requires i <= |s|
    decreases |es|
  {
    if es == [] then counts == [] && end == i && caps' == caps
    else match es[0]
    case Many(cls, op) =>
      && counts != [] && (op == '?' ==> counts[0] <= 1) && (op == '+' ==> counts[0] >= 1)
      && i + counts[0] <= |s| && (forall q :: i <= q < i + counts[0] ==> Denotes(cls, s[q]))
      && Reads(s, es[1..], i + counts[0], caps, counts[1..], end, caps')
    case e =>
      exists j: nat, c :: Takes(s, e, i, caps, j, c) && j <= |s| && Reads(s, es[1..], j, c, counts, end, caps')
  }

  /** At the first repetition where they differ, more is preferred, or less for `-`. */
  predicate Preferred(es: seq<Elem>, a: seq<nat>, b: seq<nat>) {
    if es == [] then false
    else if !es[0].Many? then Preferred(es[1..], a, b)
    else if a == [] || b == [] then false
    else if a[0] != b[0] then (if es[0].op == '-' then a[0] < b[0] else b[0] < a[0])
    else Preferred(es[1..], a[1..], b[1..])
  }

  /** Captures nest, there are at most 32, and back references are to finished ones
      that are there: `open` are the unfinished ones, `n` is how many there are. */
  predicate Nested(es: seq<Elem>, open: seq<nat>, n: nat) {
    if es == [] then open == []
    else match es[0]
    case Begin => n < 32 && Nested(es[1..], open + [n], n + 1)
    case Here => n < 32 && Nested(es[1..], open, n + 1)
    case Finish => open != [] && Nested(es[1..], open[..|open| - 1], n)
    case Again(l) => 1 <= l <= n && l - 1 !in open && Nested(es[1..], open, n)
    case _ => Nested(es[1..], open, n)
  }

  // ---- Reading classes ----------------------------------------------------

  /** A letter and its lower case. */
  lemma LetterIs(l: char)
    requires l in KINDS
    ensures ToLower(l) in LETTERS && (IsLower(l) ==> ToLower(l) == l) && (!IsLower(l) ==> IsUpper(l) && (ToLower(l) as int) == (l as int) + 32)
  {
    var k :| 0 <= k < |KINDS| && KINDS[k] == l;
    if k < 10 { assert LETTERS[k] == ToLower(l); } else { assert LETTERS[k - 10] == ToLower(l); }
  }

  lemma KindIs(l: char, c: char)
    requires l in KINDS
    ensures InClass(l, c) == InKind(l, c)
  {
    hide InKind, Named;
    LetterIs(l);
    if IsLower(l) { KindLower(l, c); } else { KindUpper(l, c); }
  }

  lemma KindLower(l: char, c: char)
    requires l in LETTERS
    ensures InKind(l, c) == Named(l, c)
  {
    NamedIs(c);
    hide Lower, Upper, Digit, Hex, Space, Control, Punctuation, Alphanumeric, IsHex, IsPunct, IsSpace, IsControl, IsAlnum;
  }

  lemma KindUpper(l: char, c: char)
    requires IsUpper(l) && ToLower(l) in LETTERS
    ensures InKind(l, c) == !Named(ToLower(l), c)
  {
    NamedIs(c);
    hide Lower, Upper, Digit, Hex, Space, Control, Punctuation, Alphanumeric, IsHex, IsPunct, IsSpace, IsControl, IsAlnum;
  }

  lemma NamedIs(c: char)
    ensures Lower(c) == IsLower(c) && Upper(c) == IsUpper(c) && Digit(c) == IsDigit(c) && Hex(c) == IsHex(c)
    ensures Punctuation(c) == IsPunct(c) && Space(c) == IsSpace(c) && Control(c) == IsControl(c) && Alphanumeric(c) == IsAlnum(c)
  {
    hide Lower, Upper, Digit, Hex, Space, Control, Punctuation;
    LowerIs(c);
    UpperIs(c);
    DigitIs(c);
    PunctuationIs(c);
    HexIs(c);
    SpaceIs(c);
    ControlIs(c);
  }

  lemma LowerIs(c: char)
    ensures Lower(c) == IsLower(c)
  {
    if IsLower(c) { assert "abcdefghijklmnopqrstuvwxyz"[c as int - 'a' as int] == c; }
  }

  lemma UpperIs(c: char)
    ensures Upper(c) == IsUpper(c)
  {
    if IsUpper(c) { assert "ABCDEFGHIJKLMNOPQRSTUVWXYZ"[c as int - 'A' as int] == c; }
  }

  lemma DigitIs(c: char)
    ensures Digit(c) == IsDigit(c)
  {
    if IsDigit(c) { assert DIGITS[c as int - '0' as int] == c; }
  }

  lemma PunctuationIs(c: char)
    ensures Punctuation(c) == IsPunct(c)
  {
    var n := c as int;
    if 33 <= n < 48 { assert "!\"#$%&'()*+,-./"[n - 33] == c; }
    if 58 <= n < 65 { assert ":;<=>?@"[n - 58] == c; }
    if 91 <= n < 97 { assert "[\\]^_`"[n - 91] == c; }
    if 123 <= n < 127 { assert "{|}~"[n - 123] == c; }
  }

  lemma HexIs(c: char)
    ensures Hex(c) == IsHex(c)
  {
    if IsDigit(c) { assert "0123456789abcdefABCDEF"[c as int - '0' as int] == c; }
    if 'a' <= c <= 'f' { assert "0123456789abcdefABCDEF"[c as int - 'a' as int + 10] == c; }
    if 'A' <= c <= 'F' { assert "0123456789abcdefABCDEF"[c as int - 'A' as int + 16] == c; }
  }

  lemma SpaceIs(c: char)
    ensures Space(c) == IsSpace(c)
  {
    assert '\t' as int == 9 && '\n' as int == 10 && '\r' as int == 13;
  }

  lemma ControlIs(c: char)
    ensures Control(c) == IsControl(c)
  {}

  // ---- Reading sets -------------------------------------------------------

  /** Where the rest of a pattern is `t`. */
  lemma AtText(p: string, q: nat, t: string)
    requires q <= |p| && p[q..] == t
    ensures At(p, q) == At(t, 0) && At(p, q + 1) == At(t, 1) && At(p, q + 2) == At(t, 2) && At(p, q + 3) == At(t, 3)
    ensures |p| == q + |t|
  {}

  lemma Dropped(p: string, q: nat, a: string, b: string)
    requires q <= |p| && p[q..] == a + b
    ensures q + |a| <= |p| && p[q + |a|..] == b
  {
    assert p[q + |a|..] == p[q..][|a|..];
  }

  /** The members of a set go on as they start, or it is closed. */
  lemma PartsStart(ms: seq<Part>, rest: string)
    requires (forall m <- ms :: PartLegal(m)) && rest != [] && rest[0] == ']'
    ensures var t := PartsText(ms) + rest; t != [] && t[0] !in "-^" && t[0] != '\0' && (t[0] == ']' <==> ms == [])
  {
    hide PartLegal;
    if ms != [] { PartStart(ms[0]); }
  }

  lemma PartStart(m: Part)
    requires PartLegal(m)
    ensures PartText(m)[0] !in "-^]" && PartText(m)[0] != '\0'
  {}

  function MemberOf(m: Part): Member {
    match m
    case One(c) => MatchPattern.Char(c)
    case Span(lo, hi) => MatchPattern.Range(lo, hi)
    case Of(l) => MatchPattern.Class(l)
    case Quoted(c) => MatchPattern.Class(c)
  }

  lemma MemberIs(m: Part, c: char)
    requires PartLegal(m)
    ensures Has(MemberOf(m), c) == InPart(m, c)
  {
    match m
    case Of(l) => KindIs(l, c);
    case Quoted(d) => EscapedIs(d, c);
    case _ =>
  }

  lemma EscapedIs(d: char, c: char)
    requires !Alphanumeric(d)
    ensures InClass(d, c) == (c == d)
  {
    LowerIs(d);
    UpperIs(d);
  }

  /** One member is read as it is written. */
  lemma PartRead(p: string, q: nat, ms: seq<Part>, rest: string, ec: nat)
    requires ms != [] && (forall m <- ms :: PartLegal(m)) && rest != [] && rest[0] == ']'
    requires q <= |p| && p[q..] == PartsText(ms) + rest && ec == q + |PartsText(ms)|
    ensures var n := q + |PartText(ms[0])|;
            && n <= |p| && p[n..] == PartsText(ms[1..]) + rest && ec == n + |PartsText(ms[1..])|
            && Members(p, q, ec) == [MemberOf(ms[0])] + Members(p, n, ec)
  {
    var a, b := PartText(ms[0]), PartsText(ms[1..]) + rest;
    assert p[q..] == a + b;
    AtText(p, q, a + b);
    Dropped(p, q, a, b);
    PartsStart(ms[1..], rest);
    assert ms[0] in ms && PartLegal(ms[0]);
    hide PartsText;
    MemberRead(p, q, ms[0], ec);
  }

  lemma MemberRead(p: string, q: nat, m: Part, ec: nat)
    requires PartLegal(m) && q + |PartText(m)| <= ec && At(p, q) == PartText(m)[0]
    requires if m.One? then At(p, q + 1) != '-' else At(p, q + 1) == PartText(m)[1]
    requires m.Span? ==> At(p, q + 2) == m.hi
    ensures Members(p, q, ec) == [MemberOf(m)] + Members(p, q + |PartText(m)|, ec)
  {
    hide At;
  }

  lemma {:induction false} PartsRead(p: string, q: nat, ms: seq<Part>, rest: string, c: char)
    requires (forall m <- ms :: PartLegal(m)) && rest != [] && rest[0] == ']'
    requires q <= |p| && p[q..] == PartsText(ms) + rest
    ensures (exists m <- Members(p, q, q + |PartsText(ms)|) :: Has(m, c)) <==> (exists m <- ms :: InPart(m, c))
    decreases |ms|
  {
    hide Has, InPart, Members;
    var ec := q + |PartsText(ms)|;
    if ms == [] {
      NoMembers(p, q, ec);
    } else {
      PartRead(p, q, ms, rest, ec);
      PartsRead(p, q + |PartText(ms[0])|, ms[1..], rest, c);
      MemberIs(ms[0], c);
      assert ms == [ms[0]] + ms[1..];
      var r := Members(p, q + |PartText(ms[0])|, ec);
      assert forall m :: m in [MemberOf(ms[0])] + r <==> m == MemberOf(ms[0]) || m in r;
      assert forall m :: m in ms <==> m == ms[0] || m in ms[1..];
    }
  }

  lemma NoMembers(p: string, q: nat, ec: nat)
    requires q >= ec
    ensures Members(p, q, ec) == []
  {}

  /** The closing bracket is found. */
  lemma {:induction false} SetEndRead(p: string, q: nat, ms: seq<Part>, rest: string)
    requires ms != [] && (forall m <- ms :: PartLegal(m)) && rest != [] && rest[0] == ']'
    requires q <= |p| && p[q..] == PartsText(ms) + rest
    ensures SetEnd(p, q) == Some(q + |PartsText(ms)|)
    decreases |ms|
  {
    hide SetEnd, Members, PartLegal, PartText;
    var n := q + |PartText(ms[0])|;
    PartRead(p, q, ms, rest, q + |PartsText(ms)|);
    PartsStart(ms[1..], rest);
    AtText(p, n, PartsText(ms[1..]) + rest);
    PartSkipped(p, q, ms, rest);
    if ms[1..] != [] { SetEndRead(p, n, ms[1..], rest); } else { assert PartsText(ms[1..]) == []; }
  }

  lemma PartSkipped(p: string, q: nat, ms: seq<Part>, rest: string)
    requires ms != [] && (forall m <- ms :: PartLegal(m)) && rest != [] && rest[0] == ']'
    requires q <= |p| && p[q..] == PartsText(ms) + rest
    ensures var n := q + |PartText(ms[0])|; n <= |p| && SetEnd(p, q) == if At(p, n) == ']' then Some(n) else SetEnd(p, n)
  {
    var a, b := PartText(ms[0]), PartsText(ms[1..]) + rest;
    assert p[q..] == a + b;
    AtText(p, q, a + b);
    PartStart(ms[0]);
    hide PartsText;
    if ms[0].Span? {
      assert SetEnd(p, q) == SetEnd(p, q + 1);
      assert SetEnd(p, q + 1) == SetEnd(p, q + 2);
    }
  }

  // ---- Reading items ------------------------------------------------------

  /** A set in brackets, at `k`. */
  lemma SetRead(p: string, k: nat, negated: bool, ms: seq<Part>, rest: string)
    requires SetLegal(ms) && k <= |p| && p[k..] == SetText(negated, ms) + rest
    ensures k < |p| && p[k] == '[' && EndOfClass(p, k) == Ends(k + |SetText(negated, ms)|)
    ensures forall c :: InSet(p, k, k + |SetText(negated, ms)| - 1, c) == Denotes(Set(negated, ms), c)
  {
    hide PartsText, InSet, Denotes, SetEnd, EndOfClass, SetLegal;
    var open := if negated then "[^" else "[";
    assert p[k..] == open + (PartsText(ms) + ("]" + rest));
    Dropped(p, k, open, PartsText(ms) + ("]" + rest));
    BracketRead(p, k, negated, ms, rest);
    BracketEnd(p, k, negated, ms, rest);
    forall c ensures InSet(p, k, k + |SetText(negated, ms)| - 1, c) == Denotes(Set(negated, ms), c) {
      InSetRead(p, k, negated, ms, rest, c);
    }
  }

  lemma BracketEnd(p: string, k: nat, negated: bool, ms: seq<Part>, rest: string)
    requires SetLegal(ms) && k < |p| && p[k] == '[' && (At(p, k + 1) == '^' <==> negated)
    requires var q := if negated then k + 2 else k + 1; q <= |p| && p[q..] == PartsText(ms) + ("]" + rest)
    ensures EndOfClass(p, k) == Ends(k + |SetText(negated, ms)|)
  {
    SetEndRead(p, if negated then k + 2 else k + 1, ms, "]" + rest);
    hide PartsText, PartLegal;
  }

  lemma InSetRead(p: string, k: nat, negated: bool, ms: seq<Part>, rest: string, c: char)
    requires SetLegal(ms) && k < |p| && p[k] == '[' && (At(p, k + 1) == '^' <==> negated)
    requires var q := if negated then k + 2 else k + 1; q <= |p| && p[q..] == PartsText(ms) + ("]" + rest)
    ensures InSet(p, k, k + |SetText(negated, ms)| - 1, c) == Denotes(Set(negated, ms), c)
  {
    PartsRead(p, if negated then k + 2 else k + 1, ms, "]" + rest, c);
    hide PartsText, PartLegal, Members, Has, InPart;
  }

  lemma BracketRead(p: string, k: nat, negated: bool, ms: seq<Part>, rest: string)
    requires SetLegal(ms) && k <= |p| && p[k..] == (if negated then "[^" else "[") + (PartsText(ms) + ("]" + rest))
    ensures k < |p| && p[k] == '[' && (At(p, k + 1) == '^' <==> negated)
  {
    PartsStart(ms, "]" + rest);
    AtText(p, k, (if negated then "[^" else "[") + (PartsText(ms) + ("]" + rest)));
    hide PartsText, PartLegal;
  }

  /** What comes behind a class cannot be mistaken for an operator. */
  lemma TextStart(es: seq<Elem>)
    requires Legal(es)
    ensures Text(es) != [] ==> Text(es)[0] !in OPERATORS && Text(es)[0] != '\0' && (Text(es)[0] == ')' <==> es[0].Finish?)
    ensures Text(es) == [] <==> es == []
  {
    if es != [] {
      var t := ElemText(es[0]);
      ElemStart(es[0]);
      assert Text(es)[0] == t[0];
    }
  }

  lemma ElemStart(e: Elem)
    requires ElemLegal(e)
    ensures ElemText(e) != [] && ElemText(e)[0] !in OPERATORS && ElemText(e)[0] != '\0' && (ElemText(e)[0] == ')' <==> e.Finish?)
  {
    hide PartsText;
    if e.Char? { ClassStart(e.cls); }
    if e.Many? { ClassStart(e.cls); }
  }

  lemma ClassStart(cls: Class)
    requires ClassLegal(cls)
    ensures ClassText(cls) != [] && ClassText(cls)[0] !in "?*+-()$\0"
  {
    hide PartsText;
    if cls.Plain? { assert '?' in MAGIC && '*' in MAGIC && '+' in MAGIC && '-' in MAGIC && '(' in MAGIC && ')' in MAGIC && '$' in MAGIC; }
  }

  /** A class is read as it is written. */
  lemma ClassRead(p: string, k: nat, cls: Class, rest: string)
    requires ClassLegal(cls) && k <= |p| && p[k..] == ClassText(cls) + rest
    ensures k < |p| && EndOfClass(p, k) == Ends(k + |ClassText(cls)|)
    ensures forall c :: Single(p, k, k + |ClassText(cls)|, c) == Denotes(cls, c)
  {
    hide EndOfClass, InSet, Denotes, SetLegal, InClass;
    if cls.Set? {
      SetRead(p, k, cls.negated, cls.parts, rest);
    } else {
      hide Single;
      OtherClassRead(p, k, cls, rest);
    }
  }

  lemma OtherClassRead(p: string, k: nat, cls: Class, rest: string)
    requires ClassLegal(cls) && !cls.Set? && k <= |p| && p[k..] == ClassText(cls) + rest
    ensures k < |p| && EndOfClass(p, k) == Ends(k + |ClassText(cls)|)
    ensures forall c :: Single(p, k, k + |ClassText(cls)|, c) == Denotes(cls, c)
  {
    hide InClass, InKind, Alphanumeric, SetEnd;
    AtText(p, k, ClassText(cls) + rest);
    match cls
    case Dot =>
    case Plain(d) => assert '.' in MAGIC && '%' in MAGIC && '[' in MAGIC;
    case Kind(l) =>
      assert l != '\0' by { KindLetter(l); }
      forall c ensures InClass(l, c) == InKind(l, c) { KindIs(l, c); }
    case Escaped(d) =>
      forall c ensures InClass(d, c) == (c == d) { EscapedIs(d, c); }
  }

  lemma KindLetter(l: char)
    requires l in KINDS
    ensures IsAlpha(l) && l !in "bf"
  {
    LetterIs(l);
  }

  /** The item `it` stands for the element. */
  ghost predicate Shows(p: string, it: Item, e: Elem) {
    match e
    case Begin => it == Open(false)
    case Here => it == Open(true)
    case Finish => it == Close
    case Between(x, y) => it == Balance(x, y)
    case Border(negated, ms) => it.Frontier? && forall c :: InSet(p, it.k, it.ec, c) == Denotes(Set(negated, ms), c)
    case Again(n) => it.Back? && it.d as int == '0' as int + n
    case Final => it == Anchor
    case Char(cls) => it.Once? && forall c :: Single(p, it.k, it.ep, c) == Denotes(cls, c)
    case Many(cls, op) => it.Repeat? && it.op == op && forall c :: Single(p, it.k, it.ep, c) == Denotes(cls, c)
  }

  /** The text of a pattern is read as what it is the text of. */
  lemma ElemRead(p: string, k: nat, es: seq<Elem>)
    requires Legal(es) && es != [] && k <= |p| && p[k..] == Text(es)
    ensures var r := ItemAt(p, k); r.Next? && Shows(p, r.item, es[0]) && p[r.next..] == Text(es[1..])
  {
    var e, t, rest := es[0], ElemText(es[0]), Text(es[1..]);
    AtText(p, k, t + rest);
    Dropped(p, k, t, rest);
    ElemStart(e);
    TextStart(es[1..]);
    if e.Char? || e.Many? {
      CharRead(p, k, e, rest);
    } else if e.Border? {
      BorderRead(p, k, e, rest);
    } else {
      hide EndOfClass, Legal, SetLegal, Denotes;
      FixedRead(p, k, es, e, t, rest);
    }
  }

  lemma FixedRead(p: string, k: nat, es: seq<Elem>, e: Elem, t: string, rest: string)
    requires ElemLegal(e) && !e.Char? && !e.Many? && !e.Border? && t == ElemText(e) && k < |p| && p[k..] == t + rest
    requires At(p, k) == t[0] && At(p, k + 1) == (if 1 < |t + rest| then (t + rest)[1] else '\0')
    requires e.Between? ==> At(p, k + 2) == t[2] && At(p, k + 3) == t[3]
    requires e.Begin? ==> rest == [] || rest[0] != ')'
    requires e.Final? ==> rest == []
    ensures var r := ItemAt(p, k); r.Next? && Shows(p, r.item, e) && r.next == k + |t|
  {
    hide EndOfClass, InSet, Single, Denotes;
    if e.Again? { assert DIGITS[e.n] as int == '0' as int + e.n; }
  }

  lemma CharRead(p: string, k: nat, e: Elem, rest: string)
    requires ElemLegal(e) && (e.Char? || e.Many?) && k <= |p| && p[k..] == ElemText(e) + rest
    requires rest != [] ==> rest[0] !in OPERATORS && rest[0] != '\0'
    ensures var r := ItemAt(p, k); r.Next? && Shows(p, r.item, e) && r.next == k + |ElemText(e)|
  {
    hide EndOfClass, Single, Denotes, ClassText, ItemAt, ClassLegal;
    var tail := if e.Many? then [e.op] + rest else rest;
    assert ElemText(e) + rest == ClassText(e.cls) + tail;
    ClassRead(p, k, e.cls, tail);
    NotItem(p, k, e.cls, tail);
    var ep := k + |ClassText(e.cls)|;
    Dropped(p, k, ClassText(e.cls), tail);
    NextChar(p, ep, tail);
    if e.Many? { OperatorFollows(p, k, ep, e.op); } else { NoneFollows(p, k, ep); }
  }

  lemma NextChar(p: string, q: nat, t: string)
    requires q <= |p| && p[q..] == t
    ensures At(p, q) == if t == [] then '\0' else t[0]
  {
    AtText(p, q, t);
  }

  lemma OperatorFollows(p: string, k: nat, ep: nat, op: char)
    requires k < |p| && EndOfClass(p, k) == Ends(ep) && At(p, ep) == op && op in OPERATORS
    ensures ep < |p| && ClassAt(p, k) == Next(Repeat(k, ep, op), ep + 1)
  {
    hide EndOfClass;
  }

  lemma NoneFollows(p: string, k: nat, ep: nat)
    requires k < |p| && EndOfClass(p, k) == Ends(ep) && At(p, ep) !in OPERATORS
    ensures ClassAt(p, k) == Next(Once(k, ep), ep)
  {
    hide EndOfClass;
  }

  /** A class does not look like another item. */
  lemma NotItem(p: string, k: nat, cls: Class, rest: string)
    requires ClassLegal(cls) && k < |p| && p[k..] == ClassText(cls) + rest
    ensures ItemAt(p, k) == ClassAt(p, k)
  {
    hide ClassAt;
    ClassStart(cls);
    AtText(p, k, ClassText(cls) + rest);
    match cls
    case Kind(l) => KindLetter(l);
    case Escaped(d) => LowerIs(d); DigitIs(d);
    case Plain(d) => assert '%' in MAGIC;
    case _ =>
  }

  lemma BorderRead(p: string, k: nat, e: Elem, rest: string)
    requires ElemLegal(e) && e.Border? && k <= |p| && p[k..] == ElemText(e) + rest
    ensures var r := ItemAt(p, k); r.Next? && Shows(p, r.item, e) && r.next == k + |ElemText(e)|
  {
    hide EndOfClass, InSet, Denotes, SetLegal, ItemAt, SetText;
    var t := SetText(e.negated, e.parts);
    BorderText(p, k, t, rest) by { assert ElemText(e) + rest == "%f" + (t + rest); }
    hide ElemText;
    SetRead(p, k + 2, e.negated, e.parts, rest);
    FrontierAt(p, k, k + 2 + |t|);
  }

  lemma BorderText(p: string, k: nat, t: string, rest: string)
    requires k <= |p| && p[k..] == "%f" + (t + rest)
    ensures k + 2 <= |p| && p[k] == '%' && p[k + 1] == 'f' && p[k + 2..] == t + rest
  {
    AtText(p, k, "%f" + (t + rest));
    Dropped(p, k, "%f", t + rest);
  }

  lemma FrontierAt(p: string, k: nat, ep: nat)
    requires k + 2 < |p| && p[k] == '%' && p[k + 1] == 'f' && p[k + 2] == '[' && EndOfClass(p, k + 2) == Ends(ep)
    ensures ItemAt(p, k) == Next(Frontier(k + 2, ep - 1), ep)
  {
    hide EndOfClass;
  }

  // ---- The matcher does what the manual says ------------------------------

  lemma TakesIs(s: string, p: string, it: Item, e: Elem, i: nat, caps: seq<Capture>, j: nat, c: seq<Capture>)
    requires i <= |s| && Shows(p, it, e) && !e.Many?
    ensures Passes(s, p, it, i, caps, j, c) <==> Takes(s, e, i, caps, j, c)
  {
    hide InSet, Single, Denotes, Balanced, SameText, ClosesLast, Opens;
  }

  /** Whatever choice of repetition counts is made: what comes of the text of a
      pattern is what the pattern means. */
  lemma {:induction false} PlayReads(s: string, p: string, es: seq<Elem>, i: nat, k: nat, caps: seq<Capture>, counts: seq<nat>, end: nat, caps': seq<Capture>)
    requires i <= |s| && k <= |p| && CapturesOk(i, caps) && Legal(es) && p[k..] == Text(es)
    ensures Play(s, p, i, k, caps, counts) == Won(end, caps') <==> Reads(s, es, i, caps, counts, end, caps')
    decreases |es|
  {
    hide Play, Reads, ItemAt, CapturesOk, Shows, Takes, Passes, ElemLegal, ElemText;
    if es == [] {
      PlayEnd(s, p, i, k, caps, counts, end, caps');
    } else {
      ElemRead(p, k, es);
      if es[0].Many? {
        ManyReads(s, p, es, i, k, caps, counts, end, caps');
      } else {
        StepReads(s, p, es, i, k, caps, counts, end, caps');
      }
    }
  }

  lemma PlayEnd(s: string, p: string, i: nat, k: nat, caps: seq<Capture>, counts: seq<nat>, end: nat, caps': seq<Capture>)
    requires i <= |s| && k <= |p| && CapturesOk(i, caps) && p[k..] == []
    ensures Play(s, p, i, k, caps, counts) == Won(end, caps') <==> Reads(s, [], i, caps, counts, end, caps')
  {}

  lemma {:induction false} ManyReads(s: string, p: string, es: seq<Elem>, i: nat, k: nat, caps: seq<Capture>, counts: seq<nat>, end: nat, caps': seq<Capture>)
    requires i <= |s| && k <= |p| && CapturesOk(i, caps) && es != [] && Legal(es[1..]) && es[0].Many?
    requires var r := ItemAt(p, k); r.Next? && Shows(p, r.item, es[0]) && p[r.next..] == Text(es[1..])
    ensures Play(s, p, i, k, caps, counts) == Won(end, caps') <==> Reads(s, es, i, caps, counts, end, caps')
    decreases |es|, 0
  {
    hide ItemAt, Denotes, Single, Text, Legal, CapturesOk;
    var it, n := ItemAt(p, k).item, ItemAt(p, k).next;
    if counts != [] && i + counts[0] <= |s| {
      CapturesLater(i, i + counts[0], caps);
      PlayReads(s, p, es[1..], i + counts[0], n, caps, counts[1..], end, caps');
    }
  }

  lemma {:induction false} StepReads(s: string, p: string, es: seq<Elem>, i: nat, k: nat, caps: seq<Capture>, counts: seq<nat>, end: nat, caps': seq<Capture>)
    requires i <= |s| && k <= |p| && CapturesOk(i, caps) && es != [] && Legal(es[1..]) && !es[0].Many?
    requires var r := ItemAt(p, k); r.Next? && Shows(p, r.item, es[0]) && p[r.next..] == Text(es[1..])
    ensures Play(s, p, i, k, caps, counts) == Won(end, caps') <==> Reads(s, es, i, caps, counts, end, caps')
    decreases |es|, 0
  {
    hide ItemAt, Play, Takes, Passes, Text, Legal, CapturesOk;
    var it, n := ItemAt(p, k).item, ItemAt(p, k).next;
    PlayPasses(s, p, i, k, caps, counts, end, caps');
    forall j: nat, c ensures Passes(s, p, it, i, caps, j, c) <==> Takes(s, es[0], i, caps, j, c) { TakesIs(s, p, it, es[0], i, caps, j, c); }
    forall j: nat, c | Takes(s, es[0], i, caps, j, c)
      ensures j <= |s| && CapturesOk(j, c) && (Play(s, p, j, n, c, counts) == Won(end, caps') <==> Reads(s, es[1..], j, c, counts, end, caps'))
    {
      SearchPasses(s, p, i, k, caps, j, c);
      PlayReads(s, p, es[1..], j, n, c, counts, end, caps');
    }
    StepUnfolds(s, es, i, caps, counts, end, caps');
    hide Reads;
  }

  lemma StepUnfolds(s: string, es: seq<Elem>, i: nat, caps: seq<Capture>, counts: seq<nat>, end: nat, caps': seq<Capture>)
    requires i <= |s| && es != [] && !es[0].Many?
    ensures Reads(s, es, i, caps, counts, end, caps') <==>
            exists j: nat, c :: Takes(s, es[0], i, caps, j, c) && j <= |s| && Reads(s, es[1..], j, c, counts, end, caps')
  {
    hide Takes;
  }

  lemma {:induction false} BeforeIs(p: string, es: seq<Elem>, k: nat, a: seq<nat>, b: seq<nat>)
    requires k <= |p| && Legal(es) && p[k..] == Text(es)
    ensures Before(p, k, a, b) == Preferred(es, a, b)
    decreases |es|
  {
    if es != [] {
      ElemRead(p, k, es);
      hide ItemAt, ElemLegal, ElemText, InSet, Single, Denotes;
      var n := ItemAt(p, k).next;
      BeforeIs(p, es[1..], n, a, b);
      if a != [] && b != [] { BeforeIs(p, es[1..], n, a[1..], b[1..]); }
    }
  }

  /** The unfinished captures among `st` are `open`, in order. */
  ghost predicate OpenAre(st: seq<Status>, open: seq<nat>) {
    && (forall a :: 0 <= a < |open| ==> open[a] < |st| && st[open[a]] == Opened)
    && (forall a, b :: 0 <= a < b < |open| ==> open[a] < open[b])
    && (forall l :: 0 <= l < |st| && st[l] == Opened ==> l in open)
  }

  /** Where captures nest, nothing is wrong with the pattern. */
  lemma {:induction false} NestedComplete(p: string, es: seq<Elem>, k: nat, st: seq<Status>, open: seq<nat>)
    requires k <= |p| && Legal(es) && p[k..] == Text(es) && Nested(es, open, |st|) && OpenAre(st, open)
    ensures Complete(p, k, st)
    decreases |es|
  {
    if es == [] {
      assert Opened !in st;
      assert ItemAt(p, k) == End;
    } else {
      ElemRead(p, k, es);
      var it, n := ItemAt(p, k).item, ItemAt(p, k).next;
      var st', open' := NestedAfter(p, it, es, st, open);
      hide ItemAt, Text, Shows, After, OpenAre, Nested;
      NestedComplete(p, es[1..], n, st', open');
    }
  }

  lemma NestedAfter(p: string, it: Item, es: seq<Elem>, st: seq<Status>, open: seq<nat>) returns (st': seq<Status>, open': seq<nat>)
    requires es != [] && Shows(p, it, es[0]) && Nested(es, open, |st|) && OpenAre(st, open)
    ensures After(it, st) == Some(st') && Nested(es[1..], open', |st'|) && OpenAre(st', open')
  {
    hide InSet, Single, Denotes, LastOpened;
    st', open' := st, open;
    match es[0]
    case Begin =>
      OpensOne(st, open);
      st', open' := st + [Opened], open + [|st|];
    case Here => st' := st + [Located];
    case Finish =>
      ClosesOne(st, open);
      st', open' := st[open[|open| - 1] := Closed], open[..|open| - 1];
    case Again(l) => assert st[l - 1] == Opened ==> l - 1 in open;
    case _ =>
  }

  lemma OpensOne(st: seq<Status>, open: seq<nat>)
    requires OpenAre(st, open)
    ensures OpenAre(st + [Opened], open + [|st|])
  {}

  lemma ClosesOne(st: seq<Status>, open: seq<nat>)
    requires OpenAre(st, open) && open != []
    ensures var l := open[|open| - 1]; LastOpened(st) == Some(l) && OpenAre(st[l := Closed], open[..|open| - 1])
  {
    hide LastOpened;
    var l := open[|open| - 1];
    var r := LastOpened(st);
    assert open == open[..|open| - 1] + [l];
    assert st[l] == Opened;
    assert r.Some?;
    assert r.value in open;
    assert r.value == l;
  }

  /** The pattern matches from `i` to `end` with these captures, by this choice, which
      is preferred to all others that match there. */
  ghost predicate FirstReading(s: string, es: seq<Elem>, i: nat, counts: seq<nat>, end: nat, caps: seq<Capture>)
    requires i <= |s|
  {
    && Reads(s, es, i, [], counts, end, caps)
    && forall other, end': nat, caps' :: Reads(s, es, i, [], other, end', caps') && other != counts ==> Preferred(es, counts, other)
  }

  /** The outcome of a search from `i` on. */
  ghost predicate Answers(s: string, es: seq<Elem>, i: nat, r: Outcome)
    requires i <= |s|
  {
    match r
    case Raises(_) => false
    case Fails => forall counts, end: nat, caps :: !Reads(s, es, i, [], counts, end, caps)
    case Succeeds(end, caps) => exists counts :: FirstReading(s, es, i, counts, end, caps)
  }

  /** For a pattern as the manual describes it, whose captures nest, the search on its
      text raises no error, fails exactly if the pattern matches nothing from `i` on,
      and otherwise gives the end and the captures of the preferred match. */
  lemma SearchReads(s: string, p: string, es: seq<Elem>, i: nat, k: nat)
    requires i <= |s| && k <= |p| && Legal(es) && Nested(es, [], 0) && p[k..] == Text(es)
    ensures Answers(s, es, i, Search(s, p, i, k, []))
  {
    hide Reads, Play, Search, Legal, Text, First, FirstReading;
    NestedComplete(p, es, k, [], []);
    CompleteWell(p, k, []);
    assert Statuses([]) == [];
    SearchIsBest(s, p, i, k, []);
    NoError(s, p, i, k, []);
    forall counts, end: nat, caps ensures Play(s, p, i, k, [], counts) == Won(end, caps) <==> Reads(s, es, i, [], counts, end, caps) {
      PlayReads(s, p, es, i, k, [], counts, end, caps);
    }
    var r := Search(s, p, i, k, []);
    if r.Succeeds? {
      var counts :| Play(s, p, i, k, [], counts) == Won(r.end, r.caps) && First(s, p, i, k, [], counts);
      FirstIsFirst(s, p, es, i, k, counts, r.end, r.caps);
    }
  }

  lemma FirstIsFirst(s: string, p: string, es: seq<Elem>, i: nat, k: nat, counts: seq<nat>, end: nat, caps: seq<Capture>)
    requires i <= |s| && k <= |p| && Legal(es) && p[k..] == Text(es)
    requires Play(s, p, i, k, [], counts) == Won(end, caps) && First(s, p, i, k, [], counts)
    ensures FirstReading(s, es, i, counts, end, caps)
  {
    hide Reads, Play, Legal, Text, Preferred, Before;
    PlayReads(s, p, es, i, k, [], counts, end, caps);
    forall other, end': nat, caps' | Reads(s, es, i, [], other, end', caps') && other != counts ensures Preferred(es, counts, other) {
      PlayReads(s, p, es, i, k, [], other, end', caps');
      BeforeIs(p, es, k, counts, other);
    }
  }

  // ---- string.find and string.match ---------------------------------------

  /** What a capture is reported as: its place, or its text. */
  predicate Reports(s: string, c: Capture, r: Result) {
    if c.len == -2 then r == Number(c.init + 1)
    else 0 <= c.len && c.init + c.len <= |s| && r == Result.Text(s[c.init..c.init + c.len])
  }

  ghost predicate ReportsAll(s: string, caps: seq<Capture>, rs: seq<Result>) {
    |rs| == |caps| && forall l: nat :: l < |caps| ==> Reports(s, caps[l], rs[l])
  }

  /** The reply of a search from `i` on, or only at `i` if it is anchored: the
      leftmost match, there the preferred one, with its captures, or with the whole
      match if there are none and it is asked for. */
  ghost predicate Replies(s: string, es: seq<Elem>, i: nat, anchor: bool, whole: bool, r: Reply)
    requires i <= |s|
  {
    match r
    case Error(_) => false
    case NotFound => forall j: nat :: i <= j <= (if anchor then i else |s|) ==> NoReading(s, es, j)
    case Match(start, end, results) =>
      && i <= start <= end <= |s| && (anchor ==> start == i)
      && (forall j :: i <= j < start ==> NoReading(s, es, j))
      && exists counts, caps :: FirstReading(s, es, start, counts, end, caps)
           && if caps == [] && whole then results == [Result.Text(s[start..end])] else ReportsAll(s, caps, results)
  }

  ghost predicate NoReading(s: string, es: seq<Elem>, j: nat)
    requires j <= |s|
  {
    forall counts, end: nat, caps :: !Reads(s, es, j, [], counts, end, caps)
  }

  lemma NoReadingIs(s: string, p: string, es: seq<Elem>, j: nat, k: nat)
    requires j <= |s| && k <= |p| && Legal(es) && p[k..] == Text(es)
    ensures NoReading(s, es, j) <==> !MatchesAt(s, p, j, k)
  {
    hide Reads, Play, Legal, Text;
    forall counts, end: nat, caps ensures Play(s, p, j, k, [], counts) == Won(end, caps) <==> Reads(s, es, j, [], counts, end, caps) {
      PlayReads(s, p, es, j, k, [], counts, end, caps);
    }
    if MatchesAt(s, p, j, k) {
      var counts :| Play(s, p, j, k, [], counts).Won?;
      var w := Play(s, p, j, k, [], counts);
      assert Reads(s, es, j, [], counts, w.end, w.caps);
    }
  }

  /** `string.find` and `string.match` with a pattern as the manual describes it: the
      leftmost match, of those that start there the preferred one, and its captures
      by place or by text. */
  lemma FindReads(s: string, p: string, es: seq<Elem>, i: nat, k: nat, anchor: bool, whole: bool)
    requires i <= |s| && k <= |p| && Legal(es) && Nested(es, [], 0) && p[k..] == Text(es)
    ensures Replies(s, es, i, anchor, whole, FirstMatch(s, p, i, k, anchor, whole))
  {
    hide Reads, Play, Legal, Text, First, FirstReading, Complete, MatchesAt, NoReading, ReportsAll, FirstMatch;
    NestedComplete(p, es, k, [], []);
    FirstIsLeftmost(s, p, i, k, anchor, whole);
    forall j: nat | i <= j <= |s| ensures NoReading(s, es, j) <==> !MatchesAt(s, p, j, k) { NoReadingIs(s, p, es, j, k); }
    var r := FirstMatch(s, p, i, k, anchor, whole);
    if r.Match? { MatchReads(s, p, es, k, whole, r); }
  }

  lemma ResultsReport(s: string, caps: seq<Capture>)
    requires CapturesOk(|s|, caps) && forall c <- caps :: c.len != UNFINISHED
    ensures ReportsAll(s, caps, Results(s, caps))
  {
    forall l: nat | l < |caps| ensures Reports(s, caps[l], Results(s, caps)[l]) { assert caps[l] in caps; }
  }

  lemma MatchReads(s: string, p: string, es: seq<Elem>, k: nat, whole: bool, r: Reply)
    requires k <= |p| && Legal(es) && Nested(es, [], 0) && p[k..] == Text(es)
    requires r.Match? && r.start <= r.end <= |s| && IsFirst(s, p, k, whole, r)
    ensures exists counts, caps :: FirstReading(s, es, r.start, counts, r.end, caps)
              && if caps == [] && whole then r.results == [Result.Text(s[r.start..r.end])] else ReportsAll(s, caps, r.results)
  {
    hide Reads, Play, Legal, Text, First, FirstReading, ReportsAll, Results;
    var counts, caps :| Play(s, p, r.start, k, [], counts) == Won(r.end, caps) && First(s, p, r.start, k, [], counts)
      && CapturesOk(|s|, caps) && r.results == if caps == [] && whole then [Result.Text(s[r.start..r.end])] else Results(s, caps);
    FirstIsFirst(s, p, es, r.start, k, counts, r.end, caps);
    NestedComplete(p, es, k, [], []);
    PlayedClosed(s, p, r.start, k, [], counts);
    if !(caps == [] && whole) { ResultsReport(s, caps); }
  }
}
