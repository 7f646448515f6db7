/** Lua patterns: character classes, and the items a pattern consists of
    (`lstrlib.c`).  A pattern is a C string: past its end, and at its first zero,
    there is the terminator. */
module MatchPattern {

  datatype Option<+T> = None | Some(value: T)

  const ZERO := 0 as char

  /** What `luaL_error` says. */
  datatype Error =
    | EndsWithEscape | MissingBracket | UnbalancedPattern | MissingSet
    | TooManyCaptures | InvalidCapture | InvalidIndex | UnfinishedCapture

  function At(p: string, k: nat): char {
    if k < |p| then p[k] else ZERO
  }

  // ---- Characters, in the C locale ----------------------------------------

  predicate IsLower(c: char) { 'a' <= c <= 'z' }
  predicate IsUpper(c: char) { 'A' <= c <= 'Z' }
  predicate IsDigit(c: char) { '0' <= c <= '9' }
  predicate IsAlpha(c: char) { IsLower(c) || IsUpper(c) }
  predicate IsAlnum(c: char) { IsAlpha(c) || IsDigit(c) }
  predicate IsHex(c: char) { IsDigit(c) || 'a' <= c <= 'f' || 'A' <= c <= 'F' }
  predicate IsSpace(c: char) { c == ' ' || 9 <= c as int <= 13 }
  predicate IsControl(c: char) { c as int < 32 || c as int == 127 }
  predicate IsPunct(c: char) { 33 <= c as int <= 126 && !IsAlnum(c) }

  /** The letters that name classes. */
  predicate Named(letter: char, c: char) {
    match letter
    case 'a' => IsAlpha(c)
    case 'c' => IsControl(c)
    case 'd' => IsDigit(c)
    case 'l' => IsLower(c)
    case 'p' => IsPunct(c)
    case 's' => IsSpace(c)
    case 'u' => IsUpper(c)
    case 'w' => IsAlnum(c)
    case 'x' => IsHex(c)
    case 'z' => c == ZERO
    case _ => false
  }

  const LETTERS := "acdlpsuwxz"

  function ToLower(c: char): char {
    if IsUpper(c) then ((c as int) + 32) as char else c
  }

  /** `match_class`: `%a` and the like; in upper case the complement; anything
      else stands for itself. */
  predicate InClass(cl: char, c: char) {
    if ToLower(cl) in LETTERS then Named(ToLower(cl), c) == IsLower(cl) else cl == c
  }

  // ---- Sets ---------------------------------------------------------------

  datatype Member = Char(c: char) | Range(lo: char, hi: char) | Class(cl: char)

  predicate Has(m: Member, c: char) {
    match m
    case Char(d) => d == c
    case Range(lo, hi) => lo <= c <= hi
    case Class(cl) => InClass(cl, c)
  }

  /** The members written from `q` up to the closing bracket at `ec`. */
  function Members(p: string, q: nat, ec: nat): seq<Member>
    decreases ec - q
  {
    if q >= ec then []
    else if At(p, q) == '%' then [Class(At(p, q + 1))] + Members(p, q + 2, ec)
    else if At(p, q + 1) == '-' && q + 2 < ec then [Range(At(p, q), At(p, q + 2))] + Members(p, q + 3, ec)
    else [Char(At(p, q))] + Members(p, q + 1, ec)
  }

  /** The set that starts with the bracket at `k` and ends with the one at `ec`. */
  predicate InSet(p: string, k: nat, ec: nat, c: char) {
    var negated := At(p, k + 1) == '^';
    (exists m <- Members(p, if negated then k + 2 else k + 1, ec) :: Has(m, c)) != negated
  }

  /** The closing bracket of a set whose members start at `q`: the first one is a
      member, and so is whatever comes after an escape. */
  function SetEnd(p: string, q: nat): (r: Option<nat>)
    requires q <= |p|
    ensures r.Some? ==> q < r.value < |p| && p[r.value] == ']'
    decreases |p| - q
  {
    if At(p, q) == ZERO then None else
      var q1 := if At(p, q) == '%' && At(p, q + 1) != ZERO then q + 2 else q + 1;
      if At(p, q1) == ']' then Some(q1) else SetEnd(p, q1)
  }

  // ---- Items --------------------------------------------------------------

  /** Where the single-character class at `k` ends. */
  datatype ClassEnd = Ends(ep: nat) | Malformed(e: Error)

  function EndOfClass(p: string, k: nat): (r: ClassEnd)
    requires k < |p|
    ensures r.Ends? ==> k < r.ep <= |p|
  {
    match p[k]
    case '%' => if At(p, k + 1) == ZERO then Malformed(EndsWithEscape) else Ends(k + 2)
    case '[' =>
      (match SetEnd(p, if At(p, k + 1) == '^' then k + 2 else k + 1)
       case None => Malformed(MissingBracket)
       case Some(q) => Ends(q + 1))
    case _ => Ends(k + 1)
  }

  /** `singlematch`. */
  predicate Single(p: string, k: nat, ep: nat, c: char) {
    match At(p, k)
    case '.' => true
    case '%' => InClass(At(p, k + 1), c)
    case '[' => ep > 0 && InSet(p, k, ep - 1, c)
    case d => d == c
  }

  datatype Item =
    | Open(position: bool)
    | Close
    | Balance(b: char, e: char)
    | Frontier(k: nat, ec: nat)
    | Back(d: char)
    | Anchor
    | Once(k: nat, ep: nat)
    | Repeat(k: nat, ep: nat, op: char)

  datatype Parse = End | Bad(e: Error) | Next(item: Item, next: nat)

  /** The item at `k` of a pattern, and where the next one is. */
  function ItemAt(p: string, k: nat): (r: Parse)
    requires k <= |p|
    ensures r.Next? ==> k < r.next <= |p|
    ensures r.Next? && r.item.Repeat? ==> r.item.ep < |p| && r.next == r.item.ep + 1 && r.item.op in "?*+-"
  {
    match At(p, k)
    case '\0' => End
    case '(' => if At(p, k + 1) == ')' then Next(Open(true), k + 2) else Next(Open(false), k + 1)
    case ')' => Next(Close, k + 1)
    case '$' => if At(p, k + 1) == ZERO then Next(Anchor, k + 1) else ClassAt(p, k)
    case '%' =>
      var d := At(p, k + 1);
      if d == 'b' then
        if At(p, k + 2) == ZERO || At(p, k + 3) == ZERO then Bad(UnbalancedPattern)
        else Next(Balance(p[k + 2], p[k + 3]), k + 4)
      else if d == 'f' then
        if At(p, k + 2) != '[' then Bad(MissingSet) else
          (match EndOfClass(p, k + 2)
           case Malformed(e) => Bad(e)
           case Ends(ep) => Next(Frontier(k + 2, ep - 1), ep))
      else if IsDigit(d) then Next(Back(d), k + 2)
      else ClassAt(p, k)
    case _ => ClassAt(p, k)
  }

  /** A single-character class, repeated or not. */
  function ClassAt(p: string, k: nat): (r: Parse)
    requires k < |p|
    ensures r.Next? ==> k < r.next <= |p|
    ensures r.Next? ==> if r.item.Repeat? then r.item.ep < |p| && r.next == r.item.ep + 1 && r.item.op in "?*+-" else r.item.Once?
  {
    match EndOfClass(p, k)
    case Malformed(e) => Bad(e)
    case Ends(ep) => if At(p, ep) in "?*+-" then Next(Repeat(k, ep, p[ep]), ep + 1) else Next(Once(k, ep), ep)
  }
}
