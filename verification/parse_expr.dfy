/** Precedence climbing (`subexpr`).  Names, literals, calls and constructors are
    single tokens here; parentheses are not. */
module ParseExpr {

  const MAXCCALLS := 200

  datatype BinOp = OpAdd | OpSub | OpMul | OpDiv | OpMod | OpPow | OpConcat | OpNe | OpEq | OpLt | OpLe | OpGt | OpGe | OpAnd | OpOr

  datatype UnOp = OpNot | OpMinus | OpLen

  datatype Token = Atom(id: nat) | Binary(op: BinOp) | Minus | NotSign | LenSign | Open | Close | Other

  datatype Tree = Leaf(id: nat) | Paren(x: Tree) | Un(u: UnOp, x: Tree) | Bin(op: BinOp, a: Tree, b: Tree)

  // ---- The language -------------------------------------------------------

  /** Section 2.5.6 of the Lua 5.1 Reference Manual, from lower to higher priority. */
  function Level(op: BinOp): nat {
    match op
    case OpOr => 1
    case OpAnd => 2
    case OpLt => 3 case OpGt => 3 case OpLe => 3 case OpGe => 3 case OpNe => 3 case OpEq => 3
    case OpConcat => 4
    case OpAdd => 5 case OpSub => 5
    case OpMul => 6 case OpDiv => 6 case OpMod => 6
    case OpPow => 8
  }

  const UNARY_LEVEL := 7

  predicate RightAssociative(op: BinOp) {
    op == OpConcat || op == OpPow
  }

  /** `x op1 y op2 z` is `(x op1 y) op2 z`. */
  predicate GroupsLeft(op1: BinOp, op2: BinOp) {
    Level(op1) > Level(op2) || (Level(op1) == Level(op2) && !RightAssociative(op1))
  }

  /** `u x op y` is `(u x) op y`. */
  predicate UnaryFirst(op: BinOp) {
    UNARY_LEVEL > Level(op)
  }

  function OpToken(op: BinOp): Token {
    if op == OpSub then Minus else Binary(op)
  }

  function UnToken(u: UnOp): Token {
    match u case OpNot => NotSign case OpMinus => Minus case OpLen => LenSign
  }

  /** The tokens of an expression. */
  function Yield(t: Tree): seq<Token> {
    match t
    case Leaf(id) => [Atom(id)]
    case Paren(x) => [Open] + (Yield(x) + [Close])
    case Un(u, x) => [UnToken(u)] + Yield(x)
    case Bin(op, a, b) => Yield(a) + ([OpToken(op)] + Yield(b))
  }

  /** An operator after `t` takes all of `t` for its operand, not just the end of it. */
  predicate EndsBefore(t: Tree, op: BinOp) {
    match t
    case Leaf(_) => true
    case Paren(_) => true
    case Un(_, x) => UnaryFirst(op) && EndsBefore(x, op)
    case Bin(o, _, y) => GroupsLeft(o, op) && EndsBefore(y, op)
  }

  /** An operator before `t` takes all of `t` for its operand, not just its start. */
  predicate StartsAfter(t: Tree, op: BinOp) {
    t.Bin? ==> !GroupsLeft(op, t.op) && StartsAfter(t.a, op)
  }

  predicate StartsAfterUnary(t: Tree) {
    t.Bin? ==> !UnaryFirst(t.op) && StartsAfterUnary(t.a)
  }

  /** The tree respects the priorities. */
  predicate Proper(t: Tree) {
    match t
    case Leaf(_) => true
    case Paren(x) => Proper(x)
    case Un(_, x) => Proper(x) && StartsAfterUnary(x)
    case Bin(op, a, b) => Proper(a) && Proper(b) && EndsBefore(a, op) && StartsAfter(b, op)
  }

  // ---- The parser's tables ------------------------------------------------

  /** `priority`. */
  function Left(op: BinOp): nat {
    match op
    case OpAdd => 6 case OpSub => 6
    case OpMul => 7 case OpDiv => 7 case OpMod => 7
    case OpPow => 10 case OpConcat => 5
    case OpAnd => 2 case OpOr => 1
    case _ => 3
  }

  function Right(op: BinOp): nat {
    match op
    case OpAdd => 6 case OpSub => 6
    case OpMul => 7 case OpDiv => 7 case OpMod => 7
    case OpPow => 9 case OpConcat => 4
    case OpAnd => 2 case OpOr => 1
    case _ => 3
  }

  const UNARY_PRIORITY := 8

  /** The table says what the manual says. */
  lemma TableIsManual(op1: BinOp, op2: BinOp)
    ensures Left(op2) > Right(op1) <==> !GroupsLeft(op1, op2)
    ensures Left(op2) > UNARY_PRIORITY <==> !UnaryFirst(op2)
    ensures Left(op1) > 0
  {}

  function GetBinOp(t: Token): (r: seq<BinOp>)
    ensures |r| <= 1
  {
    match t
    case Binary(op) => if op == OpSub then [] else [op]
    case Minus => [OpSub]
    case _ => []
  }

  function GetUnOp(t: Token): (r: seq<UnOp>)
    ensures |r| <= 1
  {
    match t
    case NotSign => [OpNot]
    case Minus => [OpMinus]
    case LenSign => [OpLen]
    case _ => []
  }

  // ---- What the parser computes -------------------------------------------

  datatype Error = Unexpected | TooManyLevels

  datatype Parsed = Ok(t: Tree, rest: seq<Token>) | Err(e: Error)

  function First(ts: seq<Token>): Token {
    if ts == [] then Other else ts[0]
  }

  /** An operator with a priority higher than the limit is next. */
  predicate GoesOn(ts: seq<Token>, limit: nat) {
    var op := GetBinOp(First(ts)); op != [] && Left(op[0]) > limit
  }

  /** `subexpr` with the given limit, when `levels` more calls may be nested. */
  function SubExpr(ts: seq<Token>, limit: nat, levels: nat): (r: Parsed)
    ensures r.Ok? ==> |r.rest| < |ts|
    decreases |ts|, 1
  {
    if levels == 0 then Err(TooManyLevels) else
      match Operand(ts, levels - 1)
      case Err(e) => Err(e)
      case Ok(t, rest) => Loop(t, rest, limit, levels - 1)
  }

  /** The first operand: behind a unary operator, in parentheses, or a single token. */
  function Operand(ts: seq<Token>, levels: nat): (r: Parsed)
    ensures r.Ok? ==> |r.rest| < |ts|
    decreases |ts|, 0
  {
    var u := GetUnOp(First(ts));
    if u != [] then
      (match SubExpr(ts[1..], UNARY_PRIORITY, levels)
       case Err(e) => Err(e)
       case Ok(x, rest) => Ok(Un(u[0], x), rest))
    else if First(ts).Open? then
      (match SubExpr(ts[1..], 0, levels)
       case Err(e) => Err(e)
       case Ok(x, rest) => if First(rest).Close? then Ok(Paren(x), rest[1..]) else Err(Unexpected))
    else if First(ts).Atom? then Ok(Leaf(ts[0].id), ts[1..])
    else Err(Unexpected)
  }

  /** The loop of `subexpr`, with `t` read so far. */
  function Loop(t: Tree, ts: seq<Token>, limit: nat, levels: nat): (r: Parsed)
    ensures r.Ok? ==> |r.rest| <= |ts|
    decreases |ts|, 0
  {
    if !GoesOn(ts, limit) then Ok(t, ts) else
      var op := GetBinOp(ts[0])[0];
      match SubExpr(ts[1..], Right(op), levels)
      case Err(e) => Err(e)
      case Ok(x, rest) => Loop(Bin(op, t, x), rest, limit, levels)
  }

  // ---- Every proper tree is found -----------------------------------------

  /** How many calls of `subexpr` are nested. */
  function Depth(t: Tree): nat {
    match t
    case Leaf(_) => 1
    case Paren(x) => 1 + Depth(x)
    case Un(_, x) => 1 + Depth(x)
    case Bin(_, a, b) => if Depth(a) > 1 + Depth(b) then Depth(a) else 1 + Depth(b)
  }

  /** The left edge of the tree has only operators above the limit. */
  predicate Above(t: Tree, limit: nat) {
    t.Bin? ==> Left(t.op) > limit && Above(t.a, limit)
  }

  /** What follows does not take away the end of the tree. */
  predicate Stops(t: Tree, rest: seq<Token>) {
    var op := GetBinOp(First(rest)); op != [] ==> EndsBefore(t, op[0])
  }

  lemma {:induction false} AboveUnary(t: Tree)
    requires StartsAfterUnary(t)
    ensures Above(t, UNARY_PRIORITY)
  {
    if t.Bin? {
      TableIsManual(t.op, t.op);
      AboveUnary(t.a);
    }
  }

  lemma {:induction false} AboveRight(t: Tree, op: BinOp)
    requires StartsAfter(t, op)
    ensures Above(t, Right(op))
  {
    if t.Bin? {
      TableIsManual(op, t.op);
      AboveRight(t.a, op);
    }
  }

  lemma {:induction false} AboveZero(t: Tree)
    ensures Above(t, 0)
  {
    if t.Bin? {
      TableIsManual(t.op, t.op);
      AboveZero(t.a);
    }
  }

  /** Once the tokens of a proper tree have been read, that tree is what has been
      made of them. */
  lemma {:induction false} Finds(t: Tree, rest: seq<Token>, limit: nat, levels: nat)
    requires Proper(t) && Above(t, limit) && Stops(t, rest) && Depth(t) <= levels
    ensures SubExpr(Yield(t) + rest, limit, levels) == Loop(t, rest, limit, levels - 1)
    decreases t
  {
    hide SubExpr, Loop, GoesOn;
    match t
    case Leaf(id) => LeafFinds(id, rest, limit, levels);
    case Paren(x) =>
      AboveZero(x);
      Finds(x, [Close] + rest, 0, levels - 1);
      LoopEnds(x, [Close] + rest, 0, levels - 2);
      ParenFinds(x, rest, limit, levels);
    case Un(u, x) =>
      AboveUnary(x);
      Finds(x, rest, UNARY_PRIORITY, levels - 1);
      UnaryStops(u, x, rest);
      LoopEnds(x, rest, UNARY_PRIORITY, levels - 2);
      UnaryFinds(u, x, rest, limit, levels);
    case Bin(op, a, b) =>
      var mid := [OpToken(op)] + (Yield(b) + rest);
      assert Yield(t) + rest == Yield(a) + mid;
      Finds(a, mid, limit, levels);
      AboveRight(b, op);
      Finds(b, rest, Right(op), levels - 1);
      BinaryStops(op, a, b, rest);
      LoopEnds(b, rest, Right(op), levels - 2);
      LoopTakes(op, a, b, rest, limit, levels - 1);
  }

  lemma ParenFinds(x: Tree, rest: seq<Token>, limit: nat, levels: nat)
    requires levels > 0 && SubExpr(Yield(x) + ([Close] + rest), 0, levels - 1) == Ok(x, [Close] + rest)
    ensures SubExpr(Yield(Paren(x)) + rest, limit, levels) == Loop(Paren(x), rest, limit, levels - 1)
  {
    var ts := Yield(Paren(x)) + rest;
    assert ts[1..] == Yield(x) + ([Close] + rest) && ([Close] + rest)[1..] == rest;
    hide Loop;
  }

  lemma UnaryFinds(u: UnOp, x: Tree, rest: seq<Token>, limit: nat, levels: nat)
    requires levels > 0 && SubExpr(Yield(x) + rest, UNARY_PRIORITY, levels - 1) == Ok(x, rest)
    ensures SubExpr(Yield(Un(u, x)) + rest, limit, levels) == Loop(Un(u, x), rest, limit, levels - 1)
  {
    var ts := Yield(Un(u, x)) + rest;
    assert ts[1..] == Yield(x) + rest;
    hide Loop;
  }

  lemma LeafFinds(id: nat, rest: seq<Token>, limit: nat, levels: nat)
    requires levels > 0
    ensures SubExpr(Yield(Leaf(id)) + rest, limit, levels) == Loop(Leaf(id), rest, limit, levels - 1)
  {
    assert (Yield(Leaf(id)) + rest)[1..] == rest;
    hide Loop;
  }

  /** The loop ends when no operator above the limit is next. */
  lemma LoopEnds(t: Tree, ts: seq<Token>, limit: nat, levels: int)
    ensures levels >= 0 && !GoesOn(ts, limit) ==> Loop(t, ts, limit, levels) == Ok(t, ts)
    ensures First(ts).Close? ==> !GoesOn(ts, limit)
  {}

  /** The loop takes one operator and its second operand. */
  lemma LoopTakes(op: BinOp, a: Tree, b: Tree, rest: seq<Token>, limit: nat, levels: nat)
    requires Left(op) > limit && SubExpr(Yield(b) + rest, Right(op), levels) == Ok(b, rest)
    ensures Loop(a, [OpToken(op)] + (Yield(b) + rest), limit, levels) == Loop(Bin(op, a, b), rest, limit, levels)
  {
    hide SubExpr;
    var more := Yield(b) + rest;
    assert ([OpToken(op)] + more)[1..] == more;
    assert GetBinOp(OpToken(op)) == [op];
  }

  lemma UnaryStops(u: UnOp, x: Tree, rest: seq<Token>)
    requires Stops(Un(u, x), rest)
    ensures !GoesOn(rest, UNARY_PRIORITY)
  {
    var op := GetBinOp(First(rest));
    if op != [] { TableIsManual(op[0], op[0]); }
  }

  lemma BinaryStops(o: BinOp, a: Tree, b: Tree, rest: seq<Token>)
    requires Stops(Bin(o, a, b), rest)
    ensures !GoesOn(rest, Right(o))
  {
    var op := GetBinOp(First(rest));
    if op != [] { TableIsManual(o, op[0]); }
  }

  // ---- Every tree found is proper -----------------------------------------

  /** The tree is proper and nested no deeper than allowed, its tokens are those that
      have been read, and the first operator left over does not exceed the limit. */
  ghost predicate Good(ts: seq<Token>, limit: nat, levels: nat, r: Parsed) {
    r.Ok? ==> Depth(r.t) <= levels && Proper(r.t) && Above(r.t, limit) && ts == Yield(r.t) + r.rest && Stops(r.t, r.rest) && !GoesOn(r.rest, limit)
  }

  lemma {:induction false} SubExprGood(ts: seq<Token>, limit: nat, levels: nat)
    ensures Good(ts, limit, levels, SubExpr(ts, limit, levels))
    decreases |ts|, 1
  {
    if levels > 0 {
      OperandGood(ts, levels - 1);
      var r := Operand(ts, levels - 1);
      if r.Ok? { LoopGood(ts, r.t, r.rest, limit, levels - 1); }
    }
  }

  lemma {:induction false} OperandGood(ts: seq<Token>, levels: nat)
    ensures var r := Operand(ts, levels); r.Ok? ==> !r.t.Bin? && Depth(r.t) <= levels + 1 && Proper(r.t) && ts == Yield(r.t) + r.rest && Stops(r.t, r.rest)
    decreases |ts|, 0
  {
    var u := GetUnOp(First(ts));
    if u != [] {
      assert ts == [ts[0]] + ts[1..] && ts[0] == UnToken(u[0]);
      SubExprGood(ts[1..], UNARY_PRIORITY, levels);
      var r := SubExpr(ts[1..], UNARY_PRIORITY, levels);
      if r.Ok? {
        UnaryAbove(r.t);
        NotHigher(r.rest, UNARY_PRIORITY);
        assert ts == Yield(Un(u[0], r.t)) + r.rest;
      }
    } else if First(ts).Open? {
      assert ts == [Open] + ts[1..];
      SubExprGood(ts[1..], 0, levels);
      var r := SubExpr(ts[1..], 0, levels);
      if r.Ok? && First(r.rest).Close? {
        assert r.rest == [Close] + r.rest[1..];
        assert ts == Yield(Paren(r.t)) + r.rest[1..];
      }
    } else if First(ts).Atom? {
      assert ts == [ts[0]] + ts[1..];
    }
  }

  lemma {:induction false} UnaryAbove(t: Tree)
    requires Above(t, UNARY_PRIORITY)
    ensures StartsAfterUnary(t)
  {
    if t.Bin? {
      TableIsManual(t.op, t.op);
      UnaryAbove(t.a);
    }
  }

  lemma {:induction false} RightAbove(t: Tree, op: BinOp)
    requires Above(t, Right(op))
    ensures StartsAfter(t, op)
  {
    if t.Bin? {
      TableIsManual(op, t.op);
      RightAbove(t.a, op);
    }
  }

  lemma NotHigher(rest: seq<Token>, limit: nat)
    requires !GoesOn(rest, limit)
    ensures var op := GetBinOp(First(rest));
            op != [] ==> (limit == UNARY_PRIORITY ==> UnaryFirst(op[0])) && forall o :: limit == Right(o) ==> GroupsLeft(o, op[0])
  {
    var op := GetBinOp(First(rest));
    if op != [] {
      forall o ensures limit == Right(o) ==> GroupsLeft(o, op[0]) { TableIsManual(o, op[0]); }
      TableIsManual(op[0], op[0]);
    }
  }

  lemma {:induction false} LoopGood(all: seq<Token>, t: Tree, ts: seq<Token>, limit: nat, levels: nat)
    requires Depth(t) <= levels + 1 && Proper(t) && Above(t, limit) && all == Yield(t) + ts && Stops(t, ts)
    ensures Good(all, limit, levels + 1, Loop(t, ts, limit, levels))
    decreases |ts|, 0
  {
    if GoesOn(ts, limit) {
      var op := GetBinOp(ts[0])[0];
      SubExprGood(ts[1..], Right(op), levels);
      var r := SubExpr(ts[1..], Right(op), levels);
      if r.Ok? {
        assert ts == [OpToken(op)] + ts[1..];
        assert all == Yield(Bin(op, t, r.t)) + r.rest;
        RightAbove(r.t, op);
        NotHigher(r.rest, Right(op));
        LoopGood(all, Bin(op, t, r.t), r.rest, limit, levels);
      }
    }
  }

  // ---- Both together ------------------------------------------------------

  /** What the parser accepts is the one proper tree with these tokens. */
  lemma TheOneTree(ts: seq<Token>, levels: nat, other: Tree)
    requires SubExpr(ts, 0, levels).Ok? && SubExpr(ts, 0, levels).rest == []
    ensures var t := SubExpr(ts, 0, levels).t; Proper(t) && Yield(t) == ts && (Proper(other) && Yield(other) == ts ==> other == t)
  {
    SubExprGood(ts, 0, levels);
    var t := SubExpr(ts, 0, levels).t;
    assert Yield(t) + [] == Yield(t);
    if Proper(other) && Yield(other) == ts { Unique(t, other); }
  }

  /** No two proper trees have the same tokens. */
  lemma Unique(t: Tree, other: Tree)
    requires Proper(t) && Proper(other) && Yield(t) == Yield(other)
    ensures t == other
  {
    var levels := if Depth(t) > Depth(other) then Depth(t) else Depth(other);
    Accepts(t, levels);
    Accepts(other, levels);
  }

  /** Every proper tree that is not nested too deeply is accepted. */
  lemma Accepts(t: Tree, levels: nat)
    requires Proper(t) && Depth(t) <= levels
    ensures SubExpr(Yield(t), 0, levels) == Ok(t, [])
  {
    AboveZero(t);
    assert Yield(t) + [] == Yield(t);
    Finds(t, [], 0, levels);
  }

  /** The nesting limit is the only thing that can be wrong with a proper tree. */
  lemma AcceptsExactly(t: Tree, levels: nat)
    requires Proper(t)
    ensures SubExpr(Yield(t), 0, levels) == if Depth(t) <= levels then Ok(t, []) else Err(TooManyLevels)
  {
    if Depth(t) <= levels {
      Accepts(t, levels);
    } else {
      Accepts(t, Depth(t));
      SubExprGood(Yield(t), 0, levels);
      MoreLevels(Yield(t), 0, levels, Depth(t) - levels);
    }
  }

  /** With more levels allowed the outcome is the same, unless it was for want of
      levels. */
  lemma {:induction false} MoreLevels(ts: seq<Token>, limit: nat, levels: nat, more: nat)
    ensures SubExpr(ts, limit, levels) == Err(TooManyLevels) || SubExpr(ts, limit, levels + more) == SubExpr(ts, limit, levels)
    decreases |ts|, 1
  {
    if levels > 0 {
      OperandMore(ts, levels - 1, more);
      var r := Operand(ts, levels - 1);
      if r.Ok? { LoopMore(r.t, r.rest, limit, levels - 1, more); }
    }
  }

  lemma {:induction false} OperandMore(ts: seq<Token>, levels: nat, more: nat)
    ensures Operand(ts, levels) == Err(TooManyLevels) || Operand(ts, levels + more) == Operand(ts, levels)
    decreases |ts|, 0
  {
    if GetUnOp(First(ts)) != [] {
      MoreLevels(ts[1..], UNARY_PRIORITY, levels, more);
    } else if First(ts).Open? {
      MoreLevels(ts[1..], 0, levels, more);
    }
  }

  lemma {:induction false} LoopMore(t: Tree, ts: seq<Token>, limit: nat, levels: nat, more: nat)
    ensures Loop(t, ts, limit, levels) == Err(TooManyLevels) || Loop(t, ts, limit, levels + more) == Loop(t, ts, limit, levels)
    decreases |ts|, 0
  {
    if GoesOn(ts, limit) {
      var op := GetBinOp(ts[0])[0];
      MoreLevels(ts[1..], Right(op), levels, more);
      var r := SubExpr(ts[1..], Right(op), levels);
      if r.Ok? { LoopMore(Bin(op, t, r.t), r.rest, limit, levels, more); }
    }
  }

  // ---- The parser ---------------------------------------------------------

  datatype Result = Success(t: Tree) | Failure(error: Error)

  /** The lexical state, as far as expressions need it. */
  class LexState {
    const tokens: seq<Token>
    var pos: nat
    var nCcalls: nat

    constructor (tokens: seq<Token>)
      ensures Valid() && Rest() == tokens && nCcalls == 0
    {
      this.tokens, pos, nCcalls := tokens, 0, 0;
    }

    ghost predicate Valid()
      reads this
    {
      pos <= |tokens| && nCcalls <= MAXCCALLS
    }

    /** The tokens not read yet; the first one is the current token. */
    ghost function Rest(): seq<Token>
      reads this
      requires Valid()
    {
      tokens[pos..]
    }

    function Current(): (t: Token)
      reads this
      requires Valid()
      ensures t == First(Rest())
    {
      if pos < |tokens| then tokens[pos] else Other
    }

    /** `luaX_next`. */
    method Advance()
      requires Valid() && pos < |tokens|
      modifies `pos
      ensures Valid() && Rest() == old(Rest())[1..]
    {
      pos := pos + 1;
    }

    /** The outcome agrees with what the tokens say. */
    ghost predicate Did(r: Result, p: Parsed, calls: nat)
      reads this
      requires Valid()
    {
      match p
      case Err(e) => r == Failure(e)
      case Ok(t, rest) => r == Success(t) && Rest() == rest && nCcalls == calls
    }

    /** `subexpr`; the operator it returns is the one its caller finds next. */
    method ParseSubExpr(limit: nat) returns (r: Result)
      requires Valid()
      modifies this
      ensures Valid() && Did(r, SubExpr(old(Rest()), limit, 200 - old(nCcalls)), old(nCcalls))
      decreases MAXCCALLS - nCcalls, 0
    {
      hide Operand, Loop;
      if nCcalls == MAXCCALLS { return Failure(TooManyLevels); }
      nCcalls := nCcalls + 1;
      r := ParseOperand();
      if r.Failure? { return; }
      r := ParseOperators(r.t, limit);
      if r.Success? { nCcalls := nCcalls - 1; }
    }

    /** Its first part, with `simpleexp`. */
    method ParseOperand() returns (r: Result)
      requires Valid()
      modifies this
      ensures Valid() && Did(r, Operand(old(Rest()), MAXCCALLS - old(nCcalls)), old(nCcalls))
      decreases MAXCCALLS - nCcalls, 1
    {
      hide SubExpr;
      var u := GetUnOp(Current());
      if u != [] {
        Advance();
        r := ParseSubExpr(UNARY_PRIORITY);
        if r.Success? { r := Success(Un(u[0], r.t)); }
      } else if Current().Open? {
        Advance();
        r := ParseSubExpr(0);
        if r.Failure? { return; }
        if !Current().Close? { return Failure(Unexpected); }
        Advance();
        r := Success(Paren(r.t));
      } else if Current().Atom? {
        r := Success(Leaf(tokens[pos].id));
        Advance();
      } else {
        r := Failure(Unexpected);
      }
    }

    /** Its loop over the operators. */
    method ParseOperators(first: Tree, limit: nat) returns (r: Result)
      requires Valid()
      modifies this
      ensures Valid() && Did(r, Loop(first, old(Rest()), limit, MAXCCALLS - old(nCcalls)), old(nCcalls))
      decreases MAXCCALLS - nCcalls, 1
    {
      hide SubExpr;
      var t := first;
      ghost var start, calls := Rest(), nCcalls;
      var op := GetBinOp(Current());
      while op != [] && Left(op[0]) > limit
        invariant Valid() && nCcalls == calls && op == GetBinOp(First(Rest()))
        invariant Loop(first, start, limit, MAXCCALLS - calls) == Loop(t, Rest(), limit, MAXCCALLS - calls)
        decreases |tokens| - pos
      {
        Advance();
        r := ParseSubExpr(Right(op[0]));
        if r.Failure? { return; }
        t := Bin(op[0], t, r.t);
        op := GetBinOp(Current());
      }
      r := Success(t);
    }
  }
}
