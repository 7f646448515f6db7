/** The collector's view of the heap: objects, their references, their mark
    bits and the lists the collector threads them on.

    An object is named by a `Ref` (its address).  A colour is one of the four
    combinations of the two white bits and the black bit that the collector
    uses; module `MarkBits` relates it to the byte in the object header. */
module GcHeap {

  type Ref = nat

  datatype Option<+T> = None | Some(value: T)

  /** A tagged value; only strings, userdata, functions, tables and threads
      (and, inside closures and prototypes, upvalues and prototypes) are
      collectable.  `DeadKey` is what is left of the key of an emptied entry. */
  datatype Value = Nil | Plain(n: int) | DeadKey | Gc(ref: Ref)

  /** `White(w)` has white bit `w` set, `Gray` none of the three colour bits. */
  datatype Color = White(which: bool) | Gray | Black

  datatype Mark = Mark(color: Color, fixed: bool, keyWeak: bool, valueWeak: bool)

  datatype Node = Node(key: Value, val: Value)

  datatype Obj =
    | Str(bytes: seq<bv8>)
    | Udata(meta: Option<Ref>, env: Ref)
    | Open(thread: Ref, level: nat)
    | Closed(val: Value)
    | Func(refs: seq<Value>)
    | Proto(consts: seq<Value>)
    | Table(mt: Option<Ref>, mode: (bool, bool), arr: seq<Value>, nodes: seq<Node>)
    | Thread(gt: Value, stack: seq<Value>, open: seq<Ref>)

  datatype Phase = Pause | Propagate | SweepString | Sweep | Finalize

  /** The collector's other registers.  `rootgc` is the list `swept + rest`; the
      sweep pointer is the link field between the two parts.  `cur` is the
      current white.  `tmp` holds the references that C code has in hand but has
      not stored anywhere yet.  `uvhead` is the list of all open upvalues. */
  datatype Global = Global(
    cur: bool,
    phase: Phase,
    swept: seq<Ref>,
    rest: seq<Ref>,
    strt: seq<seq<Ref>>,
    nuse: int,
    sweepstr: nat,
    uvhead: seq<Ref>,
    main: Ref,
    running: Ref,
    registry: Value,
    mts: seq<Option<Ref>>,
    tmp: set<Ref>)

  datatype State = State(
    objs: map<Ref, Obj>,
    mark: map<Ref, Mark>,
    gray: seq<Ref>,
    grayagain: seq<Ref>,
    weak: seq<Ref>,
    g: Global)

  // ---- Colours ------------------------------------------------------------

  predicate IsWhite(s: State, r: Ref) {
    r in s.mark && s.mark[r].color.White?
  }

  predicate IsBlack(s: State, r: Ref) {
    r in s.mark && s.mark[r].color.Black?
  }

  predicate IsGray(s: State, r: Ref) {
    r in s.mark && s.mark[r].color.Gray?
  }

  predicate IsDead(s: State, r: Ref) {
    r in s.mark && s.mark[r].color == White(!s.g.cur)
  }

  function SetColor(s: State, r: Ref, c: Color): State
    requires r in s.mark
  {
    s.(mark := s.mark[r := s.mark[r].(color := c)])
  }

  function Whites(s: State): set<Ref> {
    set r | r in s.mark && s.mark[r].color.White?
  }

  /** The white test as the marking macros make it: values that are not
      collectable never need marking. */
  predicate Marked(s: State, v: Value) {
    v.Gc? ==> !IsWhite(s, v.ref)
  }

  predicate AllMarked(s: State, vs: seq<Value>) {
    forall v <- vs :: Marked(s, v)
  }

  // ---- References ---------------------------------------------------------

  function OptRef(o: Option<Ref>): seq<Value> {
    match o case None => [] case Some(r) => [Gc(r)]
  }

  function Backwards(vs: seq<Value>): seq<Value>
    ensures forall v :: v in Backwards(vs) <==> v in vs
  {
    if vs == [] then [] else
      assert vs == vs[..|vs| - 1] + [vs[|vs| - 1]];
      [vs[|vs| - 1]] + Backwards(vs[..|vs| - 1])
  }

  /** What one node holds; an empty entry (nil value) holds nothing, whatever
      its key still says. */
  function Entry(n: Node, keyWeak: bool, valueWeak: bool): seq<Value> {
    if n.val.Nil? then [] else
      (if keyWeak then [] else [n.key]) + (if valueWeak then [] else [n.val])
  }

  /** What a table's nodes hold, from the last node to the first. */
  function NodeRefs(nodes: seq<Node>, keyWeak: bool, valueWeak: bool): seq<Value> {
    if nodes == [] then [] else
      Entry(nodes[|nodes| - 1], keyWeak, valueWeak)
      + NodeRefs(nodes[..|nodes| - 1], keyWeak, valueWeak)
  }

  lemma NodeRefsMember(nodes: seq<Node>, keyWeak: bool, valueWeak: bool, v: Value)
    ensures v in NodeRefs(nodes, keyWeak, valueWeak) <==>
            exists n :: n in nodes && !n.val.Nil? &&
                        ((!keyWeak && v == n.key) || (!valueWeak && v == n.val))
  {
    if nodes == [] {
    } else {
      var n := nodes[|nodes| - 1];
      assert nodes == nodes[..|nodes| - 1] + [n];
      NodeRefsMember(nodes[..|nodes| - 1], keyWeak, valueWeak, v);
    }
  }

  /** The part of a table's contents that counts as strong, in the order in
      which the traversal marks it (after the metatable). */
  function Contents(o: Obj, keyWeak: bool, valueWeak: bool): seq<Value>
    requires o.Table?
  {
    if keyWeak && valueWeak then []
    else (if valueWeak then [] else Backwards(o.arr)) + NodeRefs(o.nodes, keyWeak, valueWeak)
  }

  /** Weakness is read from the `__mode` field of the metatable. */
  function Mode(s: State, mt: Option<Ref>): (bool, bool) {
    if mt.Some? && mt.value in s.objs && s.objs[mt.value].Table?
    then s.objs[mt.value].mode
    else (false, false)
  }

  /** The value of an upvalue: its own when closed, a stack slot when open. */
  function UpvalValue(s: State, o: Obj): Value {
    match o
    case Closed(v) => v
    case Open(th, level) =>
      if th in s.objs && s.objs[th].Thread? && level < |s.objs[th].stack|
      then s.objs[th].stack[level]
      else Nil
    case _ => Nil
  }

  /** Everything object `o` refers to, weakly or strongly. */
  function Refs(s: State, o: Obj): seq<Value> {
    match o
    case Str(_) => []
    case Udata(mt, env) => OptRef(mt) + [Gc(env)]
    case Open(_, _) => [UpvalValue(s, o)]
    case Closed(v) => [v]
    case Func(vs) => vs
    case Proto(vs) => vs
    case Table(mt, _, _, _) => OptRef(mt) + Contents(o, false, false)
    case Thread(gt, stack, _) => [gt] + stack
  }

  /** What object `o` keeps alive. */
  function StrongRefs(s: State, o: Obj): seq<Value> {
    if o.Table? then OptRef(o.mt) + Contents(o, Mode(s, o.mt).0, Mode(s, o.mt).1)
    else Refs(s, o)
  }

  lemma ContentsSubset(o: Obj, kw: bool, vw: bool, v: Value)
    requires o.Table? && v in Contents(o, kw, vw)
    ensures v in Contents(o, false, false)
  {
    NodeRefsMember(o.nodes, kw, vw, v);
    NodeRefsMember(o.nodes, false, false, v);
  }

  lemma StrongSubset(s: State, o: Obj, v: Value)
    requires v in StrongRefs(s, o)
    ensures v in Refs(s, o)
  {
    if o.Table? && v in Contents(o, Mode(s, o.mt).0, Mode(s, o.mt).1) {
      ContentsSubset(o, Mode(s, o.mt).0, Mode(s, o.mt).1, v);
    }
  }

  predicate Distinct(l: seq<Ref>) {
    forall i, j :: 0 <= i < j < |l| ==> l[i] != l[j]
  }

  predicate Disjoint(a: seq<Ref>, b: seq<Ref>) {
    forall x <- a :: x !in b
  }

  /** Threads and open upvalues are never black, userdata and closed upvalues
      never gray, strings never black. */
  predicate ColorOk(o: Obj, c: Color) {
    match o
    case Str(_) => !c.Black?
    case Thread(_, _, _) => !c.Black?
    case Open(_, _) => !c.Black?
    case Udata(_, _) => !c.Gray?
    case Closed(_) => !c.Gray?
    case _ => true
  }

  /** The kinds that wait on the gray list until they are traversed. */
  predicate Container(o: Obj) {
    o.Func? || o.Proto? || o.Table? || o.Thread?
  }
}
