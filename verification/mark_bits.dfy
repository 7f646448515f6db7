/** The mark byte of an object header, and the bit tricks that read and change
    it.  The model of the heap speaks of `Mark` values; this module shows that
    the bit tricks do to the byte what the model does to the value. */
module MarkBits {
  import opened GcHeap

  const WHITE0: bv8 := 1
  const WHITE1: bv8 := 2
  const BLACK: bv8 := 4
  const KEYWEAK: bv8 := 8
  const VALUEWEAK: bv8 := 16
  const FIXED: bv8 := 32
  const WHITEBITS: bv8 := 3

  function Bit(on: bool, mask: bv8): bv8 {
    if on then mask else 0
  }

  function ColorBits(c: Color): bv8 {
    match c
    case White(which) => if which then WHITE1 else WHITE0
    case Gray => 0
    case Black => BLACK
  }

  function Encode(m: Mark): bv8 {
    ColorBits(m.color) | Bit(m.keyWeak, KEYWEAK) | Bit(m.valueWeak, VALUEWEAK) | Bit(m.fixed, FIXED)
  }

  function Decode(x: bv8): Mark {
    Mark(if x & WHITE0 != 0 then White(false) else if x & WHITE1 != 0 then White(true)
         else if x & BLACK != 0 then Black else Gray,
         x & FIXED != 0, x & KEYWEAK != 0, x & VALUEWEAK != 0)
  }

  /** No two marks share a byte. */
  lemma EncodeFaithful(m: Mark)
    ensures Decode(Encode(m)) == m
  {
    BitSet(m.keyWeak, m.valueWeak, m.fixed);
    match m.color {
      case White(w) =>
      case Gray =>
      case Black =>
    }
  }

  lemma BitSet(a: bool, b: bool, c: bool)
    ensures (Bit(a, KEYWEAK) | Bit(b, VALUEWEAK) | Bit(c, FIXED)) & 7 == 0
    ensures (Bit(a, KEYWEAK) | Bit(b, VALUEWEAK) | Bit(c, FIXED)) & KEYWEAK == Bit(a, KEYWEAK)
    ensures (Bit(a, KEYWEAK) | Bit(b, VALUEWEAK) | Bit(c, FIXED)) & VALUEWEAK == Bit(b, VALUEWEAK)
    ensures (Bit(a, KEYWEAK) | Bit(b, VALUEWEAK) | Bit(c, FIXED)) & FIXED == Bit(c, FIXED)
  {}

  // ---- The tests ----------------------------------------------------------

  /** `g->currentwhite`: one white bit, and the bit of fixed objects, so that
      they pass the test of the sweep. */
  function CurrentWhite(cur: bool): bv8 {
    ColorBits(White(cur)) | FIXED
  }

  /** `otherwhite`. */
  function OtherWhite(white: bv8): bv8 {
    white ^ WHITEBITS
  }

  lemma ColorTests(m: Mark)
    ensures Encode(m) & WHITEBITS != 0 <==> m.color.White?
    ensures Encode(m) & BLACK != 0 <==> m.color.Black?
    ensures Encode(m) & WHITEBITS == 0 && Encode(m) & BLACK == 0 <==> m.color.Gray?
  {}

  /** `isdead`. */
  lemma DeadTest(m: Mark, cur: bool)
    ensures Encode(m) & OtherWhite(CurrentWhite(cur)) & WHITEBITS != 0 <==> m.color == White(!cur)
  {}

  /** The test of `sweeplist`: one mask asks for both reasons to keep an object. */
  lemma SweepTest(m: Mark, cur: bool)
    ensures (Encode(m) ^ WHITEBITS) & OtherWhite(CurrentWhite(cur)) != 0 <==>
            m.color != White(!cur) || m.fixed
  {}

  // ---- The changes --------------------------------------------------------

  /** `makewhite`. */
  lemma MakeWhite(m: Mark, cur: bool)
    ensures (Encode(m) & !(BLACK | WHITEBITS)) | (CurrentWhite(cur) & WHITEBITS) == Encode(m.(color := White(cur)))
  {}

  /** `white2gray`, on any object, and `black2gray`. */
  lemma MakeGray(m: Mark)
    ensures !m.color.Black? ==> Encode(m) & !WHITEBITS == Encode(m.(color := Gray))
    ensures !m.color.White? ==> Encode(m) & !BLACK == Encode(m.(color := Gray))
  {}

  /** `gray2black`: only right when the object has left white. */
  lemma MakeBlack(m: Mark)
    ensures Encode(m) | BLACK == Encode(m.(color := Black)) <==> !m.color.White?
  {}

  /** `changewhite`: swaps the whites; on any other colour it would set both. */
  lemma ChangeWhite(m: Mark)
    ensures (exists n: Mark :: Encode(m) ^ WHITEBITS == Encode(n)) <==> m.color.White?
    ensures m.color.White? ==> Encode(m) ^ WHITEBITS == Encode(m.(color := White(!m.color.which)))
  {
    if m.color.White? {
      assert Encode(m) ^ WHITEBITS == Encode(m.(color := White(!m.color.which)));
    } else {
      forall n: Mark ensures Encode(m) ^ WHITEBITS != Encode(n) {
        assert (Encode(m) ^ WHITEBITS) & WHITEBITS == WHITEBITS;
        assert Encode(n) & WHITEBITS != WHITEBITS;
      }
    }
  }
}
