/** The hash of interned strings (`luaS_newlstr`). */
module StringHash {

  /** From the end of the string, one character every `step`. */
  function HashFrom(bytes: seq<bv8>, left: nat, step: nat, h: bv32): bv32
    requires left <= |bytes| && step > 0
    decreases left
  {
    if left < step then h
    else HashFrom(bytes, left - step, step, Mixed(h, bytes[left - 1]))
  }

  function Mixed(h: bv32, c: bv8): bv32 {
    h ^ ((h << 5) + (h >> 2) + (c as bv32))
  }

  /** The seed is the length (as a 32-bit number); long strings are sampled. */
  function Hash(bytes: seq<bv8>): bv32 {
    HashFrom(bytes, |bytes|, |bytes| / 32 + 1, (|bytes| % 0x1_0000_0000) as bv32)
  }

  /** `lmod`: the bucket of a string in a table of `size` buckets. */
  function Bucket(bytes: seq<bv8>, size: nat): (b: nat)
    requires size > 0
    ensures b < size
  {
    (Hash(bytes) as nat) % size
  }

  /** The loop of `luaS_newlstr` over the characters. */
  method FindBucket(bytes: seq<bv8>, size: nat) returns (b: nat)
    requires size > 0
    ensures b == Bucket(bytes, size)
  {
    hide Mixed;
    var h := (|bytes| % 0x1_0000_0000) as bv32;
    var step := |bytes| / 32 + 1;
    var left := |bytes|;
    while left >= step
      invariant 0 <= left <= |bytes| && HashFrom(bytes, left, step, h) == Hash(bytes)
    {
      h := Mixed(h, bytes[left - 1]);
      left := left - step;
    }
    b := (h as nat) % size;
  }

  // ---- What it depends on -------------------------------------------------

  /** The characters that count: the last, and those before it in steps that grow by
      one with every 32 characters; all of them in a string of less than 32. */
  ghost predicate Counts(n: nat, i: nat) {
    i < n && exists k: nat :: i == Place(n, k)
  }

  function Place(n: nat, k: nat): int {
    n - 1 - k * (n / 32 + 1)
  }

  /** Two strings of the same length with the same characters that count have the same
      hash. */
  lemma Sampled(a: seq<bv8>, b: seq<bv8>)
    requires |a| == |b| && forall i: nat :: Counts(|a|, i) ==> a[i] == b[i]
    ensures Hash(a) == Hash(b)
  {
    SampledFrom(a, b, |a|, |a| / 32 + 1, (|a| % 0x1_0000_0000) as bv32, 0);
  }

  lemma {:induction false} SampledFrom(a: seq<bv8>, b: seq<bv8>, left: nat, step: nat, h: bv32, turns: nat)
    requires |a| == |b| && left <= |a| && step == |a| / 32 + 1 && |a| - left == turns * step
    requires forall i: nat :: Counts(|a|, i) ==> a[i] == b[i]
    ensures HashFrom(a, left, step, h) == HashFrom(b, left, step, h)
    decreases left
  {
    hide Mixed;
    if left >= step {
      assert left - 1 == Place(|a|, turns) && Counts(|a|, left - 1);
      assert |a| - (left - step) == (turns + 1) * step;
      hide Counts, Place;
      SampledFrom(a, b, left - step, step, Mixed(h, a[left - 1]), turns + 1);
    }
  }

  /** The hashes of the empty string, of `a` and of `ab`. */
  lemma Examples()
    ensures Hash([]) == 0 && Hash([97]) == 128 && Hash([97, 98]) == 5161
  {
    var one: seq<bv8> := [97];
    var two: seq<bv8> := [97, 98];
    assert HashFrom(one, 1, 1, 1) == HashFrom(one, 0, 1, 128);
    assert HashFrom(two, 2, 1, 2) == HashFrom(two, 1, 1, 160);
    assert HashFrom(two, 1, 1, 160) == HashFrom(two, 0, 1, 5161);
  }
}
