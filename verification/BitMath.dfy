/** The bit trick that rounds a slot size up to a power of two, on 64-bit numbers whose
    bitwise operators are spelled out. */
module BitMath {
  import opened Basics

  /** a >> j */
  function Shr(a: nat, j: nat): nat {
    if j == 0 then a else Shr(a / 2, j - 1)
  }

  /** a | b */
  function Or(a: nat, b: nat): nat {
    if a == 0 then b
    else if b == 0 then a
    else 2 * Or(a / 2, b / 2) + if a % 2 == 1 || b % 2 == 1 then 1 else 0
  }

  function Pow2(k: nat): (p: nat)
    ensures p > 0
  {
    if k == 0 then 1 else 2 * Pow2(k - 1)
  }

  lemma Pow2Byte(k: nat)
    ensures Pow2(k + 8) == 0x100 * Pow2(k)
  {
    var h := k + 4;
    assert Pow2(h) == 0x10 * Pow2(k) by {
      assert Pow2(h) == 4 * Pow2(k + 2);
    }
    assert Pow2(h + 4) == 4 * Pow2(h + 2);
  }

  lemma Pow2Word(k: nat)
    ensures Pow2(k + 32) == 0x1_0000_0000 * Pow2(k)
  {
    Pow2Byte(k);
    Pow2Byte(k + 8);
    Pow2Byte(k + 16);
    Pow2Byte(k + 24);
  }

  lemma Pow2Of64(n: nat)
    requires n == 64
    ensures Pow2(n - 1) == TWO_63 && Pow2(n) == TWO_64
  {
    var zero := n - 64;
    Pow2Word(zero);
    Pow2Word(zero + 32);
  }

  lemma {:induction false} Pow2Monotone(j: nat, k: nat)
    requires j < k
    ensures 2 * Pow2(j) <= Pow2(k)
  {
    if j < k - 1 {
      Pow2Monotone(j, k - 1);
    }
  }

  lemma Pow2Bounds(j: nat, k: nat)
    ensures j <= k ==> Pow2(j) <= Pow2(k)
    ensures j < k ==> 2 * Pow2(j) <= Pow2(k)
  {
    if j < k {
      Pow2Monotone(j, k);
    }
  }

  // ---- runs of ones ----

  /** x is k ones and nothing above. */
  predicate Ones(x: nat, k: nat) {
    if k == 0 then x == 0 else x % 2 == 1 && Ones(x / 2, k - 1)
  }

  lemma {:induction false} OnesPlusOne(x: nat, k: nat)
    requires Ones(x, k)
    ensures x + 1 == Pow2(k)
  {
    if k > 0 {
      OnesPlusOne(x / 2, k - 1);
    }
  }

  lemma {:induction false} OnesShr(x: nat, k: nat, d: nat)
    requires Ones(x, k) && d <= k
    ensures Ones(Shr(x, d), k - d)
  {
    if d > 0 {
      OnesShr(x / 2, k - 1, d - 1);
    }
  }

  lemma {:induction false} ShrAdds(a: nat, i: nat, j: nat)
    ensures Shr(Shr(a, i), j) == Shr(a, i + j)
  {
    if i > 0 {
      ShrAdds(a / 2, i - 1, j);
    }
  }

  lemma {:induction false} ShrOfOr(a: nat, b: nat, j: nat)
    ensures Shr(Or(a, b), j) == Or(Shr(a, j), Shr(b, j))
  {
    if j > 0 {
      assert Or(a, b) / 2 == Or(a / 2, b / 2);
      ShrOfOr(a / 2, b / 2, j - 1);
    }
  }

  /** t ones at the bottom fill up what lies below s ones. */
  lemma {:induction false} OrFills(x: nat, y: nat, t: nat, s: nat)
    requires Ones(Shr(x, t), s) && Ones(y, t)
    ensures Ones(Or(x, y), t + s)
  {
    if t > 0 {
      OrFills(x / 2, y / 2, t - 1, s);
      assert Or(x, y) / 2 == Or(x / 2, y / 2) && Or(x, y) % 2 == 1;
    }
  }

  /** The top s of m's k bits are ones. */
  predicate TopOnes(m: nat, k: nat, s: nat) {
    s <= k && Ones(Shr(m, k - s), s)
  }

  function Min(a: nat, b: nat): nat {
    if a < b then a else b
  }

  /** Or-ing a number with itself, moved down by the length of its run of ones, doubles the run. */
  lemma {:induction false} RunDoubles(m: nat, k: nat, s: nat)
    requires TopOnes(m, k, s)
    ensures TopOnes(Or(m, Shr(m, s)), k, Min(2 * s, k))
  {
    var t := Min(s, k - s);
    var rest := k - s - t;
    ShrOfOr(m, Shr(m, s), rest);
    ShrAdds(m, s, rest);
    ShrAdds(m, rest, t);
    ShrAdds(m, k - s, s - t);
    OnesShr(Shr(m, k - s), s, s - t);
    OrFills(Shr(m, rest), Shr(m, s + rest), t, s);
  }

  lemma {:induction false} OnesVanish(x: nat, k: nat, d: nat)
    requires Ones(x, k) && k <= d
    ensures Shr(x, d) == 0
  {
    if d > 0 {
      OnesVanish(x / 2, if k > 0 then k - 1 else 0, d - 1);
    }
  }

  /** A run that is complete stays so. */
  lemma DoubleRun(m: nat, k: nat, s: nat)
    requires TopOnes(m, k, Min(s, k))
    ensures TopOnes(Or(m, Shr(m, s)), k, Min(2 * s, k))
  {
    if s <= k {
      RunDoubles(m, k, s);
    } else {
      OnesVanish(m, k, s);
    }
  }

  /** A number of k bits: between the powers k - 1 and k, its top bit one. */
  function Bits(m: nat): nat {
    if m == 0 then 0 else Bits(m / 2) + 1
  }

  lemma {:induction false} BitsBound(m: nat)
    ensures m < Pow2(Bits(m))
    ensures m > 0 ==> Pow2(Bits(m) - 1) <= m && TopOnes(m, Bits(m), 1)
  {
    if m > 0 {
      BitsBound(m / 2);
    }
  }

  function Smear(m: nat): nat {
    var a := Or(m, Shr(m, 1));
    var b := Or(a, Shr(a, 2));
    var c := Or(b, Shr(b, 4));
    var d := Or(c, Shr(c, 8));
    var e := Or(d, Shr(d, 16));
    Or(e, Shr(e, 32))
  }

  /** Six doublings fill up to 64 bits. */
  lemma SmearIsOnes(m: nat)
    requires Bits(m) <= 64
    ensures Ones(Smear(m), Bits(m))
  {
    var k := Bits(m);
    BitsBound(m);
    var a := Or(m, Shr(m, 1));
    var b := Or(a, Shr(a, 2));
    var c := Or(b, Shr(b, 4));
    var d := Or(c, Shr(c, 8));
    var e := Or(d, Shr(d, 16));
    DoubleRun(m, k, 1);
    DoubleRun(a, k, 2);
    DoubleRun(b, k, 4);
    DoubleRun(c, k, 8);
    DoubleRun(d, k, 16);
    DoubleRun(e, k, 32);
  }

  /** Setting every bit below the highest and adding one reaches the power of two above m: at
      most 2^63 below 2^63, and 2^64, which is 0 in 64 bits, from there on. */
  lemma SmearIsNext(m: nat, n: nat)
    requires m < TWO_64 && n == 64
    ensures Smear(m) + 1 == Pow2(Bits(m))
    ensures if m < TWO_63 then Pow2(Bits(m)) <= TWO_63 else Pow2(Bits(m)) == TWO_64
  {
    Pow2Of64(n);
    BitsBound(m);
    if n < Bits(m) {
      Pow2Bounds(n, Bits(m) - 1);
    }
    if m < TWO_63 {
      Pow2Bounds(Bits(m), n - 1);
      Pow2Bounds(n, Bits(m));
    } else if Bits(m) < n {
      Pow2Bounds(Bits(m), n - 1);
    }
    SmearIsOnes(m);
    OnesPlusOne(Smear(m), Bits(m));
  }

  // ---- the next power of two ----

  /** The power of two above m is the least one that covers m + 1, and less than twice as large. */
  lemma NextIsLeast(m: nat)
    ensures m + 1 <= Pow2(Bits(m)) < 2 * (m + 1)
    ensures forall j :: m + 1 <= Pow2(j) ==> Pow2(Bits(m)) <= Pow2(j)
  {
    BitsBound(m);
    forall j: nat | m + 1 <= Pow2(j)
      ensures Pow2(Bits(m)) <= Pow2(j)
    {
      if j < Bits(m) - 1 {
        Pow2Monotone(j, Bits(m) - 1);
      } else if Bits(m) < j {
        Pow2Monotone(Bits(m), j);
      }
    }
  }

  ghost predicate IsPowerOfTwo(p: nat) {
    exists k :: p == Pow2(k)
  }

  /** Of 0 and of numbers above 2^63 the last increment overflows to 0. */
  method NextPowerOfTwo(n: uint64) returns (r: uint64)
    ensures 1 <= n <= TWO_63 ==> IsPowerOfTwo(r) && n <= r < 2 * n
    ensures 1 <= n <= TWO_63 ==> forall j :: n <= Pow2(j) ==> r <= Pow2(j)
    ensures n == 0 || n > TWO_63 ==> r == 0
  {
    var m := if n == 0 then TWO_64 - 1 else n - 1;
    SmearIsNext(m, 64);
    NextIsLeast(m);
    var a := Or(m, Shr(m, 1));
    a := Or(a, Shr(a, 2));
    a := Or(a, Shr(a, 4));
    a := Or(a, Shr(a, 8));
    a := Or(a, Shr(a, 16));
    a := Or(a, Shr(a, 32));
    r := if a == TWO_64 - 1 then 0 else a + 1;
  }

  function Larger(a: uint64, b: uint64): uint64 {
    if a < b then b else a
  }

  /** The size of a pool's slots: room for the bytes asked for and for the alignment, and less
      than twice the larger of them. */
  method SlotBytes(bytes: uint64, alignment: uint64) returns (slotBytes: uint64)
    ensures 1 <= Larger(bytes, alignment) <= TWO_63 ==>
              IsPowerOfTwo(slotBytes) && bytes <= slotBytes && alignment <= slotBytes &&
              (slotBytes < 2 * bytes || slotBytes < 2 * alignment) &&
              forall j :: bytes <= Pow2(j) && alignment <= Pow2(j) ==> slotBytes <= Pow2(j)
    ensures Larger(bytes, alignment) == 0 || Larger(bytes, alignment) > TWO_63 ==> slotBytes == 0
  {
    slotBytes := NextPowerOfTwo(Larger(bytes, alignment));
  }
}
