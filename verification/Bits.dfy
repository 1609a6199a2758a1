/** Powers of two, and the bit tricks of the source over natural numbers. */
module Bits {

  function Pow2(k: nat): (p: nat)
    ensures p >= 1
  {
    if k == 0 then 1 else 2 * Pow2(k - 1)
  }

  ghost predicate PowerOfTwo(n: nat) {
    exists k: nat :: n == Pow2(k)
  }

  lemma {:induction false} PowersApart(j: nat, k: nat)
    requires j < k
    ensures 2 * Pow2(j) <= Pow2(k)
    decreases k
  {
    if j < k - 1 {
      PowersApart(j, k - 1);
    }
  }

  /** A power of two between x and 2x is unique. */
  lemma {:induction false} OnePower(a: nat, b: nat, x: nat)
    requires PowerOfTwo(a) && PowerOfTwo(b) && x <= a < 2 * x && x <= b < 2 * x
    ensures a == b
  {
    var j: nat :| a == Pow2(j);
    var k: nat :| b == Pow2(k);
    if j < k {
      PowersApart(j, k);
      assert false;
    } else if k < j {
      PowersApart(k, j);
      assert false;
    }
  }

  lemma {:induction false} HalfPower(v: nat)
    requires v > 0
    ensures PowerOfTwo(v) <==> v == 1 || (v % 2 == 0 && PowerOfTwo(v / 2))
  {
    if PowerOfTwo(v) && v != 1 {
      var k: nat :| v == Pow2(k);
      assert v / 2 == Pow2(k - 1);
    }
    if v == 1 {
      assert v == Pow2(0);
    } else if v % 2 == 0 && PowerOfTwo(v / 2) {
      var k: nat :| v / 2 == Pow2(k);
      assert v == Pow2(k + 1);
    }
  }

  // ------------------------------------------------------------------------------------------
  // and, or, shift
  // ------------------------------------------------------------------------------------------

  function BitAnd(a: nat, b: nat): nat {
    if a == 0 || b == 0 then 0 else 2 * BitAnd(a / 2, b / 2) + if a % 2 == 1 && b % 2 == 1 then 1 else 0
  }

  function BitOr(a: nat, b: nat): nat {
    if a == 0 && b == 0 then 0 else 2 * BitOr(a / 2, b / 2) + if a % 2 == 1 || b % 2 == 1 then 1 else 0
  }

  function Shr(a: nat, k: nat): nat
    decreases k
  {
    if k == 0 then a else Shr(a / 2, k - 1)
  }

  lemma {:induction false} AndSelf(a: nat)
    ensures BitAnd(a, a) == a
  {
    if a > 0 {
      AndSelf(a / 2);
    }
  }

  /** v & (v - 1) is zero exactly for the powers of two. */
  lemma {:induction false} PowerTest(v: nat)
    requires v > 0
    ensures BitAnd(v, v - 1) == 0 <==> PowerOfTwo(v)
    decreases v
  {
    HalfPower(v);
    if v % 2 == 0 {
      PowerTest(v / 2);
      assert (v - 1) / 2 == v / 2 - 1;
    } else if v > 1 {
      AndSelf(v / 2);
      assert (v - 1) / 2 == v / 2;
    }
  }

  // ------------------------------------------------------------------------------------------
  // Single bits
  // ------------------------------------------------------------------------------------------

  predicate Bit(a: nat, i: nat) {
    Shr(a, i) % 2 == 1
  }

  lemma {:induction false} ShrZero(k: nat)
    ensures Shr(0, k) == 0
  {
    if k > 0 {
      ShrZero(k - 1);
    }
  }

  lemma {:induction false} ShrShr(a: nat, i: nat, k: nat)
    ensures Shr(Shr(a, k), i) == Shr(a, i + k)
    decreases k
  {
    if k > 0 {
      ShrShr(a / 2, i, k - 1);
    }
  }

  lemma {:induction false} BitOfOr(a: nat, b: nat, i: nat)
    ensures Bit(BitOr(a, b), i) <==> Bit(a, i) || Bit(b, i)
    decreases i
  {
    if a == 0 && b == 0 {
      ShrZero(i);
    } else if i > 0 {
      BitOfOr(a / 2, b / 2, i - 1);
      assert BitOr(a, b) / 2 == BitOr(a / 2, b / 2);
    }
  }

  /** Numbers with the same bits are the same. */
  lemma {:induction false} SameBits(a: nat, b: nat)
    requires forall i: nat :: Bit(a, i) <==> Bit(b, i)
    ensures a == b
    decreases a + b
  {
    if a > 0 || b > 0 {
      assert Bit(a, 0) <==> Bit(b, 0);
      forall i: nat ensures Bit(a / 2, i) <==> Bit(b / 2, i) {
        var j := i + 1;
        assert Bit(a, j) <==> Bit(b, j);
      }
      SameBits(a / 2, b / 2);
    }
  }

  lemma {:induction false} HighBits(a: nat, k: nat, i: nat)
    requires a < Pow2(k) && k <= i
    ensures Shr(a, i) == 0
    decreases k
  {
    if k == 0 {
      ShrZero(i);
    } else {
      HighBits(a / 2, k - 1, i - 1);
    }
  }

  /** A number that is not zero has a bit. */
  lemma {:induction false} SomeBit(a: nat) returns (j: nat)
    requires a > 0
    ensures Bit(a, j)
    decreases a
  {
    if a % 2 == 1 {
      j := 0;
    } else {
      j := SomeBit(a / 2);
      j := j + 1;
    }
  }

  // ------------------------------------------------------------------------------------------
  // kroundup32
  // ------------------------------------------------------------------------------------------

  /** As many ones as a has digits. */
  function Ones(a: nat): (r: nat)
    ensures a <= r && (a > 0 ==> r < 2 * a)
  {
    if a == 0 then 0 else 2 * Ones(a / 2) + 1
  }

  lemma {:induction false} OnesPower(a: nat)
    ensures PowerOfTwo(Ones(a) + 1)
  {
    if a == 0 {
      assert 1 == Pow2(0);
    } else {
      OnesPower(a / 2);
      var k: nat :| Ones(a / 2) + 1 == Pow2(k);
      assert Ones(a) + 1 == Pow2(k + 1);
    }
  }

  lemma {:induction false} BitOfOnes(a: nat, i: nat)
    ensures Bit(Ones(a), i) <==> Shr(a, i) > 0
    decreases i
  {
    if a == 0 {
      ShrZero(i);
    } else if i > 0 {
      BitOfOnes(a / 2, i - 1);
      assert Ones(a) / 2 == Ones(a / 2);
    }
  }

  /** One of the w bits of a from i on is set. */
  ghost predicate InWindow(a: nat, i: nat, w: nat) {
    exists j: nat :: i <= j < i + w && Bit(a, j)
  }

  ghost predicate Smeared(a: nat, b: nat, w: nat) {
    forall i: nat :: Bit(b, i) <==> InWindow(a, i, w)
  }

  lemma {:induction false} WindowsJoin(a: nat, i: nat, w: nat)
    ensures InWindow(a, i, w) || InWindow(a, i + w, w) <==> InWindow(a, i, 2 * w)
  {
    if InWindow(a, i, 2 * w) {
      var j: nat :| i <= j < i + 2 * w && Bit(a, j);
      assert (i <= j < i + w || i + w <= j < i + w + w) && Bit(a, j);
    }
  }

  /** x |= x >> w doubles the window. */
  lemma {:induction false} SmearMore(a: nat, b: nat, w: nat)
    requires Smeared(a, b, w)
    ensures Smeared(a, BitOr(b, Shr(b, w)), 2 * w)
  {
    forall i: nat ensures Bit(BitOr(b, Shr(b, w)), i) <==> InWindow(a, i, 2 * w) {
      BitOfOr(b, Shr(b, w), i);
      ShrShr(b, i, w);
      var k := i + w;
      assert Bit(Shr(b, w), i) <==> Bit(b, k);
      assert Bit(b, k) <==> InWindow(a, k, w);
      WindowsJoin(a, i, w);
    }
  }

  lemma {:induction false} SmearedOnce(a: nat)
    ensures Smeared(a, a, 1)
  {
    forall i: nat ensures Bit(a, i) <==> InWindow(a, i, 1) {
      if Bit(a, i) {
        assert i <= i < i + 1 && Bit(a, i);
      }
    }
  }

  /** The chain of shifts and ors. */
  function OrChain(a: nat): nat {
    var b := BitOr(a, Shr(a, 1));
    var c := BitOr(b, Shr(b, 2));
    var d := BitOr(c, Shr(c, 4));
    var e := BitOr(d, Shr(d, 8));
    BitOr(e, Shr(e, 16))
  }

  lemma {:induction false} ChainSmears(a: nat)
    ensures Smeared(a, OrChain(a), 32)
  {
    var b := BitOr(a, Shr(a, 1));
    var c := BitOr(b, Shr(b, 2));
    var d := BitOr(c, Shr(c, 4));
    var e := BitOr(d, Shr(d, 8));
    SmearedOnce(a);
    SmearMore(a, a, 1);
    SmearMore(a, b, 2);
    SmearMore(a, c, 4);
    SmearMore(a, d, 8);
    SmearMore(a, e, 16);
  }

  /** In 32 bits a window of 32 reaches every bit. */
  lemma {:induction false} WideWindow(a: nat, i: nat)
    requires a < Pow2(32)
    ensures InWindow(a, i, 32) <==> Shr(a, i) > 0
  {
    if Shr(a, i) > 0 {
      var k := SomeBit(Shr(a, i));
      ShrShr(a, k, i);
      var j := k + i;
      if j >= 32 {
        HighBits(a, 32, j);
      }
      assert i <= j < i + 32 && Bit(a, j);
    }
    if InWindow(a, i, 32) {
      var j: nat :| i <= j < i + 32 && Bit(a, j);
      ShrShr(a, j - i, i);
      ShrZero(j - i);
    }
  }

  lemma {:induction false} ChainIsOnes(a: nat)
    requires a < Pow2(32)
    ensures OrChain(a) == Ones(a)
  {
    ChainSmears(a);
    forall i: nat ensures Bit(OrChain(a), i) <==> Bit(Ones(a), i) {
      WideWindow(a, i);
      BitOfOnes(a, i);
    }
    SameBits(OrChain(a), Ones(a));
  }
}
