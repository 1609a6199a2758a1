/** Triangular probing over a power of two buckets (khash.h). */
module Probing {
  import opened Bits
  import opened Cyclic

  function Triangle(s: nat): nat {
    if s == 0 then 0 else Triangle(s - 1) + s
  }

  lemma {:induction false} TriangleIs(s: nat)
    ensures 2 * Triangle(s) == s * (s + 1)
  {
    if s > 0 {
      TriangleIs(s - 1);
      assert s * (s + 1) == (s - 1) * s + 2 * s;
    }
  }

  /** The bucket looked at after s steps from the hash h. */
  function Probe(h: nat, s: nat, n: nat): (i: nat)
    requires n > 0
    ensures i < n
  {
    Turn(h + Triangle(s), n)
  }

  /** One step of the probing loops: add the incremented step and mask. */
  lemma {:induction false} ProbeNext(h: nat, s: nat, n: nat)
    requires s < n
    ensures Turn(Probe(h, s, n) + (s + 1), n) == Probe(h, s + 1, n)
  {
    TurnAdvance(h + Triangle(s), s + 1, n);
    TurnAdvance(Probe(h, s, n), s + 1, n);
  }

  /** v can be halved k times. */
  ghost predicate Halves(v: nat, k: nat)
    decreases k
  {
    k == 0 || (v % 2 == 0 && Halves(v / 2, k - 1))
  }

  lemma {:induction false} HalvesAdd(v: nat, k: nat)
    requires Halves(v, k)
    ensures Halves(v + Pow2(k), k)
    decreases k
  {
    if k > 0 {
      HalvesAdd(v / 2, k - 1);
    }
  }

  lemma {:induction false} HalvesSmall(v: nat, k: nat)
    requires Halves(v, k) && v < Pow2(k)
    ensures v == 0
    decreases k
  {
    if k > 0 {
      HalvesSmall(v / 2, k - 1);
    }
  }

  /** Positions at the same place are a multiple of the power of two apart. */
  lemma {:induction false} SamePlace(x: nat, y: nat, k: nat)
    requires x <= y && Turn(x, Pow2(k)) == Turn(y, Pow2(k))
    ensures Halves(y - x, k)
    decreases y
  {
    var n := Pow2(k);
    if x == y {
      HalvesZero(k);
    } else if x >= n {
      SamePlace(x - n, y - n, k);
    } else if x <= y - n {
      SamePlace(x, y - n, k);
      HalvesAdd(y - n - x, k);
    } else {
      TurnInjective(x, y, n);
      assert false;
    }
  }

  lemma {:induction false} HalvesZero(k: nat)
    ensures Halves(0, k)
  {
    if k > 0 {
      HalvesZero(k - 1);
    }
  }

  /** An odd factor carries no power of two. */
  lemma {:induction false} OddFactor(x: nat, y: nat, k: nat)
    requires x % 2 == 1 && Halves(x * y, k)
    ensures Halves(y, k)
    decreases k
  {
    if k > 0 {
      EvenCofactor(x, y);
      OddFactor(x, y / 2, k - 1);
    }
  }

  lemma {:induction false} EvenCofactor(x: nat, y: nat)
    requires x % 2 == 1 && (x * y) % 2 == 0
    ensures y % 2 == 0 && (x * y) / 2 == x * (y / 2)
  {
    var u := x / 2;
    assert x * y == 2 * (u * y) + y by { assert x == 2 * u + 1; }
    assert y % 2 == 0;
    var v := y / 2;
    assert x * y == 2 * (x * v) by { assert y == 2 * v; }
  }

  /** The first n probes hit n different buckets. */
  lemma {:induction false} ProbeInjective(h: nat, a: nat, b: nat, n: nat)
    requires PowerOfTwo(n) && a < b < n
    ensures Probe(h, a, n) != Probe(h, b, n)
  {
    var k: nat :| n == Pow2(k);
    if Probe(h, a, n) == Probe(h, b, n) {
      TriangleGrows(a, b);
      SamePlace(h + Triangle(a), h + Triangle(b), k);
      SameTriangle(a, b, k);
      assert false;
    }
  }

  lemma {:induction false} SameTriangle(a: nat, b: nat, k: nat)
    requires a <= b < Pow2(k) && Triangle(a) <= Triangle(b) && Halves(Triangle(b) - Triangle(a), k)
    ensures a == b
  {
    var x, y := Factors(a, b, k);
    OneFactorIsOdd(x, y, k + 1);
  }

  lemma {:induction false} Factors(a: nat, b: nat, k: nat) returns (x: nat, y: nat)
    requires a <= b && Triangle(a) <= Triangle(b) && Halves(Triangle(b) - Triangle(a), k)
    ensures x == b - a && y == b + a + 1 && x % 2 != y % 2 && Halves(x * y, k + 1)
  {
    x, y := b - a, b + a + 1;
    assert y == x + 2 * a + 1;
    TriangleGap(a, b, x, y);
    HalvesTwice(Triangle(b) - Triangle(a), x * y, k);
  }

  lemma {:induction false} HalvesTwice(v: nat, w: nat, k: nat)
    requires w == 2 * v && Halves(v, k)
    ensures Halves(w, k + 1)
  {
  }

  lemma {:induction false} OneFactorIsOdd(x: nat, y: nat, k: nat)
    requires x < y < Pow2(k) && x % 2 != y % 2 && Halves(x * y, k)
    ensures x == 0
  {
    if x % 2 == 1 {
      OddFactor(x, y, k);
      HalvesSmall(y, k);
      assert false;
    } else {
      assert y * x == x * y;
      OddFactor(y, x, k);
      HalvesSmall(x, k);
    }
  }

  lemma {:induction false} TriangleGrows(a: nat, b: nat)
    requires a <= b
    ensures Triangle(a) <= Triangle(b)
    decreases b
  {
    if a < b {
      TriangleGrows(a, b - 1);
    }
  }

  lemma {:induction false} TriangleGap(a: nat, b: nat, x: nat, y: nat)
    requires x == b - a && y == b + a + 1
    ensures x * y == 2 * (Triangle(b) - Triangle(a))
  {
    TriangleIs(a);
    TriangleIs(b);
    assert x * y == b * (b + 1) - a * (a + 1);
  }

  /** The first n probes reach every bucket. */
  lemma {:induction false} ProbeReaches(h: nat, i: nat, n: nat) returns (s: nat)
    requires PowerOfTwo(n) && i < n
    ensures s < n && Probe(h, s, n) == i
  {
    if forall s: nat :: s < n ==> Probe(h, s, n) != i {
      var hit := Hits(h, n, n);
      assert hit <= Below(n) - {i};
      BelowSize(n);
      SubsetSize(hit, Below(n) - {i});
      assert false;
    }
    s :| s < n && Probe(h, s, n) == i;
  }

  lemma {:induction false} Hits(h: nat, c: nat, n: nat) returns (hit: set<nat>)
    requires PowerOfTwo(n) && c <= n
    ensures |hit| == c
    ensures forall i :: i in hit <==> exists s: nat :: s < c && Probe(h, s, n) == i
    decreases c
  {
    if c == 0 {
      hit := {};
    } else {
      var before := Hits(h, c - 1, n);
      var i := Probe(h, c - 1, n);
      forall s: nat | s < c - 1 ensures Probe(h, s, n) != i {
        ProbeInjective(h, s, c - 1, n);
      }
      hit := before + {i};
      forall j ensures j in hit <==> exists s: nat :: s < c && Probe(h, s, n) == j {
        if j in before {
          var s: nat :| s < c - 1 && Probe(h, s, n) == j;
          assert s < c && Probe(h, s, n) == j;
        }
      }
    }
  }

  ghost function Below(n: nat): (b: set<nat>)
    ensures forall i: nat :: i in b <==> i < n
  {
    if n == 0 then {} else Below(n - 1) + {n - 1}
  }

  lemma {:induction false} BelowSize(n: nat)
    ensures |Below(n)| == n
    decreases n
  {
    if n > 0 {
      BelowSize(n - 1);
    }
  }

  lemma {:induction false} SubsetSize<T>(a: set<T>, b: set<T>)
    requires a <= b
    ensures |a| <= |b|
    decreases |a|
  {
    if a != {} {
      var x :| x in a;
      SubsetSize(a - {x}, b - {x});
    }
  }

  /** What kroundup32 is for: the smallest power of two that is at least x, and 0 for 0. */
  function RoundUp(x: nat): (r: nat)
    ensures r >= x
    ensures x > 0 ==> PowerOfTwo(r) && r < 2 * x
    ensures x == 0 ==> r == 0
  {
    if x == 0 then 0 else PowerFrom(x, 0)
  }

  function PowerFrom(x: nat, k: nat): (r: nat)
    requires x > 0 && (k > 0 ==> Pow2(k - 1) < x)
    ensures r >= x && r < 2 * x && PowerOfTwo(r)
    decreases x - Pow2(k)
  {
    if Pow2(k) >= x then Pow2(k) else PowerFrom(x, k + 1)
  }

  /** kroundup32 as it is written: decrement, shifts and ors, increment, all in 32 bits. */
  function KRoundUp(x: nat): nat
    requires x < U32
  {
    (OrChain(if x == 0 then U32 - 1 else x - 1) + 1) % U32
  }

  lemma {:induction false} WordSize()
    ensures Pow2(32) == U32
  {
    assert Pow2(8) == 256;
    assert Pow2(16) == 65536;
    assert Pow2(24) == 16777216;
  }

  lemma {:induction false} OnesRound(x: nat)
    requires x > 0
    ensures Ones(x - 1) + 1 == RoundUp(x)
  {
    OnesPower(x - 1);
    OnePower(Ones(x - 1) + 1, RoundUp(x), x);
  }

  lemma {:induction false} OnesWord()
    ensures Ones(U32 - 1) + 1 == U32
  {
    WordSize();
    OnesPower(U32 - 1);
    OnePower(Ones(U32 - 1) + 1, Pow2(32), U32);
  }

  lemma {:induction false} KRoundUpOnes(x: nat, a: nat)
    requires x < U32 && a == if x == 0 then U32 - 1 else x - 1
    ensures KRoundUp(x) == (Ones(a) + 1) % U32
  {
    WordSize();
    ChainIsOnes(a);
  }

  lemma {:induction false} OnesIs(x: nat, a: nat)
    requires x < U32 && a == if x == 0 then U32 - 1 else x - 1
    ensures (Ones(a) + 1) % U32 == RoundUp(x) % U32
    ensures x <= U32 / 2 ==> RoundUp(x) % U32 == RoundUp(x)
  {
    if x == 0 {
      OnesWord();
    } else {
      OnesRound(x);
    }
  }

  /** The macro gives RoundUp in 32 bits: the number itself up to 2^31, and 0 above. */
  lemma {:induction false} KRoundUpIs(x: nat)
    requires x < U32
    ensures KRoundUp(x) == RoundUp(x) % U32
    ensures x <= U32 / 2 ==> KRoundUp(x) == RoundUp(x)
  {
    var a: nat := if x == 0 then U32 - 1 else x - 1;
    KRoundUpOnes(x, a);
    OnesIs(x, a);
  }
}
