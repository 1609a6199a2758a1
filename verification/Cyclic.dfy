/** Positions in a circular area. */
module Cyclic {

  /** Numbers of 32 bits turn here. */
  const U32: nat := 0x1_0000_0000

  /** x places round an area of the given size. */
  function Turn(x: int, size: int): (r: int)
    requires 0 <= x && 0 < size
    ensures 0 <= r < size
    decreases x
  {
    if x < size then x else Turn(x - size, size)
  }

  /** Turn is the remainder. */
  lemma {:induction false} TurnIsMod(x: int, size: int)
    requires 0 <= x && 0 < size
    ensures Turn(x, size) == x % size
    decreases x
  {
    if x >= size {
      var y := x - size;
      TurnIsMod(y, size);
      SameRemainder(y / size + 1, y % size, x / size, x % size, size);
    }
  }

  lemma {:induction false} SameRemainder(q: int, r: int, q': int, r': int, size: int)
    requires 0 <= r < size && 0 <= r' < size && q * size + r == q' * size + r'
    ensures r == r'
  {
    MulSign(q - q', size);
    assert (q - q') * size == r' - r;
  }

  lemma {:induction false} MulSign(k: int, size: int)
    requires 0 < size
    ensures k >= 1 ==> k * size >= size
    ensures k <= -1 ==> k * size <= -size
  {
  }

  /** Moving n places on, without or with one turn. */
  lemma {:induction false} TurnAdvance(x: int, n: int, size: int)
    requires 0 <= x && 0 < size && 0 <= n <= size
    ensures Turn(x + n, size) == if Turn(x, size) + n < size then Turn(x, size) + n else Turn(x, size) + n - size
    decreases x
  {
    if x >= size {
      TurnAdvance(x - size, n, size);
    } else if x + n >= size {
      assert x + n - size < size;
    }
  }

  /** Different positions in a window no longer than the area are different places. */
  lemma {:induction false} TurnInjective(x: int, y: int, size: int)
    requires 0 <= x < y < x + size
    ensures Turn(x, size) != Turn(y, size)
  {
    TurnAdvance(x, y - x, size);
  }

  lemma {:induction false} TurnTurn(x: int, m: int, size: int)
    requires 0 <= x && 0 <= m && 0 < size
    ensures Turn(Turn(x, size) + m, size) == Turn(x + m, size)
    decreases x
  {
    if x >= size {
      TurnTurn(x - size, m, size);
    }
  }

  /** How many times round the area x places go: the quotient. */
  function Turns(x: int, size: int): (q: int)
    requires 0 <= x && 0 < size
    ensures q >= 0
    decreases x
  {
    if x < size then 0 else 1 + Turns(x - size, size)
  }

  lemma {:induction false} TurnsIsDiv(x: int, size: int)
    requires 0 <= x && 0 < size
    ensures Turns(x, size) == x / size && x == Turns(x, size) * size + Turn(x, size)
    decreases x
  {
    if x >= size {
      var y := x - size;
      TurnsIsDiv(y, size);
      assert (Turns(y, size) + 1) * size == Turns(y, size) * size + size;
    }
    TurnIsMod(x, size);
    SameQuotient(Turns(x, size), x / size, x % size, size);
  }

  lemma {:induction false} SameQuotient(q: int, q': int, r: int, size: int)
    requires 0 < size && q * size + r == q' * size + r
    ensures q == q'
  {
    MulSign(q - q', size);
    assert (q - q') * size == 0;
  }

  lemma {:induction false} TurnsOfMultiple(k: nat, size: int)
    requires 0 < size
    ensures k * size >= 0 && Turns(k * size, size) == k
  {
    if k > 0 {
      TurnsOfMultiple(k - 1, size);
      assert k * size == (k - 1) * size + size;
    }
  }
}
