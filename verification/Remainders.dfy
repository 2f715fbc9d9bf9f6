/** i mod n by repeated subtraction, which is how every proof here reasons about it. */
module Remainders {
  function Rem(i: nat, n: nat): (k: nat)
    requires n >= 1
    ensures k < n
  {
    if i < n then i else Rem(i - n, n)
  }

  lemma {:induction false} RemIsMod(i: nat, n: nat)
    requires n >= 1
    ensures Rem(i, n) == i % n
  {
    if i >= n {
      RemIsMod(i - n, n);
      var d := i / n - (i - n) / n - 1;
      assert n * d == (i - n) % n - i % n;
      MulBounds(n, d);
    }
  }

  lemma {:induction false} MulBounds(n: nat, d: int)
    ensures d >= 1 ==> n * d >= n
    ensures d <= -1 ==> n * d + n <= 0
  {
  }

  /** The cursor step both ring ends take. */
  function Advance(n: nat, c: int): int {
    if c == n - 1 then 0 else c + 1
  }

  lemma {:induction false} RemNext(i: nat, n: nat)
    requires n >= 1
    ensures Rem(i + 1, n) == Advance(n, Rem(i, n))
  {
    if i >= n {
      RemNext(i - n, n);
    }
  }

  /** Inside one window of n positions, equal remainders mean equal positions. */
  lemma {:induction false} SameRem(n: nat, i: nat, j: nat)
    requires n >= 1 && i <= j <= i + n
    ensures Rem(i, n) == Rem(j, n) <==> j == i || j == i + n
  {
    if i >= n {
      SameRem(n, i - n, j - n);
    }
  }

  lemma {:induction false} RemShift(x: nat, n: nat, i: nat)
    requires n >= 1 && Rem(x, n) == 0 && i < n
    ensures Rem(x + i, n) == i && Rem(x + n, n) == 0
  {
    if x >= n {
      RemShift(x - n, n, i);
    }
  }
}
