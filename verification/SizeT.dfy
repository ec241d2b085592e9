/** The unsigned counter type of the pool: `SIZE_T` of a 32-bit Windows build, with C++ wrap-around. */
module SizeT {
  const SIZE_T_RANGE: nat := 0x1_0000_0000

  type Size = x: nat | x < SIZE_T_RANGE

  function Wrap(x: int): Size {
    x % SIZE_T_RANGE
  }

  /** `counter++` */
  function Inc(x: Size): Size {
    Wrap(x + 1)
  }

  /** `counter--` */
  function Dec(x: Size): Size {
    Wrap(x - 1)
  }

  /** Wrapping early, before a later addition, makes no difference. */
  lemma WrapAbsorbs(x: int, d: int)
    ensures Wrap(Wrap(x) + d) == Wrap(x + d)
  {
    var k := x / SIZE_T_RANGE;
    var m := (x + d) / SIZE_T_RANGE;
    assert x == k * SIZE_T_RANGE + Wrap(x);
    assert x + d == m * SIZE_T_RANGE + Wrap(x + d);
    assert Wrap(x) + d == (m - k) * SIZE_T_RANGE + Wrap(x + d);
    Quotient(Wrap(x) + d, m - k, Wrap(x + d));
  }

  lemma Quotient(x: int, q: int, r: Size)
    requires x == q * SIZE_T_RANGE + r
    ensures Wrap(x) == r
  {
  }

  lemma WrapSmall(x: int)
    requires 0 <= x < SIZE_T_RANGE
    ensures Wrap(x) == x
  {
  }

  /** A counter known up to wrap-around is known exactly. */
  lemma Solve(counter: Size, deficit: int, n: int)
    requires Wrap(counter + deficit) == Wrap(n)
    ensures counter == Wrap(n - deficit)
  {
    WrapAbsorbs(counter + deficit, -deficit);
    WrapAbsorbs(n, -deficit);
    WrapSmall(counter);
  }

  /** A deficit shows unless it is a multiple of the range. */
  lemma DeficitShows(n: Size, deficit: nat)
    ensures Wrap(n - deficit) == n <==> Wrap(deficit) == 0
  {
    WrapAbsorbs(n - deficit, deficit);
    WrapAbsorbs(n + deficit, 0 - n);
    WrapAbsorbs(deficit, Wrap(n - deficit));
    WrapSmall(n);
    WrapSmall(Wrap(n - deficit));
  }
}
