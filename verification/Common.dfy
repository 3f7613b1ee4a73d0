/** Small datatypes and arithmetic shared by the component models. */
module Common {

  datatype Option<+T> = None | Some(value: T)

  /** The number of values of a 64-bit machine word. */
  const U64: nat := 0x1_0000_0000_0000_0000

  /** Two to the power `n`; every register width and back-off factor is one of these. */
  function Pow2(n: nat): (r: nat)
    ensures r >= 1
  {
    if n == 0 then 1 else 2 * Pow2(n - 1)
  }

  lemma {:induction false} Pow2Add(m: nat, n: nat)
    ensures Pow2(m + n) == Pow2(m) * Pow2(n)
  {
    if m == 0 {
    } else {
      Pow2Add(m - 1, n);
      assert m + n - 1 == m - 1 + n;
    }
  }

  lemma SubsetSize<T>(a: set<T>, b: set<T>)
    requires a <= b
    ensures |a| <= |b|
  {
    assert b == a + (b - a);
  }

  function Min(a: int, b: int): int { if a <= b then a else b }

  function Max(a: int, b: int): int { if a >= b then a else b }
}
