/** The smaller of two numbers, and quotients and remainders of natural numbers. */
module Arithmetic {

  function Least(a: int, b: int): int {
    if a < b then a else b
  }

  lemma DivModStep(size: int, k: nat)
    requires size >= 1
    ensures if (k % size) + 1 == size then (k + 1) / size == k / size + 1 && (k + 1) % size == 0
            else (k + 1) / size == k / size && (k + 1) % size == k % size + 1
  {
    var q, r := k / size, k % size;
    assert k == q * size + r && 0 <= r < size;
    if r + 1 == size {
      assert k + 1 == (q + 1) * size + 0;
      DivModUnique(size, k + 1, q + 1, 0);
    } else {
      DivModUnique(size, k + 1, q, r + 1);
    }
  }

  lemma ProductAtLeast(d: int, size: int)
    requires d >= 1 && size >= 1
    ensures d * size >= size
  {
    assert d * size == size + (d - 1) * size;
  }

  lemma DivModUnique(size: int, n: nat, q: nat, r: nat)
    requires size >= 1 && n == q * size + r && r < size
    ensures n / size == q && n % size == r
  {
    var q', r' := n / size, n % size;
    assert (q' - q) * size == r - r';
    if q' > q {
      ProductAtLeast(q' - q, size);
    } else if q' < q {
      ProductAtLeast(q - q', size);
    }
  }
}
