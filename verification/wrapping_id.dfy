/** Identifiers drawn from an `ACE_UINT32` counter that wraps at 2^32. */
module WrappingId {

  const MODULUS := 0x1_0000_0000

  /** The values of an `ACE_UINT32`. */
  newtype Id = x: int | 0 <= x < 0x1_0000_0000

  /** `counter++` on an `ACE_UINT32`. */
  function Next(x: Id): Id
  {
    ((x as int + 1) % MODULUS) as Id
  }

  /** The value of a counter that started at `first`, after `n` increments. */
  function Nth(first: Id, n: nat): Id
  {
    ((first as int + n) % MODULUS) as Id
  }

  lemma NextOfNth(first: Id, n: nat)
    ensures Next(Nth(first, n)) == Nth(first, n + 1)
  {
    AddInsideMod(first as int + n, 1);
  }

  lemma NthOfNext(x: Id, n: nat)
    ensures Nth(Next(x), n) == Nth(x, n + 1)
  {
    AddInsideMod(x as int + 1, n);
  }

  /** Two draws give the same identifier exactly when a multiple of 2^32 draws lies between them. */
  lemma SameIdIff(first: Id, i: nat, j: nat)
    requires i <= j
    ensures Nth(first, i) == Nth(first, j) <==> (j - i) % MODULUS == 0
  {
    var a, b := first as int + i, first as int + j;
    var qa, qb := a / MODULUS, b / MODULUS;
    assert a == qa * MODULUS + Nth(first, i) as int;
    assert b == qb * MODULUS + Nth(first, j) as int;
    if Nth(first, i) == Nth(first, j) {
      assert j - i == (qb - qa) * MODULUS;
      MultipleMod(qb - qa);
    } else if (j - i) % MODULUS == 0 {
      var q := (j - i) / MODULUS;
      assert b == (qa + q) * MODULUS + Nth(first, i) as int;
      UniqueRemainder(b, qa + q, Nth(first, i) as int);
    }
  }

  lemma AddInsideMod(a: nat, b: nat)
    ensures (a % MODULUS + b) % MODULUS == (a + b) % MODULUS
  {
    var q := a / MODULUS;
    assert a == q * MODULUS + a % MODULUS;
    var c := a % MODULUS + b;
    var p := c / MODULUS;
    assert a + b == (q + p) * MODULUS + c % MODULUS;
    UniqueRemainder(a + b, q + p, c % MODULUS);
  }

  lemma UniqueRemainder(x: int, q: int, r: int)
    requires x == q * MODULUS + r && 0 <= r < MODULUS
    ensures x % MODULUS == r
  {
  }

  lemma MultipleMod(q: int)
    ensures (q * MODULUS) % MODULUS == 0
  {
  }
}
