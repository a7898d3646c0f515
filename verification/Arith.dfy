/** Small facts about products and remainders that the solver does not find by itself. */
module Arith {

  lemma MulMonotone(x: int, y: int, a: nat)
    requires x <= y
    ensures x * a <= y * a
  {}

  lemma Distribute(x: int, y: int, a: int)
    ensures (x + y) * a == x * a + y * a
  {}

  lemma MulMod(q: int, a: nat)
    requires a > 0
    ensures q * a % a == 0 && q * a / a == q
  {
    var p := q * a;
    DivUnique(p, a, q, 0);
  }

  /** Quotient and remainder are unique. */
  lemma DivUnique(p: int, a: nat, q: int, r: int)
    requires a > 0 && p == q * a + r && 0 <= r < a
    ensures p / a == q && p % a == r
  {
    var d, m := p / a, p % a;
    assert p == d * a + m;
    assert (q - d) * a == m - r;
    if q - d >= 1 {
      MulMonotone(1, q - d, a);
      assert false;
    }
    if d - q >= 1 {
      assert (d - q) * a == r - m;
      MulMonotone(1, d - q, a);
      assert false;
    }
  }

  lemma AddMod(x: int, y: int, a: nat)
    requires a > 0 && x % a == 0 && y % a == 0
    ensures (x + y) % a == 0
  {
    assert x + y == (x / a + y / a) * a;
    MulMod(x / a + y / a, a);
  }

  lemma SubMod(x: int, y: int, a: nat)
    requires a > 0 && x % a == 0 && y % a == 0
    ensures (x - y) % a == 0
  {
    assert x - y == (x / a - y / a) * a;
    MulMod(x / a - y / a, a);
  }

  /** Multiples of a that are less than a apart are equal. */
  lemma MultipleBelow(x: int, y: int, a: nat)
    requires a > 0 && x % a == 0 && y % a == 0 && x < y + a
    ensures x <= y
  {
    assert x == x / a * a && y == y / a * a;
    if x / a >= y / a + 1 {
      MulMonotone(y / a + 1, x / a, a);
      assert false;
    }
    MulMonotone(x / a, y / a, a);
  }

  /** x / a * a is the largest multiple of a not above x. */
  lemma RoundDown(x: int, a: nat)
    requires a > 0
    ensures x / a * a % a == 0 && x - a < x / a * a <= x
  {
    MulMod(x / a, a);
  }

  /** RT_ALIGN on unsigned words of range `word`, `a` being a power of two that divides it. */
  function AlignUp(x: nat, a: nat, word: nat): nat
    requires a > 0 && word > 0
  {
    (x + a - 1) % word / a * a
  }

  /** RT_ALIGN rounds up to the next multiple, unless the word overflows: then it gives zero. */
  lemma AlignUpIsNextMultiple(x: nat, a: nat, word: nat)
    requires 0 < a <= word && word % a == 0 && x < word
    ensures AlignUp(x, a, word) % a == 0 && AlignUp(x, a, word) <= word - a
    ensures x + a <= word ==> x <= AlignUp(x, a, word) < x + a
    ensures x + a > word ==> AlignUp(x, a, word) == 0
  {
    var y := (x + a - 1) % word;
    RoundDown(y, a);
    if x + a <= word {
      DivUnique(x + a - 1, word, 0, x + a - 1);
    } else {
      DivUnique(x + a - 1, word, 1, x + a - 1 - word);
      DivUnique(y, a, 0, y);
    }
    MulMod(1, a);
    SubMod(word, a, a);
    MultipleBelow(AlignUp(x, a, word), word - a, a);
  }

  lemma AlignUpIdempotent(x: nat, a: nat, word: nat)
    requires 0 < a <= word && word % a == 0 && x < word
    ensures AlignUp(AlignUp(x, a, word), a, word) == AlignUp(x, a, word)
  {
    AlignUpIsNextMultiple(x, a, word);
    AlignUpIsNextMultiple(AlignUp(x, a, word), a, word);
    MultipleBelow(AlignUp(AlignUp(x, a, word), a, word), AlignUp(x, a, word), a);
  }

  lemma AlignUpValue(x: nat, y: nat, a: nat, word: nat)
    requires 0 < a <= word && word % a == 0 && x + a <= word && x <= y < x + a && y % a == 0
    ensures AlignUp(x, a, word) == y
  {
    AlignUpIsNextMultiple(x, a, word);
    MultipleBelow(AlignUp(x, a, word), y, a);
    MultipleBelow(y, AlignUp(x, a, word), a);
  }
}
