/** Words of event bits as sets. */
module Bits {
  type Word = bv32

  const NONE: Word := 0

  function Both(a: Word, b: Word): Word { a & b }

  function Either(a: Word, b: Word): Word { a | b }

  function Without(a: Word, b: Word): Word { a & !b }

  predicate Within(a: Word, b: Word) { a & b == a }

  predicate Disjoint(a: Word, b: Word) { a & b == 0 }

  lemma WithoutFacts(a: Word, b: Word)
    ensures Within(Without(a, b), a) && Disjoint(b, Without(a, b)) && Without(a, Both(b, a)) == Without(a, b)
    ensures Both(a, b) == Both(b, a) && Within(Both(a, b), a) && Within(Both(a, b), b)
    ensures Within(a, Either(a, b)) && Within(b, Either(a, b)) && Within(NONE, a) && Within(a, a)
  {
    hide Within, Without, Both, Either, Disjoint;
    WithoutLaws(a, b);
    WithoutBoth(a, b);
    BothLaws(a, b);
    EitherLaws(a, b);
  }

  lemma WithoutLaws(a: Word, b: Word)
    ensures Within(Without(a, b), a) && Disjoint(b, Without(a, b))
  {}

  lemma WithoutBoth(a: Word, b: Word)
    ensures Without(a, Both(b, a)) == Without(a, b)
  {}

  lemma BothLaws(a: Word, b: Word)
    ensures Both(a, b) == Both(b, a) && Within(Both(a, b), a) && Within(Both(a, b), b)
  {
    hide Within, Both;
    BothCommutes(a, b);
    BothSmaller(a, b);
    BothSmaller(b, a);
  }

  lemma BothCommutes(a: Word, b: Word)
    ensures Both(a, b) == Both(b, a)
  {}

  lemma BothSmaller(a: Word, b: Word)
    ensures Within(Both(a, b), a)
  {}

  lemma EitherLaws(a: Word, b: Word)
    ensures Within(a, Either(a, b)) && Within(b, Either(a, b)) && Within(NONE, a) && Within(a, a)
  {}

  lemma WithinTransitive(a: Word, b: Word, c: Word)
    requires Within(a, b) && Within(b, c)
    ensures Within(a, c)
  {}

  lemma DisjointSmaller(a: Word, b: Word, c: Word)
    requires Disjoint(a, b) && Within(c, b)
    ensures Disjoint(a, c)
  {}

  lemma BothMonotone(a: Word, b: Word, c: Word)
    requires Within(a, b)
    ensures Within(Both(c, a), Both(c, b))
  {}

  lemma EitherMonotone(a: Word, b: Word, c: Word, d: Word)
    requires Within(a, b) && Within(c, d)
    ensures Within(Either(a, c), Either(b, d))
  {}

  /** What is common to `got` and bits that grew by `b` grew by at most `b`. */
  lemma GrowsBy(e: Word, e': Word, got: Word, sent: Word, b: Word)
    requires Within(Both(got, e), sent) && Within(e', Either(e, b))
    ensures Within(Both(got, e'), Either(sent, b))
  {}

  lemma DisjointBoth(a: Word, b: Word, c: Word)
    requires Disjoint(a, b)
    ensures Within(Both(a, b), c)
  {}
}
