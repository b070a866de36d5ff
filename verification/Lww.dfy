/**
 Last-writer-wins marks: what one replica knows about one key.  A key is unknown, live since some
 instant, or deleted at some instant.  The newer mark wins, and a deletion wins a tie.  The marks
 are totally ordered, so joining them is taking the larger one; every merge in this project
 is measured against `Join`.
 */
module Lww {
  datatype Mark = Unknown | Live(at: nat) | Dead(at: nat)

  /** Position of a mark in the order: later instants are higher, a deletion sits just above a
      delivery of the same instant. */
  function Rank(m: Mark): nat {
    match m
    case Unknown => 0
    case Live(t) => 2 * t + 1
    case Dead(t) => 2 * t + 2
  }

  predicate Below(a: Mark, b: Mark) {
    Rank(a) <= Rank(b)
  }

  function Join(a: Mark, b: Mark): Mark {
    if Below(a, b) then b else a
  }

  lemma RankInjective(a: Mark, b: Mark)
    requires Rank(a) == Rank(b)
    ensures a == b
  {
    match a case Unknown => case Live(_) => case Dead(_) =>
  }

  /** `Join` is the least upper bound of the order, hence associative, commutative and idempotent. */
  lemma JoinIsLeastUpperBound(a: Mark, b: Mark, c: Mark)
    ensures Below(a, Join(a, b)) && Below(b, Join(a, b))
    ensures Below(a, c) && Below(b, c) ==> Below(Join(a, b), c)
    ensures Join(a, b) == Join(b, a)
    ensures Join(a, Join(b, c)) == Join(Join(a, b), c)
    ensures Join(a, a) == a
  {
    if Rank(a) == Rank(b) { RankInjective(a, b); }
  }

  lemma BelowAntisymmetric(a: Mark, b: Mark)
    requires Below(a, b) && Below(b, a)
    ensures a == b
  {
    RankInjective(a, b);
  }
}
