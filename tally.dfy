/** Counting occurrences into a map, the way Go's `counts[key]++` on a map
    does: a missing key reads as zero. */
module Tally {

  function Occurrences<T(==)>(xs: seq<T>, x: T): nat
  {
    if |xs| == 0 then 0
    else Occurrences(xs[..|xs| - 1], x) + (if xs[|xs| - 1] == x then 1 else 0)
  }

  /** `counts[x]++`. */
  function Increment<T(==)>(counts: map<T, int>, x: T): map<T, int>
  {
    counts[x := (if x in counts then counts[x] else 0) + 1]
  }

  /** The map built by incrementing the entry of each element in turn. */
  function TallyOf<T(==)>(xs: seq<T>): map<T, int>
  {
    if |xs| == 0 then map[] else Increment(TallyOf(xs[..|xs| - 1]), xs[|xs| - 1])
  }

  /** A key is present exactly when it occurs, and then holds its number of
      occurrences. */
  lemma {:induction false} TallyCounts<T>(xs: seq<T>, x: T)
    ensures x in TallyOf(xs) <==> Occurrences(xs, x) > 0
    ensures x in TallyOf(xs) ==> TallyOf(xs)[x] == Occurrences(xs, x)
  {
    if |xs| > 0 {
      TallyCounts(xs[..|xs| - 1], x);
    }
  }

  lemma OccurrencesSnoc<T>(xs: seq<T>, y: T, x: T)
    ensures Occurrences(xs + [y], x) == Occurrences(xs, x) + (if y == x then 1 else 0)
  {
    assert (xs + [y])[..|xs|] == xs;
  }
}
