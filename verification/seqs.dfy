/** Facts about sequences used as duplicate-free lists (the registry table
    and the dashboard's array of plugs). */
module Seqs {

  predicate NoDuplicates<T(==)>(xs: seq<T>)
  {
    forall i, j :: 0 <= i < j < |xs| ==> xs[i] != xs[j]
  }

  /** Appending an element that is absent keeps a list duplicate-free. */
  lemma AppendAbsent<T>(xs: seq<T>, x: T)
    requires NoDuplicates(xs) && x !in xs
    ensures NoDuplicates(xs + [x])
  {
  }
}
