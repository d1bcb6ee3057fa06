/** Facts about sequences used by the loops that build a log one entry at a time. */
module Seqs {
  /** Appending one entry to a log that extends `base` keeps it extending `base`. */
  lemma AppendAssoc<T>(base: seq<T>, log: seq<T>, x: T)
    ensures base + log + [x] == base + (log + [x])
  {
  }
}
