/** Small shared vocabulary: an optional value, and facts about sequences several modules need. */
module Common {
  datatype Option<+T> = None | Some(value: T)

  /** `tail` is how `xs` ends. */
  ghost predicate EndsWith<T>(xs: seq<T>, tail: seq<T>) {
    |tail| <= |xs| && xs[|xs| - |tail|..] == tail
  }

  lemma ThreeParts<T>(a: seq<T>, b: seq<T>, c: seq<T>)
    ensures a + (b + c) == a + b + c
  {
  }

  lemma FourParts<T>(a: seq<T>, b: seq<T>, c: seq<T>, d: seq<T>)
    ensures a + (b + (c + d)) == a + b + c + d
  {
  }
}
