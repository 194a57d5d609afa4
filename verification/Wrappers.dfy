module Wrappers {
  datatype Option<+T> = None | Some(value: T)

  /** `a` is what is left of `b` after leaving elements out. */
  predicate IsPartOf<T(==)>(a: seq<T>, b: seq<T>) {
    a == [] ||
    (b != [] && (IsPartOf(a, b[..|b| - 1]) ||
                 (a[|a| - 1] == b[|b| - 1] && IsPartOf(a[..|a| - 1], b[..|b| - 1]))))
  }

  lemma PartGrows<T>(a: seq<T>, b: seq<T>, x: T)
    requires IsPartOf(a, b)
    ensures IsPartOf(a, b + [x]) && IsPartOf(a + [x], b + [x])
  {
    assert (a + [x])[..|a|] == a && (b + [x])[..|b|] == b;
  }
}
