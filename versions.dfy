/** Version triples (major, minor, patch) and Python's tuple order on them. */
module Versions {

  datatype Version = Version(major: int, minor: int, patch: int)

  /** `a > b` on Python tuples: the first differing component decides. */
  predicate Newer(a: Version, b: Version) {
    a.major > b.major ||
    (a.major == b.major && (a.minor > b.minor || (a.minor == b.minor && a.patch > b.patch)))
  }

  /** The tuple order is a strict order: irreflexive, asymmetric, transitive, and total on distinct triples. */
  lemma NewerIsStrictOrder(a: Version, b: Version, c: Version)
    ensures !Newer(a, a)
    ensures Newer(a, b) ==> !Newer(b, a)
    ensures Newer(a, b) && Newer(b, c) ==> Newer(a, c)
    ensures a != b ==> Newer(a, b) || Newer(b, a)
  {
  }
}
