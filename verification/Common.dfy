/** What several modules need. */
module Common {

  datatype Option<T> = None | Some(value: T)

  /** In nanoseconds. */
  const SECOND := 1_000_000_000

  /** Each element of s once: how ranging over a map visits its keys. */
  ghost predicate Enumerates<T(!new)>(order: seq<T>, s: set<T>)
  {
    (forall x :: x in order <==> x in s) && forall i, j :: 0 <= i < j < |order| ==> order[i] != order[j]
  }

  lemma {:induction false} Subset<T>(a: set<T>, b: set<T>)
    requires a <= b
    ensures |a| <= |b|
  {
    if a != {} {
      var x :| x in a;
      Subset(a - {x}, b - {x});
    }
  }
}
