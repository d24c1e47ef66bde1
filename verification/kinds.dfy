/** Failure kinds, failures and the outcome of one invocation of an action.

    A Java exception class is represented by its superclass chain, root first
    and ending with the class itself, so `isInstance` is a prefix test and the
    single-inheritance hierarchy needs no separate parent relation.
 */
module Kinds {

  /** A failure category: the chain of class names from the root of the
      hierarchy down to the class itself. */
  datatype Kind = Kind(lineage: seq<string>)

  /** `t.isInstance(x)` for a failure `x` of kind `k`: `t` is `k` or one of
      its superclasses. */
  predicate IsA(k: Kind, t: Kind) {
    0 < |t.lineage| <= |k.lineage| && t.lineage == k.lineage[..|t.lineage|]
  }

  /** A thrown failure: its kind and its message. Two failures with the same
      kind and message are indistinguishable to every caller in this model. */
  datatype Failure = Failure(kind: Kind, message: string)

  /** What one invocation of an action produced: a value, or a thrown failure. */
  datatype Outcome<+V> = Ok(value: V) | Fail(failure: Failure)

  /** Java's nullable references and `Optional`. */
  datatype Option<+T> = None | Some(value: T)

  lemma IsAReflexive(k: Kind)
    requires 0 < |k.lineage|
    ensures IsA(k, k)
  {
  }

  /** Subtyping is transitive: an instance of a subclass is an instance of
      every superclass of it. */
  lemma IsATransitive(a: Kind, b: Kind, c: Kind)
    requires IsA(a, b) && IsA(b, c)
    ensures IsA(a, c)
  {
    assert c.lineage == b.lineage[..|c.lineage|];
    assert b.lineage[..|c.lineage|] == a.lineage[..|b.lineage|][..|c.lineage|];
  }

  /** Two superclasses of the same kind are ordered: the hierarchy is a tree. */
  lemma IsAAncestorsOrdered(k: Kind, s: Kind, t: Kind)
    requires IsA(k, s) && IsA(k, t) && |s.lineage| <= |t.lineage|
    ensures IsA(t, s)
  {
    assert t.lineage[..|s.lineage|] == k.lineage[..|t.lineage|][..|s.lineage|];
  }
}
