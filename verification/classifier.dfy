/** Deciding whether a failure is retryable.

    Two classifiers appear in the system. The Spring 7 retry policy takes an
    include list and an exclude list of kinds (exclude wins, an empty include
    list admits everything). The Spring 6 retry policy takes a map from kinds
    to booleans, built from the same two lists, and classifies a failure by
    the entry of its nearest superclass in the map, defaulting to
    non-retryable.
 */
module Classifier {
  import opened Kinds

  /** Some kind of `kinds` is a superclass of (or equal to) `k`. */
  predicate Matches(kinds: seq<Kind>, k: Kind) {
    exists i :: 0 <= i < |kinds| && IsA(k, kinds[i])
  }

  /** The include/exclude decision: never retry an excluded kind; otherwise
      retry when there are no includes or one of them matches. */
  predicate ShouldRetry(includes: seq<Kind>, excludes: seq<Kind>, k: Kind) {
    !Matches(excludes, k) && (|includes| == 0 || Matches(includes, k))
  }

  /** Scans `kinds` for a superclass of `k`, returning its index. */
  method FindMatch(kinds: seq<Kind>, k: Kind) returns (found: bool, index: nat)
    ensures found <==> Matches(kinds, k)
    ensures found ==> index < |kinds| && IsA(k, kinds[index])
    ensures found ==> forall j :: 0 <= j < index ==> !IsA(k, kinds[j])
  {
    index := 0;
    while index < |kinds|
      invariant index <= |kinds|
      invariant forall j :: 0 <= j < index ==> !IsA(k, kinds[j])
    {
      if IsA(k, kinds[index]) {
        return true, index;
      }
      index := index + 1;
    }
    return false, 0;
  }

  /** The policy's decision, computed by scanning the exclude list before the
      include list. */
  method Classify(includes: seq<Kind>, excludes: seq<Kind>, k: Kind) returns (retryable: bool)
    ensures retryable <==> ShouldRetry(includes, excludes, k)
    ensures retryable ==> forall j :: 0 <= j < |excludes| ==> !IsA(k, excludes[j])
  {
    var excluded, _ := FindMatch(excludes, k);
    if excluded {
      return false;
    }
    if |includes| == 0 {
      return true;
    }
    var included, _ := FindMatch(includes, k);
    return included;
  }

  /** Exclude precedence: a failure that is an instance of an excluded kind is
      never retried, whatever the includes say. */
  lemma ExcludeWins(includes: seq<Kind>, excludes: seq<Kind>, k: Kind, j: nat)
    requires j < |excludes| && IsA(k, excludes[j])
    ensures !ShouldRetry(includes, excludes, k)
  {
  }

  /** An included kind, and every subtype of it, is retried unless it is an
      instance of some excluded kind. */
  lemma IncludedSubtypeRetried(includes: seq<Kind>, excludes: seq<Kind>, t: nat, k: Kind)
    requires t < |includes| && IsA(k, includes[t])
    requires forall j :: 0 <= j < |excludes| ==> !IsA(k, excludes[j])
    ensures ShouldRetry(includes, excludes, k)
  {
  }

  /** Adds every kind of `kinds` to `m` with the value `v`, in order. */
  function PutAll(m: map<Kind, bool>, kinds: seq<Kind>, v: bool): (r: map<Kind, bool>)
    ensures forall k :: k in r <==> k in m || k in kinds
    ensures forall k :: k in r ==> r[k] == if k in kinds then v else m[k]
    decreases |kinds|
  {
    if |kinds| == 0 then m
    else
      var r := PutAll(m[kinds[0] := v], kinds[1..], v);
      assert forall k :: k in kinds <==> k == kinds[0] || k in kinds[1..];
      r
  }

  /** The Spring 6 classification map: every retryable kind maps to true,
      then every non-retryable kind to false, so a kind listed in both lists
      ends up non-retryable and each distinct kind has one entry. */
  function ClassificationMap(retryable: seq<Kind>, nonRetryable: seq<Kind>): (m: map<Kind, bool>)
    ensures forall k :: k in m <==> k in retryable || k in nonRetryable
    ensures forall k :: k in m ==> (m[k] <==> k !in nonRetryable)
  {
    PutAll(PutAll(map[], retryable, true), nonRetryable, false)
  }

  /** The entry of `m` for the nearest superclass of `k` whose chain is at
      most `len` long. */
  function NearestKey(m: map<Kind, bool>, k: Kind, len: nat): (r: Option<Kind>)
    requires len <= |k.lineage|
    ensures r.Some? ==> r.value in m && IsA(k, r.value) && |r.value.lineage| <= len
    ensures forall t :: t in m && IsA(k, t) && |t.lineage| <= len ==>
              r.Some? && |t.lineage| <= |r.value.lineage|
    decreases len
  {
    if len == 0 then None
    else if Kind(k.lineage[..len]) in m then Some(Kind(k.lineage[..len]))
    else
      var r := NearestKey(m, k, len - 1);
      assert forall t :: t in m && IsA(k, t) && |t.lineage| == len ==> t == Kind(k.lineage[..len]);
      r
  }

  /** The Spring 6 decision: the value of the nearest superclass's entry, or
      non-retryable when no superclass is in the map. */
  function MapClassify(m: map<Kind, bool>, k: Kind): bool {
    match NearestKey(m, k, |k.lineage|)
    case None => false
    case Some(t) => m[t]
  }

  /** With no entries nothing is retryable: an empty configuration makes the
      Spring 6 loop stop after the first failure. */
  lemma EmptyMapRetriesNothing(k: Kind)
    ensures !MapClassify(map[], k)
  {
  }

  /** The two classifiers agree when the include list is non-empty and no
      included kind lies below an excluded one (unless it is excluded
      itself). Without the side condition the nearest-entry rule lets an
      included subclass of an excluded kind be retried. */
  lemma MapClassifyAgrees(includes: seq<Kind>, excludes: seq<Kind>, k: Kind)
    requires |includes| > 0
    requires forall i, e :: i in includes && e in excludes && IsA(i, e) ==> i in excludes
    ensures MapClassify(ClassificationMap(includes, excludes), k) == ShouldRetry(includes, excludes, k)
  {
    var m := ClassificationMap(includes, excludes);
    var r := NearestKey(m, k, |k.lineage|);
    MembersMatch(includes, k);
    MembersMatch(excludes, k);
    if Matches(excludes, k) {
      var j :| 0 <= j < |excludes| && IsA(k, excludes[j]);
      var e := excludes[j];
      assert e in m;
      IsAAncestorsOrdered(k, e, r.value);
    }
  }

  /** A member of `kinds` that is a superclass of `k` makes `kinds` match `k`. */
  lemma MembersMatch(kinds: seq<Kind>, k: Kind)
    ensures forall t :: t in kinds && IsA(k, t) ==> Matches(kinds, k)
  {
    forall t | t in kinds && IsA(k, t)
      ensures Matches(kinds, k)
    {
      var i :| 0 <= i < |kinds| && kinds[i] == t;
    }
  }
}
