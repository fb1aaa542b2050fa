/** Which bucket a request gets, told from which buckets have a free slot and which hold somebody
    who can be bumped. */
module Choices {
  import opened Sorting
  import opened Registration
  import opened BucketFinder

  /** With a preference: the requested bucket, and the anything bucket unless the requested one does
      not count. Without: the limited buckets that count. */
  ghost predicate MayBeGiven(p: Policy, requested: Option<Key>, b: Bucket) {
    b in p.buckets &&
    if requested.None? then b.slotsLimited && !b.notCounted
    else
      b.key == requested.value ||
      (b.anything && forall c :: c in p.buckets && c.key == requested.value ==> !c.notCounted)
  }

  /** The requested bucket is tried first; without a preference, the anything bucket. */
  predicate ComesFirst(requested: Option<Key>, b: Bucket) {
    if requested.None? then b.anything else b.key == requested.value
  }

  /** A bucket the request may be given, among these, and the one to be tried first if it is there. */
  ghost predicate FirstAmong(p: Policy, requested: Option<Key>, among: set<Bucket>, b: Bucket) {
    b in among && MayBeGiven(p, requested, b) &&
    forall c :: c in among && MayBeGiven(p, requested, c) && ComesFirst(requested, c) ==> c == b
  }

  ghost predicate SomeGiven(p: Policy, requested: Option<Key>, among: set<Bucket>) {
    exists b :: b in among && MayBeGiven(p, requested, b)
  }

  /** A free bucket if there is one; only then one somebody can be bumped out of. */
  ghost predicate Gets(p: Policy, requested: Option<Key>, free: set<Bucket>, bumpable: set<Bucket>, b: Bucket) {
    if SomeGiven(p, requested, free) then FirstAmong(p, requested, free, b)
    else FirstAmong(p, requested, bumpable, b)
  }

  ghost function Free(p: Policy, others: seq<Signup>): set<Bucket> {
    set b | b in p.buckets && !b.Full(others)
  }

  /** The buckets that hold a signup without preference, as long as it has somewhere to go. */
  ghost function CanBump(p: Policy, others: seq<Signup>): set<Bucket> {
    set b | b in p.buckets && SomeCapacity(p, others) && HoldsMovable(b, others)
  }

  ghost predicate HoldsMovable(b: Bucket, others: seq<Signup>) {
    exists n :: n in others && n.bucketKey == Some(b.key) && n.NoPreference()
  }

  lemma GivenIsPrioritized(p: Policy, requested: Option<Key>, b: Bucket)
    requires p.Valid()
    ensures b in Prioritized(p, requested) <==> MayBeGiven(p, requested, b)
  {
    if requested.Some? {
      PrioritizedRequested(p, requested.value, b);
    } else {
      PrioritizedNoPreference(p, b);
    }
  }

  /** The list of the finder begins with the bucket to be tried first, if it passes. */
  lemma FirstPasses(p: Policy, requested: Option<Key>, keep: Bucket -> bool, c: Bucket)
    requires p.Valid() && MayBeGiven(p, requested, c) && ComesFirst(requested, c) && keep(c)
    ensures Filter(Prioritized(p, requested), keep) != [] && Filter(Prioritized(p, requested), keep)[0] == c
  {
    var list := Prioritized(p, requested);
    GivenIsPrioritized(p, requested, c);
    if requested.Some? {
      LookupFinds(p, c);
      HeadPasses(list, keep);
    } else {
      SortSorts(Filter(p.buckets, IsCountedLimited), AnythingRank);
      FirstStaysFirst(list, keep, c);
      var first := Filter(list, keep)[0];
      assert first in Filter(list, keep);
      GivenIsPrioritized(p, requested, first);
      AnythingUnique(p, c);
      AnythingUnique(p, first);
    }
  }

  lemma FirstIsAmong(p: Policy, requested: Option<Key>, keep: Bucket -> bool, among: set<Bucket>)
    requires p.Valid() && forall b :: b in among <==> b in p.buckets && keep(b)
    ensures var list := Filter(Prioritized(p, requested), keep);
            (list != [] <==> SomeGiven(p, requested, among)) && (list != [] ==> FirstAmong(p, requested, among, list[0]))
  {
    var list := Filter(Prioritized(p, requested), keep);
    forall b ensures b in list <==> b in among && MayBeGiven(p, requested, b) {
      GivenIsPrioritized(p, requested, b);
    }
    if list != [] {
      assert list[0] in list;
      forall c | c in among && MayBeGiven(p, requested, c) && ComesFirst(requested, c) ensures c == list[0] {
        FirstPasses(p, requested, keep, c);
      }
    }
  }

  lemma MovableMeans(p: Policy, others: seq<Signup>, b: Bucket)
    ensures Movable(p, others, b) != [] <==> SomeCapacity(p, others) && HoldsMovable(b, others)
  {
    CapacityExists(p, others);
    var movable := Filter(others, (s: Signup) => s.bucketKey == Some(b.key) && s.NoPreference());
    if movable != [] {
      assert movable[0] in movable;
    }
  }

  /** What the finder answers is what the request gets, and it answers whenever something is to be had. */
  lemma FinderGets(p: Policy, requested: Option<Key>, others: seq<Signup>)
    requires p.Valid()
    ensures var found := FindBucket(p, requested, others);
            if found.Some? then Gets(p, requested, Free(p, others), CanBump(p, others), found.value)
            else forall b :: !Gets(p, requested, Free(p, others), CanBump(p, others), b)
  {
    FirstIsAmong(p, requested, (b: Bucket) => !b.Full(others), Free(p, others));
    forall b: Bucket ensures Movable(p, others, b) != [] <==> SomeCapacity(p, others) && HoldsMovable(b, others) {
      MovableMeans(p, others, b);
    }
    FirstIsAmong(p, requested, (b: Bucket) => Movable(p, others, b) != [], CanBump(p, others));
  }

  /** With a preference, at most one bucket is to be had. */
  lemma GetsOne(p: Policy, requested: Option<Key>, free: set<Bucket>, bumpable: set<Bucket>, b: Bucket, c: Bucket)
    requires p.Valid() && requested.Some?
    requires Gets(p, requested, free, bumpable, b) && Gets(p, requested, free, bumpable, c)
    ensures b == c
  {
    if !ComesFirst(requested, b) && !ComesFirst(requested, c) {
      AnythingUnique(p, b);
      AnythingUnique(p, c);
    }
  }

  // ------------------------------------------------------------------------- who is bumped

  /** Row `j` is the first without preference in the bucket. */
  ghost predicate FirstMovable(rows: seq<Signup>, b: Bucket, j: nat) {
    j < |rows| && rows[j].bucketKey == Some(b.key) && rows[j].NoPreference() &&
    forall k :: 0 <= k < j ==> !(rows[k].bucketKey == Some(b.key) && rows[k].NoPreference())
  }

  /** Where somebody bumped goes: to a free bucket other than the one left, the anything bucket first. */
  lemma BumpedTakesFirst(p: Policy, others: seq<Signup>, from: Bucket)
    requires p.Valid() && from in p.buckets
    ensures var list := NoPreferenceCapacityExcept(p, others, from);
            list != [] ==> FirstAmong(p, None, Free(p, others) - {from}, list[0])
  {
    var prioritized, free := Prioritized(p, None), (b: Bucket) => !b.Full(others);
    var both := (b: Bucket) => !b.Full(others) && b.key != from.key;
    FilterFuse(prioritized, free, (b: Bucket) => b.key != from.key, both);
    forall b ensures b in Free(p, others) - {from} <==> b in p.buckets && both(b) {
      LookupFinds(p, from);
      if b in p.buckets {
        LookupFinds(p, b);
      }
    }
    FirstIsAmong(p, None, both, Free(p, others) - {from});
  }
}
