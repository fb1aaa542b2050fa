/** Choosing a bucket for a signup (signup_bucket_finder.rb). */
module BucketFinder {
  import opened Sorting
  import opened Registration

  function Compact(b: Option<Bucket>): seq<Bucket> {
    if b.None? then [] else [b.value]
  }

  function AnythingRank(b: Bucket): Rank { Rank(if b.anything then 0 else 1, 0, 0) }

  function Prioritized(p: Policy, requested: Option<Key>): seq<Bucket> {
    if requested.Some? then
      var bucket := p.BucketWithKey(requested);
      Compact(bucket) +
      (if bucket.Some? && bucket.value.notCounted then [] else Compact(p.AnythingBucket()))
    else
      SortBy(Filter(p.buckets, IsCountedLimited), AnythingRank)
  }

  function WithCapacity(buckets: seq<Bucket>, others: seq<Signup>): seq<Bucket> {
    Filter(buckets, (b: Bucket) => !b.Full(others))
  }

  /** `prioritized_buckets_with_capacity` of the no-preference finder */
  function NoPreferenceCapacity(p: Policy, others: seq<Signup>): seq<Bucket> {
    WithCapacity(Prioritized(p, None), others)
  }

  function NoPreferenceCapacityExcept(p: Policy, others: seq<Signup>, b: Bucket): seq<Bucket> {
    Filter(NoPreferenceCapacity(p, others), (c: Bucket) => c.key != b.key)
  }

  function Movable(p: Policy, others: seq<Signup>, b: Bucket): seq<Signup> {
    if NoPreferenceCapacity(p, others) == [] then []
    else Filter(others, (s: Signup) => s.bucketKey == Some(b.key) && s.NoPreference())
  }

  function Bumpable(p: Policy, buckets: seq<Bucket>, others: seq<Signup>): seq<Bucket> {
    Filter(buckets, (b: Bucket) => Movable(p, others, b) != [])
  }

  function FindBucket(p: Policy, requested: Option<Key>, others: seq<Signup>): Option<Bucket> {
    var prioritized := Prioritized(p, requested);
    var free := WithCapacity(prioritized, others);
    if free != [] then Some(free[0])
    else
      var full := Bumpable(p, prioritized, others);
      if full != [] then Some(full[0]) else None
  }

  lemma PrioritizedNoPreference(p: Policy, b: Bucket)
    ensures b in Prioritized(p, None) <==> b in p.buckets && b.CountedLimited()
  {
    SortSorts(Filter(p.buckets, IsCountedLimited), AnythingRank);
  }

  /** Which buckets a request may be given, for a policy with unique keys. */
  lemma PrioritizedRequested(p: Policy, r: Key, b: Bucket)
    requires p.Valid()
    ensures b in Prioritized(p, Some(r)) <==>
            b in p.buckets &&
            (b.key == r ||
             (b.anything && forall c :: c in p.buckets && c.key == r ==> c.Counted()))
  {
    var found := p.BucketWithKey(Some(r));
    if found.Some? {
      LookupFinds(p, found.value);
    }
    if b in p.buckets && b.anything {
      AnythingUnique(p, b);
    }
    if b in p.buckets && b.key == r {
      LookupFinds(p, b);
    }
    forall c | c in p.buckets && c.key == r ensures found == Some(c) {
      LookupFinds(p, c);
    }
  }

  lemma PrioritizedInPolicy(p: Policy, r: Option<Key>, b: Bucket)
    requires p.Valid() && b in Prioritized(p, r)
    ensures b in p.buckets
  {
    if r.Some? {
      PrioritizedRequested(p, r.value, b);
    } else {
      PrioritizedNoPreference(p, b);
    }
  }

  ghost predicate SomeCapacity(p: Policy, others: seq<Signup>) {
    exists c :: c in p.buckets && c.CountedLimited() && !c.Full(others)
  }

  lemma CapacityExists(p: Policy, others: seq<Signup>)
    ensures NoPreferenceCapacity(p, others) != [] <==> SomeCapacity(p, others)
    ensures forall c :: c in NoPreferenceCapacity(p, others) <==>
                        c in p.buckets && c.CountedLimited() && !c.Full(others)
  {
    forall c ensures c in NoPreferenceCapacity(p, others) <==>
                     c in p.buckets && c.CountedLimited() && !c.Full(others)
    {
      PrioritizedNoPreference(p, c);
    }
    if NoPreferenceCapacity(p, others) != [] {
      assert NoPreferenceCapacity(p, others)[0] in NoPreferenceCapacity(p, others);
    }
  }

  /** There is neither a free bucket for the request nor one that bumping would free. */
  ghost predicate NoRoom(p: Policy, requested: Option<Key>, others: seq<Signup>) {
    (forall b :: b in Prioritized(p, requested) ==> b.Full(others)) &&
    (SomeCapacity(p, others) ==>
       forall b, s :: b in Prioritized(p, requested) && s in others && s.bucketKey == Some(b.key)
                      ==> !s.NoPreference())
  }

  /** The finder answers nothing exactly when there is no room. */
  lemma FindBucketNone(p: Policy, requested: Option<Key>, others: seq<Signup>)
    ensures FindBucket(p, requested, others).None? <==> NoRoom(p, requested, others)
  {
    var prioritized := Prioritized(p, requested);
    var free := WithCapacity(prioritized, others);
    var full := Bumpable(p, prioritized, others);
    CapacityExists(p, others);
    if free != [] {
      assert free[0] in free;
    } else {
      forall b | b in prioritized ensures b.Full(others) {
        assert b !in free;
      }
      if full != [] {
        var b := full[0];
        assert b in full;
        var s := Movable(p, others, b)[0];
        assert s in Movable(p, others, b);
      } else if SomeCapacity(p, others) {
        forall b, s | b in prioritized && s in others && s.bucketKey == Some(b.key)
          ensures !s.NoPreference()
        {
          assert b !in full;
          assert s !in Movable(p, others, b);
        }
      }
    }
  }

  /**
   * Whatever the finder answers is one of the buckets the request may be given. When that bucket
   * is full, the request has a preference, the bucket holds a movable signup without one, and
   * another counted limited bucket has a free slot for it.
   */
  lemma BumpCoherence(p: Policy, requested: Option<Key>, others: seq<Signup>)
    requires p.Valid() && FindBucket(p, requested, others).Some?
    ensures var b := FindBucket(p, requested, others).value;
            b in Prioritized(p, requested) && b in p.buckets &&
            (b.Full(others) ==>
               requested.Some? &&
               (forall c :: c in Prioritized(p, requested) ==> c.Full(others)) &&
               Movable(p, others, b) != [] &&
               var n := Movable(p, others, b)[0];
               n in others && n.bucketKey == Some(b.key) && n.NoPreference() &&
               NoPreferenceCapacityExcept(p, others, b) != [] &&
               var d := NoPreferenceCapacityExcept(p, others, b)[0];
               d in p.buckets && d.CountedLimited() && !d.Full(others) && d.key != b.key)
  {
    var b := FindBucket(p, requested, others).value;
    var prioritized := Prioritized(p, requested);
    var free := WithCapacity(prioritized, others);
    CapacityExists(p, others);
    if free != [] {
      assert free[0] in free;
    } else {
      assert Bumpable(p, prioritized, others)[0] in Bumpable(p, prioritized, others);
      forall c | c in prioritized ensures c.Full(others) {
        assert c !in free;
      }
    }
    PrioritizedInPolicy(p, requested, b);
    if b.Full(others) {
      var n := Movable(p, others, b)[0];
      assert n in Movable(p, others, b);
      var capacity := NoPreferenceCapacity(p, others);
      assert capacity[0] in capacity;
      LookupFinds(p, b);
      LookupFinds(p, capacity[0]);
      PrioritizedNoPreference(p, capacity[0]);
      assert capacity[0] in NoPreferenceCapacityExcept(p, others, b);
      assert NoPreferenceCapacityExcept(p, others, b)[0] in NoPreferenceCapacityExcept(p, others, b);
    }
  }

  // ----------------------------------------------------------------------- the order of choice

  /**
   * A request gets its own bucket if that has a free slot, otherwise the anything bucket if it may
   * be given that and it has one. Only when both are full is anybody bumped, first out of the
   * requested bucket.
   */
  lemma RequestIsHonoured(p: Policy, r: Key, others: seq<Signup>, b: Bucket, a: Bucket)
    requires p.Valid() && b in p.buckets && b.key == r && a in p.buckets && a.anything && a.key != r
    ensures !b.Full(others) ==> FindBucket(p, Some(r), others) == Some(b)
    ensures b.Full(others) && b.Counted() && !a.Full(others) ==> FindBucket(p, Some(r), others) == Some(a)
    ensures b.Full(others) && (b.Counted() ==> a.Full(others)) ==>
              FindBucket(p, Some(r), others) ==
              if Movable(p, others, b) != [] then Some(b)
              else if b.Counted() && Movable(p, others, a) != [] then Some(a)
              else None
  {
    LookupFinds(p, b);
    AnythingUnique(p, a);
    var keep := (c: Bucket) => !c.Full(others);
    var bump := (c: Bucket) => Movable(p, others, c) != [];
    if b.Counted() {
      assert Prioritized(p, Some(r)) == [b, a];
      FilterTwo(b, a, keep);
      FilterTwo(b, a, bump);
    } else {
      assert Prioritized(p, Some(r)) == [b];
      FilterOne(b, keep);
      FilterOne(b, bump);
    }
  }

  lemma FilterOne(b: Bucket, keep: Bucket -> bool)
    ensures Filter([b], keep) == if keep(b) then [b] else []
  {
    assert [b][1..] == [];
  }

  lemma FilterTwo(b: Bucket, a: Bucket, keep: Bucket -> bool)
    ensures Filter([b, a], keep) == (if keep(b) then [b] else []) + (if keep(a) then [a] else [])
  {
    assert [b, a][1..] == [a];
    FilterOne(a, keep);
  }

  lemma {:induction false} FirstStaysFirst(xs: seq<Bucket>, keep: Bucket -> bool, a: Bucket)
    requires Sorted(xs, AnythingRank) && a in xs && a.anything && keep(a)
    ensures Filter(xs, keep) != [] && Filter(xs, keep)[0].anything
  {
    var j :| 0 <= j < |xs| && xs[j] == a;
    assert j == 0 || Le(AnythingRank(xs[0]), AnythingRank(xs[j]));
    if !keep(xs[0]) {
      FirstStaysFirst(xs[1..], keep, a);
    }
  }

  /** Without a preference, and when somebody is bumped, the anything bucket comes first. */
  lemma AnythingComesFirst(p: Policy, others: seq<Signup>, a: Bucket, from: Bucket)
    requires p.Valid() && a in p.buckets && a.anything && a.CountedLimited() && !a.Full(others)
    ensures FindBucket(p, None, others) == Some(a)
    ensures from.key != a.key ==>
              NoPreferenceCapacityExcept(p, others, from) != [] && NoPreferenceCapacityExcept(p, others, from)[0] == a
  {
    var free := NoPreferenceCapacity(p, others);
    AnythingHeads(p, others, a);
    HeadPasses(free, (c: Bucket) => c.key != from.key);
  }

  lemma AnythingHeads(p: Policy, others: seq<Signup>, a: Bucket)
    requires p.Valid() && a in p.buckets && a.anything && a.CountedLimited() && !a.Full(others)
    ensures NoPreferenceCapacity(p, others) != [] && NoPreferenceCapacity(p, others)[0] == a
  {
    var free := NoPreferenceCapacity(p, others);
    SortSorts(Filter(p.buckets, IsCountedLimited), AnythingRank);
    FirstStaysFirst(Prioritized(p, None), (c: Bucket) => !c.Full(others), a);
    CapacityExists(p, others);
    assert free[0] in free;
    AnythingUnique(p, a);
    AnythingUnique(p, free[0]);
  }

  lemma HeadPasses(xs: seq<Bucket>, keep: Bucket -> bool)
    requires xs != []
    ensures keep(xs[0]) ==> Filter(xs, keep) != [] && Filter(xs, keep)[0] == xs[0]
  {}
}
