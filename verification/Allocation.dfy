/** What the allocator keeps true of the signups of a run. */
module Allocation {
  import opened Sorting
  import opened Registration
  import opened BucketFinder

  ghost predicate Numbered(signups: seq<Signup>) {
    forall i :: 0 <= i < |signups| ==> signups[i].id == i
  }

  /**
   * Waiting and withdrawn signups hold no bucket and are not counted. A confirmed one is counted
   * as its bucket says; one without a bucket belongs to a team member, and team members have no
   * other active signups.
   */
  ghost predicate ShapedRow(p: Policy, team: set<Profile>, s: Signup) {
    (!s.state.Confirmed? ==> s.bucketKey.None? && !s.counted) &&
    (s.state.Confirmed? && s.bucketKey.Some? ==>
       p.BucketWithKey(s.bucketKey).Some? &&
       s.counted == p.BucketWithKey(s.bucketKey).value.Counted()) &&
    (s.state.Confirmed? && s.bucketKey.None? ==> !s.counted && s.profile in team) &&
    (s.profile in team && !s.state.Withdrawn? ==> s.state.Confirmed? && s.bucketKey.None?)
  }

  ghost predicate Shaped(p: Policy, team: set<Profile>, signups: seq<Signup>) {
    Numbered(signups) && forall s :: s in signups ==> ShapedRow(p, team, s)
  }

  /** What is left of the shape when a counted flag may be wrong: a signup may sit in a bucket that
      counts without being counted, and a team member may have other signups. */
  ghost predicate SoundRow(p: Policy, team: set<Profile>, s: Signup) {
    (!s.state.Confirmed? ==> s.bucketKey.None? && !s.counted) &&
    (s.state.Confirmed? && s.bucketKey.Some? ==>
       p.BucketWithKey(s.bucketKey).Some? &&
       (s.counted ==> p.BucketWithKey(s.bucketKey).value.Counted())) &&
    (s.state.Confirmed? && s.bucketKey.None? ==> !s.counted && s.profile in team)
  }

  ghost predicate Sound(p: Policy, team: set<Profile>, signups: seq<Signup>) {
    Numbered(signups) && forall s :: s in signups ==> SoundRow(p, team, s)
  }

  lemma ShapedIsSound(p: Policy, team: set<Profile>, signups: seq<Signup>)
    requires Shaped(p, team, signups)
    ensures Sound(p, team, signups)
  {
    forall s | s in signups ensures SoundRow(p, team, s) {
      assert ShapedRow(p, team, s);
    }
  }

  ghost predicate WithinCapacity(p: Policy, signups: seq<Signup>) {
    forall b :: b in p.buckets && b.slotsLimited ==> Count(signups, InBucket(b.key)) <= b.totalSlots
  }

  /** No limited bucket ends up over-full unless it was, and then by no more than before. */
  ghost predicate NoNewExcess(p: Policy, before: seq<Signup>, after: seq<Signup>) {
    forall b :: b in p.buckets && b.slotsLimited ==>
      Count(after, InBucket(b.key)) <= b.totalSlots ||
      Count(after, InBucket(b.key)) <= Count(before, InBucket(b.key))
  }

  /** Nobody waits who could be placed: the finder has no bucket for any waiting signup. */
  ghost predicate Stable(p: Policy, signups: seq<Signup>) {
    forall w :: w in signups && w.state.Waitlisted? ==>
      FindBucket(p, w.requested, CountedConfirmed(signups)).None?
  }

  ghost predicate KnownRequest(p: Policy, s: Signup) {
    s.requested.Some? ==>
      p.BucketWithKey(s.requested).Some? && !p.BucketWithKey(s.requested).value.anything
  }

  /** A confirmed signup in a bucket sits where it asked to be, or where its request allows. */
  ghost predicate SeatedAsAsked(p: Policy, s: Signup) {
    s.state.Confirmed? && s.bucketKey.Some? ==>
      p.BucketWithKey(s.bucketKey).Some? &&
      var b := p.BucketWithKey(s.bucketKey).value;
      if s.NoPreference() then b.CountedLimited() else s.requested == Some(b.key) || b.anything
  }

  ghost predicate Preferring(p: Policy, signups: seq<Signup>) {
    forall s :: s in signups ==> KnownRequest(p, s) && SeatedAsAsked(p, s)
  }

  /** Fullness as the finder sees it at a run: only counted signups. */
  ghost predicate FullOfCounted(b: Bucket, signups: seq<Signup>) {
    b.slotsLimited && Count(signups, CountedIn(b.key)) >= b.totalSlots
  }

  ghost predicate HoldsNoPreference(b: Bucket, signups: seq<Signup>) {
    exists n :: n in signups && n.counted && n.ConfirmedIn(b.key) && n.NoPreference()
  }

  /** No room for a request, said of the whole run instead of its counted confirmed signups. */
  ghost predicate NoRoomAtRun(p: Policy, requested: Option<Key>, signups: seq<Signup>) {
    (forall b :: b in Prioritized(p, requested) ==> FullOfCounted(b, signups)) &&
    ((forall c :: c in p.buckets && c.CountedLimited() ==> FullOfCounted(c, signups)) ||
     (forall b :: b in Prioritized(p, requested) ==> !HoldsNoPreference(b, signups)))
  }

  lemma RunView(p: Policy, requested: Option<Key>, signups: seq<Signup>)
    ensures FindBucket(p, requested, CountedConfirmed(signups)).None?
            <==> NoRoomAtRun(p, requested, signups)
  {
    var others := CountedConfirmed(signups);
    FindBucketNone(p, requested, others);
    forall b: Bucket ensures b.Full(others) <==> FullOfCounted(b, signups) {
      CountCounted(signups, b.key);
    }
    if NoRoom(p, requested, others) {
      if SomeCapacity(p, others) {
        forall b | b in Prioritized(p, requested) ensures !HoldsNoPreference(b, signups) {
          forall n | n in signups && n.counted && n.ConfirmedIn(b.key) ensures !n.NoPreference() {
            assert n in others;
          }
        }
      }
    }
    if NoRoomAtRun(p, requested, signups) && SomeCapacity(p, others) {
      forall b, s | b in Prioritized(p, requested) && s in others && s.bucketKey == Some(b.key)
        ensures !s.NoPreference()
      {
        assert s.ConfirmedIn(b.key);
        assert !HoldsNoPreference(b, signups);
      }
    }
  }

  lemma StableAtRun(p: Policy, signups: seq<Signup>)
    ensures Stable(p, signups) <==>
            forall w :: w in signups && w.state.Waitlisted? ==> NoRoomAtRun(p, w.requested, signups)
  {
    forall w | w in signups
      ensures FindBucket(p, w.requested, CountedConfirmed(signups)).None?
              <==> NoRoomAtRun(p, w.requested, signups)
    {
      RunView(p, w.requested, signups);
    }
  }

  /** Among shaped signups, everyone in a counted bucket is counted and nobody else is. */
  lemma ShapedCounts(p: Policy, team: set<Profile>, signups: seq<Signup>, b: Bucket)
    requires p.Valid() && Shaped(p, team, signups) && b in p.buckets
    ensures Count(signups, CountedIn(b.key)) == if b.Counted() then Count(signups, InBucket(b.key)) else 0
  {
    LookupFinds(p, b);
    forall i | 0 <= i < |signups| ensures ShapedRow(p, team, signups[i]) {
      assert signups[i] in signups;
    }
    if b.Counted() {
      CountPointwise(signups, signups, InBucket(b.key), CountedIn(b.key));
      CountPointwise(signups, signups, CountedIn(b.key), InBucket(b.key));
    } else {
      CountZero(signups, CountedIn(b.key));
    }
  }

  ghost predicate HasId(xs: seq<Signup>, id: nat) {
    exists c :: c in xs && c.id == id
  }

  ghost predicate Distinct(xs: seq<Signup>) {
    forall i, j :: 0 <= i < j < |xs| ==> xs[i].id != xs[j].id
  }

  lemma DistinctCons(x: Signup, xs: seq<Signup>)
    requires Distinct(xs) && !HasId(xs, x.id)
    ensures Distinct([x] + xs)
  {
    var ys := [x] + xs;
    forall i, j | 0 <= i < j < |ys| ensures ys[i].id != ys[j].id {
      assert ys[j] in xs;
    }
  }

  lemma {:induction false} FilterDistinct(xs: seq<Signup>, keep: Signup -> bool)
    requires Distinct(xs)
    ensures Distinct(Filter(xs, keep))
  {
    if xs != [] {
      FilterDistinct(xs[1..], keep);
      forall c | c in Filter(xs[1..], keep) ensures c.id != xs[0].id {
        var j :| 0 <= j < |xs[1..]| && xs[1..][j] == c;
        assert xs[j + 1] == c;
      }
      if keep(xs[0]) {
        DistinctCons(xs[0], Filter(xs[1..], keep));
      }
    }
  }

  lemma {:induction false} InsertDistinct(x: Signup, xs: seq<Signup>, key: Signup -> Rank)
    requires Distinct(xs) && !HasId(xs, x.id)
    ensures Distinct(Insert(x, xs, key))
  {
    if xs == [] || Le(key(x), key(xs[0])) {
      DistinctCons(x, xs);
    } else {
      var tail := xs[1..];
      assert forall c :: c in tail ==> c in xs;
      InsertDistinct(x, tail, key);
      InsertPermutes(x, tail, key);
      forall c | c in Insert(x, tail, key) ensures c.id != xs[0].id {
        assert c in multiset(Insert(x, tail, key));
        assert c == x || c in tail;
        assert xs[0] in xs;
      }
      DistinctCons(xs[0], Insert(x, tail, key));
    }
  }

  lemma {:induction false} SortDistinct(xs: seq<Signup>, key: Signup -> Rank)
    requires Distinct(xs)
    ensures Distinct(SortBy(xs, key))
  {
    if xs != [] {
      SortDistinct(xs[1..], key);
      SortSorts(xs[1..], key);
      forall c | c in SortBy(xs[1..], key) ensures c.id != xs[0].id {
        var j :| 0 <= j < |xs[1..]| && xs[1..][j] == c;
        assert xs[j + 1] == c;
      }
      InsertDistinct(xs[0], SortBy(xs[1..], key), key);
    }
  }
}
