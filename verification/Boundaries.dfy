/** Where the services stop keeping what they keep elsewhere: for each such case the exact
    condition, and a small run that shows it. */
module Boundaries {
  import opened Sorting
  import opened Registration
  import opened BucketFinder
  import opened Allocation
  import opened VacancyFill
  import opened EventSignup
  import opened Vacating
  import opened PolicyChange
  import opened PolicyChangeResults

  function LimitedBucket(key: Key, totalSlots: nat, anything: bool, notCounted: bool): Bucket {
    Bucket(key, totalSlots, true, anything, notCounted)
  }

  // --------------------------------------------------- signing up for a bucket that is not counted

  /** A limited bucket that does not count has one slot, and it is taken: signing up for it raises,
      instead of putting the signup on the waitlist. */
  lemma SigningUpRaises()
    ensures var spectators := LimitedBucket("spectators", 1, false, true);
            var p := Policy([spectators], false);
            var taken := Signup(0, 1, Confirmed, Some("spectators"), Some("spectators"), false, 0);
            p.Valid() && Shaped(p, {}, [taken]) && WithinCapacity(p, [taken]) &&
            Place(p, {}, [taken], 2, Some("spectators"), 1).Raised?
  {
    var spectators := LimitedBucket("spectators", 1, false, true);
    var p := Policy([spectators], false);
    var taken := Signup(0, 1, Confirmed, Some("spectators"), Some("spectators"), false, 0);
    LookupFinds(p, spectators);
    CountOne([], taken, InBucket("spectators"));
    assert [] + [taken] == [taken];
    assert Prioritized(p, Some("spectators"))[0] == spectators;
    assert Count(CountedConfirmed([taken]), InBucket("spectators")) == 0;
    assert FindBucket(p, Some("spectators"), CountedConfirmed([taken])) == Some(spectators);
    PlaceRaisesInShape(p, {}, [taken], 2, Some("spectators"), 1);
  }

  // ---------------------------------------------------------- requests for buckets that are gone

  const WITH_CREW := Policy([LimitedBucket("crew", 1, false, false), LimitedBucket("any", 0, true, false)], false)
  const WITHOUT_CREW := Policy([LimitedBucket("any", 1, true, false)], false)
  const IN_CREW := Signup(0, 1, Confirmed, Some("crew"), Some("crew"), true, 0)
  const AWAITING_CREW := Signup(1, 2, Waitlisted, None, Some("crew"), false, 1)

  /** Signups to be placed that stand in order already are placed as they stand. */
  lemma InOrderAlready(signups: seq<Signup>)
    requires Sorted(signups, PlacementRank) && forall s :: s in signups ==> IsActive(s) && IsToPlace(s)
    ensures ToKeep(signups) == [] && ToPlace(signups) == signups
  {
    FilterAll(signups, IsActive);
    SortedStays(signups, PlacementRank);
    FilterAll(signups, IsToPlace);
    FilterEmpty(signups, IsKept);
  }

  lemma SimulateTwo(p: Policy, a: Signup, b: Signup)
    requires p.Valid()
    ensures Simulate(p, [], [a, b]) == SimulateSignup(p, SimulateSignup(p, [], a), b)
    ensures Immovable(p, [], [a, b]) ==
            (if a.state.Confirmed? && Destination(p, [], a).None? then [a] else []) +
            (if b.state.Confirmed? && Destination(p, SimulateSignup(p, [], a), b).None? then [b] else [])
  {
    assert [a, b][1..] == [b] && [b][1..] == [];
    var first := SimulateSignup(p, [], a);
    assert Simulate(p, first, [b]) == Simulate(p, SimulateSignup(p, first, b), []);
    assert Immovable(p, SimulateSignup(p, first, b), []) == [];
  }

  const MOVED_TO_ANY := IN_CREW.(bucketKey := Some("any"))

  /** Asking for the bucket that is gone means asking for the anything bucket. */
  lemma CrewMeansAny()
    ensures Prioritized(WITHOUT_CREW, Some("crew")) == [WITHOUT_CREW.buckets[0]]
    ensures Count([MOVED_TO_ANY], InBucket("any")) == 1
    ensures WITHOUT_CREW.BucketWithKey(Some("crew")) == None && WITHOUT_CREW.BucketWithKey(None) == None
  {
    assert WITHOUT_CREW.BucketWithKey(Some("crew")) == None;
    CountOne([], MOVED_TO_ANY, InBucket("any"));
    assert [] + [MOVED_TO_ANY] == [MOVED_TO_ANY];
  }

  lemma CrewMoves()
    ensures Destination(WITHOUT_CREW, [], IN_CREW) == Some(WITHOUT_CREW.buckets[0])
    ensures SimulateSignup(WITHOUT_CREW, [], IN_CREW) == [MOVED_TO_ANY]
  {
    CrewMeansAny();
    assert WithCapacity([WITHOUT_CREW.buckets[0]], [])[0] == WITHOUT_CREW.buckets[0];
  }

  lemma NoRoomForCrew()
    ensures Destination(WITHOUT_CREW, [MOVED_TO_ANY], AWAITING_CREW) == None
  {
    CrewMeansAny();
    FindBucketNone(WITHOUT_CREW, Some("crew"), [MOVED_TO_ANY]);
  }

  lemma CrewRemoved()
    ensures Stranded(WITHOUT_CREW, [IN_CREW, AWAITING_CREW]) == []
    ensures ChangedRun(WITHOUT_CREW, [IN_CREW, AWAITING_CREW]) == [MOVED_TO_ANY, AWAITING_CREW]
  {
    InOrderAlready([IN_CREW, AWAITING_CREW]);
    SimulateTwo(WITHOUT_CREW, IN_CREW, AWAITING_CREW);
    CrewMoves();
    NoRoomForCrew();
    assert Replaced(WITHOUT_CREW, [IN_CREW, AWAITING_CREW]) == [MOVED_TO_ANY];
    OneCopy(WITHOUT_CREW, IN_CREW, AWAITING_CREW, MOVED_TO_ANY);
  }

  lemma OneCopy(p: Policy, a: Signup, b: Signup, copy: Signup)
    requires p.Valid() && Replaced(p, [a, b]) == [copy] && copy.id == 0
    ensures ChangedRun(p, [a, b]) == [WithState(a, copy), b]
  {
    assert [copy][..0] == [];
    assert Overlay([a, b], []) == [a, b];
  }

  /** A policy change drops a bucket somebody still waits for; when the slot that person could take
      becomes free, withdrawing from it raises. */
  lemma WithdrawingRaises()
    ensures WITH_CREW.Valid() && WITHOUT_CREW.Valid() && WITHOUT_CREW.LimitedBucketsCount()
    ensures Shaped(WITH_CREW, {}, [IN_CREW, AWAITING_CREW]) && Stranded(WITHOUT_CREW, [IN_CREW, AWAITING_CREW]) == []
    ensures var after := ChangedRun(WITHOUT_CREW, [IN_CREW, AWAITING_CREW]);
            Numbered(after) && |after| == 2 && Withdraw(WITHOUT_CREW, {}, after, 0).Raised?
  {
    CrewRemoved();
    LookupFinds(WITH_CREW, WITH_CREW.buckets[0]);
    RemovedCrewWaits();
    assert [MOVED_TO_ANY, AWAITING_CREW][0 := Withdrawal(MOVED_TO_ANY)] == [Withdrawal(MOVED_TO_ANY), AWAITING_CREW];
  }

  lemma RemovedCrewWaits()
    ensures var left := [Withdrawal(MOVED_TO_ANY), AWAITING_CREW];
            Numbered(left) && !WITHOUT_CREW.buckets[0].Full(left) && FillVacancy(WITHOUT_CREW, left, {}, {}, Some("any")).Raised?
  {
    var any := WITHOUT_CREW.buckets[0];
    var left := [Withdrawal(MOVED_TO_ANY), AWAITING_CREW];
    CountZero(left, InBucket("any"));
    OrderedIsLocated(left, {}, {});
    var candidates := Unmoved(AllOrdered(left, {}), {});
    assert AWAITING_CREW in left && AWAITING_CREW in candidates;
    assert AWAITING_CREW in Takers(WITHOUT_CREW, candidates, any);
    assert Takers(WITHOUT_CREW, candidates, any)[0] in Takers(WITHOUT_CREW, candidates, any);
    assert Takers(WITHOUT_CREW, candidates, any)[0] == AWAITING_CREW;
    assert !SavesCleanly(WITHOUT_CREW, Seat(AWAITING_CREW, any));
  }
}
