/** Placing a new signup in a run (event_signup_service.rb), on signup rows. */
module EventSignup {
  import opened Sorting
  import opened Registration
  import opened BucketFinder
  import opened Allocation
  import VacancyFill

  datatype Placement = Placed(signups: seq<Signup>) | Rejected | Raised

  /** `require_valid_bucket` and `require_no_bucket_for_team_member` */
  predicate ValidRequest(p: Policy, team: set<Profile>, profile: Profile, requested: Option<Key>) {
    if profile in team then requested.None?
    else
      (!p.preventNoPreference && requested.None?) ||
      (p.BucketWithKey(requested).Some? && !p.BucketWithKey(requested).value.anything)
  }

  function ActualBucket(p: Policy, team: set<Profile>, signups: seq<Signup>, profile: Profile,
                        requested: Option<Key>): Option<Bucket>
  {
    if profile in team then None else FindBucket(p, requested, CountedConfirmed(signups))
  }

  function NewSignup(id: nat, team: set<Profile>, profile: Profile, requested: Option<Key>,
                     actual: Option<Bucket>, createdAt: int): Signup
  {
    Signup(id, profile,
           if profile !in team && actual.None? then Waitlisted else Confirmed,
           if actual.Some? then Some(actual.value.key) else None,
           requested,
           profile !in team && actual.Some? && actual.value.Counted(),
           createdAt)
  }

  /** `move_signup`: bumps the first movable signup out of `b`; raises when there is none. */
  function MoveSignup(p: Policy, signups: seq<Signup>, b: Bucket): Placement {
    var others := CountedConfirmed(signups);
    var movable := Movable(p, others, b);
    var destinations := NoPreferenceCapacityExcept(p, others, b);
    if movable == [] || destinations == [] || movable[0].id >= |signups| then Raised
    else Placed(signups[movable[0].id := movable[0].(bucketKey := Some(destinations[0].key))])
  }

  function Place(p: Policy, team: set<Profile>, signups: seq<Signup>, profile: Profile,
                 requested: Option<Key>, createdAt: int): Placement
  {
    if !ValidRequest(p, team, profile, requested) then Rejected
    else
      var actual := ActualBucket(p, team, signups, profile, requested);
      var made := if actual.Some? && actual.value.Full(signups) then MoveSignup(p, signups, actual.value)
                  else Placed(signups);
      if made.Placed? then
        Placed(made.signups + [NewSignup(|signups|, team, profile, requested, actual, createdAt)])
      else made
  }

  /** Signups keep their identity when one is placed, in any run, and the new one comes last. */
  lemma PlaceEvolves(p: Policy, team: set<Profile>, signups: seq<Signup>, profile: Profile,
                     requested: Option<Key>, createdAt: int)
    requires Numbered(signups) && Place(p, team, signups, profile, requested, createdAt).Placed?
    ensures var after := Place(p, team, signups, profile, requested, createdAt).signups;
            |after| == |signups| + 1 && VacancyFill.Evolves(signups, after) && Numbered(after) &&
            after[|signups|].profile == profile && !after[|signups|].state.Withdrawn?
  {
    var actual := ActualBucket(p, team, signups, profile, requested);
    if actual.Some? && actual.value.Full(signups) {
      var movable := Movable(p, CountedConfirmed(signups), actual.value);
      assert movable[0] in movable && movable[0] in signups;
    }
  }

  /** Placing a signup keeps the rows sound, whatever the flags. */
  lemma PlaceKeepsSound(p: Policy, team: set<Profile>, signups: seq<Signup>, profile: Profile,
                        requested: Option<Key>, createdAt: int)
    requires p.Valid() && Sound(p, team, signups)
    requires Place(p, team, signups, profile, requested, createdAt).Placed?
    ensures Sound(p, team, Place(p, team, signups, profile, requested, createdAt).signups)
  {
    var after := Place(p, team, signups, profile, requested, createdAt).signups;
    var actual := ActualBucket(p, team, signups, profile, requested);
    var others := CountedConfirmed(signups);
    PlaceEvolves(p, team, signups, profile, requested, createdAt);
    if actual.Some? {
      BumpCoherence(p, requested, others);
      LookupFinds(p, actual.value);
    }
    forall j | 0 <= j < |signups| ensures SoundRow(p, team, after[j]) {
      assert signups[j] in signups;
      if after[j] != signups[j] {
        BumpedIsSound(p, team, signups, actual.value, j);
      }
    }
  }

  lemma BumpedIsSound(p: Policy, team: set<Profile>, signups: seq<Signup>, b: Bucket, j: nat)
    requires p.Valid() && Sound(p, team, signups) && j < |signups| && MoveSignup(p, signups, b).Placed?
    requires MoveSignup(p, signups, b).signups[j] != signups[j]
    ensures SoundRow(p, team, MoveSignup(p, signups, b).signups[j])
  {
    var others := CountedConfirmed(signups);
    var movable, destinations := Movable(p, others, b), NoPreferenceCapacityExcept(p, others, b);
    assert movable[0] in movable && movable[0] in others && destinations[0] in destinations;
    CapacityExists(p, others);
    assert destinations[0] in NoPreferenceCapacity(p, others);
    LookupFinds(p, destinations[0]);
  }

  /** Room for a request does not appear when full buckets stay full and no-preference signups
      only enter buckets that were not full. */
  lemma RoomDoesNotAppear(p: Policy, signups: seq<Signup>, after: seq<Signup>, requested: Option<Key>)
    requires p.Valid() && NoRoomAtRun(p, requested, signups)
    requires forall b :: b in p.buckets && FullOfCounted(b, signups) ==> FullOfCounted(b, after)
    requires forall b :: b in p.buckets && HoldsNoPreference(b, after) ==>
               HoldsNoPreference(b, signups) || !FullOfCounted(b, signups)
    ensures NoRoomAtRun(p, requested, after)
  {
    forall b | b in Prioritized(p, requested) ensures b in p.buckets {
      PrioritizedInPolicy(p, requested, b);
    }
  }

  /** The signup bumped to make room: confirmed, counted, without preference, and moved to a
      counted limited bucket that had a free slot. */
  ghost predicate BumpedTo(p: Policy, signups: seq<Signup>, b: Bucket, i: nat, d: Bucket) {
    i < |signups| && signups[i].ConfirmedIn(b.key) && signups[i].counted && signups[i].NoPreference() &&
    d in p.buckets && d.CountedLimited() && d.key != b.key && !d.Full(signups)
  }

  /** For a counted bucket the finder sees the fullness of the whole run. */
  lemma FinderSeesCounted(p: Policy, team: set<Profile>, signups: seq<Signup>, b: Bucket)
    requires p.Valid() && Shaped(p, team, signups) && b in p.buckets && b.Counted()
    ensures b.Full(CountedConfirmed(signups)) <==> b.Full(signups)
    ensures FullOfCounted(b, signups) <==> b.Full(signups)
  {
    CountCounted(signups, b.key);
    ShapedCounts(p, team, signups, b);
  }

  lemma MoveSignupBumps(p: Policy, team: set<Profile>, signups: seq<Signup>, requested: Option<Key>, b: Bucket)
    returns (i: nat, d: Bucket)
    requires p.Valid() && Shaped(p, team, signups)
    requires FindBucket(p, requested, CountedConfirmed(signups)) == Some(b) && b.Counted() && b.Full(signups)
    ensures requested.Some? && BumpedTo(p, signups, b, i, d)
    ensures MoveSignup(p, signups, b) == Placed(signups[i := signups[i].(bucketKey := Some(d.key))])
  {
    var others := CountedConfirmed(signups);
    BumpCoherence(p, requested, others);
    FinderSeesCounted(p, team, signups, b);
    var n := Movable(p, others, b)[0];
    d := NoPreferenceCapacityExcept(p, others, b)[0];
    FinderSeesCounted(p, team, signups, d);
    i := n.id;
    assert n in signups;
  }

  /**
   * The service raises exactly when the finder's bucket is full at the run and there is nobody to
   * bump out of it, or no other bucket to bump them to, among the counted signups the finder sees.
   */
  lemma PlaceRaises(p: Policy, team: set<Profile>, signups: seq<Signup>, profile: Profile,
                    requested: Option<Key>, createdAt: int)
    requires Numbered(signups) && ValidRequest(p, team, profile, requested)
    ensures Place(p, team, signups, profile, requested, createdAt).Raised? <==>
            var actual := ActualBucket(p, team, signups, profile, requested);
            actual.Some? && actual.value.Full(signups) &&
            (!HoldsNoPreference(actual.value, signups) ||
             forall c :: c in p.buckets && c.CountedLimited() && c.key != actual.value.key ==> FullOfCounted(c, signups))
  {
    var actual := ActualBucket(p, team, signups, profile, requested);
    if actual.Some? && actual.value.Full(signups) {
      MoveSignupRaises(p, signups, actual.value);
    }
  }

  lemma MoveSignupRaises(p: Policy, signups: seq<Signup>, b: Bucket)
    requires Numbered(signups)
    ensures MoveSignup(p, signups, b).Raised? <==>
            !HoldsNoPreference(b, signups) ||
            forall c :: c in p.buckets && c.CountedLimited() && c.key != b.key ==> FullOfCounted(c, signups)
  {
    var others := CountedConfirmed(signups);
    var movable := Movable(p, others, b);
    var destinations := NoPreferenceCapacityExcept(p, others, b);
    CapacityExists(p, others);
    forall c: Bucket ensures c.Full(others) <==> FullOfCounted(c, signups) {
      CountCounted(signups, c.key);
    }
    forall c ensures c in destinations <==>
                     c in p.buckets && c.CountedLimited() && c.key != b.key && !FullOfCounted(c, signups)
    {
      assert c in NoPreferenceCapacity(p, others) <==> c in p.buckets && c.CountedLimited() && !c.Full(others);
    }
    assert destinations == [] || destinations[0] in destinations;
    if destinations != [] {
      assert destinations[0] in NoPreferenceCapacity(p, others);
      forall n ensures n in movable <==> n in signups && n.counted && n.ConfirmedIn(b.key) && n.NoPreference() {
        assert n in others <==> n in signups && IsCountedConfirmed(n);
      }
      assert movable == [] || (movable[0] in movable && movable[0] in signups);
    }
  }

  /**
   * In a run in shape that means: the finder's bucket does not count its signups and is full. The
   * finder looks at counted signups only, so it never sees such a bucket fill up.
   */
  lemma PlaceRaisesInShape(p: Policy, team: set<Profile>, signups: seq<Signup>, profile: Profile,
                           requested: Option<Key>, createdAt: int)
    requires p.Valid() && Shaped(p, team, signups) && ValidRequest(p, team, profile, requested)
    ensures Place(p, team, signups, profile, requested, createdAt).Raised? <==>
            var actual := ActualBucket(p, team, signups, profile, requested);
            actual.Some? && !actual.value.Counted() && actual.value.Full(signups)
  {
    var actual := ActualBucket(p, team, signups, profile, requested);
    if actual.Some? && actual.value.Full(signups) {
      var b := actual.value;
      if b.Counted() {
        var i, d := MoveSignupBumps(p, team, signups, requested, b);
      } else {
        BumpCoherence(p, requested, CountedConfirmed(signups));
        LookupFinds(p, b);
        forall n | n in CountedConfirmed(signups) ensures n.bucketKey != Some(b.key) {
          assert ShapedRow(p, team, n);
        }
        FilterEmpty(CountedConfirmed(signups), (s: Signup) => s.bucketKey == Some(b.key) && s.NoPreference());
      }
    }
  }

  function Bumped(signups: seq<Signup>, i: nat, d: Bucket): seq<Signup>
    requires i < |signups|
  {
    signups[i := signups[i].(bucketKey := Some(d.key))]
  }

  /** The two ways a signup is placed: straight away, or after bumping signup `i` into `d`. */
  lemma PlaceCases(p: Policy, team: set<Profile>, signups: seq<Signup>, profile: Profile,
                   requested: Option<Key>, createdAt: int)
    returns (base: seq<Signup>, bumps: bool, i: nat, d: Bucket)
    requires p.Valid() && Shaped(p, team, signups)
    requires Place(p, team, signups, profile, requested, createdAt).Placed?
    ensures var actual := ActualBucket(p, team, signups, profile, requested);
            Place(p, team, signups, profile, requested, createdAt).signups ==
            base + [NewSignup(|signups|, team, profile, requested, actual, createdAt)]
    ensures var actual := ActualBucket(p, team, signups, profile, requested);
            actual.Some? ==> actual.value in p.buckets && p.BucketWithKey(Some(actual.value.key)) == actual
    ensures var actual := ActualBucket(p, team, signups, profile, requested);
            !bumps ==> base == signups && (actual.Some? ==> !actual.value.Full(signups))
    ensures var actual := ActualBucket(p, team, signups, profile, requested);
            bumps ==> requested.Some? && actual.Some? && actual.value.CountedLimited() &&
                      actual.value.Full(signups) && BumpedTo(p, signups, actual.value, i, d) &&
                      p.BucketWithKey(Some(d.key)) == Some(d) && base == Bumped(signups, i, d)
    ensures |base| == |signups|
  {
    var actual := ActualBucket(p, team, signups, profile, requested);
    base, bumps, i, d := signups, false, 0, Bucket([], 0, false, false, false);
    if actual.Some? {
      BumpCoherence(p, requested, CountedConfirmed(signups));
      LookupFinds(p, actual.value);
      if actual.value.Full(signups) {
        PlaceRaisesInShape(p, team, signups, profile, requested, createdAt);
        bumps := true;
        i, d := MoveSignupBumps(p, team, signups, requested, actual.value);
        LookupFinds(p, d);
        base := Bumped(signups, i, d);
      }
    }
  }

  /**
   * What placing does: at most one existing signup changes. It has no preference, stays confirmed
   * and counted, and only changes bucket; and nobody is displaced for a signup without preference.
   */
  lemma PlaceDisplaces(p: Policy, team: set<Profile>, signups: seq<Signup>, profile: Profile,
                       requested: Option<Key>, createdAt: int)
    requires p.Valid() && Shaped(p, team, signups)
    requires Place(p, team, signups, profile, requested, createdAt).Placed?
    ensures var after := Place(p, team, signups, profile, requested, createdAt).signups;
            |after| == |signups| + 1 && after[|signups|].profile == profile &&
            after[|signups|].requested == requested && !after[|signups|].state.Withdrawn? &&
            (forall j :: 0 <= j < |signups| && after[j] != signups[j] ==>
               requested.Some? && signups[j].NoPreference() &&
               signups[j].state.Confirmed? && signups[j].counted && after[j].bucketKey.Some? &&
               after[j] == signups[j].(bucketKey := after[j].bucketKey)) &&
            (forall j, k | 0 <= j < |signups| && 0 <= k < |signups| &&
                           after[j] != signups[j] && after[k] != signups[k] :: j == k)
  {
    var base, bumps, i, d := PlaceCases(p, team, signups, profile, requested, createdAt);
    var after := Place(p, team, signups, profile, requested, createdAt).signups;
    forall j | 0 <= j < |signups| && after[j] != signups[j] ensures bumps && j == i {
      assert after[j] == base[j];
    }
    if bumps {
      assert after[i] == base[i];
    }
  }

  /** The new signup waits exactly when its profile is not on the team and there is no room for the
      request; otherwise it sits in a bucket the request may be given, counted as the bucket says. */
  lemma PlaceAdds(p: Policy, team: set<Profile>, signups: seq<Signup>, profile: Profile,
                  requested: Option<Key>, createdAt: int)
    requires p.Valid() && Shaped(p, team, signups)
    requires Place(p, team, signups, profile, requested, createdAt).Placed?
    ensures var after := Place(p, team, signups, profile, requested, createdAt).signups;
            |after| == |signups| + 1 &&
            var added := after[|signups|];
            added.id == |signups| && added.profile == profile && added.requested == requested &&
            added.createdAt == createdAt && !added.state.Withdrawn? &&
            (added.state.Waitlisted? <==> profile !in team && NoRoomAtRun(p, requested, signups)) &&
            (added.bucketKey.Some? <==> profile !in team && added.state.Confirmed?) &&
            (added.bucketKey.Some? ==>
               exists b :: b in Prioritized(p, requested) && added.bucketKey == Some(b.key) && added.counted == b.Counted())
  {
    var base, bumps, i, d := PlaceCases(p, team, signups, profile, requested, createdAt);
    RunView(p, requested, signups);
    if FindBucket(p, requested, CountedConfirmed(signups)).Some? {
      BumpCoherence(p, requested, CountedConfirmed(signups));
    }
  }

  lemma PlaceKeepsShape(p: Policy, team: set<Profile>, signups: seq<Signup>, profile: Profile,
                        requested: Option<Key>, createdAt: int)
    requires p.Valid() && Shaped(p, team, signups)
    requires Place(p, team, signups, profile, requested, createdAt).Placed?
    ensures Shaped(p, team, Place(p, team, signups, profile, requested, createdAt).signups)
  {
    var after := Place(p, team, signups, profile, requested, createdAt).signups;
    var base, bumps, i, d := PlaceCases(p, team, signups, profile, requested, createdAt);
    forall j | 0 <= j < |after| ensures after[j].id == j && ShapedRow(p, team, after[j]) {
      if j < |signups| {
        assert signups[j] in signups;
        assert after[j] == base[j];
      }
    }
  }

  lemma BumpedCounts(signups: seq<Signup>, b: Bucket, i: nat, d: Bucket, k: Key)
    requires i < |signups| && signups[i].ConfirmedIn(b.key) && signups[i].counted
    ensures Count(Bumped(signups, i, d), InBucket(k)) ==
            Count(signups, InBucket(k)) - (if k == b.key then 1 else 0) + (if k == d.key then 1 else 0)
    ensures Count(Bumped(signups, i, d), CountedIn(k)) ==
            Count(signups, CountedIn(k)) - (if k == b.key then 1 else 0) + (if k == d.key then 1 else 0)
  {
    CountUpdate(signups, i, signups[i].(bucketKey := Some(d.key)), InBucket(k));
    CountUpdate(signups, i, signups[i].(bucketKey := Some(d.key)), CountedIn(k));
  }

  /** Placing a signup never takes a limited bucket over its slots. */
  lemma PlaceKeepsCapacity(p: Policy, team: set<Profile>, signups: seq<Signup>, profile: Profile,
                           requested: Option<Key>, createdAt: int)
    requires p.Valid() && Shaped(p, team, signups)
    requires Place(p, team, signups, profile, requested, createdAt).Placed?
    ensures NoNewExcess(p, signups, Place(p, team, signups, profile, requested, createdAt).signups)
  {
    var after := Place(p, team, signups, profile, requested, createdAt).signups;
    var actual := ActualBucket(p, team, signups, profile, requested);
    var added := NewSignup(|signups|, team, profile, requested, actual, createdAt);
    var base, bumps, i, d := PlaceCases(p, team, signups, profile, requested, createdAt);
    forall b | b in p.buckets && b.slotsLimited
      ensures Count(after, InBucket(b.key)) <= b.totalSlots ||
              Count(after, InBucket(b.key)) <= Count(signups, InBucket(b.key))
    {
      LookupFinds(p, b);
      CountOne(base, added, InBucket(b.key));
      if bumps {
        BumpedCounts(signups, actual.value, i, d, b.key);
      }
    }
  }

  lemma PlaceFillsUp(p: Policy, team: set<Profile>, signups: seq<Signup>, profile: Profile,
                     requested: Option<Key>, createdAt: int, b: Bucket)
    requires p.Valid() && Shaped(p, team, signups) && b in p.buckets
    requires Place(p, team, signups, profile, requested, createdAt).Placed?
    ensures FullOfCounted(b, signups) ==>
              FullOfCounted(b, Place(p, team, signups, profile, requested, createdAt).signups)
  {
    var actual := ActualBucket(p, team, signups, profile, requested);
    var added := NewSignup(|signups|, team, profile, requested, actual, createdAt);
    var base, bumps, i, d := PlaceCases(p, team, signups, profile, requested, createdAt);
    LookupFinds(p, b);
    CountOne(base, added, CountedIn(b.key));
    if bumps {
      BumpedCounts(signups, actual.value, i, d, b.key);
    }
  }

  /** Full buckets stay full, and no-preference signups only enter buckets that were not. */
  lemma PlaceKeepsFull(p: Policy, team: set<Profile>, signups: seq<Signup>, profile: Profile,
                       requested: Option<Key>, createdAt: int, b: Bucket)
    requires p.Valid() && Shaped(p, team, signups) && b in p.buckets
    requires Place(p, team, signups, profile, requested, createdAt).Placed?
    ensures var after := Place(p, team, signups, profile, requested, createdAt).signups;
            (FullOfCounted(b, signups) ==> FullOfCounted(b, after)) &&
            (HoldsNoPreference(b, after) ==> HoldsNoPreference(b, signups) || !FullOfCounted(b, signups))
  {
    PlaceFillsUp(p, team, signups, profile, requested, createdAt, b);
    if HoldsNoPreference(b, Place(p, team, signups, profile, requested, createdAt).signups) {
      PlaceEntersFree(p, team, signups, profile, requested, createdAt, b);
    }
  }

  lemma PlaceEntersFree(p: Policy, team: set<Profile>, signups: seq<Signup>, profile: Profile,
                        requested: Option<Key>, createdAt: int, b: Bucket)
    requires p.Valid() && Shaped(p, team, signups) && b in p.buckets
    requires Place(p, team, signups, profile, requested, createdAt).Placed?
    requires HoldsNoPreference(b, Place(p, team, signups, profile, requested, createdAt).signups)
    ensures HoldsNoPreference(b, signups) || !FullOfCounted(b, signups)
  {
    var after := Place(p, team, signups, profile, requested, createdAt).signups;
    var base, bumps, i, d := PlaceCases(p, team, signups, profile, requested, createdAt);
    LookupFinds(p, b);
    if b.Counted() {
      FinderSeesCounted(p, team, signups, b);
    }
    var n :| n in after && n.counted && n.ConfirmedIn(b.key) && n.NoPreference();
    var j :| 0 <= j < |after| && after[j] == n;
    if j == |signups| {
      assert !bumps && b.Counted() && !b.Full(signups);
    } else if bumps && j == i {
      assert b == d;
    } else {
      assert n == base[j] == signups[j] && signups[j] in signups;
    }
  }

  /** Placing a signup leaves nobody waiting who could be placed. */
  lemma PlaceKeepsStable(p: Policy, team: set<Profile>, signups: seq<Signup>, profile: Profile,
                         requested: Option<Key>, createdAt: int)
    requires p.Valid() && Shaped(p, team, signups) && Stable(p, signups)
    requires Place(p, team, signups, profile, requested, createdAt).Placed?
    ensures Stable(p, Place(p, team, signups, profile, requested, createdAt).signups)
  {
    var after := Place(p, team, signups, profile, requested, createdAt).signups;
    StableAtRun(p, signups);
    StableAtRun(p, after);
    RunView(p, requested, signups);
    var base, bumps, i, d := PlaceCases(p, team, signups, profile, requested, createdAt);
    forall b | b in p.buckets
      ensures FullOfCounted(b, signups) ==> FullOfCounted(b, after)
      ensures HoldsNoPreference(b, after) ==> HoldsNoPreference(b, signups) || !FullOfCounted(b, signups)
    {
      PlaceKeepsFull(p, team, signups, profile, requested, createdAt, b);
    }
    forall j | 0 <= j < |after| && after[j].state.Waitlisted?
      ensures NoRoomAtRun(p, after[j].requested, after)
    {
      if j < |signups| {
        assert after[j] == base[j] == signups[j] && signups[j] in signups;
      }
      RoomDoesNotAppear(p, signups, after, after[j].requested);
    }
  }

  /** A new signup sits where it asked to be or where its request allows; so does a bumped one. */
  lemma PlaceKeepsPreferences(p: Policy, team: set<Profile>, signups: seq<Signup>, profile: Profile,
                              requested: Option<Key>, createdAt: int)
    requires p.Valid() && Shaped(p, team, signups) && Preferring(p, signups)
    requires Place(p, team, signups, profile, requested, createdAt).Placed?
    ensures Preferring(p, Place(p, team, signups, profile, requested, createdAt).signups)
  {
    var after := Place(p, team, signups, profile, requested, createdAt).signups;
    var actual := ActualBucket(p, team, signups, profile, requested);
    var base, bumps, i, d := PlaceCases(p, team, signups, profile, requested, createdAt);
    if actual.Some? {
      BumpCoherence(p, requested, CountedConfirmed(signups));
      if requested.Some? {
        PrioritizedRequested(p, requested.value, actual.value);
      } else {
        PrioritizedNoPreference(p, actual.value);
      }
    }
    forall j | 0 <= j < |after| ensures KnownRequest(p, after[j]) && SeatedAsAsked(p, after[j]) {
      if j < |signups| {
        assert after[j] == base[j] && signups[j] in signups;
      }
    }
  }
}
