/** Where signing up puts a signup and whom it displaces, told from the counted signups of the run. */
module Placements {
  import opened Sorting
  import opened Registration
  import opened BucketFinder
  import opened Allocation
  import opened Choices
  import opened EventSignup

  /** The buckets that are not full of counted signups. */
  ghost function FreeAtRun(p: Policy, signups: seq<Signup>): set<Bucket> {
    set b | b in p.buckets && !FullOfCounted(b, signups)
  }

  /** The buckets that hold a counted signup without preference, as long as it has somewhere to go. */
  ghost function CanBumpAtRun(p: Policy, signups: seq<Signup>): set<Bucket> {
    set b | b in p.buckets && HoldsNoPreference(b, signups) &&
            exists c :: c in FreeAtRun(p, signups) && c.slotsLimited && !c.notCounted
  }

  ghost predicate GetsAtRun(p: Policy, requested: Option<Key>, signups: seq<Signup>, b: Bucket) {
    Gets(p, requested, FreeAtRun(p, signups), CanBumpAtRun(p, signups), b)
  }

  lemma SeenAtRun(p: Policy, signups: seq<Signup>)
    ensures Free(p, CountedConfirmed(signups)) == FreeAtRun(p, signups)
    ensures CanBump(p, CountedConfirmed(signups)) == CanBumpAtRun(p, signups)
  {
    var others := CountedConfirmed(signups);
    forall b: Bucket ensures b.Full(others) <==> FullOfCounted(b, signups) {
      CountCounted(signups, b.key);
    }
    forall b: Bucket ensures HoldsMovable(b, others) <==> HoldsNoPreference(b, signups) {
      if n :| n in signups && n.counted && n.ConfirmedIn(b.key) && n.NoPreference() {
        assert n in others;
      }
    }
    if c :| c in p.buckets && c.CountedLimited() && !c.Full(others) {
      assert c in FreeAtRun(p, signups);
    }
  }

  lemma ActualIsGot(p: Policy, team: set<Profile>, signups: seq<Signup>, profile: Profile, requested: Option<Key>)
    requires p.Valid() && profile !in team
    ensures var actual := ActualBucket(p, team, signups, profile, requested);
            if actual.Some? then GetsAtRun(p, requested, signups, actual.value)
            else forall b :: !GetsAtRun(p, requested, signups, b)
  {
    FinderGets(p, requested, CountedConfirmed(signups));
    SeenAtRun(p, signups);
  }

  /** A request is refused exactly when a team member states a preference, or somebody else states
      none where the policy asks for one, or one for the anything bucket or for no bucket at all. */
  lemma RefusesExactly(p: Policy, team: set<Profile>, signups: seq<Signup>, profile: Profile,
                       requested: Option<Key>, createdAt: int)
    requires p.Valid()
    ensures Place(p, team, signups, profile, requested, createdAt).Rejected? <==>
            if profile in team then requested.Some?
            else if requested.None? then p.preventNoPreference
            else !exists b :: b in p.buckets && b.key == requested.value && !b.anything
  {
    forall b | b in p.buckets && requested == Some(b.key) ensures p.BucketWithKey(requested) == Some(b) {
      LookupFinds(p, b);
    }
  }

  /** Row `j` is the first counted signup without preference in the bucket. */
  ghost predicate FirstBumped(signups: seq<Signup>, b: Bucket, j: nat) {
    j < |signups| && signups[j].counted && signups[j].ConfirmedIn(b.key) && signups[j].NoPreference() &&
    forall k :: 0 <= k < j ==> !(signups[k].counted && signups[k].ConfirmedIn(b.key) && signups[k].NoPreference())
  }

  /** The run once there is room in the bucket: if it was full, the first counted signup in it without
      preference has gone to another free bucket, the one to be tried first. */
  ghost predicate MakesRoomAtRun(p: Policy, signups: seq<Signup>, b: Bucket, room: seq<Signup>) {
    if !b.Full(signups) then room == signups
    else
      exists j: nat, to :: FirstBumped(signups, b, j) && FirstAmong(p, None, FreeAtRun(p, signups) - {b}, to) &&
                           room == signups[j := signups[j].(bucketKey := Some(to.key))]
  }

  lemma FirstOfBoth(signups: seq<Signup>, b: Bucket, j: nat) returns (i: nat)
    requires FirstMovable(CountedConfirmed(signups), b, j)
    ensures FirstBumped(signups, b, i) && signups[i] == CountedConfirmed(signups)[j]
  {
    var others := CountedConfirmed(signups);
    var movable := (s: Signup) => s.bucketKey == Some(b.key) && s.NoPreference();
    var both := (s: Signup) => s.counted && s.state.Confirmed? && s.bucketKey == Some(b.key) && s.NoPreference();
    assert others[j] in Filter(others, movable);
    var k := FilterFirst(others, movable);
    assert k == j;
    FilterFuse(signups, IsCountedConfirmed, movable, both);
    i := FilterFirst(signups, both);
  }

  lemma MoveSignupMakesRoom(p: Policy, signups: seq<Signup>, b: Bucket)
    requires p.Valid() && b in p.buckets && Numbered(signups) && b.Full(signups) && MoveSignup(p, signups, b).Placed?
    ensures MakesRoomAtRun(p, signups, b, MoveSignup(p, signups, b).signups)
  {
    var others := CountedConfirmed(signups);
    var movable, to := Movable(p, others, b), NoPreferenceCapacityExcept(p, others, b)[0];
    SeenAtRun(p, signups);
    BumpedTakesFirst(p, others, b);
    var j := FilterFirst(others, (s: Signup) => s.bucketKey == Some(b.key) && s.NoPreference());
    var i := FirstOfBoth(signups, b, j);
    assert FirstBumped(signups, b, i) && movable[0] == signups[i] && movable[0].id == i;
    assert FirstAmong(p, None, FreeAtRun(p, signups) - {b}, to);
  }

  /**
   * Signing up, off the team: the new signup waits exactly when there is nothing for it. Otherwise it
   * sits in the requested bucket if that is free, then in the anything bucket if it may be given that
   * and it is free, and without preference in a free limited bucket that counts, the anything bucket
   * first; only when all are full of counted signups, where somebody can be bumped, first in the
   * requested one. Nobody else changes, but for the one that makes room if the bucket is full.
   */
  lemma PlaceHonours(p: Policy, team: set<Profile>, signups: seq<Signup>, profile: Profile,
                     requested: Option<Key>, createdAt: int)
    returns (sits: bool, b: Bucket, room: seq<Signup>)
    requires p.Valid() && Numbered(signups) && profile !in team
    requires Place(p, team, signups, profile, requested, createdAt).Placed?
    ensures sits <==> exists c :: GetsAtRun(p, requested, signups, c)
    ensures var after := Place(p, team, signups, profile, requested, createdAt).signups;
            !sits ==> after == signups + [Signup(|signups|, profile, Waitlisted, None, requested, false, createdAt)]
    ensures var after := Place(p, team, signups, profile, requested, createdAt).signups;
            sits ==>
              GetsAtRun(p, requested, signups, b) && MakesRoomAtRun(p, signups, b, room) &&
              after == room + [Signup(|signups|, profile, Confirmed, Some(b.key), requested, !b.notCounted, createdAt)]
  {
    ActualIsGot(p, team, signups, profile, requested);
    var actual := ActualBucket(p, team, signups, profile, requested);
    sits, b, room := actual.Some?, Bucket([], 0, false, false, false), signups;
    if sits {
      b := actual.value;
      if b.Full(signups) {
        room := MoveSignup(p, signups, b).signups;
        MoveSignupMakesRoom(p, signups, b);
      }
    }
  }

  /** A team member is confirmed without a bucket, uncounted, and displaces nobody. */
  lemma PlaceTeamMember(p: Policy, team: set<Profile>, signups: seq<Signup>, profile: Profile,
                        requested: Option<Key>, createdAt: int)
    requires profile in team
    ensures Place(p, team, signups, profile, requested, createdAt) ==
            if requested.Some? then Rejected
            else Placed(signups + [Signup(|signups|, profile, Confirmed, None, None, false, createdAt)])
  {}

  /** In a run in shape somebody is displaced only when every bucket the request may be given is full
      of counted signups. */
  lemma DisplacesLast(p: Policy, team: set<Profile>, signups: seq<Signup>, profile: Profile,
                      requested: Option<Key>, createdAt: int, j: nat)
    requires p.Valid() && Shaped(p, team, signups) && j < |signups|
    requires Place(p, team, signups, profile, requested, createdAt).Placed?
    requires var after := Place(p, team, signups, profile, requested, createdAt).signups;
             j < |after| && after[j] != signups[j]
    ensures forall c :: MayBeGiven(p, requested, c) ==> FullOfCounted(c, signups)
  {
    var base, bumps, i, d := PlaceCases(p, team, signups, profile, requested, createdAt);
    var actual := ActualBucket(p, team, signups, profile, requested);
    ActualIsGot(p, team, signups, profile, requested);
    FinderSeesCounted(p, team, signups, actual.value);
    forall c | MayBeGiven(p, requested, c) ensures FullOfCounted(c, signups) {
      assert c in FreeAtRun(p, signups) ==> SomeGiven(p, requested, FreeAtRun(p, signups));
    }
  }

  /** In a run in shape signing up raises exactly when the request gets a bucket that is full and does
      not count; so it states a preference. */
  lemma PlaceRaisesOutside(p: Policy, team: set<Profile>, signups: seq<Signup>, profile: Profile,
                           requested: Option<Key>, createdAt: int)
    requires p.Valid() && Shaped(p, team, signups)
    requires !Place(p, team, signups, profile, requested, createdAt).Rejected?
    ensures Place(p, team, signups, profile, requested, createdAt).Raised? <==>
            profile !in team && requested.Some? &&
            exists b :: GetsAtRun(p, requested, signups, b) && b.notCounted && b.Full(signups)
  {
    if profile !in team {
      PlaceRaisesInShape(p, team, signups, profile, requested, createdAt);
      ActualIsGot(p, team, signups, profile, requested);
      forall b | GetsAtRun(p, requested, signups, b) && requested.Some?
        ensures ActualBucket(p, team, signups, profile, requested) == Some(b)
      {
        GetsOne(p, requested, FreeAtRun(p, signups), CanBumpAtRun(p, signups), b,
                ActualBucket(p, team, signups, profile, requested).value);
      }
    }
  }
}
