/** Small runs on which a policy change leaves a wrong counted flag or an unstable waitlist. */
module ChangeBoundaries {
  import opened Sorting
  import opened Registration
  import opened BucketFinder
  import opened Allocation
  import opened VacancyFill
  import opened EventSignup
  import opened PolicyChange
  import opened PolicyChangeResults
  import opened PolicyChangeExactly
  import opened Boundaries

  lemma OneFewer(p: Policy, placed: seq<Signup>, s: Signup, rest: seq<Signup>)
    requires p.Valid()
    ensures Simulate(p, placed, [s] + rest) == Simulate(p, SimulateSignup(p, placed, s), rest)
    ensures Immovable(p, placed, [s] + rest) ==
            (if s.state.Confirmed? && Destination(p, placed, s).None? then [s] else []) +
            Immovable(p, SimulateSignup(p, placed, s), rest)
    ensures EverBumpsUncounted(p, placed, [s] + rest) <==>
            BumpsUncounted(p, placed, s) || EverBumpsUncounted(p, SimulateSignup(p, placed, s), rest)
    ensures Unplaced(p, placed, [s] + rest) ==
            (if Destination(p, placed, s).None? then [s] else []) + Unplaced(p, SimulateSignup(p, placed, s), rest)
  {
    assert ([s] + rest)[1..] == rest;
  }

  lemma TwoFewer(p: Policy, a: Signup, b: Signup, c: Signup, d: Signup)
    requires p.Valid() && Destination(p, [], a).Some? && Destination(p, SimulateSignup(p, [], a), b).Some?
    requires !BumpsUncounted(p, [], a) && !BumpsUncounted(p, SimulateSignup(p, [], a), b)
    ensures var placed := SimulateSignup(p, SimulateSignup(p, [], a), b);
            Simulate(p, [], [a, b, c, d]) == Simulate(p, placed, [c, d]) &&
            Immovable(p, [], [a, b, c, d]) == Immovable(p, placed, [c, d]) &&
            Unplaced(p, [], [a, b, c, d]) == Unplaced(p, placed, [c, d]) &&
            (EverBumpsUncounted(p, [], [a, b, c, d]) <==> EverBumpsUncounted(p, placed, [c, d]))
  {
    assert [a, b, c, d] == [a] + [b, c, d] && [b, c, d] == [b] + [c, d];
    OneFewer(p, [], a, [b, c, d]);
    OneFewer(p, SimulateSignup(p, [], a), b, [c, d]);
  }

  /** Two signups find room where they are, the third bumps, and the fourth finds none. */
  ghost predicate FourSteps(p: Policy, a: Signup, b: Signup, c: Signup, d: Signup,
                            one: seq<Signup>, two: seq<Signup>, three: seq<Signup>)
  {
    p.Valid() &&
    Destination(p, [], a).Some? && !BumpsUncounted(p, [], a) && SimulateSignup(p, [], a) == one &&
    Destination(p, one, b).Some? && !BumpsUncounted(p, one, b) && SimulateSignup(p, one, b) == two &&
    BumpsUncounted(p, two, c) && SimulateSignup(p, two, c) == three &&
    Destination(p, three, d).None? && d.state.Waitlisted?
  }

  /** The simulation ends with these copies, strands nobody, bumps somebody out of a bucket that does
      not count, and leaves one signup waiting. */
  ghost predicate EndsWith(p: Policy, signups: seq<Signup>, copies: seq<Signup>, left: Signup) {
    p.Valid() && Replaced(p, signups) == copies && Stranded(p, signups) == [] &&
    LeftWaiting(p, signups) == [left] && ChangeBumpsUncounted(p, signups)
  }

  lemma FourPlaced(p: Policy, signups: seq<Signup>, a: Signup, b: Signup, c: Signup, d: Signup,
                   one: seq<Signup>, two: seq<Signup>, three: seq<Signup>)
    requires signups == [a, b, c, d] && ReadyInOrder(signups)
    requires FourSteps(p, a, b, c, d, one, two, three)
    ensures EndsWith(p, signups, three, d)
  {
    OrderedRun(p, signups);
    TwoFewer(p, a, b, c, d);
    LastTwo(p, c, d, two, three);
  }

  lemma LastTwo(p: Policy, c: Signup, d: Signup, two: seq<Signup>, three: seq<Signup>)
    requires p.Valid() && BumpsUncounted(p, two, c) && SimulateSignup(p, two, c) == three
    requires Destination(p, three, d).None? && d.state.Waitlisted?
    ensures Simulate(p, two, [c, d]) == three && Immovable(p, two, [c, d]) == []
    ensures Unplaced(p, two, [c, d]) == [d] && EverBumpsUncounted(p, two, [c, d])
  {
    assert [c, d] == [c] + [d] && [d] == [d] + [];
    OneFewer(p, two, c, [d]);
    OneFewer(p, three, d, []);
  }

  /** Every signup of the run is to be placed, and they stand in the order of placement. */
  ghost predicate ReadyInOrder(signups: seq<Signup>) {
    Sorted(signups, PlacementRank) && forall s :: s in signups ==> IsActive(s) && IsToPlace(s)
  }

  lemma OrderedRun(p: Policy, signups: seq<Signup>)
    requires p.Valid() && ReadyInOrder(signups)
    ensures Replaced(p, signups) == Simulate(p, [], signups) && Stranded(p, signups) == Immovable(p, [], signups)
    ensures LeftWaiting(p, signups) == Unplaced(p, [], signups)
    ensures ChangeBumpsUncounted(p, signups) <==> EverBumpsUncounted(p, [], signups)
  {
    InOrderAlready(signups);
  }

  lemma SeatedIn(p: Policy, placed: seq<Signup>, s: Signup, b: Bucket)
    requires p.Valid() && b in p.buckets && s.bucketKey == Some(b.key) && !b.Full(placed)
    ensures Destination(p, placed, s) == Some(b) && SimulateSignup(p, placed, s) == placed + [Seat(s, b)]
  {
    LookupFinds(p, b);
  }

  lemma OneMoreIn(placed: seq<Signup>, s: Signup, k: Key)
    requires s.state.Confirmed?
    ensures Count(placed + [s], InBucket(k)) == Count(placed, InBucket(k)) + (if s.bucketKey == Some(k) then 1 else 0)
  {
    CountOne(placed, s, InBucket(k));
  }

  const GALLERY := LimitedBucket("gallery", 1, false, true)

  // ------------------------------------------------------------- a bucket that stops counting

  const GALLERY_ONLY := Policy([GALLERY], false)
  const IN_GALLERY := Signup(0, 1, Confirmed, Some("gallery"), Some("gallery"), false, 0)
  const AWAITING_GALLERY := Signup(1, 2, Waitlisted, None, Some("gallery"), false, 1)

  lemma GalleryIsFull()
    ensures GALLERY.Full([IN_GALLERY]) && Prioritized(GALLERY_ONLY, Some("gallery")) == [GALLERY]
    ensures Destination(GALLERY_ONLY, [IN_GALLERY], AWAITING_GALLERY) == None
  {
    LookupFinds(GALLERY_ONLY, GALLERY);
    OneMoreIn([], IN_GALLERY, "gallery");
    assert [] + [IN_GALLERY] == [IN_GALLERY];
    FindBucketNone(GALLERY_ONLY, Some("gallery"), [IN_GALLERY]);
  }

  lemma GallerySimulated(counted: Signup)
    requires counted == IN_GALLERY.(counted := true)
    ensures Stranded(GALLERY_ONLY, [counted, AWAITING_GALLERY]) == []
    ensures Replaced(GALLERY_ONLY, [counted, AWAITING_GALLERY]) == [IN_GALLERY]
    ensures LeftWaiting(GALLERY_ONLY, [counted, AWAITING_GALLERY]) == [AWAITING_GALLERY]
    ensures !ChangeBumpsUncounted(GALLERY_ONLY, [counted, AWAITING_GALLERY])
  {
    GalleryIsFull();
    InOrderAlready([counted, AWAITING_GALLERY]);
    SeatedIn(GALLERY_ONLY, [], counted, GALLERY);
    assert [] + [IN_GALLERY] == [IN_GALLERY];
    assert [counted] + [AWAITING_GALLERY] == [counted, AWAITING_GALLERY];
    assert [AWAITING_GALLERY] + [] == [AWAITING_GALLERY];
    OneFewer(GALLERY_ONLY, [], counted, [AWAITING_GALLERY]);
    OneFewer(GALLERY_ONLY, [IN_GALLERY], AWAITING_GALLERY, []);
  }

  /** A bucket stops counting its signups while somebody waits for it: the change succeeds and bumps
      nobody, and the finder at the run would then offer the waiting signup the full bucket. */
  lemma ChangeLeavesUncountedRoom(before: Policy, p: Policy, signups: seq<Signup>)
    requires before == Policy([GALLERY.(notCounted := false)], false) && p == GALLERY_ONLY
    requires signups == [IN_GALLERY.(counted := true), AWAITING_GALLERY]
    ensures before.Valid() && p.Valid() && Shaped(before, {}, signups) && Stranded(p, signups) == []
    ensures LeavesUncountedRoom(p, signups) && !ChangeBumpsUncounted(p, signups)
    ensures !Stable(p, ChangedRun(p, signups))
  {
    LookupFinds(before, before.buckets[0]);
    GallerySimulated(signups[0]);
    GalleryLeavesRoom(p, signups);
  }

  lemma GalleryLeavesRoom(p: Policy, signups: seq<Signup>)
    requires p == GALLERY_ONLY && Numbered(signups) && Stranded(p, signups) == [] && !ChangeBumpsUncounted(p, signups)
    requires LeftWaiting(p, signups) == [AWAITING_GALLERY]
    ensures LeavesUncountedRoom(p, signups) && !Stable(p, ChangedRun(p, signups))
  {
    GalleryIsFull();
    assert AWAITING_GALLERY in LeftWaiting(p, signups) && GALLERY in Prioritized(p, AWAITING_GALLERY.requested);
    ChangeStabilisesUnbumped(p, signups);
  }

  // ------------------------------------------------------------- a bump that loses its count

  /**
   * A full run under a policy with a gallery, a floor (the anything bucket) and a stage of one slot
   * each: `n` without preference in the gallery, `s` on the stage, `r` on the floor although it asked
   * for the gallery, and `w` waiting for the stage. The new policy stops counting the gallery, drops
   * the floor, and has a second slot on the stage.
   */
  datatype Scene = Scene(gallery: Key, floor: Key, stage: Key, n: Signup, s: Signup, r: Signup, w: Signup) {
    ghost predicate Valid() {
      gallery != floor && gallery != stage && floor != stage &&
      n == Signup(0, n.profile, Confirmed, Some(gallery), None, true, 0) &&
      s == Signup(1, s.profile, Confirmed, Some(stage), Some(stage), true, 1) &&
      r == Signup(2, r.profile, Confirmed, Some(floor), Some(gallery), true, 2) &&
      w == Signup(3, w.profile, Waitlisted, None, Some(stage), false, 3)
    }

    function Before(): Policy {
      Policy([LimitedBucket(gallery, 1, false, false), LimitedBucket(floor, 1, true, false),
              LimitedBucket(stage, 1, false, false)], false)
    }

    function Gallery(): Bucket { LimitedBucket(gallery, 1, false, true) }

    function Stage(): Bucket { LimitedBucket(stage, 2, false, false) }

    function After(): Policy { Policy([Gallery(), Stage()], false) }

    function Run(): seq<Signup> { [n, s, r, w] }

    function Kept(): Signup { n.(counted := false) }

    function Bumped(): Signup { Kept().(bucketKey := Some(stage)) }

    function Moved(): Signup { r.(bucketKey := Some(gallery), counted := false) }

    /** The run after the change. */
    function Changed(): seq<Signup> { [Bumped(), s, Moved(), w] }
  }

  lemma BucketsAfter(x: Scene)
    requires x.Valid()
    ensures x.After().Valid() && x.After().BucketWithKey(Some(x.floor)) == None
    ensures x.After().BucketWithKey(Some(x.gallery)) == Some(x.Gallery())
    ensures x.After().BucketWithKey(Some(x.stage)) == Some(x.Stage())
    ensures Prioritized(x.After(), Some(x.gallery)) == [x.Gallery()]
    ensures Prioritized(x.After(), Some(x.stage)) == [x.Stage()]
    ensures forall b :: b in x.After().buckets <==> b == x.Gallery() || b == x.Stage()
  {
    var p := x.After();
    LookupFinds(p, x.Gallery());
    LookupFinds(p, x.Stage());
    FilterEmpty(p.buckets, IsAnything);
    assert p.AnythingBucket() == None;
  }

  lemma CountTwo(a: Signup, b: Signup, t: Tally)
    ensures Count([a, b], t) == (if Has(a, t) then 1 else 0) + (if Has(b, t) then 1 else 0)
  {
    CountOne([], a, t);
    CountOne([a], b, t);
    assert [] + [a] == [a] && [a] + [b] == [a, b];
  }

  lemma CountFour(a: Signup, b: Signup, c: Signup, d: Signup, t: Tally)
    ensures Count([a, b, c, d], t) ==
            (if Has(a, t) then 1 else 0) + (if Has(b, t) then 1 else 0) + (if Has(c, t) then 1 else 0) +
            (if Has(d, t) then 1 else 0)
  {
    CountTwo(a, b, t);
    CountOne([a, b], c, t);
    CountOne([a, b, c], d, t);
    assert [a, b] + [c] == [a, b, c] && [a, b, c] + [d] == [a, b, c, d];
  }

  /** The first two are seated where they are. */
  lemma FirstSeated(x: Scene)
    requires x.Valid()
    ensures x.After().Valid() && !x.Gallery().Full([])
    ensures Destination(x.After(), [], x.n) == Some(x.Gallery()) && SimulateSignup(x.After(), [], x.n) == [x.Kept()]
  {
    BucketsAfter(x);
    SeatedIn(x.After(), [], x.n, x.Gallery());
    assert [] + [x.Kept()] == [x.Kept()];
  }

  lemma SecondSeated(x: Scene)
    requires x.Valid()
    ensures x.After().Valid() && !x.Stage().Full([x.Kept()])
    ensures Destination(x.After(), [x.Kept()], x.s) == Some(x.Stage())
    ensures SimulateSignup(x.After(), [x.Kept()], x.s) == [x.Kept(), x.s]
  {
    BucketsAfter(x);
    OneMoreIn([], x.Kept(), x.stage);
    assert [] + [x.Kept()] == [x.Kept()];
    SeatedIn(x.After(), [x.Kept()], x.s, x.Stage());
    assert [x.Kept()] + [x.s] == [x.Kept(), x.s];
  }

  lemma GalleryIsBumpable(x: Scene, placed: seq<Signup>)
    requires x.Valid() && placed == [x.Kept(), x.s]
    ensures x.After().Valid() && x.Gallery().Full(placed) && !x.Stage().Full(placed)
    ensures Destination(x.After(), placed, x.r) == Some(x.Gallery())
  {
    var p := x.After();
    BucketsAfter(x);
    CountTwo(x.Kept(), x.s, InBucket(x.gallery));
    CountTwo(x.Kept(), x.s, InBucket(x.stage));
    assert x.Stage() in p.buckets && SomeCapacity(p, placed);
    assert x.Gallery() in Prioritized(p, x.r.requested) && x.Kept() in placed;
    FindBucketNone(p, x.r.requested, placed);
    BumpCoherence(p, x.r.requested, placed);
  }

  /** The third finds its bucket full of one who is bumped, flag and all, to the stage. */
  lemma ThirdBumps(x: Scene, placed: seq<Signup>)
    requires x.Valid() && placed == [x.Kept(), x.s]
    ensures x.After().Valid() && SimulateSignup(x.After(), placed, x.r) == [x.Bumped(), x.s, x.Moved()]
  {
    GalleryIsBumpable(x, placed);
    BucketsAfter(x);
    var seats, d, bumps, j, to := SimulateCases(x.After(), placed, x.r);
    assert j == 0 && to == x.Stage();
    assert placed[0 := x.Bumped()] + [x.Moved()] == [x.Bumped(), x.s, x.Moved()];
  }

  /** There is no room for the fourth. */
  lemma FourthIsLeft(x: Scene, placed: seq<Signup>)
    requires x.Valid() && placed == [x.Bumped(), x.s, x.Moved()]
    ensures Destination(x.After(), placed, x.w) == None
  {
    BucketsAfter(x);
    CountTwo(x.Bumped(), x.s, InBucket(x.stage));
    OneMoreIn([x.Bumped(), x.s], x.Moved(), x.stage);
    assert [x.Bumped(), x.s] + [x.Moved()] == placed;
    assert x.Stage().Full(placed) && !SomeCapacity(x.After(), placed);
    FindBucketNone(x.After(), x.w.requested, placed);
  }

  lemma SceneSteps(x: Scene, one: seq<Signup>, two: seq<Signup>, three: seq<Signup>)
    requires x.Valid() && one == [x.Kept()] && two == [x.Kept(), x.s] && three == [x.Bumped(), x.s, x.Moved()]
    ensures FourSteps(x.After(), x.n, x.s, x.r, x.w, one, two, three)
  {
    FirstSeated(x);
    SecondSeated(x);
    GalleryIsBumpable(x, two);
    ThirdBumps(x, two);
    FourthIsLeft(x, three);
  }

  lemma SceneInOrder(x: Scene, signups: seq<Signup>)
    requires x.Valid() && signups == x.Run()
    ensures ReadyInOrder(signups)
  {}

  lemma SceneSimulated(x: Scene, p: Policy, signups: seq<Signup>, copies: seq<Signup>)
    requires x.Valid() && p == x.After() && signups == x.Run() && copies == [x.Bumped(), x.s, x.Moved()]
    ensures EndsWith(p, signups, copies, x.w)
  {
    var one, two := [x.Kept()], [x.Kept(), x.s];
    SceneInOrder(x, signups);
    SceneSteps(x, one, two, copies);
    FourPlaced(p, signups, x.n, x.s, x.r, x.w, one, two, copies);
  }

  lemma CopyTakesOver(p: Policy, signups: seq<Signup>, c: Signup)
    requires p.Valid() && Numbered(signups) && c in Replaced(p, signups)
    ensures c.id < |ChangedRun(p, signups)| == |signups| && ChangedRun(p, signups)[c.id] == c
  {
    ReplacedRun(p, signups);
    OverlayRows(signups, Replaced(p, signups));
    assert CopyOf(p, signups, c);
  }

  lemma ThreeCopies(p: Policy, a: Signup, b: Signup, c: Signup, d: Signup, placed: seq<Signup>)
    requires p.Valid() && Numbered([a, b, c, d]) && Replaced(p, [a, b, c, d]) == placed
    requires |placed| == 3 && placed[0].id == 0 && placed[1].id == 1 && placed[2].id == 2
    ensures ChangedRun(p, [a, b, c, d]) == placed + [d]
  {
    var run := [a, b, c, d];
    CopyTakesOver(p, run, placed[0]);
    CopyTakesOver(p, run, placed[1]);
    CopyTakesOver(p, run, placed[2]);
    assert !HasId(placed, 3);
    ChangedRows(p, run);
  }

  lemma SceneChanged(x: Scene)
    requires x.Valid()
    ensures x.After().Valid() && ChangedRun(x.After(), x.Run()) == x.Changed()
  {
    SceneSimulated(x, x.After(), x.Run(), [x.Bumped(), x.s, x.Moved()]);
    ThreeCopies(x.After(), x.n, x.s, x.r, x.w, [x.Bumped(), x.s, x.Moved()]);
  }

  lemma SceneFits(x: Scene)
    requires x.Valid()
    ensures x.Before().Valid() && Shaped(x.Before(), {}, x.Run()) && WithinCapacity(x.Before(), x.Run())
  {
    var p := x.Before();
    forall b | b in p.buckets ensures p.BucketWithKey(Some(b.key)) == Some(b) && Count(x.Run(), InBucket(b.key)) == 1 {
      LookupFinds(p, b);
      CountFour(x.n, x.s, x.r, x.w, InBucket(b.key));
    }
    assert p.buckets[0] in p.buckets && p.buckets[1] in p.buckets && p.buckets[2] in p.buckets;
  }

  lemma SceneIsStable(x: Scene)
    requires x.Valid()
    ensures Stable(x.Before(), x.Run())
  {
    SceneFits(x);
    StableAtRun(x.Before(), x.Run());
    forall b | b in x.Before().buckets ensures FullOfCounted(b, x.Run()) {
      CountFour(x.n, x.s, x.r, x.w, CountedIn(b.key));
    }
    forall b | b in Prioritized(x.Before(), x.w.requested) ensures b in x.Before().buckets {
      PrioritizedInPolicy(x.Before(), x.w.requested, b);
    }
  }

  /**
   * The run is in shape, within capacity and stable, and the change succeeds; but somebody is bumped
   * out of the bucket that does not count, and ends up in one that counts, not counted.
   */
  lemma BumpLosesCount(x: Scene)
    requires x.Valid()
    ensures x.Before().Valid() && Shaped(x.Before(), {}, x.Run())
    ensures WithinCapacity(x.Before(), x.Run()) && Stable(x.Before(), x.Run())
    ensures x.After().Valid() && Stranded(x.After(), x.Run()) == [] && ChangeBumpsUncounted(x.After(), x.Run())
    ensures !Shaped(x.After(), {}, ChangedRun(x.After(), x.Run()))
  {
    SceneFits(x);
    SceneIsStable(x);
    SceneSimulated(x, x.After(), x.Run(), [x.Bumped(), x.s, x.Moved()]);
    ChangeKeepsShapeExactly(x.Before(), x.After(), {}, x.Run());
  }

  /** Whoever waits may be given no bucket that does not count, and is offered the slot of the one
      who is not counted. */
  lemma BumpUnsettlesWaitlist(x: Scene)
    requires x.Valid()
    ensures x.After().Valid() && Stranded(x.After(), x.Run()) == []
    ensures !LeavesUncountedRoom(x.After(), x.Run()) && !Stable(x.After(), ChangedRun(x.After(), x.Run()))
  {
    SceneSimulated(x, x.After(), x.Run(), [x.Bumped(), x.s, x.Moved()]);
    BucketsAfter(x);
    OneLeftWaiting(x.After(), x.Run(), x.w, x.Stage(), x.Bumped());
  }

  /** The only one left waiting may be given a bucket that counts and hides somebody. */
  lemma OneLeftWaiting(p: Policy, signups: seq<Signup>, w: Signup, b: Bucket, hidden: Signup)
    requires p.Valid() && Numbered(signups) && Stranded(p, signups) == [] && LeftWaiting(p, signups) == [w]
    requires Prioritized(p, w.requested) == [b] && b.Counted() && b.totalSlots > 0
    requires hidden in Replaced(p, signups) && hidden.bucketKey == Some(b.key) && !hidden.counted
    ensures !LeavesUncountedRoom(p, signups) && !Stable(p, ChangedRun(p, signups))
  {
    assert w in LeftWaiting(p, signups) && b in Prioritized(p, w.requested);
    assert HidesSomebody(b, Replaced(p, signups));
    ChangeStabilisesExactly(p, signups);
  }

  /** Signing up for the stage after that change raises, although the stage counts: the finder sees
      one signup there, the service two, and nobody on it can be bumped. */
  lemma SigningUpRaisesAfterChange(x: Scene, profile: Profile, createdAt: int)
    requires x.Valid()
    ensures x.After().Valid() && ChangedRun(x.After(), x.Run()) == x.Changed()
    ensures ActualBucket(x.After(), {}, x.Changed(), profile, Some(x.stage)) == Some(x.Stage()) && x.Stage().Counted()
    ensures Place(x.After(), {}, x.Changed(), profile, Some(x.stage), createdAt).Raised?
  {
    var p, changed := x.After(), x.Changed();
    SceneChanged(x);
    BucketsAfter(x);
    var others := CountedConfirmed(changed);
    CountCounted(changed, x.stage);
    CountFour(x.Bumped(), x.s, x.Moved(), x.w, CountedIn(x.stage));
    CountFour(x.Bumped(), x.s, x.Moved(), x.w, InBucket(x.stage));
    assert !x.Stage().Full(others) && x.Stage().Full(changed);
    assert WithCapacity([x.Stage()], others)[0] == x.Stage();
    assert !HoldsNoPreference(x.Stage(), changed);
    PlaceRaises(p, {}, changed, profile, Some(x.stage), createdAt);
  }

  /** There is such a run. */
  lemma SceneExists() returns (x: Scene)
    ensures x.Valid()
  {
    x := Scene("gallery", "floor", "stage",
               Signup(0, 1, Confirmed, Some("gallery"), None, true, 0),
               Signup(1, 2, Confirmed, Some("stage"), Some("stage"), true, 1),
               Signup(2, 3, Confirmed, Some("floor"), Some("gallery"), true, 2),
               Signup(3, 4, Waitlisted, None, Some("stage"), false, 3));
    assert "gallery"[0] != "floor"[0] && "gallery"[0] != "stage"[0] && "floor"[0] != "stage"[0];
  }
}
