/** Exactly when a policy change keeps what signing up and withdrawing keep, for every policy. All
    conditions speak of the simulation, which runs on copies before any signup changes. */
module PolicyChangeExactly {
  import opened Sorting
  import opened Registration
  import opened BucketFinder
  import opened Allocation
  import opened VacancyFill
  import opened PolicyChange
  import opened PolicyChangeResults

  // ------------------------------------------------------------------------- counted flags

  /** Placing the signup bumps a copy out of a bucket that does not count. */
  predicate BumpsUncounted(p: Policy, placed: seq<Signup>, s: Signup) {
    var d := Destination(p, placed, s);
    d.Some? && d.value.Full(placed) && !d.value.Counted()
  }

  predicate EverBumpsUncounted(p: Policy, placed: seq<Signup>, todo: seq<Signup>)
    requires p.Valid()
    decreases |todo|
  {
    todo != [] &&
    (BumpsUncounted(p, placed, todo[0]) || EverBumpsUncounted(p, SimulateSignup(p, placed, todo[0]), todo[1..]))
  }

  /** Re-placing the signups of the run bumps somebody out of a bucket that does not count. */
  predicate ChangeBumpsUncounted(p: Policy, signups: seq<Signup>)
    requires p.Valid()
  {
    EverBumpsUncounted(p, ToKeep(signups), ToPlace(signups))
  }

  /** The signup sits in a bucket that counts and is not counted. */
  predicate Miscounted(p: Policy, c: Signup) {
    p.BucketWithKey(c.bucketKey).Some? && p.BucketWithKey(c.bucketKey).value.Counted() && !c.counted
  }

  ghost predicate SomeMiscounted(p: Policy, placed: seq<Signup>) {
    exists c :: c in placed && Miscounted(p, c)
  }

  ghost predicate NoneOvercounted(p: Policy, placed: seq<Signup>) {
    forall c :: c in placed && p.BucketWithKey(c.bucketKey).Some? && c.counted ==>
      p.BucketWithKey(c.bucketKey).value.Counted()
  }

  lemma BumpMiscounts(p: Policy, placed: seq<Signup>, s: Signup, d: Bucket, j: nat, to: Bucket)
    requires NoneOvercounted(p, placed) && j < |placed| && placed[j].bucketKey == Some(d.key)
    requires p.BucketWithKey(Some(d.key)) == Some(d)
    requires to.Counted() && p.BucketWithKey(Some(to.key)) == Some(to)
    ensures var next := placed[j := placed[j].(bucketKey := Some(to.key))] + [Seat(s, d)];
            NoneOvercounted(p, next) && (SomeMiscounted(p, next) <==> SomeMiscounted(p, placed) || !d.Counted())
  {
    var moved := placed[j].(bucketKey := Some(to.key));
    var next := placed[j := moved] + [Seat(s, d)];
    assert placed[j] in placed && next[j] in next;
    assert forall c :: c in next ==> c == moved || c == Seat(s, d) || c in placed;
    if c :| c in placed && Miscounted(p, c) {
      var i :| 0 <= i < |placed| && placed[i] == c;
      assert next[i] in next && Miscounted(p, next[i]);
    }
    if !d.Counted() {
      assert Miscounted(p, next[j]);
    }
  }

  lemma SeatCounts(p: Policy, placed: seq<Signup>, s: Signup, d: Bucket)
    requires NoneOvercounted(p, placed) && p.BucketWithKey(Some(d.key)) == Some(d)
    ensures var next := placed + [Seat(s, d)];
            NoneOvercounted(p, next) && (SomeMiscounted(p, next) <==> SomeMiscounted(p, placed))
  {
    assert forall c :: c in placed + [Seat(s, d)] <==> c == Seat(s, d) || c in placed;
  }

  lemma StepMiscounts(p: Policy, placed: seq<Signup>, s: Signup)
    requires p.Valid() && NoneOvercounted(p, placed)
    ensures NoneOvercounted(p, SimulateSignup(p, placed, s))
    ensures SomeMiscounted(p, SimulateSignup(p, placed, s)) <==> SomeMiscounted(p, placed) || BumpsUncounted(p, placed, s)
  {
    var seats, d, bumps, j, to := SimulateCases(p, placed, s);
    if seats && bumps {
      BumpMiscounts(p, placed, s, d, j, to);
    } else if seats {
      SeatCounts(p, placed, s, d);
    }
  }

  /** A wrong flag comes from a bump out of a bucket that does not count, and stays wrong. */
  lemma {:induction false} SimulationMiscounts(p: Policy, placed: seq<Signup>, todo: seq<Signup>)
    requires p.Valid() && NoneOvercounted(p, placed)
    ensures NoneOvercounted(p, Simulate(p, placed, todo))
    ensures SomeMiscounted(p, Simulate(p, placed, todo)) <==>
            SomeMiscounted(p, placed) || EverBumpsUncounted(p, placed, todo)
    decreases |todo|
  {
    if todo != [] {
      StepMiscounts(p, placed, todo[0]);
      SimulationMiscounts(p, SimulateSignup(p, placed, todo[0]), todo[1..]);
    }
  }

  lemma ReplacedMiscounts(p: Policy, signups: seq<Signup>)
    requires p.Valid() && Numbered(signups)
    ensures NoneOvercounted(p, Replaced(p, signups))
    ensures SomeMiscounted(p, Replaced(p, signups)) <==> ChangeBumpsUncounted(p, signups)
  {
    Partition(p, signups);
    SimulationMiscounts(p, ToKeep(signups), ToPlace(signups));
  }

  /**
   * A change leaves every signup in shape, counted as its bucket says, exactly when it bumps nobody
   * out of a bucket that does not count: bumping moves a copy and leaves its flag as it was.
   */
  lemma ChangeKeepsShapeExactly(oldP: Policy, p: Policy, team: set<Profile>, signups: seq<Signup>)
    requires p.Valid() && Shaped(oldP, team, signups) && Stranded(p, signups) == []
    ensures Shaped(p, team, ChangedRun(p, signups)) <==> !ChangeBumpsUncounted(p, signups)
  {
    var after, placed := ChangedRun(p, signups), Replaced(p, signups);
    ReplacedRun(p, signups);
    ChangedRows(p, signups);
    ReplacedMiscounts(p, signups);
    if ChangeBumpsUncounted(p, signups) {
      var c :| c in placed && Miscounted(p, c);
      assert CopyOf(p, signups, c) && HasId(placed, c.id);
      OverlayRows(signups, placed);
      assert after[c.id] == c && c in after;
    } else {
      forall i | 0 <= i < |after| ensures after[i].id == i && ShapedRow(p, team, after[i]) {
        assert signups[i] in signups;
        if HasId(placed, i) {
          assert after[i] in placed && !Miscounted(p, after[i]);
        }
      }
    }
  }

  /** A successful change keeps the rows sound, harmful or not. */
  lemma ChangeKeepsSound(oldP: Policy, p: Policy, team: set<Profile>, signups: seq<Signup>)
    requires p.Valid() && Sound(oldP, team, signups) && Stranded(p, signups) == []
    ensures Sound(p, team, ChangedRun(p, signups))
  {
    var after, placed := ChangedRun(p, signups), Replaced(p, signups);
    ReplacedRun(p, signups);
    ChangedRows(p, signups);
    ReplacedMiscounts(p, signups);
    forall i | 0 <= i < |after| ensures after[i].id == i && SoundRow(p, team, after[i]) {
      assert signups[i] in signups;
    }
  }

  // ------------------------------------------------------------------------- who is left waiting

  /** The signups for which there was no bucket. */
  function Unplaced(p: Policy, placed: seq<Signup>, todo: seq<Signup>): (left: seq<Signup>)
    requires p.Valid()
    ensures forall s :: s in left ==> s in todo
    decreases |todo|
  {
    if todo == [] then []
    else
      (if Destination(p, placed, todo[0]).None? then [todo[0]] else [])
      + Unplaced(p, SimulateSignup(p, placed, todo[0]), todo[1..])
  }

  function LeftWaiting(p: Policy, signups: seq<Signup>): seq<Signup>
    requires p.Valid()
  {
    Unplaced(p, ToKeep(signups), ToPlace(signups))
  }

  lemma {:induction false} NoCopyAppears(p: Policy, placed: seq<Signup>, todo: seq<Signup>, id: nat)
    requires p.Valid() && !HasId(placed, id) && !HasId(todo, id)
    ensures !HasId(Simulate(p, placed, todo), id)
    decreases |todo|
  {
    if todo != [] {
      SimulateSignupIds(p, placed, todo[0]);
      assert todo[0] in todo;
      NoCopyAppears(p, SimulateSignup(p, placed, todo[0]), todo[1..], id);
    }
  }

  lemma {:induction false} UnplacedHasNoCopy(p: Policy, signups: seq<Signup>, placed: seq<Signup>, todo: seq<Signup>, s: Signup)
    requires p.Valid() && Pending(signups, placed, todo) && s in todo
    ensures s in Unplaced(p, placed, todo) <==> !HasId(Simulate(p, placed, todo), s.id)
    decreases |todo|
  {
    var next, rest := SimulateSignup(p, placed, todo[0]), todo[1..];
    SimulateSignupIds(p, placed, todo[0]);
    assert todo[0] in todo;
    forall t | t in rest ensures t.id != todo[0].id && t in todo {
      var j :| 0 <= j < |rest| && rest[j] == t;
      assert todo[j + 1] == t;
    }
    if s == todo[0] {
      if Destination(p, placed, s).None? {
        NoCopyAppears(p, next, rest, s.id);
      } else {
        IdsLast(p, next, rest, s.id);
      }
    } else {
      UnplacedHasNoCopy(p, signups, next, rest, s);
    }
  }

  lemma {:induction false} UnplacedConfirmed(p: Policy, placed: seq<Signup>, todo: seq<Signup>, s: Signup)
    requires p.Valid() && s in Unplaced(p, placed, todo) && s.state.Confirmed?
    ensures s in Immovable(p, placed, todo)
    decreases |todo|
  {
    if s in Unplaced(p, SimulateSignup(p, placed, todo[0]), todo[1..]) {
      UnplacedConfirmed(p, SimulateSignup(p, placed, todo[0]), todo[1..], s);
    }
  }

  /** Whoever waits after the change waited before and found no bucket in the simulation. */
  lemma WaitingAfterwards(p: Policy, signups: seq<Signup>, w: Signup)
    requires p.Valid() && Numbered(signups) && Stranded(p, signups) == []
    ensures w in ChangedRun(p, signups) && w.state.Waitlisted? <==> w in LeftWaiting(p, signups)
  {
    var after, placed := ChangedRun(p, signups), Replaced(p, signups);
    Partition(p, signups);
    ReplacedRun(p, signups);
    ChangedRows(p, signups);
    if w in LeftWaiting(p, signups) {
      UnplacedHasNoCopy(p, signups, ToKeep(signups), ToPlace(signups), w);
      assert after[w.id] == w;
      if w.state.Confirmed? {
        UnplacedConfirmed(p, ToKeep(signups), ToPlace(signups), w);
      }
    }
    if w in after && w.state.Waitlisted? {
      var i :| 0 <= i < |after| && after[i] == w;
      assert !HasId(placed, i) && signups[i] == w;
      assert w in ToPlace(signups);
      UnplacedHasNoCopy(p, signups, ToKeep(signups), ToPlace(signups), w);
    }
  }

  // ------------------------------------------------------------------------- stability

  /** The run counts fewer signups in the bucket than sit there. */
  ghost predicate HidesSomebody(b: Bucket, placed: seq<Signup>) {
    exists c :: c in placed && c.bucketKey == Some(b.key) && !c.counted
  }

  /**
   * What keeps a request out when only counted signups are seen: none of its buckets has slots and
   * does not count, none hides anybody, and either no counted limited bucket does or there is
   * nobody to bump.
   */
  ghost predicate KeptOut(p: Policy, requested: Option<Key>, placed: seq<Signup>) {
    (forall b :: b in Prioritized(p, requested) ==> b.totalSlots == 0 || (b.Counted() && !HidesSomebody(b, placed))) &&
    ((forall c :: c in p.buckets && c.CountedLimited() ==> !HidesSomebody(c, placed)) ||
     (forall b :: b in Prioritized(p, requested) ==> !HoldsNoPreference(b, placed)))
  }

  lemma {:induction false} HiddenCounts(placed: seq<Signup>, b: Bucket)
    requires AllConfirmed(placed)
    ensures Count(placed, CountedIn(b.key)) <= Count(placed, InBucket(b.key))
    ensures Count(placed, CountedIn(b.key)) < Count(placed, InBucket(b.key)) <==> HidesSomebody(b, placed)
  {
    if placed != [] {
      var n := |placed| - 1;
      HiddenCounts(placed[..n], b);
      assert forall c :: c in placed <==> c in placed[..n] || c == placed[n];
    }
  }

  /** A full bucket within its slots is full of counted signups exactly when it hides nobody; one
      that does not count exactly when it has no slots. */
  lemma SeenFull(p: Policy, placed: seq<Signup>, b: Bucket)
    requires p.Valid() && AllConfirmed(placed) && NoneOvercounted(p, placed) && WithinCapacity(p, placed)
    requires b in p.buckets && b.Full(placed)
    ensures Count(placed, CountedIn(b.key)) >= b.totalSlots <==>
            b.totalSlots == 0 || (b.Counted() && !HidesSomebody(b, placed))
  {
    LookupFinds(p, b);
    HiddenCounts(placed, b);
    if !b.Counted() {
      CountZero(placed, CountedIn(b.key));
    }
  }

  lemma KeptOutAtRun(p: Policy, requested: Option<Key>, placed: seq<Signup>, after: seq<Signup>)
    requires p.Valid() && AllConfirmed(placed) && NoneOvercounted(p, placed) && WithinCapacity(p, placed)
    requires NoRoom(p, requested, placed)
    requires forall k :: Count(after, CountedIn(k)) == Count(placed, CountedIn(k))
    requires forall s: Signup :: s.state.Confirmed? ==> (s in after <==> s in placed)
    ensures NoRoomAtRun(p, requested, after) <==> KeptOut(p, requested, placed)
  {
    forall b | b in Prioritized(p, requested)
      ensures b in p.buckets && b.Full(placed)
      ensures FullOfCounted(b, after) <==> b.totalSlots == 0 || (b.Counted() && !HidesSomebody(b, placed))
    {
      PrioritizedInPolicy(p, requested, b);
      SeenFull(p, placed, b);
    }
    forall b: Bucket ensures HoldsNoPreference(b, after) <==> HoldsNoPreference(b, placed) {
      HeldAlike(b, placed, after);
    }
    if b :| b in Prioritized(p, requested) && HoldsNoPreference(b, placed) {
      forall c | c in p.buckets && c.CountedLimited()
        ensures FullOfCounted(c, after) <==> !HidesSomebody(c, placed)
      {
        NothingFree(p, requested, placed, b);
        assert c.Full(placed);
        SeenFull(p, placed, c);
        EmptyHidesNobody(p, placed, c);
      }
    }
  }

  lemma HeldAlike(b: Bucket, placed: seq<Signup>, after: seq<Signup>)
    requires forall s: Signup :: s.state.Confirmed? ==> (s in after <==> s in placed)
    ensures HoldsNoPreference(b, after) <==> HoldsNoPreference(b, placed)
  {}

  lemma NothingFree(p: Policy, requested: Option<Key>, placed: seq<Signup>, b: Bucket)
    requires NoRoom(p, requested, placed) && b in Prioritized(p, requested) && HoldsNoPreference(b, placed)
    ensures forall c :: c in p.buckets && c.CountedLimited() ==> c.Full(placed)
  {
    var n :| n in placed && n.counted && n.ConfirmedIn(b.key) && n.NoPreference();
    assert !SomeCapacity(p, placed);
  }

  lemma EmptyHidesNobody(p: Policy, placed: seq<Signup>, c: Bucket)
    requires AllConfirmed(placed) && WithinCapacity(p, placed) && c in p.buckets && c.slotsLimited
    ensures c.totalSlots == 0 ==> !HidesSomebody(c, placed)
  {
    if s :| s in placed && s.bucketKey == Some(c.key) && !s.counted {
      CountPositive(placed, s, InBucket(c.key));
    }
  }

  /**
   * A successful change to any policy, from any occupancy, leaves nobody waiting who could be placed
   * exactly when everybody who found no bucket in the simulation is kept out of what looks free to
   * somebody who sees counted signups only.
   */
  lemma ChangeStabilisesExactly(p: Policy, signups: seq<Signup>)
    requires p.Valid() && Numbered(signups) && Stranded(p, signups) == []
    ensures Stable(p, ChangedRun(p, signups)) <==>
            forall w :: w in LeftWaiting(p, signups) ==> KeptOut(p, w.requested, Replaced(p, signups))
  {
    var after, placed := ChangedRun(p, signups), Replaced(p, signups);
    ReplacedRun(p, signups);
    ReplacedMiscounts(p, signups);
    ConfirmedRows(p, signups);
    StableAtRun(p, after);
    forall w ensures w in after && w.state.Waitlisted? <==> w in LeftWaiting(p, signups) {
      WaitingAfterwards(p, signups, w);
    }
    forall w | w in LeftWaiting(p, signups)
      ensures NoRoomAtRun(p, w.requested, after) <==> KeptOut(p, w.requested, placed)
    {
      LeftWithoutRoom(p, signups, w);
      KeptOutAtRun(p, w.requested, placed, after);
    }
  }

  lemma LeftWithoutRoom(p: Policy, signups: seq<Signup>, w: Signup)
    requires p.Valid() && Numbered(signups) && Stranded(p, signups) == [] && w in LeftWaiting(p, signups)
    ensures NoRoom(p, w.requested, Replaced(p, signups))
  {
    Partition(p, signups);
    UnplacedHasNoCopy(p, signups, ToKeep(signups), ToPlace(signups), w);
    PlacedOrNoRoom(p, ToKeep(signups), ToPlace(signups), w);
  }

  /** The confirmed signups of a changed run are its copies. */
  lemma ConfirmedRows(p: Policy, signups: seq<Signup>)
    requires p.Valid() && Numbered(signups) && Stranded(p, signups) == []
    ensures forall k :: Count(ChangedRun(p, signups), CountedIn(k)) == Count(Replaced(p, signups), CountedIn(k))
    ensures forall s: Signup :: s.state.Confirmed? ==> (s in ChangedRun(p, signups) <==> s in Replaced(p, signups))
  {
    var after, placed := ChangedRun(p, signups), Replaced(p, signups);
    ReplacedRun(p, signups);
    ChangedRows(p, signups);
    OverlayRows(signups, placed);
    forall k ensures Count(after, CountedIn(k)) == Count(placed, CountedIn(k)) {
      OverlayCounts(signups, placed, CountedIn(k));
    }
    forall s: Signup | s.state.Confirmed? ensures s in after <==> s in placed {
      if s in after {
        var i :| 0 <= i < |after| && after[i] == s;
        assert HasId(placed, i);
      }
      if s in placed {
        assert CopyOf(p, signups, s) && after[s.id] == s;
      }
    }
  }

  /** Somebody left waiting may be given a bucket that has slots and does not count. */
  ghost predicate LeavesUncountedRoom(p: Policy, signups: seq<Signup>)
    requires p.Valid()
  {
    exists w, b :: w in LeftWaiting(p, signups) && b in Prioritized(p, w.requested) && !b.Counted() && b.totalSlots > 0
  }

  /** When the change bumps nobody out of a bucket that does not count, only such room matters. */
  lemma ChangeStabilisesUnbumped(p: Policy, signups: seq<Signup>)
    requires p.Valid() && Numbered(signups) && Stranded(p, signups) == []
    requires !ChangeBumpsUncounted(p, signups)
    ensures Stable(p, ChangedRun(p, signups)) <==> !LeavesUncountedRoom(p, signups)
  {
    var placed := Replaced(p, signups);
    ChangeStabilisesExactly(p, signups);
    ReplacedMiscounts(p, signups);
    forall b | b in p.buckets && b.Counted() ensures !HidesSomebody(b, placed) {
      LookupFinds(p, b);
      assert forall c :: c in placed ==> !Miscounted(p, c);
    }
    forall w | w in LeftWaiting(p, signups)
      ensures KeptOut(p, w.requested, placed) <==>
              forall b :: b in Prioritized(p, w.requested) ==> b.Counted() || b.totalSlots == 0
    {
      forall b | b in Prioritized(p, w.requested) ensures b in p.buckets {
        PrioritizedInPolicy(p, w.requested, b);
      }
    }
  }

  /** A change without harm bumps nobody out of a bucket that does not count, and leaves nobody
      waiting who may be given such a bucket with slots. */
  ghost predicate Harmless(p: Policy, signups: seq<Signup>)
    requires p.Valid()
  {
    !ChangeBumpsUncounted(p, signups) && !LeavesUncountedRoom(p, signups)
  }

  /** A successful change keeps a run in shape and its waitlist stable exactly when it is harmless. */
  lemma HarmlessExactly(oldP: Policy, p: Policy, team: set<Profile>, signups: seq<Signup>)
    requires p.Valid() && Shaped(oldP, team, signups) && Stranded(p, signups) == []
    ensures Shaped(p, team, ChangedRun(p, signups)) && Stable(p, ChangedRun(p, signups)) <==> Harmless(p, signups)
  {
    ChangeKeepsShapeExactly(oldP, p, team, signups);
    if !ChangeBumpsUncounted(p, signups) {
      ChangeStabilisesUnbumped(p, signups);
    }
  }

  lemma {:induction false} NeverBumpsUncounted(p: Policy, placed: seq<Signup>, todo: seq<Signup>)
    requires p.Valid() && p.HidesNoSlots() && AllConfirmed(placed) && WithinCapacity(p, placed)
    ensures !EverBumpsUncounted(p, placed, todo)
    decreases |todo|
  {
    if todo != [] {
      var seats, d, bumps, j, to := SimulateCases(p, placed, todo[0]);
      if seats && bumps && !d.Counted() {
        assert placed[j] in placed;
        CountPositive(placed, placed[j], InBucket(d.key));
        assert false;
      }
      SimulateSignupFits(p, placed, todo[0]);
      NeverBumpsUncounted(p, SimulateSignup(p, placed, todo[0]), todo[1..]);
    }
  }

  /** A policy that hides no slots is harmless to every run. */
  lemma HidingNothingIsHarmless(p: Policy, signups: seq<Signup>)
    requires p.Valid() && p.HidesNoSlots() && Numbered(signups) && Stranded(p, signups) == []
    ensures Harmless(p, signups)
  {
    Partition(p, signups);
    NeverBumpsUncounted(p, ToKeep(signups), ToPlace(signups));
    forall w, b | w in LeftWaiting(p, signups) && b in Prioritized(p, w.requested) && !b.Counted()
      ensures b.totalSlots == 0
    {
      LeftWithoutRoom(p, signups, w);
      PrioritizedInPolicy(p, w.requested, b);
    }
  }

  // ------------------------------------------------------------------------- fairness

  lemma {:induction false} StaysUnplaced(p: Policy, placed: seq<Signup>, todo: seq<Signup>, s: Signup)
    requires p.Valid() && AllConfirmed(placed) && WithinCapacity(p, placed) && NoRoom(p, s.requested, placed)
    requires s in todo && s.bucketKey.None?
    ensures s in Unplaced(p, placed, todo)
    decreases |todo|
  {
    if s == todo[0] {
      FindBucketNone(p, s.requested, placed);
    } else {
      NoRoomStays(p, placed, todo[0], s.requested);
      SimulateSignupFits(p, placed, todo[0]);
      StaysUnplaced(p, SimulateSignup(p, placed, todo[0]), todo[1..], s);
    }
  }

  lemma {:induction false} SimulateSplit(p: Policy, placed: seq<Signup>, xs: seq<Signup>, ys: seq<Signup>)
    requires p.Valid()
    ensures Simulate(p, placed, xs + ys) == Simulate(p, Simulate(p, placed, xs), ys)
    ensures Unplaced(p, placed, xs + ys) == Unplaced(p, placed, xs) + Unplaced(p, Simulate(p, placed, xs), ys)
    decreases |xs|
  {
    if xs == [] {
      assert xs + ys == ys;
    } else {
      assert (xs + ys)[1..] == xs[1..] + ys;
      SimulateSplit(p, SimulateSignup(p, placed, xs[0]), xs[1..], ys);
    }
  }

  /** A signup that is first and not placed finds no room; nor does a later one with its request. */
  lemma HeadUnplaced(p: Policy, placed: seq<Signup>, s: Signup, rest: seq<Signup>, t: Signup)
    requires p.Valid() && AllConfirmed(placed) && WithinCapacity(p, placed)
    requires s in Unplaced(p, placed, [s] + rest) && s !in rest
    requires t in rest && t.bucketKey.None? && t.requested == s.requested
    ensures t in Unplaced(p, placed, [s] + rest)
  {
    assert ([s] + rest)[1..] == rest;
    FindBucketNone(p, s.requested, placed);
    StaysUnplaced(p, placed, [s] + rest, t);
  }

  /** Of two signups with the same request, the later one is not placed when the earlier one is not. */
  lemma EarlierFirst(p: Policy, placed: seq<Signup>, before: seq<Signup>, s: Signup, rest: seq<Signup>, t: Signup)
    requires p.Valid() && AllConfirmed(placed) && WithinCapacity(p, placed)
    requires s in Unplaced(p, placed, before + ([s] + rest)) && s !in before && s !in rest
    requires t in rest && t.bucketKey.None? && t.requested == s.requested
    ensures t in Unplaced(p, placed, before + ([s] + rest))
  {
    SimulateSplit(p, placed, before, [s] + rest);
    SimulateFits(p, placed, before);
    HeadUnplaced(p, Simulate(p, placed, before), s, rest, t);
  }

  /** In order of placement, what comes before the older signup and what after it. */
  lemma AroundOlder(todo: seq<Signup>, older: Signup, younger: Signup) returns (before: seq<Signup>, rest: seq<Signup>)
    requires Sorted(todo, PlacementRank) && Distinct(todo) && older in todo && younger in todo
    requires older.state == younger.state && older.createdAt < younger.createdAt
    ensures todo == before + ([older] + rest) && older !in before && older !in rest && younger in rest
  {
    var i :| 0 <= i < |todo| && todo[i] == older;
    var j :| 0 <= j < |todo| && todo[j] == younger;
    assert j < i ==> Le(PlacementRank(todo[j]), PlacementRank(todo[i]));
    before, rest := todo[..i], todo[i + 1..];
    assert rest[j - i - 1] == younger;
  }

  lemma YoungerIsLeft(p: Policy, signups: seq<Signup>, older: Signup, younger: Signup)
    requires p.Valid() && Numbered(signups) && older in LeftWaiting(p, signups) && younger in ToPlace(signups)
    requires older.state == younger.state && older.createdAt < younger.createdAt
    requires older.requested == younger.requested && younger.bucketKey.None?
    ensures younger in LeftWaiting(p, signups)
  {
    Partition(p, signups);
    var before, rest := AroundOlder(ToPlace(signups), older, younger);
    EarlierFirst(p, ToKeep(signups), before, older, rest, younger);
  }

  /**
   * Re-placement is fair to those who wait: of two with the same request, the younger is never
   * confirmed by a change while the older is left waiting.
   */
  lemma OlderIsPlacedFirst(p: Policy, signups: seq<Signup>, older: Signup, younger: Signup)
    requires p.Valid() && Numbered(signups) && Stranded(p, signups) == []
    requires older in signups && older.state.Waitlisted? && younger in signups && younger.state.Waitlisted?
    requires older.requested == younger.requested && older.createdAt < younger.createdAt && younger.bucketKey.None?
    ensures |ChangedRun(p, signups)| == |signups| && older.id < |signups| && younger.id < |signups|
    ensures ChangedRun(p, signups)[younger.id].state.Confirmed? ==> ChangedRun(p, signups)[older.id].state.Confirmed?
  {
    Partition(p, signups);
    ChangedRows(p, signups);
    if older in LeftWaiting(p, signups) {
      YoungerIsLeft(p, signups, older, younger);
    }
    UnplacedHasNoCopy(p, signups, ToKeep(signups), ToPlace(signups), older);
    UnplacedHasNoCopy(p, signups, ToKeep(signups), ToPlace(signups), younger);
  }
}
