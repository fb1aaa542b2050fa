/** What a registration policy change establishes, and when it changes nothing. */
module PolicyChangeResults {
  import opened Sorting
  import opened Registration
  import opened BucketFinder
  import opened Allocation
  import opened VacancyFill
  import opened PolicyChange

  /** `c` is signup `c.id` of the run, confirmed and re-seated. */
  ghost predicate CopyOf(p: Policy, signups: seq<Signup>, c: Signup) {
    c.id < |signups| && c.state.Confirmed? && !signups[c.id].state.Withdrawn? &&
    c == signups[c.id].(state := c.state, bucketKey := c.bucketKey, counted := c.counted) &&
    (IsKept(signups[c.id]) ==> c == signups[c.id]) &&
    (!IsKept(signups[c.id]) ==>
       c.bucketKey.Some? && p.BucketWithKey(c.bucketKey).Some? &&
       (p.LimitedBucketsCount() ==> c.counted == p.BucketWithKey(c.bucketKey).value.Counted()))
  }

  ghost predicate Copies(p: Policy, signups: seq<Signup>, placed: seq<Signup>) {
    Distinct(placed) && forall c :: c in placed ==> CopyOf(p, signups, c)
  }

  /** Signups still to be simulated: real ones of the run, none of them kept, none placed yet. */
  ghost predicate Pending(signups: seq<Signup>, placed: seq<Signup>, todo: seq<Signup>) {
    Distinct(todo) &&
    forall s :: s in todo ==>
      s.id < |signups| && signups[s.id] == s && !s.state.Withdrawn? && !IsKept(s) && !HasId(placed, s.id)
  }

  lemma DistinctMore(placed: seq<Signup>, next: seq<Signup>, id: nat)
    requires Distinct(placed) && OneIdMore(placed, next, id) && !HasId(placed, id)
    ensures Distinct(next)
  {
    forall i, k | 0 <= i < k < |next| ensures next[i].id != next[k].id {
      assert placed[i] in placed;
    }
  }

  lemma {:induction false} SimulateSignupCopies(p: Policy, signups: seq<Signup>, placed: seq<Signup>, s: Signup)
    requires p.Valid() && Numbered(signups) && Copies(p, signups, placed) && Pending(signups, placed, [s])
    ensures Copies(p, signups, SimulateSignup(p, placed, s))
  {
    var next := SimulateSignup(p, placed, s);
    assert s in [s];
    StepKeepsIds(p, placed, s);
    if Destination(p, placed, s).Some? {
      DistinctMore(placed, next, s.id);
      CopiesOfStep(p, signups, placed, s);
    }
  }

  lemma {:induction false} CopiesOfStep(p: Policy, signups: seq<Signup>, placed: seq<Signup>, s: Signup)
    requires p.Valid() && forall c :: c in placed ==> CopyOf(p, signups, c)
    requires s.id < |signups| && signups[s.id] == s && !s.state.Withdrawn? && !IsKept(s)
    ensures forall c :: c in SimulateSignup(p, placed, s) ==> CopyOf(p, signups, c)
  {
    var next := SimulateSignup(p, placed, s);
    var seats, d, bumps, j, to := SimulateCases(p, placed, s);
    assert seats ==> CopyOf(p, signups, Seat(s, d));
    if bumps && seats {
      assert placed[j] in placed && CopyOf(p, signups, placed[j]);
      BumpedCopy(p, signups, placed[j], to);
    }
    forall i | 0 <= i < |next| ensures CopyOf(p, signups, next[i]) {
      if i < |placed| {
        assert placed[i] in placed;
      }
    }
  }

  lemma BumpedCopy(p: Policy, signups: seq<Signup>, c: Signup, to: Bucket)
    requires CopyOf(p, signups, c) && c.bucketKey.Some?
    requires p.BucketWithKey(Some(to.key)) == Some(to) && to.CountedLimited()
    requires p.LimitedBucketsCount() ==> c.counted
    ensures CopyOf(p, signups, c.(bucketKey := Some(to.key)))
  {}

  lemma {:induction false} SimulateCopies(p: Policy, signups: seq<Signup>, placed: seq<Signup>, todo: seq<Signup>)
    requires p.Valid() && Numbered(signups) && Copies(p, signups, placed) && Pending(signups, placed, todo)
    ensures Copies(p, signups, Simulate(p, placed, todo))
    decreases |todo|
  {
    if todo != [] {
      assert Pending(signups, placed, [todo[0]]);
      SimulateSignupCopies(p, signups, placed, todo[0]);
      SimulateSignupIds(p, placed, todo[0]);
      SimulateCopies(p, signups, SimulateSignup(p, placed, todo[0]), todo[1..]);
    }
  }

  /** Kept and re-placed signups: together the active signups of the run, each once. */
  lemma Partition(p: Policy, signups: seq<Signup>)
    requires Numbered(signups)
    ensures Distinct(InOrder(signups)) && Sorted(ToPlace(signups), PlacementRank)
    ensures forall s :: s in ToKeep(signups) <==> s in signups && IsActive(s) && IsKept(s)
    ensures forall s :: s in ToPlace(signups) <==> s in signups && IsActive(s) && !IsKept(s)
    ensures Copies(p, signups, ToKeep(signups)) && Pending(signups, ToKeep(signups), ToPlace(signups))
    ensures AllConfirmed(ToKeep(signups)) && WithinCapacity(p, ToKeep(signups))
  {
    var active := Filter(signups, IsActive);
    FilterDistinct(signups, IsActive);
    SortDistinct(active, PlacementRank);
    SortSorts(active, PlacementRank);
    FilterDistinct(InOrder(signups), IsKept);
    FilterDistinct(InOrder(signups), IsToPlace);
    FilterSorted(InOrder(signups), PlacementRank, IsToPlace);
    forall b: Bucket ensures Count(ToKeep(signups), InBucket(b.key)) == 0 {
      CountZero(ToKeep(signups), InBucket(b.key));
    }
  }

  function WithState(o: Signup, c: Signup): Signup {
    o.(state := c.state, bucketKey := c.bucketKey, counted := c.counted)
  }

  /** Applying copies to a run changes exactly the signups that have one. */
  lemma {:induction false} OverlayRows(signups: seq<Signup>, copies: seq<Signup>)
    requires Distinct(copies) && forall c :: c in copies ==> c.id < |signups|
    ensures |Overlay(signups, copies)| == |signups|
    ensures forall c :: c in copies ==> Overlay(signups, copies)[c.id] == WithState(signups[c.id], c)
    ensures forall i :: 0 <= i < |signups| && !HasId(copies, i) ==> Overlay(signups, copies)[i] == signups[i]
  {
    if copies != [] {
      var n := |copies| - 1;
      var prefix := copies[..n];
      OverlayRows(signups, prefix);
      assert copies[n] in copies;
      assert !HasId(prefix, copies[n].id);
      forall c | c in copies ensures Overlay(signups, copies)[c.id] == WithState(signups[c.id], c) {
        var i :| 0 <= i < |copies| && copies[i] == c;
        if i < n {
          assert prefix[i] == c;
        }
      }
      forall i | 0 <= i < |signups| && !HasId(copies, i) ensures Overlay(signups, copies)[i] == signups[i] {
        assert !HasId(prefix, i);
      }
    }
  }

  function Hidden(signups: seq<Signup>): seq<Signup> {
    seq(|signups|, i requires 0 <= i < |signups| => signups[i].(state := Withdrawn))
  }

  lemma {:induction false} OverlayHiddenCounts(signups: seq<Signup>, copies: seq<Signup>, t: Tally)
    requires Distinct(copies) && forall c :: c in copies ==> c.id < |signups|
    ensures Count(Overlay(Hidden(signups), copies), t) == Count(copies, t)
  {
    if copies == [] {
      CountZero(Hidden(signups), t);
    } else {
      var n := |copies| - 1;
      var prefix := copies[..n];
      OverlayHiddenCounts(signups, prefix, t);
      OverlayRows(Hidden(signups), prefix);
      assert copies[n] in copies;
      assert !HasId(prefix, copies[n].id);
      var rest := Overlay(Hidden(signups), prefix);
      CountUpdate(rest, copies[n].id, WithState(rest[copies[n].id], copies[n]), t);
    }
  }

  /** The changed run counts as its copies do, when every confirmed signup has a copy. */
  lemma OverlayCounts(signups: seq<Signup>, copies: seq<Signup>, t: Tally)
    requires Distinct(copies) && forall c :: c in copies ==> c.id < |signups|
    requires forall i :: 0 <= i < |signups| && signups[i].state.Confirmed? ==> HasId(copies, i)
    ensures Count(Overlay(signups, copies), t) == Count(copies, t)
  {
    var shown := Overlay(signups, copies);
    var hidden := Overlay(Hidden(signups), copies);
    OverlayHiddenCounts(signups, copies, t);
    OverlayRows(signups, copies);
    OverlayRows(Hidden(signups), copies);
    forall i | 0 <= i < |signups| ensures Has(shown[i], t) <==> Has(hidden[i], t) {
      if HasId(copies, i) {
        var c :| c in copies && c.id == i;
        assert shown[c.id] == WithState(signups[c.id], c);
      }
    }
    CountPointwise(shown, hidden, t, t);
    CountPointwise(hidden, shown, t, t);
  }

  // ---------------------------------------------------------------------- what a change gives

  /** What is known of the copies once every confirmed signup of the run has been placed. */
  lemma ReplacedRun(p: Policy, signups: seq<Signup>)
    requires p.Valid() && Numbered(signups)
    ensures var placed := Replaced(p, signups);
            Copies(p, signups, placed) && AllConfirmed(placed) && WithinCapacity(p, placed) &&
            (Stranded(p, signups) == [] ==>
               (forall i :: 0 <= i < |signups| && signups[i].state.Confirmed? ==> HasId(placed, i)) &&
               (forall i :: 0 <= i < |signups| && signups[i].state.Waitlisted? && !HasId(placed, i) ==>
                  NoRoom(p, signups[i].requested, placed)))
  {
    Partition(p, signups);
    var keep, todo, placed := ToKeep(signups), ToPlace(signups), Replaced(p, signups);
    SimulateCopies(p, signups, keep, todo);
    SimulateFits(p, keep, todo);
    forall i | 0 <= i < |signups| && IsActive(signups[i])
      ensures HasId(placed, i) ||
              (NoRoom(p, signups[i].requested, placed) &&
               (signups[i].state.Confirmed? ==> signups[i] in Stranded(p, signups)))
    {
      var s := signups[i];
      if IsKept(s) {
        assert s in keep;
        IdsLast(p, keep, todo, i);
      } else {
        PlacedOrNoRoom(p, keep, todo, s);
      }
    }
  }

  /** The rows of a changed run are its copies and, where there is none, the rows as they were. */
  lemma ChangedRows(p: Policy, signups: seq<Signup>)
    requires p.Valid() && Numbered(signups)
    ensures var after := ChangedRun(p, signups);
            |after| == |signups| && Numbered(after) &&
            forall i :: 0 <= i < |after| ==>
              (HasId(Replaced(p, signups), i) ==>
                 after[i] in Replaced(p, signups) && CopyOf(p, signups, after[i])) &&
              (!HasId(Replaced(p, signups), i) ==> after[i] == signups[i])
  {
    ReplacedRun(p, signups);
    var placed := Replaced(p, signups);
    OverlayRows(signups, placed);
    forall i | 0 <= i < |signups|
      ensures HasId(placed, i) ==>
                ChangedRun(p, signups)[i] in placed && CopyOf(p, signups, ChangedRun(p, signups)[i])
      ensures ChangedRun(p, signups)[i].id == i
    {
      if c :| c in placed && c.id == i {
        assert ChangedRun(p, signups)[i] == c;
      }
    }
  }

  function ConfirmedOnly(signups: seq<Signup>): seq<Signup> {
    Filter(signups, (s: Signup) => s.state.Confirmed?)
  }

  /**
   * A change that strands nobody fits every limited bucket of the new policy, whatever the
   * occupancy before; keeps every confirmed signup confirmed; and leaves nobody waiting for whom
   * the finder, looking at all confirmed signups, would find a bucket.
   */
  lemma ChangeEstablishes(p: Policy, signups: seq<Signup>)
    requires p.Valid() && Numbered(signups) && Stranded(p, signups) == []
    ensures var after := ChangedRun(p, signups);
            |after| == |signups| && WithinCapacity(p, after) &&
            (forall i :: 0 <= i < |after| ==>
               after[i] == WithState(signups[i], after[i]) &&
               (signups[i].state.Confirmed? ==> after[i].state.Confirmed?) &&
               (signups[i].state.Withdrawn? ==> after[i] == signups[i])) &&
            (forall w :: w in after && w.state.Waitlisted? ==>
               FindBucket(p, w.requested, ConfirmedOnly(after)).None?)
  {
    var after := ChangedRun(p, signups);
    var placed := Replaced(p, signups);
    ReplacedRun(p, signups);
    ChangedRows(p, signups);
    forall b: Bucket
      ensures Count(after, InBucket(b.key)) == Count(placed, InBucket(b.key))
      ensures Count(ConfirmedOnly(after), InBucket(b.key)) == Count(placed, InBucket(b.key))
    {
      OverlayCounts(signups, placed, InBucket(b.key));
      CountFilter(after, (s: Signup) => s.state.Confirmed?, InBucket(b.key));
    }
    forall w | w in after && w.state.Waitlisted? ensures FindBucket(p, w.requested, ConfirmedOnly(after)).None? {
      var i :| 0 <= i < |after| && after[i] == w;
      SameRoom(p, w.requested, placed, ConfirmedOnly(after), signups);
      FindBucketNone(p, w.requested, ConfirmedOnly(after));
    }
  }

  lemma SameRoom(p: Policy, requested: Option<Key>, placed: seq<Signup>, shown: seq<Signup>, signups: seq<Signup>)
    requires NoRoom(p, requested, placed)
    requires forall b: Bucket :: Count(shown, InBucket(b.key)) == Count(placed, InBucket(b.key))
    requires forall s :: s in shown ==> s in placed
    ensures NoRoom(p, requested, shown)
  {
    forall b: Bucket ensures b.Full(shown) <==> b.Full(placed) {
      assert Count(shown, InBucket(b.key)) == Count(placed, InBucket(b.key));
    }
  }

  lemma CopiesAreCounted(p: Policy, signups: seq<Signup>, placed: seq<Signup>, b: Bucket)
    requires p.Valid() && p.LimitedBucketsCount() && Copies(p, signups, placed)
    requires b in p.buckets && b.slotsLimited
    ensures Count(placed, InBucket(b.key)) <= Count(placed, CountedIn(b.key))
  {
    LookupFinds(p, b);
    forall i | 0 <= i < |placed| && placed[i].ConfirmedIn(b.key) ensures placed[i].counted {
      assert CopyOf(p, signups, placed[i]);
    }
    CountPointwise(placed, placed, InBucket(b.key), CountedIn(b.key));
  }

  /** With no limited bucket that does not count, that is stability as signing up sees it. */
  lemma ChangeStabilises(p: Policy, signups: seq<Signup>)
    requires p.Valid() && p.LimitedBucketsCount() && Numbered(signups) && Stranded(p, signups) == []
    ensures Stable(p, ChangedRun(p, signups))
  {
    var after := ChangedRun(p, signups);
    var placed := Replaced(p, signups);
    ReplacedRun(p, signups);
    ChangedRows(p, signups);
    forall b | b in p.buckets && b.Full(placed) ensures FullOfCounted(b, after) {
      OverlayCounts(signups, placed, CountedIn(b.key));
      CopiesAreCounted(p, signups, placed, b);
    }
    StableAtRun(p, after);
    forall i | 0 <= i < |after| && after[i].state.Waitlisted?
      ensures NoRoomAtRun(p, after[i].requested, after)
    {
      NoRoomAfterChange(p, after[i].requested, placed, after);
    }
  }

  lemma NoRoomAfterChange(p: Policy, requested: Option<Key>, placed: seq<Signup>, after: seq<Signup>)
    requires p.Valid() && NoRoom(p, requested, placed)
    requires forall b :: b in p.buckets && b.Full(placed) ==> FullOfCounted(b, after)
    requires forall s :: s in after && s.state.Confirmed? ==> s in placed
    ensures NoRoomAtRun(p, requested, after)
  {
    forall b | b in Prioritized(p, requested) ensures b in p.buckets {
      PrioritizedInPolicy(p, requested, b);
    }
    if SomeCapacity(p, placed) {
      forall b | b in Prioritized(p, requested) ensures !HoldsNoPreference(b, after) {
        forall n | n in after && n.ConfirmedIn(b.key) ensures !n.NoPreference() {
          assert n in placed;
        }
      }
    }
  }

  /** ... and the signups fit the new policy in shape. */
  lemma ChangeKeepsShape(oldP: Policy, p: Policy, team: set<Profile>, signups: seq<Signup>)
    requires p.Valid() && p.LimitedBucketsCount() && Shaped(oldP, team, signups)
    requires Stranded(p, signups) == []
    ensures Shaped(p, team, ChangedRun(p, signups))
  {
    var after := ChangedRun(p, signups);
    ReplacedRun(p, signups);
    ChangedRows(p, signups);
    forall i | 0 <= i < |after| ensures after[i].id == i && ShapedRow(p, team, after[i]) {
      assert signups[i] in signups;
    }
  }

  // ------------------------------------------------------------- changes that change nothing

  /** The same buckets, each with at least as many slots. */
  ghost predicate RaisesSlots(p: Policy, raised: Policy) {
    |raised.buckets| == |p.buckets| &&
    forall i :: 0 <= i < |p.buckets| ==>
      raised.buckets[i] == p.buckets[i].(totalSlots := raised.buckets[i].totalSlots) &&
      raised.buckets[i].totalSlots >= p.buckets[i].totalSlots
  }

  /** Raising slots keeps every bucket in place; only its slots grow. */
  lemma RaisedBucket(p: Policy, raised: Policy, key: Option<Key>)
    requires p.Valid() && RaisesSlots(p, raised) && p.BucketWithKey(key).Some?
    ensures raised.BucketWithKey(key).Some?
    ensures var b, r := p.BucketWithKey(key).value, raised.BucketWithKey(key).value;
            r == b.(totalSlots := r.totalSlots) && r.totalSlots >= b.totalSlots
  {
    RaisedValid(p, raised);
    var b := p.BucketWithKey(key).value;
    var i :| 0 <= i < |p.buckets| && p.buckets[i] == b;
    assert raised.buckets[i] in raised.buckets;
    LookupFinds(raised, raised.buckets[i]);
  }

  lemma RaisedValid(p: Policy, raised: Policy)
    requires p.Valid() && RaisesSlots(p, raised)
    ensures raised.Valid()
  {}

  /** A signup that sits in a bucket with room for it stays there, unchanged. */
  lemma StaysPut(p: Policy, raised: Policy, team: set<Profile>, placed: seq<Signup>, s: Signup)
    requires p.Valid() && RaisesSlots(p, raised) && raised.Valid() && ShapedRow(p, team, s)
    requires s.state.Confirmed? && s.bucketKey.Some?
    requires Count(placed, InBucket(s.bucketKey.value)) < p.BucketWithKey(s.bucketKey).value.totalSlots
             || !p.BucketWithKey(s.bucketKey).value.slotsLimited
    ensures Destination(raised, placed, s).Some? && SimulateSignup(raised, placed, s) == placed + [s]
  {
    RaisedBucket(p, raised, s.bucketKey);
  }

  /** The signups to place fit next to those placed already. */
  ghost predicate FitTogether(p: Policy, placed: seq<Signup>, todo: seq<Signup>) {
    forall b :: b in p.buckets && b.slotsLimited ==>
      Count(placed, InBucket(b.key)) + Count(todo, InBucket(b.key)) <= b.totalSlots
  }

  lemma FitsNext(p: Policy, team: set<Profile>, placed: seq<Signup>, todo: seq<Signup>)
    requires p.Valid() && FitTogether(p, placed, todo) && todo != []
    requires ShapedRow(p, team, todo[0]) && todo[0].state.Confirmed? && todo[0].bucketKey.Some?
    ensures FitTogether(p, placed + [todo[0]], todo[1..])
    ensures var b := p.BucketWithKey(todo[0].bucketKey).value;
            !b.slotsLimited || Count(placed, InBucket(b.key)) < b.totalSlots
  {
    var s := todo[0];
    forall k ensures Count(todo, InBucket(k)) == (if s.ConfirmedIn(k) then 1 else 0) + Count(todo[1..], InBucket(k)) {
      assert todo == [s] + todo[1..];
      CountAppend([s], todo[1..], InBucket(k));
      CountOne([], s, InBucket(k));
      assert [] + [s] == [s];
    }
    forall b | b in p.buckets && b.slotsLimited
      ensures Count(placed + [s], InBucket(b.key)) + Count(todo[1..], InBucket(b.key)) <= b.totalSlots
    {
      CountOne(placed, s, InBucket(b.key));
    }
  }

  /** When all signups fit where they are, the confirmed ones are re-placed as they were and no
      confirmed signup is immovable. */
  lemma {:induction false} ConfirmedStayPut(p: Policy, raised: Policy, team: set<Profile>,
                                            placed: seq<Signup>, todo: seq<Signup>)
    requires p.Valid() && RaisesSlots(p, raised) && raised.Valid()
    requires Sorted(todo, PlacementRank) && FitTogether(p, placed, todo)
    requires forall s :: s in todo ==> ShapedRow(p, team, s) && IsActive(s) && !IsKept(s)
    ensures Immovable(raised, placed, todo) == []
    ensures Simulate(raised, placed, todo) ==
            Simulate(raised, placed + ConfirmedOnly(todo), Filter(todo, IsWaiting))
    decreases |todo|
  {
    if todo == [] {
      assert placed + ConfirmedOnly(todo) == placed;
    } else if todo[0].state.Confirmed? {
      var s := todo[0];
      FitsNext(p, team, placed, todo);
      StaysPut(p, raised, team, placed, s);
      SeatedFirst(raised, placed, todo);
      FirstConfirmed(placed, todo);
      ConfirmedStayPut(p, raised, team, placed + [s], todo[1..]);
    } else {
      NobodyConfirmedLeft(todo);
      WaitingNeverImmovable(raised, placed, todo);
      assert placed + ConfirmedOnly(todo) == placed;
    }
  }

  lemma SeatedFirst(p: Policy, placed: seq<Signup>, todo: seq<Signup>)
    requires p.Valid() && todo != [] && todo[0].state.Confirmed?
    requires Destination(p, placed, todo[0]).Some? && SimulateSignup(p, placed, todo[0]) == placed + [todo[0]]
    ensures Immovable(p, placed, todo) == Immovable(p, placed + [todo[0]], todo[1..])
    ensures Simulate(p, placed, todo) == Simulate(p, placed + [todo[0]], todo[1..])
  {
    var rest := Immovable(p, placed + [todo[0]], todo[1..]);
    assert Immovable(p, placed, todo) == [] + rest;
  }

  lemma FirstConfirmed(placed: seq<Signup>, todo: seq<Signup>)
    requires todo != [] && todo[0].state.Confirmed?
    ensures placed + [todo[0]] + ConfirmedOnly(todo[1..]) == placed + ConfirmedOnly(todo)
    ensures Filter(todo, IsWaiting) == Filter(todo[1..], IsWaiting)
  {
    assert ConfirmedOnly(todo) == [todo[0]] + ConfirmedOnly(todo[1..]);
  }

  lemma NobodyConfirmedLeft(todo: seq<Signup>)
    requires Sorted(todo, PlacementRank) && todo != [] && !todo[0].state.Confirmed?
    requires forall s :: s in todo ==> IsActive(s)
    ensures forall s :: s in todo ==> s.state.Waitlisted?
    ensures ConfirmedOnly(todo) == [] && Filter(todo, IsWaiting) == todo
  {
    forall s | s in todo ensures s.state.Waitlisted? {
      var i :| 0 <= i < |todo| && todo[i] == s;
      assert i == 0 || Le(PlacementRank(todo[0]), PlacementRank(todo[i]));
    }
    FilterEmpty(todo, (s: Signup) => s.state.Confirmed?);
    FilterAll(todo, IsWaiting);
  }

  predicate IsWaiting(s: Signup) { s.state.Waitlisted? }

  lemma {:induction false} WaitingNeverImmovable(p: Policy, placed: seq<Signup>, todo: seq<Signup>)
    requires p.Valid() && forall s :: s in todo ==> s.state.Waitlisted?
    ensures Immovable(p, placed, todo) == []
    decreases |todo|
  {
    if todo != [] {
      WaitingNeverImmovable(p, SimulateSignup(p, placed, todo[0]), todo[1..]);
    }
  }

  lemma {:induction false} WaitersStay(p: Policy, placed: seq<Signup>, todo: seq<Signup>)
    requires p.Valid()
    requires forall w :: w in todo ==> w.bucketKey.None? && NoRoom(p, w.requested, placed)
    ensures Simulate(p, placed, todo) == placed
    decreases |todo|
  {
    if todo != [] {
      FindBucketNone(p, todo[0].requested, placed);
      WaitersStay(p, placed, todo[1..]);
    }
  }

  lemma InOrderCounts(signups: seq<Signup>, k: Key)
    requires Numbered(signups)
    ensures Count(ToKeep(signups), InBucket(k)) == 0
    ensures Count(ToPlace(signups), InBucket(k)) == Count(signups, InBucket(k))
    ensures Count(ConfirmedOnly(ToPlace(signups)), InBucket(k)) == Count(signups, InBucket(k))
  {
    var t := InBucket(k);
    CountZero(ToKeep(signups), t);
    CountFilter(signups, IsActive, t);
    SortSorts(Filter(signups, IsActive), PlacementRank);
    CountPermutation(Filter(signups, IsActive), InOrder(signups), t);
    CountFilter(InOrder(signups), IsToPlace, t);
    CountFilter(ToPlace(signups), (s: Signup) => s.state.Confirmed?, t);
  }

  /** Raising slots of a run within its capacity strands nobody. */
  lemma RaisingStrandsNobody(p: Policy, raised: Policy, team: set<Profile>, signups: seq<Signup>)
    requires p.Valid() && RaisesSlots(p, raised) && raised.Valid()
    requires Shaped(p, team, signups) && WithinCapacity(p, signups)
    ensures Stranded(raised, signups) == []
    ensures Replaced(raised, signups) ==
            Simulate(raised, ToKeep(signups) + ConfirmedOnly(ToPlace(signups)), Filter(ToPlace(signups), IsWaiting))
  {
    Partition(raised, signups);
    forall b | b in p.buckets && b.slotsLimited
      ensures Count(ToKeep(signups), InBucket(b.key)) + Count(ToPlace(signups), InBucket(b.key)) <= b.totalSlots
    {
      InOrderCounts(signups, b.key);
    }
    ConfirmedStayPut(p, raised, team, ToKeep(signups), ToPlace(signups));
  }

  /** Applying the policy a run already satisfies succeeds and changes no signup. */
  lemma ReapplyingChangesNothing(p: Policy, team: set<Profile>, signups: seq<Signup>)
    requires p.Valid() && Shaped(p, team, signups) && WithinCapacity(p, signups) && Stable(p, signups)
    ensures Stranded(p, signups) == [] && ChangedRun(p, signups) == signups
  {
    RaisingStrandsNobody(p, p, team, signups);
    Partition(p, signups);
    var seated := ToKeep(signups) + ConfirmedOnly(ToPlace(signups));
    var waiting := Filter(ToPlace(signups), IsWaiting);
    StableAtRun(p, signups);
    forall w | w in waiting ensures w.bucketKey.None? && NoRoom(p, w.requested, seated) {
      assert w in signups && ShapedRow(p, team, w);
      StableAmongSeated(p, team, signups, w.requested);
    }
    WaitersStay(p, seated, waiting);
    ReplacedRun(p, signups);
    OverlayRows(signups, seated);
    forall i | 0 <= i < |signups| ensures ChangedRun(p, signups)[i] == signups[i] {
      if HasId(seated, i) {
        var c :| c in seated && c.id == i;
        assert c in signups;
        assert signups[c.id] == c;
      }
    }
  }

  lemma SeatedCounts(signups: seq<Signup>, k: Key)
    requires Numbered(signups)
    ensures Count(ToKeep(signups) + ConfirmedOnly(ToPlace(signups)), InBucket(k)) == Count(signups, InBucket(k))
  {
    InOrderCounts(signups, k);
    CountAppend(ToKeep(signups), ConfirmedOnly(ToPlace(signups)), InBucket(k));
  }

  /** No room as signing up sees it is no room as the simulator sees it, within capacity. */
  lemma StableAmongSeated(p: Policy, team: set<Profile>, signups: seq<Signup>, requested: Option<Key>)
    requires p.Valid() && Shaped(p, team, signups) && WithinCapacity(p, signups)
    requires NoRoomAtRun(p, requested, signups)
    ensures NoRoom(p, requested, ToKeep(signups) + ConfirmedOnly(ToPlace(signups)))
  {
    var seated := ToKeep(signups) + ConfirmedOnly(ToPlace(signups));
    Partition(p, signups);
    forall b | b in p.buckets
      ensures FullOfCounted(b, signups) ==> b.Full(seated)
      ensures b.CountedLimited() && b.Full(seated) ==> FullOfCounted(b, signups)
    {
      SeatedCounts(signups, b.key);
      ShapedCounts(p, team, signups, b);
    }
    forall b | b in Prioritized(p, requested) ensures b in p.buckets {
      PrioritizedInPolicy(p, requested, b);
    }
    if SomeCapacity(p, seated) {
      forall b, s | b in Prioritized(p, requested) && s in seated && s.bucketKey == Some(b.key)
        ensures !s.NoPreference()
      {
        SeatedMovable(p, team, signups, b, s);
      }
    }
  }

  lemma SeatedMovable(p: Policy, team: set<Profile>, signups: seq<Signup>, b: Bucket, s: Signup)
    requires p.Valid() && Shaped(p, team, signups) && WithinCapacity(p, signups)
    requires b in p.buckets && FullOfCounted(b, signups) && s in signups && s.ConfirmedIn(b.key)
    ensures s.NoPreference() ==> HoldsNoPreference(b, signups)
  {
    LookupFinds(p, b);
    ShapedCounts(p, team, signups, b);
    CountPositive(signups, s, InBucket(b.key));
  }
}
