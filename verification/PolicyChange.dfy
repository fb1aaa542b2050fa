/** Re-placing every signup of a run against a new policy
    (event_change_registration_policy_service.rb), on signup rows. */
module PolicyChange {
  import opened Sorting
  import opened Registration
  import opened BucketFinder
  import opened Allocation
  import opened Choices
  import opened VacancyFill

  function PlacementRank(s: Signup): Rank {
    Rank(if s.state.Confirmed? then 0 else 1, s.createdAt, 0)
  }

  predicate IsActive(s: Signup) { !s.state.Withdrawn? }
  predicate IsKept(s: Signup) { s.state.Confirmed? && s.bucketKey.None? }
  predicate IsToPlace(s: Signup) { !IsKept(s) }

  /** The signups of a run in the order they are re-placed. */
  function InOrder(signups: seq<Signup>): seq<Signup> {
    SortBy(Filter(signups, IsActive), PlacementRank)
  }

  function ToKeep(signups: seq<Signup>): seq<Signup> { Filter(InOrder(signups), IsKept) }
  function ToPlace(signups: seq<Signup>): seq<Signup> { Filter(InOrder(signups), IsToPlace) }

  /** The bucket a signup is in already, if it has a free slot, or else what the finder answers. */
  function Destination(p: Policy, placed: seq<Signup>, s: Signup): Option<Bucket> {
    var current := p.BucketWithKey(s.bucketKey);
    if current.Some? && !current.value.Full(placed) then current
    else FindBucket(p, s.requested, placed)
  }

  function IndexOf(placed: seq<Signup>, n: Signup): (i: nat)
    requires n in placed
    ensures i < |placed| && placed[i] == n
  {
    if placed[0] == n then 0 else 1 + IndexOf(placed[1..], n)
  }

  /** Which copy is bumped out of `from`, and where to. */
  function BumpTarget(p: Policy, placed: seq<Signup>, requested: Option<Key>, from: Bucket): (t: (nat, Bucket))
    requires p.Valid() && FindBucket(p, requested, placed) == Some(from) && from.Full(placed)
    ensures t.0 < |placed| && placed[t.0].bucketKey == Some(from.key)
  {
    BumpCoherence(p, requested, placed);
    (IndexOf(placed, Movable(p, placed, from)[0]), NoPreferenceCapacityExcept(p, placed, from)[0])
  }

  /** `move_signup` of the simulator: only the bucket of the bumped copy changes. */
  function Bump(p: Policy, placed: seq<Signup>, requested: Option<Key>, from: Bucket): seq<Signup>
    requires p.Valid() && FindBucket(p, requested, placed) == Some(from) && from.Full(placed)
  {
    var t := BumpTarget(p, placed, requested, from);
    placed[t.0 := placed[t.0].(bucketKey := Some(t.1.key))]
  }

  function MakeRoom(p: Policy, placed: seq<Signup>, s: Signup, d: Bucket): seq<Signup>
    requires p.Valid() && Destination(p, placed, s) == Some(d)
  {
    if d.Full(placed) then Bump(p, placed, s.requested, d) else placed
  }

  function SimulateSignup(p: Policy, placed: seq<Signup>, s: Signup): seq<Signup>
    requires p.Valid()
  {
    match Destination(p, placed, s)
    case None => placed
    case Some(d) => MakeRoom(p, placed, s, d) + [Seat(s, d)]
  }

  /** The copies placed after simulating `todo` one by one. */
  function Simulate(p: Policy, placed: seq<Signup>, todo: seq<Signup>): seq<Signup>
    requires p.Valid()
    decreases |todo|
  {
    if todo == [] then placed
    else Simulate(p, SimulateSignup(p, placed, todo[0]), todo[1..])
  }

  /** The confirmed signups for which there was no bucket. */
  function Immovable(p: Policy, placed: seq<Signup>, todo: seq<Signup>): seq<Signup>
    requires p.Valid()
    decreases |todo|
  {
    if todo == [] then []
    else
      (if todo[0].state.Confirmed? && Destination(p, placed, todo[0]).None? then [todo[0]] else [])
      + Immovable(p, SimulateSignup(p, placed, todo[0]), todo[1..])
  }

  function Replaced(p: Policy, signups: seq<Signup>): seq<Signup>
    requires p.Valid()
  {
    Simulate(p, ToKeep(signups), ToPlace(signups))
  }

  function Stranded(p: Policy, signups: seq<Signup>): seq<Signup>
    requires p.Valid()
  {
    Immovable(p, ToKeep(signups), ToPlace(signups))
  }

  /** `apply_all_changes`: state, bucket and counted flag of each copy go to the real signup. */
  function Overlay(signups: seq<Signup>, copies: seq<Signup>): seq<Signup>
    decreases |copies|
  {
    if copies == [] then signups
    else
      var last := copies[|copies| - 1];
      var rest := Overlay(signups, copies[..|copies| - 1]);
      if last.id < |rest| then
        rest[last.id := rest[last.id].(state := last.state, bucketKey := last.bucketKey, counted := last.counted)]
      else rest
  }

  function ChangedRun(p: Policy, signups: seq<Signup>): seq<Signup>
    requires p.Valid()
  {
    Overlay(signups, Replaced(p, signups))
  }

  /** The whole event: all runs change, or none does. */
  function ChangePolicy(p: Policy, runs: seq<seq<Signup>>): Option<seq<seq<Signup>>>
    requires p.Valid()
  {
    if exists r :: 0 <= r < |runs| && Stranded(p, runs[r]) != [] then None
    else Some(ChangedRuns(p, runs))
  }

  function ChangedRuns(p: Policy, runs: seq<seq<Signup>>): (after: seq<seq<Signup>>)
    requires p.Valid()
    ensures |after| == |runs| && forall r :: 0 <= r < |runs| ==> after[r] == ChangedRun(p, runs[r])
  {
    seq(|runs|, r requires 0 <= r < |runs| => ChangedRun(p, runs[r]))
  }

  // --------------------------------------------------------------------------- one step

  /** The three things simulating one signup can do. */
  lemma SimulateCases(p: Policy, placed: seq<Signup>, s: Signup)
    returns (seats: bool, d: Bucket, bumps: bool, j: nat, to: Bucket)
    requires p.Valid()
    ensures !seats ==> SimulateSignup(p, placed, s) == placed && NoRoom(p, s.requested, placed)
    ensures Destination(p, placed, s) == if seats then Some(d) else None
    ensures seats ==> d in p.buckets && p.BucketWithKey(Some(d.key)) == Some(d)
    ensures seats && !bumps ==> !d.Full(placed) && SimulateSignup(p, placed, s) == placed + [Seat(s, d)]
    ensures seats && bumps ==>
              d.Full(placed) && !s.NoPreference() && j < |placed| && placed[j].bucketKey == Some(d.key) &&
              placed[j].NoPreference() && to in p.buckets && to.CountedLimited() && !to.Full(placed) &&
              to.key != d.key && p.BucketWithKey(Some(to.key)) == Some(to) &&
              SimulateSignup(p, placed, s) ==
              placed[j := placed[j].(bucketKey := Some(to.key))] + [Seat(s, d)]
  {
    var destination := Destination(p, placed, s);
    d, bumps, j, to := Bucket([], 0, false, false, false), false, 0, Bucket([], 0, false, false, false);
    seats := destination.Some?;
    if seats {
      d := destination.value;
      if FindBucket(p, s.requested, placed).Some? {
        BumpCoherence(p, s.requested, placed);
      }
      LookupFinds(p, d);
      bumps := d.Full(placed);
      if bumps {
        j := IndexOf(placed, Movable(p, placed, d)[0]);
        to := NoPreferenceCapacityExcept(p, placed, d)[0];
        LookupFinds(p, to);
      }
    } else {
      FindBucketNone(p, s.requested, placed);
    }
  }

  ghost predicate AllConfirmed(placed: seq<Signup>) {
    forall c :: c in placed ==> c.state.Confirmed?
  }

  /** Seating and bumping among the copies keep every limited bucket within its slots. */
  lemma SimulateSignupFits(p: Policy, placed: seq<Signup>, s: Signup)
    requires p.Valid() && AllConfirmed(placed) && WithinCapacity(p, placed)
    ensures AllConfirmed(SimulateSignup(p, placed, s))
    ensures WithinCapacity(p, SimulateSignup(p, placed, s))
  {
    var seats, d, bumps, j, to := SimulateCases(p, placed, s);
    if seats && bumps {
      assert placed[j] in placed;
      BumpFits(p, placed, Seat(s, d), d, j, to);
    } else if seats {
      SeatFits(p, placed, Seat(s, d), d);
    }
  }

  lemma SeatFits(p: Policy, placed: seq<Signup>, seat: Signup, d: Bucket)
    requires p.Valid() && AllConfirmed(placed) && WithinCapacity(p, placed)
    requires seat.ConfirmedIn(d.key) && p.BucketWithKey(Some(d.key)) == Some(d) && !d.Full(placed)
    ensures AllConfirmed(placed + [seat]) && WithinCapacity(p, placed + [seat])
  {
    forall b | b in p.buckets && b.slotsLimited ensures Count(placed + [seat], InBucket(b.key)) <= b.totalSlots {
      LookupFinds(p, b);
      CountOne(placed, seat, InBucket(b.key));
    }
  }

  lemma BumpFits(p: Policy, placed: seq<Signup>, seat: Signup, d: Bucket, j: nat, to: Bucket)
    requires p.Valid() && AllConfirmed(placed) && WithinCapacity(p, placed)
    requires j < |placed| && placed[j].ConfirmedIn(d.key) && seat.ConfirmedIn(d.key)
    requires p.BucketWithKey(Some(to.key)) == Some(to) && !to.Full(placed)
    ensures var next := placed[j := placed[j].(bucketKey := Some(to.key))] + [seat];
            AllConfirmed(next) && WithinCapacity(p, next)
  {
    var moved := placed[j].(bucketKey := Some(to.key));
    var next := placed[j := moved] + [seat];
    assert forall c :: c in next ==> c == moved || c == seat || c in placed;
    forall b | b in p.buckets && b.slotsLimited ensures Count(next, InBucket(b.key)) <= b.totalSlots {
      LookupFinds(p, b);
      BumpCounts(placed, seat, d, j, to, b.key);
    }
  }

  lemma BumpCounts(placed: seq<Signup>, seat: Signup, d: Bucket, j: nat, to: Bucket, k: Key)
    requires j < |placed| && placed[j].ConfirmedIn(d.key) && seat.ConfirmedIn(d.key)
    ensures Count(placed[j := placed[j].(bucketKey := Some(to.key))] + [seat], InBucket(k)) ==
            Count(placed, InBucket(k)) + (if k == to.key then 1 else 0)
  {
    var moved := placed[j].(bucketKey := Some(to.key));
    CountUpdate(placed, j, moved, InBucket(k));
    CountOne(placed[j := moved], seat, InBucket(k));
  }


  /** A request without room among the copies has none after the next signup either. */
  lemma NoRoomStays(p: Policy, placed: seq<Signup>, s: Signup, requested: Option<Key>)
    requires p.Valid() && AllConfirmed(placed) && NoRoom(p, requested, placed)
    ensures NoRoom(p, requested, SimulateSignup(p, placed, s))
  {
    var next := SimulateSignup(p, placed, s);
    forall b | b in p.buckets
      ensures b.Full(placed) ==> b.Full(next)
      ensures HoldsMovable(b, next) ==> HoldsMovable(b, placed) || !b.Full(placed)
    {
      FullStays(p, placed, s, b);
    }
    forall b | b in Prioritized(p, requested) ensures b in p.buckets {
      PrioritizedInPolicy(p, requested, b);
    }
    if SomeCapacity(p, next) {
      assert SomeCapacity(p, placed);
      forall b | b in Prioritized(p, requested) ensures !HoldsMovable(b, next) {
        assert !HoldsMovable(b, placed);
      }
      forall b, n | b in Prioritized(p, requested) && n in next && n.bucketKey == Some(b.key)
        ensures !n.NoPreference()
      {
        assert !HoldsMovable(b, next);
      }
    }
  }

  lemma FullStays(p: Policy, placed: seq<Signup>, s: Signup, b: Bucket)
    requires p.Valid() && AllConfirmed(placed) && b in p.buckets
    ensures var next := SimulateSignup(p, placed, s);
            (b.Full(placed) ==> b.Full(next)) &&
            (HoldsMovable(b, next) ==> HoldsMovable(b, placed) || !b.Full(placed))
  {
    var seats, d, bumps, j, to := SimulateCases(p, placed, s);
    LookupFinds(p, b);
    if seats && bumps {
      assert placed[j] in placed;
      BumpKeepsFull(placed, Seat(s, d), d, j, to, b);
    } else if seats {
      var next := placed + [Seat(s, d)];
      CountOne(placed, Seat(s, d), InBucket(b.key));
      assert forall n :: n in next ==> n == Seat(s, d) || n in placed;
    }
  }

  /** A copy goes from the full bucket `d` to `to`, which is not full, and `seat` takes its place. */
  lemma BumpKeepsFull(placed: seq<Signup>, seat: Signup, d: Bucket, j: nat, to: Bucket, b: Bucket)
    requires j < |placed| && placed[j].ConfirmedIn(d.key) && placed[j].NoPreference()
    requires seat.ConfirmedIn(d.key) && !seat.NoPreference() && !to.Full(placed) && (b.key == to.key ==> b == to)
    ensures var next := placed[j := placed[j].(bucketKey := Some(to.key))] + [seat];
            (b.Full(placed) ==> b.Full(next)) &&
            (HoldsMovable(b, next) ==> HoldsMovable(b, placed) || !b.Full(placed))
  {
    var moved := placed[j].(bucketKey := Some(to.key));
    BumpCounts(placed, seat, d, j, to, b.key);
    assert forall n :: n in placed[j := moved] + [seat] ==> n == moved || n == seat || n in placed;
  }

  // -------------------------------------------------------------------- the whole simulation

  lemma {:induction false} SimulateFits(p: Policy, placed: seq<Signup>, todo: seq<Signup>)
    requires p.Valid() && AllConfirmed(placed) && WithinCapacity(p, placed)
    ensures AllConfirmed(Simulate(p, placed, todo))
    ensures WithinCapacity(p, Simulate(p, placed, todo))
    decreases |todo|
  {
    if todo != [] {
      SimulateSignupFits(p, placed, todo[0]);
      SimulateFits(p, SimulateSignup(p, placed, todo[0]), todo[1..]);
    }
  }

  /** The same ids, and one more at the end. */
  ghost predicate OneIdMore(placed: seq<Signup>, next: seq<Signup>, id: nat) {
    |next| == |placed| + 1 && next[|placed|].id == id && forall i :: 0 <= i < |placed| ==> next[i].id == placed[i].id
  }

  lemma IdsOfMore(placed: seq<Signup>, next: seq<Signup>, more: nat, id: nat)
    requires OneIdMore(placed, next, more)
    ensures HasId(next, id) <==> HasId(placed, id) || id == more
  {
    if c :| c in next && c.id == id {
      var i :| 0 <= i < |next| && next[i] == c;
      assert i < |placed| ==> placed[i] in placed;
    }
    if c :| c in placed && c.id == id {
      var i :| 0 <= i < |placed| && placed[i] == c;
      assert next[i] in next;
    }
    assert next[|placed|] in next;
  }

  lemma {:induction false} StepKeepsIds(p: Policy, placed: seq<Signup>, s: Signup)
    requires p.Valid()
    ensures var next := SimulateSignup(p, placed, s);
            if Destination(p, placed, s).Some? then OneIdMore(placed, next, s.id) else next == placed
  {
    var seats, d, bumps, j, to := SimulateCases(p, placed, s);
  }

  lemma {:induction false} SimulateSignupIds(p: Policy, placed: seq<Signup>, s: Signup)
    requires p.Valid()
    ensures forall id :: HasId(SimulateSignup(p, placed, s), id) <==>
              HasId(placed, id) || (id == s.id && Destination(p, placed, s).Some?)
  {
    StepKeepsIds(p, placed, s);
    if Destination(p, placed, s).Some? {
      forall id ensures HasId(SimulateSignup(p, placed, s), id) <==> HasId(placed, id) || id == s.id {
        IdsOfMore(placed, SimulateSignup(p, placed, s), s.id, id);
      }
    }
  }

  lemma {:induction false} NoRoomLasts(p: Policy, placed: seq<Signup>, todo: seq<Signup>, requested: Option<Key>)
    requires p.Valid() && AllConfirmed(placed) && WithinCapacity(p, placed) && NoRoom(p, requested, placed)
    ensures NoRoom(p, requested, Simulate(p, placed, todo))
    decreases |todo|
  {
    if todo != [] {
      NoRoomStays(p, placed, todo[0], requested);
      SimulateSignupFits(p, placed, todo[0]);
      NoRoomLasts(p, SimulateSignup(p, placed, todo[0]), todo[1..], requested);
    }
  }

  lemma {:induction false} IdsLast(p: Policy, placed: seq<Signup>, todo: seq<Signup>, id: nat)
    requires p.Valid()
    ensures HasId(placed, id) ==> HasId(Simulate(p, placed, todo), id)
    decreases |todo|
  {
    if todo != [] {
      SimulateSignupIds(p, placed, todo[0]);
      IdsLast(p, SimulateSignup(p, placed, todo[0]), todo[1..], id);
    }
  }

  /** Each signup gets a copy, or there is no room for it among the final copies; a confirmed one
      without a copy is immovable. */
  lemma {:induction false} PlacedOrNoRoom(p: Policy, placed: seq<Signup>, todo: seq<Signup>, s: Signup)
    requires p.Valid() && AllConfirmed(placed) && WithinCapacity(p, placed) && s in todo
    ensures HasId(Simulate(p, placed, todo), s.id) ||
            (NoRoom(p, s.requested, Simulate(p, placed, todo)) &&
             (s.state.Confirmed? ==> s in Immovable(p, placed, todo)))
    decreases |todo|
  {
    var next := SimulateSignup(p, placed, todo[0]);
    SimulateSignupFits(p, placed, todo[0]);
    if s == todo[0] {
      SimulateSignupIds(p, placed, s);
      IdsLast(p, next, todo[1..], s.id);
      if Destination(p, placed, s).None? {
        FindBucketNone(p, s.requested, placed);
        NoRoomLasts(p, next, todo[1..], s.requested);
      }
    } else {
      PlacedOrNoRoom(p, next, todo[1..], s);
    }
  }
}
