/** Where a policy change puts a signup, told from the copies placed before it; in what order; and
    who is left. */
module Replacement {
  import opened Sorting
  import opened Registration
  import opened BucketFinder
  import opened Allocation
  import opened Choices
  import opened PolicyChange
  import opened PolicyChangeResults
  import opened PolicyChangeExactly

  // --------------------------------------------------------------------------- one signup

  /** The signup's own bucket, which the policy has and which has a free slot. */
  ghost predicate MayStay(p: Policy, placed: seq<Signup>, s: Signup, d: Bucket) {
    d in p.buckets && s.bucketKey == Some(d.key) && !d.Full(placed)
  }

  /** A signup stays if it can, and otherwise gets what its request gets. */
  ghost predicate GoesTo(p: Policy, placed: seq<Signup>, s: Signup, d: Bucket) {
    if exists c :: MayStay(p, placed, s, c) then MayStay(p, placed, s, d)
    else Gets(p, s.requested, Free(p, placed), CanBump(p, placed), d)
  }

  /** The copies once there is room in the bucket: if it was full, the first signup in it without
      preference has gone to the free bucket to be tried first. */
  ghost predicate MakesRoom(p: Policy, placed: seq<Signup>, d: Bucket, room: seq<Signup>) {
    if !d.Full(placed) then room == placed
    else
      exists j: nat, to :: FirstMovable(placed, d, j) && FirstAmong(p, None, Free(p, placed), to) &&
                      room == placed[j := placed[j].(bucketKey := Some(to.key))]
  }

  function Seated(s: Signup, d: Bucket): Signup {
    s.(state := Confirmed, bucketKey := Some(d.key), counted := !d.notCounted)
  }

  lemma DestinationIsRight(p: Policy, placed: seq<Signup>, s: Signup)
    requires p.Valid()
    ensures var d := Destination(p, placed, s);
            if d.Some? then GoesTo(p, placed, s, d.value) else forall c :: !GoesTo(p, placed, s, c)
  {
    FinderGets(p, s.requested, placed);
    forall c | MayStay(p, placed, s, c) ensures p.BucketWithKey(s.bucketKey) == Some(c) {
      LookupFinds(p, c);
    }
    var current := p.BucketWithKey(s.bucketKey);
    if current.Some? && !current.value.Full(placed) {
      assert MayStay(p, placed, s, current.value);
    }
  }

  lemma RoomIsMade(p: Policy, placed: seq<Signup>, s: Signup, d: Bucket)
    requires p.Valid() && Destination(p, placed, s) == Some(d)
    ensures MakesRoom(p, placed, d, MakeRoom(p, placed, s, d))
  {
    if d.Full(placed) {
      TargetIsFirst(p, placed, s.requested, d);
    }
  }

  lemma {:induction false} TargetIsFirst(p: Policy, placed: seq<Signup>, requested: Option<Key>, d: Bucket)
    requires p.Valid() && FindBucket(p, requested, placed) == Some(d) && d.Full(placed)
    ensures var t := BumpTarget(p, placed, requested, d);
            FirstMovable(placed, d, t.0) && FirstAmong(p, None, Free(p, placed), t.1)
  {
    BumpCoherence(p, requested, placed);
    var j := MovableIsFirst(p, placed, d);
    BumpedTakesFirst(p, placed, d);
    assert Free(p, placed) - {d} == Free(p, placed);
  }

  lemma {:induction false} MovableIsFirst(p: Policy, placed: seq<Signup>, d: Bucket) returns (j: nat)
    requires Movable(p, placed, d) != []
    ensures FirstMovable(placed, d, j) && Movable(p, placed, d)[0] in placed
    ensures IndexOf(placed, Movable(p, placed, d)[0]) == j
  {
    j := FilterFirst(placed, (x: Signup) => x.bucketKey == Some(d.key) && x.NoPreference());
    FirstIndex(placed, placed[j], j);
  }

  lemma {:induction false} FirstIndex(placed: seq<Signup>, n: Signup, j: nat)
    requires n in placed && j < |placed| && placed[j] == n && forall k :: 0 <= k < j ==> placed[k] != n
    ensures IndexOf(placed, n) == j
  {
    if j > 0 {
      FirstIndex(placed[1..], n, j - 1);
    }
  }

  /**
   * Simulating a signup: it stays in its bucket if that exists and has a free slot; otherwise it gets
   * a free bucket, the requested one first, then the anything bucket if it may be given that; only
   * when all are full is somebody bumped, first out of the requested one. It is left exactly when
   * there is nothing for it, and then nothing changes.
   */
  lemma SimulationPlaces(p: Policy, placed: seq<Signup>, s: Signup) returns (seats: bool, d: Bucket, room: seq<Signup>)
    requires p.Valid()
    ensures seats <==> exists c :: GoesTo(p, placed, s, c)
    ensures !seats ==> SimulateSignup(p, placed, s) == placed
    ensures seats ==> GoesTo(p, placed, s, d) && MakesRoom(p, placed, d, room) &&
                      SimulateSignup(p, placed, s) == room + [Seated(s, d)]
  {
    DestinationIsRight(p, placed, s);
    var destination := Destination(p, placed, s);
    d, room := Bucket([], 0, false, false, false), placed;
    seats := destination.Some?;
    if seats {
      d := destination.value;
      room := MakeRoom(p, placed, s, d);
      RoomIsMade(p, placed, s, d);
    }
  }

  // ------------------------------------------------------------------------ a whole change

  /** Who is kept, who is placed, and in what order: the confirmed first, then the oldest. */
  lemma PlacementOrder(p: Policy, signups: seq<Signup>, j: nat, k: nat)
    requires Numbered(signups) && j < k < |ToPlace(signups)|
    ensures forall s :: s in ToKeep(signups) <==> s in signups && s.state.Confirmed? && s.bucketKey.None?
    ensures forall s :: s in ToPlace(signups) <==>
              s in signups && (s.state.Waitlisted? || (s.state.Confirmed? && s.bucketKey.Some?))
    ensures var a, b := ToPlace(signups)[j], ToPlace(signups)[k];
            a.id != b.id && if a.state == b.state then a.createdAt <= b.createdAt else a.state.Confirmed? && b.state.Waitlisted?
  {
    Partition(p, signups);
    var a, b := ToPlace(signups)[j], ToPlace(signups)[k];
    assert a in ToPlace(signups) && b in ToPlace(signups);
    assert Le(PlacementRank(a), PlacementRank(b));
  }

  /** The copies placed before the `k`th signup. */
  function PlacedBefore(p: Policy, signups: seq<Signup>, k: nat): seq<Signup>
    requires p.Valid() && k <= |ToPlace(signups)|
  {
    Simulate(p, ToKeep(signups), ToPlace(signups)[..k])
  }

  /** Once seated, a copy stays, unless it has no preference: then it may be bumped. */
  ghost predicate SameOrBumped(p: Policy, c: Signup, later: Signup) {
    later == c ||
    (c.NoPreference() && later == c.(bucketKey := later.bucketKey) &&
     exists to :: to in p.buckets && to.slotsLimited && !to.notCounted && later.bucketKey == Some(to.key))
  }

  ghost predicate Remains(p: Policy, c: Signup, placed: seq<Signup>) {
    exists later :: later in placed && SameOrBumped(p, c, later)
  }

  lemma StepRemains(p: Policy, placed: seq<Signup>, s: Signup, c: Signup)
    requires p.Valid() && c in placed
    ensures Remains(p, c, SimulateSignup(p, placed, s))
  {
    var seats, d, bumps, j, to := SimulateCases(p, placed, s);
    var next := SimulateSignup(p, placed, s);
    var i :| 0 <= i < |placed| && placed[i] == c;
    assert next[i] in next;
    if seats && bumps && i == j {
      assert next[i] == c.(bucketKey := Some(to.key)) && to in p.buckets;
    }
    assert SameOrBumped(p, c, next[i]);
  }

  lemma {:induction false} CopyRemains(p: Policy, placed: seq<Signup>, todo: seq<Signup>, c: Signup)
    requires p.Valid() && c in placed
    ensures Remains(p, c, Simulate(p, placed, todo))
    decreases |todo|
  {
    if todo == [] {
      assert SameOrBumped(p, c, c);
    } else {
      var next := SimulateSignup(p, placed, todo[0]);
      StepRemains(p, placed, todo[0], c);
      var later :| later in next && SameOrBumped(p, c, later);
      CopyRemains(p, next, todo[1..], later);
      var last :| last in Simulate(p, next, todo[1..]) && SameOrBumped(p, later, last);
      assert SameOrBumped(p, c, last);
    }
  }

  lemma ChangeUpTo(p: Policy, signups: seq<Signup>, k: nat)
    requires p.Valid() && k < |ToPlace(signups)|
    ensures var s, placed := ToPlace(signups)[k], PlacedBefore(p, signups, k);
            Replaced(p, signups) == Simulate(p, SimulateSignup(p, placed, s), ToPlace(signups)[k + 1..])
  {
    var todo := ToPlace(signups);
    assert todo == todo[..k] + todo[k..] && todo[k..][1..] == todo[k + 1..];
    SimulateSplit(p, ToKeep(signups), todo[..k], todo[k..]);
  }

  /**
   * In a changed run, each signup sits where it was put at its turn, told from the copies placed
   * before it. Only one without preference may have been bumped since, into a limited bucket that
   * counts. A signup for which there was nothing at its turn is as it was.
   */
  lemma ChangePlaces(p: Policy, signups: seq<Signup>, k: nat)
    requires p.Valid() && Numbered(signups) && k < |ToPlace(signups)|
    ensures var s, placed := ToPlace(signups)[k], PlacedBefore(p, signups, k);
            |ChangedRun(p, signups)| == |signups| && s.id < |signups| &&
            var after := ChangedRun(p, signups)[s.id];
            if exists c :: GoesTo(p, placed, s, c) then
              exists d :: GoesTo(p, placed, s, d) && SameOrBumped(p, Seated(s, d), after)
            else after == s
  {
    var s, placed := ToPlace(signups)[k], PlacedBefore(p, signups, k);
    var seats, d, room := SimulationPlaces(p, placed, s);
    if seats {
      assert Seated(s, d) in SimulateSignup(p, placed, s);
      SeatShows(p, signups, k, d);
    } else {
      NotPlaced(p, signups, k);
    }
  }

  /** Who is seated at its turn is seen there in the end, unless it was bumped since. */
  lemma SeatShows(p: Policy, signups: seq<Signup>, k: nat, d: Bucket)
    requires p.Valid() && Numbered(signups) && k < |ToPlace(signups)|
    requires var s := ToPlace(signups)[k]; Seated(s, d) in SimulateSignup(p, PlacedBefore(p, signups, k), s)
    ensures var s := ToPlace(signups)[k];
            |ChangedRun(p, signups)| == |signups| && s.id < |signups| && HasId(Replaced(p, signups), s.id) &&
            SameOrBumped(p, Seated(s, d), ChangedRun(p, signups)[s.id])
  {
    var s, placed := ToPlace(signups)[k], PlacedBefore(p, signups, k);
    ChangeUpTo(p, signups, k);
    CopyRemains(p, SimulateSignup(p, placed, s), ToPlace(signups)[k + 1..], Seated(s, d));
    var c :| c in Replaced(p, signups) && SameOrBumped(p, Seated(s, d), c);
    CopyShows(p, signups, c);
  }

  /** A copy is what the changed run shows at its id. */
  lemma CopyShows(p: Policy, signups: seq<Signup>, c: Signup)
    requires p.Valid() && Numbered(signups) && c in Replaced(p, signups)
    ensures |ChangedRun(p, signups)| == |signups| && c.id < |signups| && ChangedRun(p, signups)[c.id] == c
  {
    ReplacedRun(p, signups);
    ChangedRows(p, signups);
    assert CopyOf(p, signups, c) && HasId(Replaced(p, signups), c.id);
    var shown := ChangedRun(p, signups)[c.id];
    var i :| 0 <= i < |Replaced(p, signups)| && Replaced(p, signups)[i] == c;
    var j :| 0 <= j < |Replaced(p, signups)| && Replaced(p, signups)[j] == shown;
  }

  /** Where there is nothing for a signup at its turn, it is among those left, and as it was. */
  lemma NotPlaced(p: Policy, signups: seq<Signup>, k: nat)
    requires p.Valid() && Numbered(signups) && k < |ToPlace(signups)|
    requires forall c :: !GoesTo(p, PlacedBefore(p, signups, k), ToPlace(signups)[k], c)
    ensures var s := ToPlace(signups)[k];
            s in LeftWaiting(p, signups) && !HasId(Replaced(p, signups), s.id) &&
            |ChangedRun(p, signups)| == |signups| && s.id < |signups| && ChangedRun(p, signups)[s.id] == s
  {
    var todo, placed := ToPlace(signups), PlacedBefore(p, signups, k);
    assert todo[k] in todo;
    Partition(p, signups);
    DestinationIsRight(p, placed, todo[k]);
    LeftAtTurn(p, signups, k);
    UnplacedHasNoCopy(p, signups, ToKeep(signups), todo, todo[k]);
    ChangedRows(p, signups);
  }

  lemma {:induction false} LeftAtTurn(p: Policy, signups: seq<Signup>, k: nat)
    requires p.Valid() && k < |ToPlace(signups)|
    requires Destination(p, PlacedBefore(p, signups, k), ToPlace(signups)[k]).None?
    ensures ToPlace(signups)[k] in LeftWaiting(p, signups)
  {
    var todo := ToPlace(signups);
    assert todo == todo[..k] + todo[k..];
    LeftBetween(p, ToKeep(signups), todo[..k], todo[k..]);
  }

  lemma {:induction false} LeftBetween(p: Policy, placed: seq<Signup>, before: seq<Signup>, from: seq<Signup>)
    requires p.Valid() && from != [] && Destination(p, Simulate(p, placed, before), from[0]).None?
    ensures from[0] in Unplaced(p, placed, before + from)
  {
    SimulateSplit(p, placed, before, from);
    FirstLeft(p, Simulate(p, placed, before), from);
  }

  lemma FirstLeft(p: Policy, placed: seq<Signup>, todo: seq<Signup>)
    requires p.Valid() && todo != [] && Destination(p, placed, todo[0]).None?
    ensures todo[0] in Unplaced(p, placed, todo)
  {
    var rest := Unplaced(p, SimulateSignup(p, placed, todo[0]), todo[1..]);
    assert Unplaced(p, placed, todo) == [todo[0]] + rest;
  }

  lemma {:induction false} ImmovableUnplaced(p: Policy, placed: seq<Signup>, todo: seq<Signup>, s: Signup)
    requires p.Valid() && s in Immovable(p, placed, todo)
    ensures s in Unplaced(p, placed, todo) && s.state.Confirmed?
    decreases |todo|
  {
    if s in Immovable(p, SimulateSignup(p, placed, todo[0]), todo[1..]) {
      ImmovableUnplaced(p, SimulateSignup(p, placed, todo[0]), todo[1..], s);
    }
  }

  /** A change strands exactly the confirmed signups for which there is nothing at their turn. */
  lemma StrandsExactly(p: Policy, signups: seq<Signup>, k: nat)
    requires p.Valid() && Numbered(signups) && k < |ToPlace(signups)|
    ensures var s, placed := ToPlace(signups)[k], PlacedBefore(p, signups, k);
            s in Stranded(p, signups) <==> s.state.Confirmed? && forall c :: !GoesTo(p, placed, s, c)
  {
    var s, placed := ToPlace(signups)[k], PlacedBefore(p, signups, k);
    Partition(p, signups);
    assert s in ToPlace(signups);
    var seats, d, room := SimulationPlaces(p, placed, s);
    if seats {
      assert Seated(s, d) in SimulateSignup(p, placed, s);
      SeatShows(p, signups, k, d);
      UnplacedHasNoCopy(p, signups, ToKeep(signups), ToPlace(signups), s);
      if s in Stranded(p, signups) {
        ImmovableUnplaced(p, ToKeep(signups), ToPlace(signups), s);
      }
    } else {
      NotPlaced(p, signups, k);
      if s.state.Confirmed? {
        UnplacedConfirmed(p, ToKeep(signups), ToPlace(signups), s);
      } else if s in Stranded(p, signups) {
        ImmovableUnplaced(p, ToKeep(signups), ToPlace(signups), s);
      }
    }
  }

  ghost predicate SomethingForAll(p: Policy, signups: seq<Signup>)
    requires p.Valid()
  {
    forall k :: 0 <= k < |ToPlace(signups)| && ToPlace(signups)[k].state.Confirmed? ==>
      exists c :: GoesTo(p, PlacedBefore(p, signups, k), ToPlace(signups)[k], c)
  }

  /** A change strands nobody exactly when there is something for every confirmed signup at its turn. */
  lemma ChangeFitsExactly(p: Policy, signups: seq<Signup>)
    requires p.Valid() && Numbered(signups)
    ensures Stranded(p, signups) == [] <==> SomethingForAll(p, signups)
  {
    forall k | 0 <= k < |ToPlace(signups)|
      ensures ToPlace(signups)[k] in Stranded(p, signups) <==>
              ToPlace(signups)[k].state.Confirmed? && forall c :: !GoesTo(p, PlacedBefore(p, signups, k), ToPlace(signups)[k], c)
    {
      StrandsExactly(p, signups, k);
    }
    if Stranded(p, signups) != [] {
      var s := Stranded(p, signups)[0];
      assert s in Stranded(p, signups);
      ImmovableUnplaced(p, ToKeep(signups), ToPlace(signups), s);
      var k :| 0 <= k < |ToPlace(signups)| && ToPlace(signups)[k] == s;
    }
  }

  lemma MovedMayBeGiven(p: Policy, placed: seq<Signup>, s: Signup, d: Bucket, after: Signup)
    requires GoesTo(p, placed, s, d) && SameOrBumped(p, Seated(s, d), after) && after.bucketKey != s.bucketKey
    ensures after.state.Confirmed? && exists b :: MayBeGiven(p, s.requested, b) && after.bucketKey == Some(b.key)
  {
    if after == Seated(s, d) {
      assert !MayStay(p, placed, s, d) && MayBeGiven(p, s.requested, d);
    } else {
      var to :| to in p.buckets && to.slotsLimited && !to.notCounted && after.bucketKey == Some(to.key);
      assert MayBeGiven(p, s.requested, to);
    }
  }

  lemma PlaceOf(p: Policy, signups: seq<Signup>, i: nat) returns (k: nat)
    requires p.Valid() && Numbered(signups) && i < |signups|
    requires |ChangedRun(p, signups)| == |signups| && ChangedRun(p, signups)[i].bucketKey != signups[i].bucketKey
    ensures k < |ToPlace(signups)| && ToPlace(signups)[k] == signups[i]
  {
    Partition(p, signups);
    ChangedRows(p, signups);
    assert CopyOf(p, signups, ChangedRun(p, signups)[i]);
    assert signups[i] in ToPlace(signups);
    k :| 0 <= k < |ToPlace(signups)| && ToPlace(signups)[k] == signups[i];
  }

  /** Whoever a change moves to another bucket, or promotes into one, may be given it. */
  lemma ChangeGivesAsAsked(p: Policy, signups: seq<Signup>, i: nat)
    requires p.Valid() && Numbered(signups) && i < |signups|
    ensures |ChangedRun(p, signups)| == |signups| &&
            var after := ChangedRun(p, signups)[i];
            after.bucketKey != signups[i].bucketKey ==>
              after.state.Confirmed? &&
              exists b :: MayBeGiven(p, signups[i].requested, b) && after.bucketKey == Some(b.key)
  {
    ChangedRows(p, signups);
    var s, after := signups[i], ChangedRun(p, signups)[i];
    if after.bucketKey != s.bucketKey {
      var k := PlaceOf(p, signups, i);
      ChangePlaces(p, signups, k);
      var d :| GoesTo(p, PlacedBefore(p, signups, k), s, d) && SameOrBumped(p, Seated(s, d), after);
      MovedMayBeGiven(p, PlacedBefore(p, signups, k), s, d, after);
    }
  }
}
