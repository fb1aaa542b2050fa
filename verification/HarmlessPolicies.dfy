/** Which policies a change to never harms a run: exactly those that hide no slots. */
module HarmlessPolicies {
  import opened Sorting
  import opened Registration
  import opened BucketFinder
  import opened Allocation
  import opened PolicyChange
  import opened PolicyChangeExactly
  import opened RunSteps
  import opened Boundaries

  function Seated(key: Key, i: nat, counted: bool): Signup {
    Signup(i, i, Confirmed, Some(key), Some(key), counted, i)
  }

  /** `n` signups that asked for the bucket and sit in it. */
  function Filled(key: Key, n: nat, counted: bool): (signups: seq<Signup>)
    ensures |signups| == n && forall i :: 0 <= i < n ==> signups[i] == Seated(key, i, counted)
  {
    seq(n, i requires 0 <= i < n => Seated(key, i, counted))
  }

  function Waiter(key: Key, n: nat): Signup { Signup(n, n, Waitlisted, None, Some(key), false, n) }

  lemma {:induction false} FilledCounts(key: Key, n: nat, counted: bool, t: Tally)
    ensures Count(Filled(key, n, counted), t) == if Has(Seated(key, 0, counted), t) then n else 0
  {
    if n > 0 {
      FilledCounts(key, n - 1, counted, t);
      assert Filled(key, n, counted)[..n - 1] == Filled(key, n - 1, counted);
      assert Has(Seated(key, n - 1, counted), t) <==> Has(Seated(key, 0, counted), t);
    }
  }

  /** A bucket full of those who asked for it, and one more waiting for it. */
  function FullRun(b: Bucket): seq<Signup> { Filled(b.key, b.totalSlots, true) + [Waiter(b.key, b.totalSlots)] }

  /** The policy with just this bucket, counted. */
  function Before(b: Bucket): Policy { Policy([b.(notCounted := false)], false) }

  lemma FullRunShaped(b: Bucket)
    requires b.slotsLimited
    ensures Before(b).Valid() && Shaped(Before(b), {}, FullRun(b)) && OncePerProfile(FullRun(b))
  {
    LookupFinds(Before(b), Before(b).buckets[0]);
  }

  lemma FullRunFits(b: Bucket)
    requires b.slotsLimited
    ensures WithinCapacity(Before(b), FullRun(b)) && FullOfCounted(Before(b).buckets[0], FullRun(b))
  {
    FilledCounts(b.key, b.totalSlots, true, InBucket(b.key));
    FilledCounts(b.key, b.totalSlots, true, CountedIn(b.key));
    CountOne(Filled(b.key, b.totalSlots, true), Waiter(b.key, b.totalSlots), InBucket(b.key));
    CountOne(Filled(b.key, b.totalSlots, true), Waiter(b.key, b.totalSlots), CountedIn(b.key));
  }

  lemma FullRunIsGood(b: Bucket)
    requires b.slotsLimited
    ensures Before(b).Valid() && GoodRun(Before(b), {}, FullRun(b))
  {
    FullRunShaped(b);
    FullRunFits(b);
    StableAtRun(Before(b), FullRun(b));
    forall c | c in Prioritized(Before(b), Some(b.key)) ensures FullOfCounted(c, FullRun(b)) {
      PrioritizedInPolicy(Before(b), Some(b.key), c);
    }
  }

  /** The waiting signup finds no room among as many as there are slots. */
  lemma WaiterIsLeft(p: Policy, b: Bucket)
    requires p.Valid() && b in p.buckets && b.slotsLimited && b.notCounted
    ensures Prioritized(p, Some(b.key)) == [b]
    ensures Destination(p, Filled(b.key, b.totalSlots, false), Waiter(b.key, b.totalSlots)).None?
  {
    LookupFinds(p, b);
    FilledCounts(b.key, b.totalSlots, false, InBucket(b.key));
    FindBucketNone(p, Some(b.key), Filled(b.key, b.totalSlots, false));
  }

  lemma {:induction false} AllAreSeated(p: Policy, b: Bucket, i: nat)
    requires p.Valid() && b in p.buckets && b.slotsLimited && b.notCounted && i <= b.totalSlots
    ensures var placed, todo := Filled(b.key, i, false), FullRun(b)[i..];
            Immovable(p, placed, todo) == [] && Unplaced(p, placed, todo) == [Waiter(b.key, b.totalSlots)]
    decreases b.totalSlots - i
  {
    var placed, todo := Filled(b.key, i, false), FullRun(b)[i..];
    WaiterIsLeft(p, b);
    if i < b.totalSlots {
      LookupFinds(p, b);
      FilledCounts(b.key, i, false, InBucket(b.key));
      assert todo[0] == Seated(b.key, i, true) && todo[1..] == FullRun(b)[i + 1..];
      assert SimulateSignup(p, placed, todo[0]) == placed + [Seated(b.key, i, false)];
      assert placed + [Seated(b.key, i, false)] == Filled(b.key, i + 1, false);
      AllAreSeated(p, b, i + 1);
    } else {
      assert todo == [Waiter(b.key, b.totalSlots)] && todo[1..] == [];
    }
  }

  lemma FullRunIsLeft(p: Policy, b: Bucket)
    requires p.Valid() && b in p.buckets && b.slotsLimited && b.notCounted
    ensures Stranded(p, FullRun(b)) == [] && LeftWaiting(p, FullRun(b)) == [Waiter(b.key, b.totalSlots)]
  {
    InOrderAlready(FullRun(b));
    AllAreSeated(p, b, 0);
    assert Filled(b.key, 0, false) == [] && FullRun(b)[0..] == FullRun(b);
  }

  /** A limited bucket with slots that does not count harms a good run. */
  lemma HiddenSlotsHarm(p: Policy, b: Bucket)
    requires p.Valid() && b in p.buckets && b.slotsLimited && b.notCounted && b.totalSlots > 0
    ensures GoodRun(Before(b), {}, FullRun(b)) && Stranded(p, FullRun(b)) == [] && !Harmless(p, FullRun(b))
  {
    FullRunIsGood(b);
    FullRunIsLeft(p, b);
    WaiterIsLeft(p, b);
    var w := Waiter(b.key, b.totalSlots);
    assert w in LeftWaiting(p, FullRun(b)) && b in Prioritized(p, w.requested);
  }

  /** Changing to a policy never harms a good run exactly when each of its limited buckets that do not
      count has no slots. */
  lemma HarmlessExactlyWithoutHiddenSlots(p: Policy)
    requires p.Valid()
    ensures p.HidesNoSlots() <==>
            forall before, team, signups :: GoodRun(before, team, signups) && Stranded(p, signups) == [] ==> Harmless(p, signups)
  {
    if p.HidesNoSlots() {
      forall before, team, signups | GoodRun(before, team, signups) && Stranded(p, signups) == []
        ensures Harmless(p, signups)
      {
        HidingNothingIsHarmless(p, signups);
      }
    } else {
      var b :| b in p.buckets && b.slotsLimited && b.notCounted && b.totalSlots > 0;
      HiddenSlotsHarm(p, b);
    }
  }
}
