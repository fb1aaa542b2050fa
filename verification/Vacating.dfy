/** Giving up a slot: withdrawing (event_withdraw_service.rb) and becoming a team member
    (create_team_member_service.rb), on signup rows. */
module Vacating {
  import opened Sorting
  import opened Registration
  import opened BucketFinder
  import opened Allocation
  import opened VacancyFill
  import opened VacancyChain
  import opened VacancyInvariants
  import EventSignup

  function Withdrawal(s: Signup): Signup {
    s.(state := Withdrawn, bucketKey := None, counted := false)
  }

  function Conversion(s: Signup): Signup {
    s.(state := Confirmed, bucketKey := None, counted := false)
  }

  /** `move_signups`: fills the vacancy unless the bucket was over-full before. */
  function MoveSignups(p: Policy, team: set<Profile>, vacated: seq<Signup>, prevState: SignupState,
                       prevBucketKey: Option<Key>, prevCounted: bool): (r: Outcome)
    requires Numbered(vacated)
    ensures r.Done? ==> |r.signups| == |vacated| && Evolves(vacated, r.signups)
  {
    if !(prevCounted && prevState.Confirmed?) then Done(vacated, [])
    else if prevBucketKey.Some? && p.BucketWithKey(prevBucketKey).Some? &&
            p.BucketWithKey(prevBucketKey).value.Full(vacated) then Done(vacated, [])
    else FillVacancy(p, vacated, team, {}, prevBucketKey)
  }

  function Withdraw(p: Policy, team: set<Profile>, signups: seq<Signup>, i: nat): Outcome
    requires Numbered(signups) && i < |signups|
  {
    var s := signups[i];
    MoveSignups(p, team, signups[i := Withdrawal(s)], s.state, s.bucketKey, s.counted)
  }

  /** `convert_signup`; `team` already holds the new team member. */
  function Convert(p: Policy, team: set<Profile>, signups: seq<Signup>, i: nat): Outcome
    requires Numbered(signups) && i < |signups|
  {
    var s := signups[i];
    var vacated := signups[i := Conversion(s)];
    if s.counted && s.state.Confirmed? then FillVacancy(p, vacated, team, {}, s.bucketKey)
    else Done(vacated, [])
  }

  /** The signups after row `i` gave up its slot to become `x`, with `team` the team from then on. */
  ghost predicate Vacated(p: Policy, oldTeam: set<Profile>, team: set<Profile>, signups: seq<Signup>,
                          i: nat, x: Signup)
  {
    i < |signups| && Shaped(p, oldTeam, signups) && Shaped(p, team, signups[i := x]) &&
    !x.counted && !x.state.Waitlisted? && x.bucketKey.None?
  }

  lemma VacatedCounts(p: Policy, oldTeam: set<Profile>, team: set<Profile>, signups: seq<Signup>,
                      i: nat, x: Signup, t: Tally)
    requires Vacated(p, oldTeam, team, signups, i, x) && !t.AnyConfirmed?
    ensures Count(signups[i := x], t) == Count(signups, t) - (if Has(signups[i], t) then 1 else 0)
  {
    CountUpdate(signups, i, x, t);
  }

  lemma StaysFull(p: Policy, oldTeam: set<Profile>, team: set<Profile>, signups: seq<Signup>,
                  i: nat, x: Signup, b: Bucket)
    requires p.Valid() && Vacated(p, oldTeam, team, signups, i, x) && b in p.buckets
    requires signups[i].counted && b.slotsLimited && signups[i].ConfirmedIn(b.key) ==> b.Full(signups[i := x])
    ensures FullOfCounted(b, signups) ==> FullOfCounted(b, signups[i := x])
  {
    assert signups[i] in signups;
    LookupFinds(p, b);
    VacatedCounts(p, oldTeam, team, signups, i, x, CountedIn(b.key));
    ShapedCounts(p, team, signups[i := x], b);
  }

  /** No slot that matters was given up, or the bucket is full all the same. */
  lemma QuietVacancy(p: Policy, oldTeam: set<Profile>, team: set<Profile>, signups: seq<Signup>,
                     i: nat, x: Signup)
    requires p.Valid() && Vacated(p, oldTeam, team, signups, i, x) && Stable(p, signups)
    requires signups[i].counted ==>
               forall b :: b in p.buckets && b.slotsLimited && signups[i].ConfirmedIn(b.key) ==>
                 b.Full(signups[i := x])
    ensures Stable(p, signups[i := x])
  {
    var after := signups[i := x];
    StableAtRun(p, signups);
    StableAtRun(p, after);
    assert forall n :: n in after ==> n == x || n in signups;
    forall b | b in p.buckets
      ensures FullOfCounted(b, signups) ==> FullOfCounted(b, after)
    {
      StaysFull(p, oldTeam, team, signups, i, x, b);
    }
    forall w | w in after && w.state.Waitlisted? ensures NoRoomAtRun(p, w.requested, after) {
      assert w in signups;
      EventSignup.RoomDoesNotAppear(p, signups, after, w.requested);
    }
  }

  /** Giving up a counted slot in a stable run opens a vacancy in the sense of the chain. */
  lemma OpensVacancy(p: Policy, oldTeam: set<Profile>, team: set<Profile>, signups: seq<Signup>,
                     i: nat, x: Signup, v: Bucket)
    requires p.Valid() && Vacated(p, oldTeam, team, signups, i, x) && Stable(p, signups)
    requires v in p.buckets && v.CountedLimited() && signups[i].ConfirmedIn(v.key)
    ensures var after := signups[i := x];
            VacancyOpen(p, team, after, Unmoved(AllOrdered(after, team), {}), Some(v.key))
  {
    var after := signups[i := x];
    var candidates := Unmoved(AllOrdered(after, team), {});
    OrderedIsLocated(after, team, {});
    CandidatesSorted(after, team, {});
    LookupFinds(p, v);
    BackWhenVacated(p, oldTeam, team, signups, i, x, v);
    StableAtRun(p, signups);
    assert forall s :: s in after ==> s == x || s in signups;
    EveryoneIsCandidate(p, team, after);
    WaitersWereShutOut(p, signups, after, x, candidates, Some(v.key));
    VacancyLeavesNothingToBump(p, signups, after, x, Some(v.key));
  }

  lemma CandidatesSorted(signups: seq<Signup>, team: set<Profile>, immovable: set<nat>)
    ensures Sorted(Unmoved(AllOrdered(signups, team), immovable), PriorityRank)
  {
    SortSorts(Active(signups, team), PriorityRank);
    FilterSorted(AllOrdered(signups, team), PriorityRank, (s: Signup) => s.id !in immovable);
  }

  /** Before the first move everybody waiting or counted is a candidate. */
  lemma EveryoneIsCandidate(p: Policy, team: set<Profile>, signups: seq<Signup>)
    requires Shaped(p, team, signups)
    ensures forall s :: s in signups && (s.counted || s.state.Waitlisted?) ==>
              s in Unmoved(AllOrdered(signups, team), {})
  {
    OrderedIsLocated(signups, team, {});
    forall s | s in signups && (s.counted || s.state.Waitlisted?)
      ensures s in Unmoved(AllOrdered(signups, team), {})
    {
      assert ShapedRow(p, team, s);
    }
  }

  lemma WaitersWereShutOut(p: Policy, signups: seq<Signup>, after: seq<Signup>, x: Signup,
                           candidates: seq<Signup>, key: Option<Key>)
    requires forall w :: w in signups && w.state.Waitlisted? ==> NoRoomAtRun(p, w.requested, signups)
    requires forall s :: s in after ==> s == x || s in signups
    requires !x.state.Waitlisted?
    requires forall s :: s in after && s.state.Waitlisted? ==> s in candidates
    requires forall b: Bucket :: FullOfCounted(b, signups) ==> CountBack(b, after, key) >= b.totalSlots
    ensures WaitersShutOut(p, after, candidates, key)
  {
    forall w | w in after && w.state.Waitlisted? ensures NoRoomAtRun(p, w.requested, signups) {
      assert w in signups;
    }
  }

  lemma BackWhenVacated(p: Policy, oldTeam: set<Profile>, team: set<Profile>, signups: seq<Signup>,
                        i: nat, x: Signup, v: Bucket)
    requires Vacated(p, oldTeam, team, signups, i, x) && signups[i].ConfirmedIn(v.key)
    ensures forall b: Bucket :: FullOfCounted(b, signups) ==>
              CountBack(b, signups[i := x], Some(v.key)) >= b.totalSlots
  {
    forall b: Bucket | FullOfCounted(b, signups)
      ensures CountBack(b, signups[i := x], Some(v.key)) >= b.totalSlots
    {
      VacatedCounts(p, oldTeam, team, signups, i, x, CountedIn(b.key));
    }
  }

  lemma VacancyLeavesNothingToBump(p: Policy, signups: seq<Signup>, after: seq<Signup>, x: Signup, key: Option<Key>)
    requires forall w :: w in signups && w.state.Waitlisted? ==> NoRoomAtRun(p, w.requested, signups)
    requires forall s :: s in after ==> s == x || s in signups
    requires !x.counted && !x.state.Waitlisted?
    requires forall b: Bucket :: FullOfCounted(b, signups) ==> CountBack(b, after, key) >= b.totalSlots
    ensures NothingToBump(p, after, key)
  {
    if c :| c in p.buckets && c.CountedLimited() && !FullOfCounted(c, signups) {
      PrioritizedNoPreference(p, c);
      forall w, b | w in after && w.state.Waitlisted? && b in Prioritized(p, w.requested)
        ensures !HoldsNoPreference(b, signups)
      {
        assert w in signups;
      }
    }
  }

  /** Filling the vacancy restores stability, keeps the shape, and over-fills nothing. */
  lemma VacateAndFill(p: Policy, oldTeam: set<Profile>, team: set<Profile>, signups: seq<Signup>,
                      i: nat, x: Signup)
    requires p.Valid() && Vacated(p, oldTeam, team, signups, i, x)
    requires signups[i].counted && signups[i].state.Confirmed?
    requires FillVacancy(p, signups[i := x], team, {}, signups[i].bucketKey).Done?
    ensures var after := FillVacancy(p, signups[i := x], team, {}, signups[i].bucketKey).signups;
            Shaped(p, team, after) && NoNewExcess(p, signups, after) &&
            (Stable(p, signups) ==> Stable(p, after))
  {
    var s := signups[i];
    assert s in signups;
    var v := p.BucketWithKey(s.bucketKey).value;
    var vacated := signups[i := x];
    VacancyKeepsShape(p, team, vacated, {}, s.bucketKey);
    forall b | b in p.buckets && b.slotsLimited
      ensures Count(FillVacancy(p, vacated, team, {}, s.bucketKey).signups, InBucket(b.key))
              <= Count(signups, InBucket(b.key))
    {
      VacatedCounts(p, oldTeam, team, signups, i, x, InBucket(b.key));
      if v.slotsLimited {
        OrderedIsLocated(vacated, team, {});
        FillConserves(p, vacated, Unmoved(AllOrdered(vacated, team), {}), s.bucketKey, b.key);
      }
    }
    if Stable(p, signups) {
      if v.slotsLimited {
        OpensVacancy(p, oldTeam, team, signups, i, x, v);
        OrderedIsLocated(vacated, team, {});
        FillStabilises(p, team, vacated, Unmoved(AllOrdered(vacated, team), {}), s.bucketKey);
      } else {
        forall b | b in p.buckets && b.slotsLimited && s.ConfirmedIn(b.key) ensures false {
          LookupFinds(p, b);
        }
        QuietVacancy(p, oldTeam, team, signups, i, x);
      }
    }
  }

  lemma QuietlyVacated(p: Policy, oldTeam: set<Profile>, team: set<Profile>, signups: seq<Signup>,
                       i: nat, x: Signup)
    requires p.Valid() && Vacated(p, oldTeam, team, signups, i, x)
    ensures NoNewExcess(p, signups, signups[i := x])
  {
    forall b | b in p.buckets && b.slotsLimited
      ensures Count(signups[i := x], InBucket(b.key)) <= Count(signups, InBucket(b.key))
    {
      VacatedCounts(p, oldTeam, team, signups, i, x, InBucket(b.key));
    }
  }

  /** Withdrawing keeps the shape, over-fills nothing, and leaves nobody waiting with room. */
  lemma WithdrawKeeps(p: Policy, team: set<Profile>, signups: seq<Signup>, i: nat)
    requires p.Valid() && Shaped(p, team, signups) && i < |signups|
    requires Withdraw(p, team, signups, i).Done?
    ensures var after := Withdraw(p, team, signups, i).signups;
            Shaped(p, team, after) && NoNewExcess(p, signups, after) &&
            (Stable(p, signups) ==> Stable(p, after))
  {
    var s := signups[i];
    var x := Withdrawal(s);
    var vacated := signups[i := x];
    forall j | 0 <= j < |vacated| ensures vacated[j].id == j && ShapedRow(p, team, vacated[j]) {
      assert signups[j] in signups;
    }
    assert s in signups;
    QuietlyVacated(p, team, team, signups, i, x);
    if s.counted && s.state.Confirmed? && !p.BucketWithKey(s.bucketKey).value.Full(vacated) {
      VacateAndFill(p, team, team, signups, i, x);
    } else if Stable(p, signups) {
      forall b | b in p.buckets && s.ConfirmedIn(b.key) ensures p.BucketWithKey(s.bucketKey) == Some(b) {
        LookupFinds(p, b);
      }
      QuietVacancy(p, team, team, signups, i, x);
    }
  }

  /** Becoming a team member does the same, when it is the profile's only active signup. */
  lemma ConvertKeeps(p: Policy, team: set<Profile>, signups: seq<Signup>, i: nat)
    requires p.Valid() && Shaped(p, team, signups) && i < |signups|
    requires forall j :: 0 <= j < |signups| && j != i && !signups[j].state.Withdrawn? ==>
               signups[j].profile != signups[i].profile
    requires !signups[i].state.Withdrawn?
    requires Convert(p, team + {signups[i].profile}, signups, i).Done?
    ensures var after := Convert(p, team + {signups[i].profile}, signups, i).signups;
            Shaped(p, team + {signups[i].profile}, after) && NoNewExcess(p, signups, after) &&
            (Stable(p, signups) ==> Stable(p, after))
  {
    var s := signups[i];
    var x := Conversion(s);
    var vacated := signups[i := x];
    var larger := team + {s.profile};
    forall j | 0 <= j < |vacated| ensures vacated[j].id == j && ShapedRow(p, larger, vacated[j]) {
      assert signups[j] in signups;
    }
    assert s in signups;
    QuietlyVacated(p, team, larger, signups, i, x);
    if s.counted && s.state.Confirmed? {
      VacateAndFill(p, team, larger, signups, i, x);
    } else if Stable(p, signups) {
      QuietVacancy(p, team, larger, signups, i, x);
    }
  }
}
