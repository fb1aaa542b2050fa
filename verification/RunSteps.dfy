/** The service calls as steps of one run, and what each keeps of it. */
module RunSteps {
  import opened Sorting
  import opened Registration
  import opened BucketFinder
  import opened Allocation
  import opened VacancyFill
  import opened VacancyChain
  import opened VacancyInvariants
  import opened EventSignup
  import opened Vacating
  import opened PolicyChange
  import opened PolicyChangeResults
  import opened PolicyChangeExactly

  /** No profile has two signups in the run that are not withdrawn. */
  ghost predicate OncePerProfile(signups: seq<Signup>) {
    forall i, j :: 0 <= i < j < |signups| && !signups[i].state.Withdrawn? && !signups[j].state.Withdrawn? ==>
      signups[i].profile != signups[j].profile
  }

  ghost predicate GoodRun(p: Policy, team: set<Profile>, signups: seq<Signup>) {
    Shaped(p, team, signups) && WithinCapacity(p, signups) && Stable(p, signups) && OncePerProfile(signups)
  }

  /** Is there an active signup of the profile? (`must_not_already_be_signed_up`) */
  predicate SignedUp(signups: seq<Signup>, profile: Profile) {
    exists s :: s in signups && !s.state.Withdrawn? && s.profile == profile
  }

  /** Converts every active signup of a new team member in the run, in row order. */
  function ConvertFrom(p: Policy, team: set<Profile>, signups: seq<Signup>, profile: Profile, i: nat): (r: Outcome)
    requires Numbered(signups) && i <= |signups|
    ensures r.Done? ==> |r.signups| == |signups| && Evolves(signups, r.signups)
    decreases |signups| - i
  {
    if i == |signups| then Done(signups, [])
    else if signups[i].profile != profile || signups[i].state.Withdrawn? then
      ConvertFrom(p, team, signups, profile, i + 1)
    else
      match Convert(p, team, signups, i)
      case Raised => Outcome.Raised
      case Done(after, moves) =>
        match ConvertFrom(p, team, after, profile, i + 1)
        case Raised => Outcome.Raised
        case Done(rest, more) => Done(rest, moves + more)
  }

  /** What becoming a team member makes of a run; for rows out of place, nothing. */
  ghost function ConvertedRun(p: Policy, team: set<Profile>, signups: seq<Signup>, profile: Profile): Outcome {
    if Numbered(signups) then ConvertFrom(p, team, signups, profile, 0) else Done(signups, [])
  }

  /** ... and of all runs of the event; `None` when the conversion in one of them raises. */
  ghost function ConvertedRuns(p: Policy, team: set<Profile>, runs: seq<seq<Signup>>, profile: Profile)
    : (after: Option<seq<seq<Signup>>>)
    ensures after.Some? ==> |after.value| == |runs|
  {
    if exists r :: 0 <= r < |runs| && ConvertedRun(p, team, runs[r], profile).Raised? then None
    else
      Some(seq(|runs|, r requires 0 <= r < |runs| && ConvertedRun(p, team, runs[r], profile).Done? =>
        ConvertedRun(p, team, runs[r], profile).signups))
  }

  /** The moves in all runs, run after run. */
  ghost function ConvertedMoves(p: Policy, team: set<Profile>, runs: seq<seq<Signup>>, profile: Profile): seq<Move> {
    if runs == [] then []
    else
      var last := ConvertedRun(p, team, runs[|runs| - 1], profile);
      ConvertedMoves(p, team, runs[..|runs| - 1], profile) + if last.Done? then last.moves else []
  }

  lemma EvolvesOnce(before: seq<Signup>, after: seq<Signup>)
    requires Evolves(before, after) && |before| == |after| && OncePerProfile(before)
    ensures OncePerProfile(after)
  {}

  lemma WithdrawIsGood(p: Policy, team: set<Profile>, signups: seq<Signup>, i: nat)
    requires p.Valid() && GoodRun(p, team, signups) && i < |signups|
    requires Withdraw(p, team, signups, i).Done?
    ensures GoodRun(p, team, Withdraw(p, team, signups, i).signups)
  {
    WithdrawKeeps(p, team, signups, i);
  }

  lemma PlaceIsGood(p: Policy, team: set<Profile>, signups: seq<Signup>, profile: Profile,
                    requested: Option<Key>, createdAt: int)
    requires p.Valid() && GoodRun(p, team, signups) && !SignedUp(signups, profile)
    requires Place(p, team, signups, profile, requested, createdAt).Placed?
    ensures var after := Place(p, team, signups, profile, requested, createdAt).signups;
            GoodRun(p, team, after) && Evolves(signups, after)
  {
    PlaceKeepsShape(p, team, signups, profile, requested, createdAt);
    PlaceKeepsCapacity(p, team, signups, profile, requested, createdAt);
    PlaceKeepsStable(p, team, signups, profile, requested, createdAt);
    PlaceEvolves(p, team, signups, profile, requested, createdAt);
    PlaceKeepsOnce(p, team, signups, profile, requested, createdAt);
  }

  lemma PlaceKeepsOnce(p: Policy, team: set<Profile>, signups: seq<Signup>, profile: Profile,
                       requested: Option<Key>, createdAt: int)
    requires Numbered(signups) && OncePerProfile(signups) && !SignedUp(signups, profile)
    requires Place(p, team, signups, profile, requested, createdAt).Placed?
    ensures OncePerProfile(Place(p, team, signups, profile, requested, createdAt).signups)
  {
    var after := Place(p, team, signups, profile, requested, createdAt).signups;
    PlaceEvolves(p, team, signups, profile, requested, createdAt);
    forall i, j | 0 <= i < j < |after| && !after[i].state.Withdrawn? && !after[j].state.Withdrawn?
      ensures after[i].profile != after[j].profile
    {
      assert signups[i] in signups;
    }
  }

  /** With one active signup per profile, at most one conversion happens in a run. */
  lemma {:induction false} ConvertsOnce(p: Policy, team: set<Profile>, signups: seq<Signup>, profile: Profile, i: nat)
    requires Numbered(signups) && i <= |signups| && OncePerProfile(signups)
    requires exists j :: 0 <= j < i && signups[j].profile == profile && !signups[j].state.Withdrawn?
    ensures ConvertFrom(p, team, signups, profile, i) == Done(signups, [])
    decreases |signups| - i
  {
    if i < |signups| {
      ConvertsOnce(p, team, signups, profile, i + 1);
    }
  }

  /** Which signup a conversion converts, if any. */
  lemma {:induction false} ConvertCases(p: Policy, team: set<Profile>, signups: seq<Signup>, profile: Profile, i: nat)
    returns (found: bool, k: nat)
    requires Numbered(signups) && i <= |signups| && OncePerProfile(signups)
    requires forall j :: 0 <= j < i ==> signups[j].profile != profile || signups[j].state.Withdrawn?
    requires ConvertFrom(p, team, signups, profile, i).Done?
    ensures found ==> k < |signups| && signups[k].profile == profile && !signups[k].state.Withdrawn? &&
                      Convert(p, team, signups, k).Done? &&
                      ConvertFrom(p, team, signups, profile, i).signups == Convert(p, team, signups, k).signups &&
                      forall j :: 0 <= j < |signups| && j != k && !signups[j].state.Withdrawn? ==>
                        signups[j].profile != profile
    ensures !found ==> ConvertFrom(p, team, signups, profile, i) == Done(signups, []) &&
                       !SignedUp(signups, profile)
    decreases |signups| - i
  {
    found, k := false, 0;
    if i < |signups| {
      if signups[i].profile != profile || signups[i].state.Withdrawn? {
        found, k := ConvertCases(p, team, signups, profile, i + 1);
      } else {
        found, k := true, i;
        var after := Convert(p, team, signups, i).signups;
        EvolvesOnce(signups, after);
        ConvertedStays(p, team, signups, i);
        ConvertsOnce(p, team, after, profile, i + 1);
      }
    }
  }

  /** A converted signup is not moved by the chain its conversion starts. */
  lemma ConvertedStays(p: Policy, team: set<Profile>, signups: seq<Signup>, i: nat)
    requires Numbered(signups) && i < |signups|
    requires Convert(p, team, signups, i).Done?
    ensures !Convert(p, team, signups, i).signups[i].state.Withdrawn?
  {
    var vacated := signups[i := Conversion(signups[i])];
    if signups[i].counted && signups[i].state.Confirmed? && p.BucketWithKey(signups[i].bucketKey).Some? &&
       p.BucketWithKey(signups[i].bucketKey).value.slotsLimited
    {
      var candidates := Unmoved(AllOrdered(vacated, team), {});
      OrderedIsLocated(vacated, team, {});
      FillMoves(p, vacated, candidates, signups[i].bucketKey);
      var Done(after, moves) := Fill(p, vacated, candidates, signups[i].bucketKey);
      if m :| m in moves && m.id == i {
        assert TrueMove(m, vacated, candidates, after);
      }
    }
  }

  lemma ConvertIsGood(p: Policy, team: set<Profile>, signups: seq<Signup>, profile: Profile)
    requires p.Valid() && GoodRun(p, team, signups)
    requires ConvertFrom(p, team + {profile}, signups, profile, 0).Done?
    ensures GoodRun(p, team + {profile}, ConvertFrom(p, team + {profile}, signups, profile, 0).signups)
  {
    var found, k := ConvertCases(p, team + {profile}, signups, profile, 0);
    if found {
      ConvertKeeps(p, team, signups, k);
      EvolvesOnce(signups, Convert(p, team + {profile}, signups, k).signups);
    } else {
      forall s | s in signups ensures ShapedRow(p, team + {profile}, s) {
      }
    }
  }

  /** A policy change keeps a run good exactly when it is harmless. */
  lemma ChangeIsGoodExactly(oldP: Policy, p: Policy, team: set<Profile>, signups: seq<Signup>)
    requires p.Valid() && GoodRun(oldP, team, signups) && Stranded(p, signups) == []
    ensures GoodRun(p, team, ChangedRun(p, signups)) <==> Harmless(p, signups)
    ensures Evolves(signups, ChangedRun(p, signups)) && |ChangedRun(p, signups)| == |signups|
    ensures Numbered(ChangedRun(p, signups))
  {
    ChangeEstablishes(p, signups);
    ChangedRows(p, signups);
    HarmlessExactly(oldP, p, team, signups);
  }

  // ------------------------------------------------------------------------ preferences

  lemma WithdrawPrefers(p: Policy, team: set<Profile>, signups: seq<Signup>, i: nat)
    requires p.Valid() && Shaped(p, team, signups) && Preferring(p, signups) && i < |signups|
    requires Withdraw(p, team, signups, i).Done?
    ensures Preferring(p, Withdraw(p, team, signups, i).signups)
  {
    VacatePrefers(p, team, team, signups, i, Withdrawal(signups[i]));
  }

  lemma VacatePrefers(p: Policy, oldTeam: set<Profile>, team: set<Profile>, signups: seq<Signup>, i: nat, x: Signup)
    requires p.Valid() && Shaped(p, oldTeam, signups) && Preferring(p, signups) && i < |signups|
    requires x == signups[i].(state := x.state, bucketKey := None, counted := false)
    requires oldTeam <= team <= oldTeam + {signups[i].profile}
    requires (forall j :: 0 <= j < |signups| && j != i && !signups[j].state.Withdrawn? ==>
                signups[j].profile !in team - oldTeam)
    requires x.state.Withdrawn? || (x.state.Confirmed? && x.profile in team)
    ensures Shaped(p, team, signups[i := x]) && Preferring(p, signups[i := x])
    ensures signups[i].counted && signups[i].state.Confirmed? &&
            FillVacancy(p, signups[i := x], team, {}, signups[i].bucketKey).Done? ==>
              Preferring(p, FillVacancy(p, signups[i := x], team, {}, signups[i].bucketKey).signups)
  {
    var vacated := signups[i := x];
    assert signups[i] in signups;
    forall j | 0 <= j < |vacated|
      ensures vacated[j].id == j && ShapedRow(p, team, vacated[j])
      ensures KnownRequest(p, vacated[j]) && SeatedAsAsked(p, vacated[j])
    {
      assert signups[j] in signups;
    }
    if signups[i].counted && signups[i].state.Confirmed? &&
       FillVacancy(p, vacated, team, {}, signups[i].bucketKey).Done?
    {
      VacancyKeepsPreferences(p, team, vacated, {}, signups[i].bucketKey);
    }
  }

  lemma ConvertPrefers(p: Policy, team: set<Profile>, signups: seq<Signup>, profile: Profile)
    requires p.Valid() && Shaped(p, team, signups) && Preferring(p, signups) && OncePerProfile(signups)
    requires ConvertFrom(p, team + {profile}, signups, profile, 0).Done?
    ensures Preferring(p, ConvertFrom(p, team + {profile}, signups, profile, 0).signups)
  {
    var found, k := ConvertCases(p, team + {profile}, signups, profile, 0);
    if found {
      VacatePrefers(p, team, team + {profile}, signups, k, Conversion(signups[k]));
    }
  }

  // ---------------------------------------------------------------------- signup limit

  /** Does the row count towards the profile's limit? (`other_signups` of event_signup_service.rb) */
  predicate Loads(p: Policy, s: Signup) {
    !s.state.Withdrawn? &&
    (s.counted ||
     (s.state.Waitlisted? &&
      !(p.BucketWithKey(s.requested).Some? && p.BucketWithKey(s.requested).value.notCounted)))
  }

  function Load(p: Policy, signups: seq<Signup>, profile: Profile): nat {
    if signups == [] then 0
    else
      var last := signups[|signups| - 1];
      Load(p, signups[..|signups| - 1], profile) + (if last.profile == profile && Loads(p, last) then 1 else 0)
  }

  lemma {:induction false} LoadShrinks(p: Policy, before: seq<Signup>, after: seq<Signup>, profile: Profile)
    requires |before| == |after|
    requires forall i :: 0 <= i < |before| ==>
               (after[i].profile == profile && Loads(p, after[i]) ==>
                  before[i].profile == profile && Loads(p, before[i]))
    ensures Load(p, after, profile) <= Load(p, before, profile)
  {
    if before != [] {
      var n := |before| - 1;
      LoadShrinks(p, before[..n], after[..n], profile);
    }
  }

  /** No waiting signup asks for a bucket that does not count. */
  ghost predicate WaitingCounts(p: Policy, signups: seq<Signup>) {
    forall w :: w in signups && w.state.Waitlisted? ==> Loads(p, w)
  }

  /** With every limited bucket counted, nobody waits for a bucket that does not count. */
  lemma StableWaitingCounts(p: Policy, signups: seq<Signup>)
    requires p.Valid() && p.LimitedBucketsCount() && Stable(p, signups)
    ensures WaitingCounts(p, signups)
  {
    StableAtRun(p, signups);
    forall w | w in signups && w.state.Waitlisted? ensures Loads(p, w) {
      if w.requested.Some? && p.BucketWithKey(w.requested).Some? {
        var b := p.BucketWithKey(w.requested).value;
        PrioritizedRequested(p, w.requested.value, b);
        assert FullOfCounted(b, signups);
      }
    }
  }

  lemma {:induction false} NoSignupNoLoad(p: Policy, signups: seq<Signup>, profile: Profile)
    requires !SignedUp(signups, profile)
    ensures Load(p, signups, profile) == 0
  {
    if signups != [] {
      var n := |signups| - 1;
      assert signups[n] in signups;
      assert forall s :: s in signups[..n] ==> s in signups;
      NoSignupNoLoad(p, signups[..n], profile);
    }
  }
}
