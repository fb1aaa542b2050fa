/** What placing, withdrawing and converting do to the load of each profile, told from the rows before
    the call. */
module LoadChanges {
  import opened Sorting
  import opened Registration
  import opened BucketFinder
  import opened Allocation
  import opened VacancyFill
  import opened VacancyChain
  import opened EventSignup
  import opened Vacating
  import opened RunSteps
  import opened Promotions
  import opened AnyHistories

  function One(p: Policy, s: Signup, profile: Profile): nat {
    if s.profile == profile && Loads(p, s) then 1 else 0
  }

  lemma {:induction false} LoadUpdate(p: Policy, xs: seq<Signup>, i: nat, s: Signup, profile: Profile)
    requires i < |xs|
    ensures Load(p, xs[i := s], profile) == Load(p, xs, profile) - One(p, xs[i], profile) + One(p, s, profile)
  {
    var n := |xs| - 1;
    if i < n {
      assert xs[i := s][..n] == xs[..n][i := s];
      LoadUpdate(p, xs[..n], i, s, profile);
    } else {
      assert xs[i := s][..n] == xs[..n];
    }
  }

  /** How many of the profile's signups will be moved that do not load it now. */
  function Gain(p: Policy, movers: seq<Signup>, profile: Profile): nat {
    if movers == [] then 0
    else Gain(p, movers[1..], profile) + (if movers[0].profile == profile && !Loads(p, movers[0]) then 1 else 0)
  }

  lemma SeatedLoads(p: Policy, candidates: seq<Signup>, key: Option<Key>)
    requires p.BucketWithKey(key).Some? && p.BucketWithKey(key).value.Counted()
    requires Takers(p, candidates, p.BucketWithKey(key).value) != []
    ensures var b := p.BucketWithKey(key).value;
            var s := Takers(p, candidates, b)[0];
            Loads(p, Seat(s, b)) &&
            (s.state.Confirmed? && p.BucketWithKey(s.bucketKey).Some? ==> p.BucketWithKey(s.bucketKey).value.Counted())
  {
    var b := p.BucketWithKey(key).value;
    assert Takers(p, candidates, b)[0] in Takers(p, candidates, b);
  }

  /** A chain that fills a bucket that counts adds to a profile's load exactly the movers of the
      profile that did not load it before. */
  lemma {:induction false} FillLoads(p: Policy, signups: seq<Signup>, candidates: seq<Signup>,
                                     key: Option<Key>, profile: Profile)
    requires Located(candidates, signups) && Fill(p, signups, candidates, key).Done?
    requires p.BucketWithKey(key).Some? ==> p.BucketWithKey(key).value.Counted()
    ensures Load(p, Fill(p, signups, candidates, key).signups, profile) ==
            Load(p, signups, profile) + Gain(p, Movers(p, candidates, key), profile)
    decreases |candidates|
  {
    var b := p.BucketWithKey(key);
    if b.Some? && Takers(p, candidates, b.value) != [] {
      FirstLink(p, signups, candidates, key);
      SeatedLoads(p, candidates, key);
      var s := Takers(p, candidates, b.value)[0];
      var seat := Seat(s, b.value);
      LoadUpdate(p, signups, s.id, seat, profile);
      if s.state.Confirmed? {
        var rest := Without(candidates, s.id);
        FillLoads(p, signups[s.id := seat], rest, s.bucketKey, profile);
        assert ([s] + Movers(p, rest, s.bucketKey))[1..] == Movers(p, rest, s.bucketKey);
      } else {
        assert ([s] + [])[1..] == [];
      }
    }
  }

  /** The slot of a counted row is given up to become `x`, and filled. */
  lemma LeftLoads(p: Policy, team: set<Profile>, signups: seq<Signup>, i: nat, x: Signup, profile: Profile)
    requires p.Valid() && Sound(p, team, signups) && i < |signups| && x.id == i && x.profile == signups[i].profile
    requires !Loads(p, x) && (x.state.Withdrawn? || x.profile in team) && signups[i].counted && signups[i].state.Confirmed?
    requires FillVacancy(p, signups[i := x], team, {}, signups[i].bucketKey).Done?
    ensures Load(p, FillVacancy(p, signups[i := x], team, {}, signups[i].bucketKey).signups, profile) ==
            Load(p, signups, profile) - One(p, signups[i], profile) +
            (if Fills(p, signups[i].bucketKey) then
               Gain(p, Movers(p, CandidatesIn(signups[i := x], team), signups[i].bucketKey), profile) else 0)
  {
    var left := signups[i := x];
    assert signups[i] in signups;
    LoadUpdate(p, signups, i, x, profile);
    if Fills(p, signups[i].bucketKey) {
      SoundCandidates(p, team, signups, i, x);
      FillLoads(p, left, CandidatesIn(left, team), signups[i].bucketKey, profile);
    }
  }

  /**
   * A withdrawal takes from a profile's load the withdrawn signup, if it is the profile's and loads it,
   * and adds the movers of the profile that do not load it yet.
   */
  lemma WithdrawLoads(p: Policy, team: set<Profile>, signups: seq<Signup>, i: nat, profile: Profile)
    requires p.Valid() && Sound(p, team, signups) && i < |signups| && Withdraw(p, team, signups, i).Done?
    ensures Load(p, Withdraw(p, team, signups, i).signups, profile) ==
            Load(p, signups, profile) - One(p, signups[i], profile) + Gain(p, WithdrawMovers(p, team, signups, i), profile)
  {
    var x := Withdrawal(signups[i]);
    assert signups[i] in signups;
    LoadUpdate(p, signups, i, x, profile);
    if Withdraw(p, team, signups, i) != Done(signups[i := x], []) {
      LeftLoads(p, team, signups, i, x, profile);
    } else {
      QuietWithdrawal(p, team, signups, i);
    }
  }

  /** A withdrawal that changes nothing else has no movers. */
  lemma QuietWithdrawal(p: Policy, team: set<Profile>, signups: seq<Signup>, i: nat)
    requires p.Valid() && Sound(p, team, signups) && i < |signups|
    requires Withdraw(p, team, signups, i) == Done(signups[i := Withdrawal(signups[i])], [])
    ensures WithdrawMovers(p, team, signups, i) == []
  {
    var s, left := signups[i], signups[i := Withdrawal(signups[i])];
    SoundCandidates(p, team, signups, i, Withdrawal(s));
    if WithdrawMovers(p, team, signups, i) != [] {
      FillMovers(p, left, CandidatesIn(left, team), s.bucketKey);
    }
  }

  /** The same for a signup that becomes a team member's. */
  lemma ConvertLoads(p: Policy, team: set<Profile>, signups: seq<Signup>, i: nat, profile: Profile)
    requires p.Valid() && Sound(p, team, signups) && i < |signups| && signups[i].profile in team
    requires Convert(p, team, signups, i).Done?
    ensures Load(p, Convert(p, team, signups, i).signups, profile) ==
            Load(p, signups, profile) - One(p, signups[i], profile) + Gain(p, ConvertMovers(p, team, signups, i), profile)
  {
    var x := Conversion(signups[i]);
    assert signups[i] in signups;
    LoadUpdate(p, signups, i, x, profile);
    if signups[i].counted && signups[i].state.Confirmed? {
      LeftLoads(p, team, signups, i, x, profile);
    }
  }

  /** The active signup of the profile. */
  function ActiveRow(signups: seq<Signup>, profile: Profile): (k: nat)
    ensures k <= |signups|
    ensures k < |signups| ==> signups[k].profile == profile && !signups[k].state.Withdrawn?
    ensures forall j :: 0 <= j < k ==> signups[j].profile != profile || signups[j].state.Withdrawn?
  {
    if signups == [] || (signups[0].profile == profile && !signups[0].state.Withdrawn?) then 0
    else 1 + ActiveRow(signups[1..], profile)
  }

  /** Who will move in the run when the profile joins the team, which already holds it. */
  function JoinMovers(p: Policy, team: set<Profile>, signups: seq<Signup>, profile: Profile): seq<Signup> {
    var k := ActiveRow(signups, profile);
    if k < |signups| then ConvertMovers(p, team, signups, k) else []
  }

  lemma MoversOffTeam(p: Policy, team: set<Profile>, signups: seq<Signup>, i: nat, profile: Profile)
    requires Sound(p, team, signups) && i < |signups| && signups[i].profile in team && profile in team
    ensures Gain(p, ConvertMovers(p, team, signups, i), profile) == 0
  {
    SoundCandidates(p, team, signups, i, Conversion(signups[i]));
    NoGain(p, ConvertMovers(p, team, signups, i), profile);
  }

  lemma {:induction false} NoGain(p: Policy, movers: seq<Signup>, profile: Profile)
    requires forall m :: m in movers ==> m.profile != profile || Loads(p, m)
    ensures Gain(p, movers, profile) == 0
  {
    if movers != [] {
      assert movers[0] in movers;
      NoGain(p, movers[1..], profile);
    }
  }

  /** Joining a team frees the profile's own load in the run, and adds the movers to the others'. */
  lemma JoinLoads(p: Policy, team: set<Profile>, signups: seq<Signup>, joining: Profile, profile: Profile)
    requires p.Valid() && SafeRun(p, team, signups)
    requires ConvertFrom(p, team + {joining}, signups, joining, 0).Done?
    ensures var after := ConvertFrom(p, team + {joining}, signups, joining, 0).signups;
            Load(p, after, profile) ==
            if profile == joining then 0
            else Load(p, signups, profile) + Gain(p, JoinMovers(p, team + {joining}, signups, joining), profile)
  {
    var larger := team + {joining};
    forall s | s in signups ensures SoundRow(p, larger, s) {
      assert SoundRow(p, team, s);
    }
    var found, k := ConvertCases(p, larger, signups, joining, 0);
    if found {
      assert ActiveRow(signups, joining) == k;
      ConvertLoads(p, larger, signups, k, profile);
      if profile == joining {
        MoversOffTeam(p, larger, signups, k, profile);
        OnlyActiveLoads(p, signups, k, profile);
      }
    } else {
      NoActiveRow(signups, joining);
      NoSignupNoLoad(p, signups, joining);
    }
  }

  lemma {:induction false} NoActiveRow(signups: seq<Signup>, profile: Profile)
    requires !SignedUp(signups, profile)
    ensures ActiveRow(signups, profile) == |signups|
  {
    if signups != [] {
      assert signups[0] in signups;
      assert forall s :: s in signups[1..] ==> s in signups;
      NoActiveRow(signups[1..], profile);
    }
  }

  /** A profile with one active signup is loaded by that alone. */
  lemma OnlyActiveLoads(p: Policy, signups: seq<Signup>, k: nat, profile: Profile)
    requires k < |signups| && signups[k].profile == profile
    requires forall j :: 0 <= j < |signups| && j != k && !signups[j].state.Withdrawn? ==> signups[j].profile != profile
    ensures Load(p, signups, profile) == One(p, signups[k], profile)
  {
    var x := signups[k].(state := Withdrawn);
    LoadUpdate(p, signups, k, x, profile);
    NoSignupNoLoad(p, signups[k := x], profile);
  }

  /** Placing a signup adds to nobody's load but its own profile's, and there itself if it loads. */
  lemma PlaceLoads(p: Policy, team: set<Profile>, signups: seq<Signup>, joining: Profile,
                   requested: Option<Key>, createdAt: int, profile: Profile)
    requires p.Valid() && Sound(p, team, signups)
    requires Place(p, team, signups, joining, requested, createdAt).Placed?
    ensures var after := Place(p, team, signups, joining, requested, createdAt).signups;
            |after| == |signups| + 1 &&
            Load(p, after, profile) == Load(p, signups, profile) + One(p, after[|signups|], profile) &&
            after[|signups|].profile == joining
  {
    var after := Place(p, team, signups, joining, requested, createdAt).signups;
    PlaceEvolves(p, team, signups, joining, requested, createdAt);
    var actual := ActualBucket(p, team, signups, joining, requested);
    if actual.Some? && actual.value.Full(signups) {
      var movable := Movable(p, CountedConfirmed(signups), actual.value);
      var to := NoPreferenceCapacityExcept(p, CountedConfirmed(signups), actual.value)[0];
      assert movable[0] in movable && movable[0] in CountedConfirmed(signups);
      var n := movable[0];
      LoadUpdate(p, signups, n.id, n.(bucketKey := Some(to.key)), profile);
      assert after[..|signups|] == signups[n.id := n.(bucketKey := Some(to.key))];
    } else {
      assert after[..|signups|] == signups;
    }
  }

  // ------------------------------------------------------------------------- runs in shape

  /** The signup waits for a bucket that does not count. */
  predicate AwaitsUncounted(p: Policy, s: Signup) {
    s.state.Waitlisted? && p.BucketWithKey(s.requested).Some? && p.BucketWithKey(s.requested).value.notCounted
  }

  /** In a run in shape only the promotee can add to a load, if it waits for a bucket that does not
      count. */
  lemma {:induction false} ShapedGain(p: Policy, team: set<Profile>, candidates: seq<Signup>, key: Option<Key>, profile: Profile)
    requires forall c :: c in candidates ==> ShapedRow(p, team, c) && c.profile !in team && !c.state.Withdrawn?
    ensures Gain(p, Movers(p, candidates, key), profile) ==
            var x := Promotee(p, candidates, key);
            if x.Some? && x.value.profile == profile && AwaitsUncounted(p, x.value) then 1 else 0
    decreases |candidates|
  {
    var b := p.BucketWithKey(key);
    if b.Some? && Takers(p, candidates, b.value) != [] {
      var s := Takers(p, candidates, b.value)[0];
      assert s in Takers(p, candidates, b.value);
      TakerIsCandidate(p, candidates, b.value, s);
      var rest := Without(candidates, s.id);
      var movers := Movers(p, candidates, key);
      assert s in candidates && ShapedRow(p, team, s);
      if s.state.Confirmed? {
        ShapedGain(p, team, rest, s.bucketKey, profile);
        assert movers[1..] == Movers(p, rest, s.bucketKey);
      } else {
        assert movers == [s] && movers[1..] == [];
      }
    }
  }

  lemma WithdrawGain(p: Policy, team: set<Profile>, signups: seq<Signup>, i: nat, profile: Profile)
    requires p.Valid() && Shaped(p, team, signups) && i < |signups|
    ensures Gain(p, WithdrawMovers(p, team, signups, i), profile) ==
            var x := LastWaiting(WithdrawMovers(p, team, signups, i));
            if x.Some? && x.value.profile == profile && AwaitsUncounted(p, x.value) then 1 else 0
  {
    var left := signups[i := Withdrawal(signups[i])];
    ShapedIsSound(p, team, signups);
    SoundCandidates(p, team, signups, i, Withdrawal(signups[i]));
    OrderedIsLocated(left, team, {});
    ShapedGain(p, team, CandidatesIn(left, team), signups[i].bucketKey, profile);
  }

  lemma JoinGain(p: Policy, team: set<Profile>, signups: seq<Signup>, joining: Profile, profile: Profile)
    requires p.Valid() && Shaped(p, team, signups)
    ensures var movers := JoinMovers(p, team + {joining}, signups, joining);
            Gain(p, movers, profile) ==
            var x := LastWaiting(movers);
            if x.Some? && x.value.profile == profile && AwaitsUncounted(p, x.value) then 1 else 0
  {
    var larger, k := team + {joining}, ActiveRow(signups, joining);
    if k < |signups| {
      var left := signups[k := Conversion(signups[k])];
      forall s | s in signups ensures SoundRow(p, larger, s) {
        assert ShapedRow(p, team, s);
      }
      SoundCandidates(p, larger, signups, k, Conversion(signups[k]));
      OrderedIsLocated(left, larger, {});
      ShapedGain(p, team, CandidatesIn(left, larger), signups[k].bucketKey, profile);
    }
  }
}
