/** What holds after any history of calls, whatever policies are changed to: rows are sound, and
    nobody is signed up twice or for clashing runs. */
module AnyHistories {
  import opened Sorting
  import opened Registration
  import opened Allocation
  import opened VacancyFill
  import opened VacancyChain
  import opened EventSignup
  import opened Vacating
  import opened PolicyChange
  import opened PolicyChangeResults
  import opened PolicyChangeExactly
  import opened RunSteps
  import opened Promotions
  import opened ConventionRuns

  // ---------------------------------------------------------------------------- single runs

  lemma SeatIsSound(p: Policy, team: set<Profile>, s: Signup, after: Signup)
    requires p.Valid() && SeatedFrom(p, s, after)
    ensures SoundRow(p, team, after)
  {
    var b :| b in p.buckets && b.CountedLimited() && CanTake(p, s, b) && after == Seat(s, b) && SavesCleanly(p, after);
    LookupFinds(p, b);
  }

  /** A vacancy in a bucket that counts, or in one that is not filled, is filled soundly. */
  lemma VacancyKeepsSound(p: Policy, team: set<Profile>, signups: seq<Signup>, key: Option<Key>)
    requires p.Valid() && Sound(p, team, signups) && FillVacancy(p, signups, team, {}, key).Done?
    requires p.BucketWithKey(key).Some? && p.BucketWithKey(key).value.Counted()
    ensures Sound(p, team, FillVacancy(p, signups, team, {}, key).signups)
  {
    var after := FillVacancy(p, signups, team, {}, key).signups;
    if p.BucketWithKey(key).value.slotsLimited {
      OrderedIsLocated(signups, team, {});
      FillRows(p, signups, CandidatesIn(signups, team), key);
      forall i | 0 <= i < |after| ensures after[i].id == i && SoundRow(p, team, after[i]) {
        assert signups[i] in signups;
        if after[i] != signups[i] {
          SeatIsSound(p, team, signups[i], after[i]);
        }
      }
    }
  }

  lemma LeftIsSound(p: Policy, oldTeam: set<Profile>, team: set<Profile>, signups: seq<Signup>, i: nat, x: Signup)
    requires Sound(p, oldTeam, signups) && i < |signups| && oldTeam <= team && x.id == i
    requires x.bucketKey.None? && !x.counted && (x.state.Confirmed? ==> x.profile in team)
    ensures Sound(p, team, signups[i := x])
  {
    forall s | s in signups[i := x] ensures SoundRow(p, team, s) {
      assert s == x || s in signups;
    }
  }

  lemma WithdrawKeepsSound(p: Policy, team: set<Profile>, signups: seq<Signup>, i: nat)
    requires p.Valid() && Sound(p, team, signups) && i < |signups| && Withdraw(p, team, signups, i).Done?
    ensures Sound(p, team, Withdraw(p, team, signups, i).signups)
  {
    var s, left := signups[i], signups[i := Withdrawal(signups[i])];
    assert s in signups;
    LeftIsSound(p, team, team, signups, i, Withdrawal(s));
    if Withdraw(p, team, signups, i) != Done(left, []) {
      VacancyKeepsSound(p, team, left, s.bucketKey);
    }
  }

  lemma ConvertKeepsSound(p: Policy, oldTeam: set<Profile>, team: set<Profile>, signups: seq<Signup>, i: nat)
    requires p.Valid() && Sound(p, oldTeam, signups) && i < |signups| && oldTeam <= team && signups[i].profile in team
    requires Convert(p, team, signups, i).Done?
    ensures Sound(p, team, Convert(p, team, signups, i).signups)
  {
    var s, left := signups[i], signups[i := Conversion(signups[i])];
    assert s in signups;
    LeftIsSound(p, oldTeam, team, signups, i, Conversion(s));
    if s.counted && s.state.Confirmed? {
      VacancyKeepsSound(p, team, left, s.bucketKey);
    }
  }

  lemma JoinKeepsSound(p: Policy, team: set<Profile>, signups: seq<Signup>, profile: Profile)
    requires p.Valid() && Sound(p, team, signups) && OncePerProfile(signups)
    requires ConvertFrom(p, team + {profile}, signups, profile, 0).Done?
    ensures var after := ConvertFrom(p, team + {profile}, signups, profile, 0).signups;
            Sound(p, team + {profile}, after) && OncePerProfile(after)
  {
    var larger := team + {profile};
    var found, k := ConvertCases(p, larger, signups, profile, 0);
    if found {
      ConvertKeepsSound(p, team, larger, signups, k);
    } else {
      forall s | s in signups ensures SoundRow(p, larger, s) {
        assert SoundRow(p, team, s);
      }
    }
    EvolvesOnce(signups, ConvertFrom(p, larger, signups, profile, 0).signups);
  }

  /** The new team member's active signup would move a stale request. */
  ghost predicate MovesStale(p: Policy, team: set<Profile>, signups: seq<Signup>, profile: Profile) {
    exists k, m :: 0 <= k < |signups| && signups[k].profile == profile && !signups[k].state.Withdrawn? &&
                   m in ConvertMovers(p, team, signups, k) && StaleRequest(p, m)
  }

  lemma {:induction false} ConvertFromRaises(p: Policy, team: set<Profile>, signups: seq<Signup>, profile: Profile, i: nat)
    requires Numbered(signups) && i <= |signups| && OncePerProfile(signups)
    requires forall j :: 0 <= j < i ==> signups[j].profile != profile || signups[j].state.Withdrawn?
    ensures ConvertFrom(p, team, signups, profile, i).Raised? <==>
            exists k :: 0 <= k < |signups| && signups[k].profile == profile && !signups[k].state.Withdrawn? &&
                        Convert(p, team, signups, k).Raised?
    decreases |signups| - i
  {
    if i < |signups| {
      if signups[i].profile != profile || signups[i].state.Withdrawn? {
        ConvertFromRaises(p, team, signups, profile, i + 1);
      } else if Convert(p, team, signups, i).Done? {
        var after := Convert(p, team, signups, i).signups;
        EvolvesOnce(signups, after);
        ConvertedStays(p, team, signups, i);
        ConvertsOnce(p, team, after, profile, i + 1);
      }
    }
  }

  /** Joining a team raises in a run exactly when the signup it converts would move a stale request. */
  lemma JoinRaises(p: Policy, team: set<Profile>, signups: seq<Signup>, profile: Profile)
    requires p.Valid() && SafeRun(p, team, signups)
    ensures ConvertFrom(p, team + {profile}, signups, profile, 0).Raised? <==>
            MovesStale(p, team + {profile}, signups, profile)
  {
    var larger := team + {profile};
    ConvertFromRaises(p, larger, signups, profile, 0);
    forall s | s in signups ensures SoundRow(p, larger, s) {
      assert SoundRow(p, team, s);
    }
    forall k | 0 <= k < |signups| && signups[k].profile == profile
      ensures Convert(p, larger, signups, k).Raised? <==>
              exists m :: m in ConvertMovers(p, larger, signups, k) && StaleRequest(p, m)
    {
      ConvertRaises(p, larger, signups, k);
    }
  }

  ghost predicate SafeRun(p: Policy, team: set<Profile>, signups: seq<Signup>) {
    Sound(p, team, signups) && OncePerProfile(signups)
  }

  // ---------------------------------------------------------------------------- conventions

  ghost predicate Safe(c: Convention) {
    c.WellFormed() && NoClash(c) &&
    forall r :: 0 <= r < |c.runs| ==> SafeRun(c.EventOf(r).policy, c.EventOf(r).team, c.runs[r].signups)
  }

  lemma CancelIsSafe(c: Convention, w: Cancellation)
    requires Safe(c) && TryCancel(c, w).Some?
    ensures Safe(TryCancel(c, w).value)
  {
    var d := TryCancel(c, w).value;
    CancelIsLater(c, w);
    LaterNoClash(c, d);
    forall r | 0 <= r < |d.runs| ensures SafeRun(d.EventOf(r).policy, d.EventOf(r).team, d.runs[r].signups) {
      var p, team, signups := c.EventOf(r).policy, c.EventOf(r).team, c.runs[r].signups;
      assert SafeRun(p, team, signups);
      if r == w.run {
        WithdrawKeepsSound(p, team, signups, w.signup);
        EvolvesOnce(signups, d.runs[r].signups);
      }
    }
  }

  lemma PlaceIsSafe(p: Policy, team: set<Profile>, signups: seq<Signup>, profile: Profile,
                    requested: Option<Key>, createdAt: int)
    requires p.Valid() && SafeRun(p, team, signups) && !SignedUp(signups, profile)
    requires Place(p, team, signups, profile, requested, createdAt).Placed?
    ensures SafeRun(p, team, Place(p, team, signups, profile, requested, createdAt).signups)
  {
    PlaceKeepsSound(p, team, signups, profile, requested, createdAt);
    PlaceKeepsOnce(p, team, signups, profile, requested, createdAt);
  }

  lemma SignUpIsSafe(c: Convention, q: Request)
    requires Safe(c) && TrySignUp(c, q).Some?
    ensures Safe(TrySignUp(c, q).value)
  {
    var d := TrySignUp(c, q).value;
    assert SafeRun(c.EventOf(q.run).policy, c.EventOf(q.run).team, c.runs[q.run].signups);
    PlaceIsSafe(c.EventOf(q.run).policy, c.EventOf(q.run).team, c.runs[q.run].signups, q.profile, q.requested, q.createdAt);
    SignUpNoClash(c, q);
    forall r | 0 <= r < |d.runs| ensures SafeRun(d.EventOf(r).policy, d.EventOf(r).team, d.runs[r].signups) {
      assert SafeRun(c.EventOf(r).policy, c.EventOf(r).team, c.runs[r].signups);
    }
  }

  lemma JoinedRun(c: Convention, e: nat, profile: Profile, r: nat)
    requires Safe(c) && TryJoin(c, e, profile).Some? && r < |c.runs|
    ensures var d := TryJoin(c, e, profile).value;
            d.runs[r].event < |d.events| && Numbered(d.runs[r].signups) &&
            |d.runs[r].signups| == |c.runs[r].signups| && Evolves(c.runs[r].signups, d.runs[r].signups) &&
            SafeRun(d.EventOf(r).policy, d.EventOf(r).team, d.runs[r].signups)
  {
    assert SafeRun(c.EventOf(r).policy, c.EventOf(r).team, c.runs[r].signups);
    assert Joined(c, e, profile, r).Done?;
    if c.runs[r].event == e {
      JoinKeepsSound(c.events[e].policy, c.events[e].team, c.runs[r].signups, profile);
    }
  }

  lemma JoinIsSafe(c: Convention, e: nat, profile: Profile)
    requires Safe(c) && TryJoin(c, e, profile).Some?
    ensures Safe(TryJoin(c, e, profile).value)
  {
    var d := TryJoin(c, e, profile).value;
    forall r | 0 <= r < |d.runs|
      ensures d.runs[r].event < |d.events| && Numbered(d.runs[r].signups)
      ensures |d.runs[r].signups| == |c.runs[r].signups| && Evolves(c.runs[r].signups, d.runs[r].signups)
      ensures SafeRun(d.EventOf(r).policy, d.EventOf(r).team, d.runs[r].signups)
    {
      JoinedRun(c, e, profile, r);
    }
    LaterNoClash(c, d);
  }

  lemma SafelyChangedRun(c: Convention, e: nat, policy: Policy, r: nat)
    requires Safe(c) && TryChange(c, e, policy).Some? && r < |c.runs|
    ensures var d := TryChange(c, e, policy).value;
            d.runs[r].event < |d.events| && Numbered(d.runs[r].signups) &&
            |d.runs[r].signups| == |c.runs[r].signups| && Evolves(c.runs[r].signups, d.runs[r].signups) &&
            SafeRun(d.EventOf(r).policy, d.EventOf(r).team, d.runs[r].signups)
  {
    var signups := c.runs[r].signups;
    assert SafeRun(c.EventOf(r).policy, c.EventOf(r).team, signups);
    if c.runs[r].event == e {
      ChangeKeepsSound(c.events[e].policy, policy, c.events[e].team, signups);
      ChangeEstablishes(policy, signups);
      EvolvesOnce(signups, ChangedRun(policy, signups));
    }
  }

  lemma ChangeIsSafe(c: Convention, e: nat, policy: Policy)
    requires Safe(c) && TryChange(c, e, policy).Some?
    ensures Safe(TryChange(c, e, policy).value)
  {
    var d := TryChange(c, e, policy).value;
    forall r | 0 <= r < |d.runs|
      ensures d.runs[r].event < |d.events| && Numbered(d.runs[r].signups)
      ensures |d.runs[r].signups| == |c.runs[r].signups| && Evolves(c.runs[r].signups, d.runs[r].signups)
      ensures SafeRun(d.EventOf(r).policy, d.EventOf(r).team, d.runs[r].signups)
    {
      SafelyChangedRun(c, e, policy, r);
    }
    LaterNoClash(c, d);
  }

  lemma PerformIsSafe(c: Convention, s: Step)
    requires Safe(c)
    ensures Safe(Perform(c, s))
  {
    if Try(c, s).Some? {
      match s {
        case SignUp(q) => SignUpIsSafe(c, q);
        case CancelSignup(w) => CancelIsSafe(c, w);
        case AcceptSignupRequest(replaced, q) =>
          if replaced.Some? {
            CancelIsSafe(c, replaced.value);
            SignUpIsSafe(TryCancel(c, replaced.value).value, q);
          } else {
            SignUpIsSafe(c, q);
          }
        case JoinTeam(e, profile) => JoinIsSafe(c, e, profile);
        case ChangeRegistrationPolicy(e, policy) => ChangeIsSafe(c, e, policy);
      }
    }
  }

  /** In a safe convention, joining a team fails only for who is on it, and by moving a stale request. */
  lemma JoinFails(c: Convention, e: nat, profile: Profile)
    requires Safe(c) && e < |c.events|
    ensures TryJoin(c, e, profile).None? <==>
            profile in c.events[e].team ||
            exists r :: 0 <= r < |c.runs| && c.runs[r].event == e &&
                        MovesStale(c.events[e].policy, c.events[e].team + {profile}, c.runs[r].signups, profile)
  {
    forall r | 0 <= r < |c.runs|
      ensures Joined(c, e, profile, r).Raised? <==>
              c.runs[r].event == e &&
              MovesStale(c.events[e].policy, c.events[e].team + {profile}, c.runs[r].signups, profile)
    {
      if c.runs[r].event == e {
        assert SafeRun(c.EventOf(r).policy, c.EventOf(r).team, c.runs[r].signups);
        JoinRaises(c.events[e].policy, c.events[e].team, c.runs[r].signups, profile);
      }
    }
  }

  lemma FreshIsSafe(c: Convention)
    requires Fresh(c)
    ensures Safe(c)
  {
    FreshIsGood(c);
    forall r | 0 <= r < |c.runs| ensures SafeRun(c.EventOf(r).policy, c.EventOf(r).team, c.runs[r].signups) {
      assert c.runs[r].signups == [];
    }
  }

  lemma {:induction false} SafeHistory(c: Convention, history: seq<Step>, d: Convention)
    requires Safe(c) && Reaches(c, history, d)
    ensures Safe(d)
    decreases |history|
  {
    if history != [] {
      PerformIsSafe(c, history[0]);
      SafeHistory(Perform(c, history[0]), history[1..], d);
    }
  }

  /**
   * After any history of calls, harmful policy changes included: no profile has two active signups in
   * a run, or clashing ones unless it is on the team of both events; only the confirmed hold buckets,
   * which exist; and a withdrawal raises, and joining a team fails for somebody not on it, exactly
   * when it would move a signup whose request names a bucket the policy does not have.
   */
  lemma EveryHistoryIsSafe(c: Convention, history: seq<Step>, d: Convention)
    requires Fresh(c) && Reaches(c, history, d)
    ensures d.WellFormed() && NoClash(d)
    ensures forall r :: 0 <= r < |d.runs| ==>
              Sound(d.EventOf(r).policy, d.EventOf(r).team, d.runs[r].signups) && OncePerProfile(d.runs[r].signups)
    ensures forall w: Cancellation :: w.run < |d.runs| && w.signup < |d.runs[w.run].signups| ==>
              (Withdrawing(d, w).Raised? <==>
                 exists m :: m in WithdrawMovers(d.EventOf(w.run).policy, d.EventOf(w.run).team, d.runs[w.run].signups, w.signup) &&
                             StaleRequest(d.EventOf(w.run).policy, m))
    ensures forall e: nat, profile :: e < |d.events| ==>
              (TryJoin(d, e, profile).None? <==>
                 profile in d.events[e].team ||
                 exists r :: 0 <= r < |d.runs| && d.runs[r].event == e &&
                             MovesStale(d.events[e].policy, d.events[e].team + {profile}, d.runs[r].signups, profile))
  {
    FreshIsSafe(c);
    SafeHistory(c, history, d);
    forall r | 0 <= r < |d.runs|
      ensures Sound(d.EventOf(r).policy, d.EventOf(r).team, d.runs[r].signups) && OncePerProfile(d.runs[r].signups)
    {
      assert SafeRun(d.EventOf(r).policy, d.EventOf(r).team, d.runs[r].signups);
    }
    forall w: Cancellation | w.run < |d.runs| && w.signup < |d.runs[w.run].signups|
      ensures Withdrawing(d, w).Raised? <==>
              exists m :: m in WithdrawMovers(d.EventOf(w.run).policy, d.EventOf(w.run).team, d.runs[w.run].signups, w.signup) &&
                          StaleRequest(d.EventOf(w.run).policy, m)
    {
      WithdrawRaises(d.EventOf(w.run).policy, d.EventOf(w.run).team, d.runs[w.run].signups, w.signup);
    }
    forall e: nat, profile | e < |d.events|
      ensures TryJoin(d, e, profile).None? <==>
              profile in d.events[e].team ||
              exists r :: 0 <= r < |d.runs| && d.runs[r].event == e &&
                          MovesStale(d.events[e].policy, d.events[e].team + {profile}, d.runs[r].signups, profile)
    {
      JoinFails(d, e, profile);
    }
  }
}
