/** The maximum number of signups: exactly which calls take a profile past it, told from the state before
    the call, and so exactly which histories stay within it. */
module SignupLimit {
  import opened Sorting
  import opened Registration
  import opened Allocation
  import opened EventSignup
  import opened RunSteps
  import opened Promotions
  import opened ConventionRuns
  import opened AnyHistories
  import opened LoadChanges
  import opened FixedPolicies
  import Vacating

  /** The profile's load in the first `n` runs. */
  ghost function TotalLoad(c: Convention, profile: Profile, n: nat): nat
    requires c.WellFormed() && n <= |c.runs|
  {
    if n == 0 then 0
    else TotalLoad(c, profile, n - 1) + Load(c.EventOf(n - 1).policy, c.runs[n - 1].signups, profile)
  }

  lemma {:induction false} TotalWithout(c: Convention, r: nat, profile: Profile, n: nat)
    requires c.WellFormed() && n <= |c.runs| && r < |c.runs|
    ensures TotalLoad(c, profile, n) ==
            LoadElsewhere(c, r, profile, n) +
            (if r < n then Load(c.EventOf(r).policy, c.runs[r].signups, profile) else 0)
  {
    if n > 0 {
      TotalWithout(c, r, profile, n - 1);
    }
  }

  lemma {:induction false} ElsewhereSame(c: Convention, d: Convention, r: nat, profile: Profile, n: nat)
    requires c.WellFormed() && d.WellFormed() && |c.runs| == |d.runs| && n <= |c.runs| && d.events == c.events
    requires forall o :: 0 <= o < |c.runs| && o != r ==> d.runs[o] == c.runs[o]
    ensures LoadElsewhere(d, r, profile, n) == LoadElsewhere(c, r, profile, n)
  {
    if n > 0 {
      ElsewhereSame(c, d, r, profile, n - 1);
    }
  }

  ghost predicate WithinLimit(c: Convention, max: nat)
    requires c.WellFormed()
  {
    forall profile :: TotalLoad(c, profile, |c.runs|) <= max
  }

  // -------------------------------------------------------------------------------- signing up

  /** A new signup that loads its profile was checked against the limit. */
  lemma NewLoadIsChecked(c: Convention, q: Request)
    requires c.WellFormed() && TrySignUp(c, q).Some?
    ensures |Placing(c, q).signups| == |c.runs[q.run].signups| + 1
    ensures Loads(c.EventOf(q.run).policy, Placing(c, q).signups[|c.runs[q.run].signups|]) ==>
              CountChecked(c, q.run, q.profile, q.requested)
  {
    PlaceEvolves(c.EventOf(q.run).policy, c.EventOf(q.run).team, c.runs[q.run].signups, q.profile, q.requested, q.createdAt);
  }

  lemma SignUpTotal(c: Convention, q: Request, profile: Profile)
    requires Safe(c) && TrySignUp(c, q).Some?
    ensures var d := TrySignUp(c, q).value;
            var n := |c.runs[q.run].signups|;
            d.WellFormed() && |d.runs[q.run].signups| == n + 1 && d.runs[q.run].signups[n].profile == q.profile &&
            TotalLoad(d, profile, |d.runs|) ==
            TotalLoad(c, profile, |c.runs|) + One(c.EventOf(q.run).policy, d.runs[q.run].signups[n], profile)
  {
    var d := TrySignUp(c, q).value;
    var p, team, signups := c.EventOf(q.run).policy, c.EventOf(q.run).team, c.runs[q.run].signups;
    assert SafeRun(p, team, signups);
    SignUpIsSafe(c, q);
    PlaceLoads(p, team, signups, q.profile, q.requested, q.createdAt, profile);
    TotalWithout(c, q.run, profile, |c.runs|);
    TotalWithout(d, q.run, profile, |d.runs|);
    ElsewhereSame(c, d, q.run, profile, |c.runs|);
  }

  /** A signup made under the maximum neither passes it nor brings anybody back within it. */
  lemma SignUpStaysWithin(c: Convention, q: Request, max: nat)
    requires Safe(c) && TrySignUp(c, q).Some? && q.limit == AtMost(max)
    ensures TrySignUp(c, q).value.WellFormed()
    ensures WithinLimit(TrySignUp(c, q).value, max) <==> WithinLimit(c, max)
  {
    var d := TrySignUp(c, q).value;
    var n := |c.runs[q.run].signups|;
    SignUpIsSafe(c, q);
    NewLoadIsChecked(c, q);
    forall profile
      ensures TotalLoad(c, profile, |c.runs|) <= max ==> TotalLoad(d, profile, |d.runs|) <= max
      ensures TotalLoad(c, profile, |c.runs|) <= TotalLoad(d, profile, |d.runs|)
    {
      SignUpTotal(c, q, profile);
      TotalWithout(c, q.run, profile, |c.runs|);
      NoSignupNoLoad(c.EventOf(q.run).policy, c.runs[q.run].signups, q.profile);
    }
  }

  // -------------------------------------------------------------------------------- withdrawing

  ghost function CancelMovers(c: Convention, w: Cancellation): seq<Signup>
    requires c.WellFormed() && w.run < |c.runs| && w.signup < |c.runs[w.run].signups|
  {
    WithdrawMovers(c.EventOf(w.run).policy, c.EventOf(w.run).team, c.runs[w.run].signups, w.signup)
  }

  lemma CancelTotal(c: Convention, w: Cancellation, profile: Profile)
    requires Safe(c) && TryCancel(c, w).Some?
    ensures var d, p := TryCancel(c, w).value, c.EventOf(w.run).policy;
            TotalLoad(d, profile, |d.runs|) ==
            TotalLoad(c, profile, |c.runs|) - One(p, c.runs[w.run].signups[w.signup], profile) +
            Gain(p, CancelMovers(c, w), profile)
  {
    var d := TryCancel(c, w).value;
    assert SafeRun(c.EventOf(w.run).policy, c.EventOf(w.run).team, c.runs[w.run].signups);
    WithdrawLoads(c.EventOf(w.run).policy, c.EventOf(w.run).team, c.runs[w.run].signups, w.signup, profile);
    TotalWithout(c, w.run, profile, |c.runs|);
    TotalWithout(d, w.run, profile, |d.runs|);
    ElsewhereSame(c, d, w.run, profile, |c.runs|);
  }

  /** Nobody's load, less the withdrawn signup and with the movers that do not load yet, is too much. */
  ghost predicate CancelFits(c: Convention, w: Cancellation, max: nat)
    requires c.WellFormed() && w.run < |c.runs| && w.signup < |c.runs[w.run].signups|
  {
    var p := c.EventOf(w.run).policy;
    forall profile ::
      TotalLoad(c, profile, |c.runs|) - One(p, c.runs[w.run].signups[w.signup], profile) +
      Gain(p, CancelMovers(c, w), profile) <= max
  }

  lemma CancelWithinExactly(c: Convention, w: Cancellation, max: nat)
    requires Safe(c) && TryCancel(c, w).Some?
    ensures WithinLimit(TryCancel(c, w).value, max) <==> CancelFits(c, w, max)
  {
    forall profile
      ensures var d, p := TryCancel(c, w).value, c.EventOf(w.run).policy;
              TotalLoad(d, profile, |d.runs|) ==
              TotalLoad(c, profile, |c.runs|) - One(p, c.runs[w.run].signups[w.signup], profile) +
              Gain(p, CancelMovers(c, w), profile)
    {
      CancelTotal(c, w, profile);
    }
  }

  /**
   * In a good convention within the maximum, a withdrawal takes somebody past it exactly when it
   * promotes a signup that waits for a bucket that does not count, of a profile that is at the
   * maximum.
   */
  lemma CancelPassesLimit(c: Convention, w: Cancellation, max: nat)
    requires Good(c) && Safe(c) && WithinLimit(c, max) && TryCancel(c, w).Some?
    ensures !WithinLimit(TryCancel(c, w).value, max) <==>
            var x := LastWaiting(CancelMovers(c, w));
            x.Some? && AwaitsUncounted(c.EventOf(w.run).policy, x.value) &&
            x.value.profile != c.runs[w.run].signups[w.signup].profile &&
            TotalLoad(c, x.value.profile, |c.runs|) == max
  {
    var p, team, signups := c.EventOf(w.run).policy, c.EventOf(w.run).team, c.runs[w.run].signups;
    assert GoodRun(p, team, signups);
    CancelWithinExactly(c, w, max);
    var x := LastWaiting(CancelMovers(c, w));
    if x.Some? {
      PromoteeIsAnother(p, team, signups, w.signup);
    }
    forall profile
      ensures Gain(p, CancelMovers(c, w), profile) ==
              if x.Some? && x.value.profile == profile && AwaitsUncounted(p, x.value) then 1 else 0
      ensures TotalLoad(c, profile, |c.runs|) <= max
    {
      WithdrawGain(p, team, signups, w.signup, profile);
    }
  }

  /** With one active signup per profile, the one promoted is another's. */
  lemma PromoteeIsAnother(p: Policy, team: set<Profile>, signups: seq<Signup>, i: nat)
    requires p.Valid() && Sound(p, team, signups) && OncePerProfile(signups) && i < |signups|
    requires LastWaiting(WithdrawMovers(p, team, signups, i)).Some?
    ensures LastWaiting(WithdrawMovers(p, team, signups, i)).value.profile != signups[i].profile
  {
    var x := LastWaiting(WithdrawMovers(p, team, signups, i)).value;
    MoversAreActive(p, team, signups, i, Vacating.Withdrawal(signups[i]), x);
    var j :| 0 <= j < |signups| && signups[j] == x;
  }

  // -------------------------------------------------------------------------------- joining a team

  ghost function MoversOfJoin(c: Convention, e: nat, joining: Profile, r: nat): seq<Signup>
    requires c.WellFormed() && e < |c.events| && r < |c.runs|
  {
    if c.runs[r].event == e then JoinMovers(c.events[e].policy, c.events[e].team + {joining}, c.runs[r].signups, joining)
    else []
  }

  /** What the profile gains in the first `n` runs when `joining` joins the team of the event. */
  ghost function JoinGains(c: Convention, e: nat, joining: Profile, profile: Profile, n: nat): nat
    requires c.WellFormed() && e < |c.events| && n <= |c.runs|
  {
    if n == 0 then 0
    else
      JoinGains(c, e, joining, profile, n - 1) +
      Gain(c.events[e].policy, MoversOfJoin(c, e, joining, n - 1), profile)
  }

  lemma JoinedLoad(c: Convention, e: nat, joining: Profile, profile: Profile, r: nat)
    requires Safe(c) && TryJoin(c, e, joining).Some? && r < |c.runs|
    ensures var d := TryJoin(c, e, joining).value;
            d.WellFormed() && JoinedLoads(c, d, e, joining, profile, r)
  {
    JoinIsSafe(c, e, joining);
    assert SafeRun(c.EventOf(r).policy, c.EventOf(r).team, c.runs[r].signups);
    assert Joined(c, e, joining, r).Done?;
    if c.runs[r].event == e {
      JoinLoads(c.events[e].policy, c.events[e].team, c.runs[r].signups, joining, profile);
    }
  }

  /** Per run: the joining profile's load does not rise, and the others' rise by what they gain. */
  ghost predicate JoinedLoads(c: Convention, d: Convention, e: nat, joining: Profile, profile: Profile, r: nat)
    requires c.WellFormed() && d.WellFormed() && e < |c.events| && r < |c.runs| == |d.runs|
  {
    (profile == joining ==>
       Load(d.EventOf(r).policy, d.runs[r].signups, profile) <= Load(c.EventOf(r).policy, c.runs[r].signups, profile)) &&
    (profile != joining ==>
       Load(d.EventOf(r).policy, d.runs[r].signups, profile) ==
       Load(c.EventOf(r).policy, c.runs[r].signups, profile) +
       Gain(c.events[e].policy, MoversOfJoin(c, e, joining, r), profile))
  }

  lemma {:induction false} JoinedTotal(c: Convention, d: Convention, e: nat, joining: Profile, profile: Profile, n: nat)
    requires c.WellFormed() && d.WellFormed() && e < |c.events| && n <= |c.runs| == |d.runs|
    requires forall r :: 0 <= r < n ==> JoinedLoads(c, d, e, joining, profile, r)
    ensures profile == joining ==> TotalLoad(d, profile, n) <= TotalLoad(c, profile, n)
    ensures profile != joining ==>
              TotalLoad(d, profile, n) == TotalLoad(c, profile, n) + JoinGains(c, e, joining, profile, n)
  {
    if n > 0 {
      JoinedTotal(c, d, e, joining, profile, n - 1);
      assert JoinedLoads(c, d, e, joining, profile, n - 1);
    }
  }

  lemma JoinTotal(c: Convention, e: nat, joining: Profile, profile: Profile)
    requires Safe(c) && TryJoin(c, e, joining).Some?
    ensures var d, n := TryJoin(c, e, joining).value, |c.runs|;
            d.WellFormed() && |d.runs| == n &&
            (profile == joining ==> TotalLoad(d, profile, n) <= TotalLoad(c, profile, n)) &&
            (profile != joining ==> TotalLoad(d, profile, n) == TotalLoad(c, profile, n) + JoinGains(c, e, joining, profile, n))
  {
    var d := TryJoin(c, e, joining).value;
    JoinIsSafe(c, e, joining);
    forall r | 0 <= r < |c.runs| ensures JoinedLoads(c, d, e, joining, profile, r) {
      JoinedLoad(c, e, joining, profile, r);
    }
    JoinedTotal(c, d, e, joining, profile, |c.runs|);
  }

  /** Nobody else's load, with what they gain in all runs of the event, is too much. */
  ghost predicate JoinFits(c: Convention, e: nat, joining: Profile, max: nat)
    requires c.WellFormed() && e < |c.events|
  {
    forall profile :: profile != joining ==>
      TotalLoad(c, profile, |c.runs|) + JoinGains(c, e, joining, profile, |c.runs|) <= max
  }

  lemma JoinWithinExactly(c: Convention, e: nat, joining: Profile, max: nat)
    requires Safe(c) && WithinLimit(c, max) && TryJoin(c, e, joining).Some?
    ensures TryJoin(c, e, joining).value.WellFormed()
    ensures WithinLimit(TryJoin(c, e, joining).value, max) <==> JoinFits(c, e, joining, max)
  {
    JoinIsSafe(c, e, joining);
    var d := TryJoin(c, e, joining).value;
    forall profile
      ensures profile == joining ==> TotalLoad(d, profile, |d.runs|) <= max
      ensures profile != joining ==>
                TotalLoad(d, profile, |d.runs|) ==
                TotalLoad(c, profile, |c.runs|) + JoinGains(c, e, joining, profile, |c.runs|)
    {
      JoinTotal(c, e, joining, profile);
      assert TotalLoad(c, profile, |c.runs|) <= max;
    }
  }

  // -------------------------------------------------------------------------------- histories

  /** Policies are fixed, and every signup call is made under the numeric maximum `max`. */
  ghost predicate Capped(s: Step, max: nat) {
    KeepsPolicies(s) &&
    (s.SignUp? || s.AcceptSignupRequest? ==> s.request.limit == AtMost(max))
  }

  /** What a call must leave room for; one that fails does not matter. */
  ghost predicate Fits(c: Convention, s: Step, max: nat)
    requires c.WellFormed()
  {
    Try(c, s).Some? ==>
      match s
      case CancelSignup(w) => CancelFits(c, w, max)
      case AcceptSignupRequest(replaced, _) => replaced.Some? ==> CancelFits(c, replaced.value, max)
      case JoinTeam(e, profile) => JoinFits(c, e, profile, max)
      case _ => true
  }

  /** A call stays within the maximum exactly when it fits. */
  lemma PerformWithinExactly(c: Convention, s: Step, max: nat)
    requires Safe(c) && WithinLimit(c, max) && Capped(s, max)
    ensures Perform(c, s).WellFormed()
    ensures WithinLimit(Perform(c, s), max) <==> Fits(c, s, max)
  {
    PerformIsSafe(c, s);
    if Try(c, s).Some? {
      match s {
        case SignUp(q) => SignUpStaysWithin(c, q, max);
        case CancelSignup(w) => CancelWithinExactly(c, w, max);
        case AcceptSignupRequest(replaced, q) =>
          if replaced.Some? {
            CancelWithinExactly(c, replaced.value, max);
            CancelIsSafe(c, replaced.value);
            SignUpStaysWithin(TryCancel(c, replaced.value).value, q, max);
          } else {
            SignUpStaysWithin(c, q, max);
          }
        case JoinTeam(e, profile) => JoinWithinExactly(c, e, profile, max);
      }
    }
  }

  ghost predicate WithinThroughout(c: Convention, history: seq<Step>, max: nat)
    decreases |history|
  {
    c.WellFormed() && WithinLimit(c, max) &&
    (history != [] ==> WithinThroughout(Perform(c, history[0]), history[1..], max))
  }

  ghost predicate FitsThroughout(c: Convention, history: seq<Step>, max: nat)
    decreases |history|
  {
    history != [] ==>
      c.WellFormed() && Fits(c, history[0], max) && FitsThroughout(Perform(c, history[0]), history[1..], max)
  }

  lemma {:induction false} WithinExactlyWhenFits(c: Convention, history: seq<Step>, max: nat)
    requires Safe(c) && WithinLimit(c, max) && forall s :: s in history ==> Capped(s, max)
    ensures WithinThroughout(c, history, max) <==> FitsThroughout(c, history, max)
    decreases |history|
  {
    if history != [] {
      PerformWithinExactly(c, history[0], max);
      PerformIsSafe(c, history[0]);
      if WithinLimit(Perform(c, history[0]), max) {
        WithinExactlyWhenFits(Perform(c, history[0]), history[1..], max);
      }
    }
  }

  lemma {:induction false} FreshLoad(c: Convention, profile: Profile, n: nat)
    requires Fresh(c) && n <= |c.runs|
    ensures TotalLoad(c, profile, n) == 0
  {
    if n > 0 {
      FreshLoad(c, profile, n - 1);
    }
  }

  /**
   * Under a fixed maximum and fixed policies, whatever calls are made: nobody is ever past the maximum
   * exactly when every withdrawal and every conversion leaves room for those it moves.
   */
  lemma EveryHistoryWithinExactly(c: Convention, history: seq<Step>, max: nat)
    requires Fresh(c) && forall s :: s in history ==> Capped(s, max)
    ensures WithinThroughout(c, history, max) <==> FitsThroughout(c, history, max)
  {
    FreshIsSafe(c);
    forall profile ensures TotalLoad(c, profile, |c.runs|) <= max {
      FreshLoad(c, profile, |c.runs|);
    }
    WithinExactlyWhenFits(c, history, max);
  }

  // ------------------------------------------------------------- policies whose limited buckets count

  ghost predicate AllLimitedCount(c: Convention) {
    forall e :: 0 <= e < |c.events| ==> c.events[e].policy.LimitedBucketsCount()
  }

  /** With every limited bucket counted, nobody waits for a bucket that does not count. */
  lemma NobodyGains(c: Convention, r: nat, x: Option<Signup>)
    requires Good(c) && AllLimitedCount(c) && r < |c.runs| && (x.Some? ==> x.value in c.runs[r].signups)
    ensures !(x.Some? && AwaitsUncounted(c.EventOf(r).policy, x.value))
  {
    var p, team, signups := c.EventOf(r).policy, c.EventOf(r).team, c.runs[r].signups;
    assert GoodRun(p, team, signups);
    StableWaitingCounts(p, signups);
  }

  lemma CancelFitsCounted(c: Convention, w: Cancellation, max: nat)
    requires Good(c) && Safe(c) && AllLimitedCount(c) && WithinLimit(c, max) && TryCancel(c, w).Some?
    ensures CancelFits(c, w, max)
  {
    var p, team, signups := c.EventOf(w.run).policy, c.EventOf(w.run).team, c.runs[w.run].signups;
    var x := LastWaiting(CancelMovers(c, w));
    assert SafeRun(p, team, signups);
    if x.Some? {
      MoversAreActive(p, team, signups, w.signup, Vacating.Withdrawal(signups[w.signup]), x.value);
    }
    NobodyGains(c, w.run, x);
    CancelPassesLimit(c, w, max);
    CancelWithinExactly(c, w, max);
  }

  lemma {:induction false} NoJoinGains(c: Convention, e: nat, joining: Profile, profile: Profile, n: nat)
    requires Good(c) && Safe(c) && AllLimitedCount(c) && e < |c.events| && n <= |c.runs|
    ensures JoinGains(c, e, joining, profile, n) == 0
  {
    if n > 0 {
      var r := n - 1;
      NoJoinGains(c, e, joining, profile, r);
      if c.runs[r].event == e {
        var p, team, signups := c.events[e].policy, c.events[e].team, c.runs[r].signups;
        assert GoodRun(c.EventOf(r).policy, c.EventOf(r).team, signups);
        var movers := MoversOfJoin(c, e, joining, r);
        var x := LastWaiting(movers);
        if x.Some? {
          JoinMoversAreRows(p, team, signups, joining, x.value);
        }
        NobodyGains(c, r, x);
        JoinGain(p, team, signups, joining, profile);
      }
    }
  }

  lemma JoinMoversAreRows(p: Policy, team: set<Profile>, signups: seq<Signup>, joining: Profile, m: Signup)
    requires Shaped(p, team, signups) && m in JoinMovers(p, team + {joining}, signups, joining)
    ensures m in signups
  {
    var larger, k := team + {joining}, ActiveRow(signups, joining);
    forall s | s in signups ensures SoundRow(p, larger, s) {
      assert ShapedRow(p, team, s);
    }
    MoversAreActive(p, larger, signups, k, Vacating.Conversion(signups[k]), m);
  }

  lemma {:induction false} CountedHistoryFits(c: Convention, history: seq<Step>, max: nat)
    requires Good(c) && Safe(c) && AllLimitedCount(c) && WithinLimit(c, max)
    requires forall s :: s in history ==> Capped(s, max)
    ensures FitsThroughout(c, history, max)
    decreases |history|
  {
    if history != [] {
      var s := history[0];
      CountedCallFits(c, s, max);
      PerformWithinExactly(c, s, max);
      PerformIsSafe(c, s);
      PerformIsGood(c, s);
      CountedHistoryFits(Perform(c, s), history[1..], max);
    }
  }

  lemma CountedCallFits(c: Convention, s: Step, max: nat)
    requires Good(c) && Safe(c) && AllLimitedCount(c) && WithinLimit(c, max) && Capped(s, max)
    ensures Fits(c, s, max) && AllLimitedCount(Perform(c, s))
  {
    if Try(c, s).Some? {
      match s {
        case SignUp(q) =>
        case CancelSignup(w) => CancelFitsCounted(c, w, max);
        case AcceptSignupRequest(replaced, q) =>
          if replaced.Some? {
            CancelFitsCounted(c, replaced.value, max);
          }
        case JoinTeam(e, joining) =>
          forall profile ensures TotalLoad(c, profile, |c.runs|) + JoinGains(c, e, joining, profile, |c.runs|) <= max {
            NoJoinGains(c, e, joining, profile, |c.runs|);
          }
      }
    }
  }

  /** With every limited bucket counted, nobody is ever past the maximum. */
  lemma EveryHistoryWithinLimit(c: Convention, history: seq<Step>, max: nat)
    requires Fresh(c) && AllLimitedCount(c) && forall s :: s in history ==> Capped(s, max)
    ensures WithinThroughout(c, history, max)
  {
    FreshIsSafe(c);
    FreshIsGood(c);
    forall profile ensures TotalLoad(c, profile, |c.runs|) <= max {
      FreshLoad(c, profile, |c.runs|);
    }
    CountedHistoryFits(c, history, max);
    WithinExactlyWhenFits(c, history, max);
  }
}
