/** Histories in which no registration policy changes: preferences, and calls that never raise. */
module FixedPolicies {
  import opened Registration
  import opened Allocation
  import opened EventSignup
  import opened RunSteps
  import opened ConventionRuns
  import opened Promotions
  import opened AnyHistories
  import Vacating

  ghost predicate KeepsPolicies(s: Step) { !s.ChangeRegistrationPolicy? }

  ghost predicate AllPreferring(c: Convention)
    requires c.WellFormed()
  {
    forall r :: 0 <= r < |c.runs| ==> Preferring(c.EventOf(r).policy, c.runs[r].signups)
  }

  lemma CancelPrefers(c: Convention, w: Cancellation)
    requires Good(c) && AllPreferring(c) && TryCancel(c, w).Some?
    ensures Good(TryCancel(c, w).value) && AllPreferring(TryCancel(c, w).value)
  {
    CancelIsGood(c, w);
    assert GoodRun(c.EventOf(w.run).policy, c.EventOf(w.run).team, c.runs[w.run].signups);
    WithdrawPrefers(c.EventOf(w.run).policy, c.EventOf(w.run).team, c.runs[w.run].signups, w.signup);
  }

  lemma SignUpPrefers(c: Convention, q: Request)
    requires Good(c) && AllPreferring(c) && TrySignUp(c, q).Some?
    ensures Good(TrySignUp(c, q).value) && AllPreferring(TrySignUp(c, q).value)
  {
    SignUpIsGood(c, q);
    assert GoodRun(c.EventOf(q.run).policy, c.EventOf(q.run).team, c.runs[q.run].signups);
    PlaceKeepsPreferences(c.EventOf(q.run).policy, c.EventOf(q.run).team, c.runs[q.run].signups,
                          q.profile, q.requested, q.createdAt);
  }

  lemma JoinPrefers(c: Convention, e: nat, profile: Profile)
    requires Good(c) && AllPreferring(c) && TryJoin(c, e, profile).Some?
    ensures Good(TryJoin(c, e, profile).value) && AllPreferring(TryJoin(c, e, profile).value)
  {
    JoinIsGood(c, e, profile);
    var d := TryJoin(c, e, profile).value;
    forall r | 0 <= r < |d.runs| ensures Preferring(d.EventOf(r).policy, d.runs[r].signups) {
      assert GoodRun(c.EventOf(r).policy, c.EventOf(r).team, c.runs[r].signups);
      assert Joined(c, e, profile, r).Done?;
      if c.runs[r].event == e {
        ConvertPrefers(c.events[e].policy, c.events[e].team, c.runs[r].signups, profile);
      }
    }
  }

  lemma PerformPrefers(c: Convention, s: Step)
    requires Good(c) && AllPreferring(c) && KeepsPolicies(s)
    ensures Good(Perform(c, s)) && AllPreferring(Perform(c, s))
  {
    if Try(c, s).Some? {
      match s {
        case SignUp(q) => SignUpPrefers(c, q);
        case CancelSignup(w) => CancelPrefers(c, w);
        case AcceptSignupRequest(replaced, q) =>
          if replaced.Some? {
            CancelPrefers(c, replaced.value);
            SignUpPrefers(TryCancel(c, replaced.value).value, q);
          } else {
            SignUpPrefers(c, q);
          }
        case JoinTeam(e, profile) => JoinPrefers(c, e, profile);
      }
    }
  }

  lemma {:induction false} PreferringHistory(c: Convention, history: seq<Step>, d: Convention)
    requires Good(c) && AllPreferring(c) && Reaches(c, history, d) && forall s :: s in history ==> KeepsPolicies(s)
    ensures Good(d) && AllPreferring(d)
    decreases |history|
  {
    if history != [] {
      PerformPrefers(c, history[0]);
      PreferringHistory(Perform(c, history[0]), history[1..], d);
    }
  }

  /**
   * While policies are fixed, whatever calls are made: every confirmed signup in a bucket sits in
   * the bucket it asked for or in the anything bucket or, without preference, in a counted limited
   * one; and no withdrawal raises, nor does joining a team fail for somebody not on it.
   */
  lemma EveryHistoryPrefers(c: Convention, history: seq<Step>, d: Convention)
    requires Fresh(c) && Reaches(c, history, d) && forall s :: s in history ==> KeepsPolicies(s)
    ensures d.WellFormed() && AllPreferring(d)
    ensures forall w: Cancellation :: w.run < |d.runs| && w.signup < |d.runs[w.run].signups| ==> Withdrawing(d, w).Done?
    ensures forall e: nat, profile :: e < |d.events| && profile !in d.events[e].team ==> TryJoin(d, e, profile).Some?
  {
    FreshIsGood(c);
    forall r | 0 <= r < |c.runs| ensures Preferring(c.EventOf(r).policy, c.runs[r].signups) {
      assert c.runs[r].signups == [];
    }
    PreferringHistory(c, history, d);
    EveryHistoryIsSafe(c, history, d);
    forall r | 0 <= r < |d.runs| ensures Preferring(d.EventOf(r).policy, d.runs[r].signups) {
    }
    forall w: Cancellation | w.run < |d.runs| && w.signup < |d.runs[w.run].signups| ensures Withdrawing(d, w).Done? {
      NoStaleNoRaise(d.EventOf(w.run).policy, d.EventOf(w.run).team, d.runs[w.run].signups, w.signup);
    }
    forall e: nat, profile, r | e < |d.events| && 0 <= r < |d.runs| && d.runs[r].event == e
      ensures !MovesStale(d.events[e].policy, d.events[e].team + {profile}, d.runs[r].signups, profile)
    {
      PreferringMovesNoStale(d.events[e].policy, d.events[e].team, d.runs[r].signups, profile);
    }
  }

  lemma PreferringMovesNoStale(p: Policy, team: set<Profile>, signups: seq<Signup>, profile: Profile)
    requires Sound(p, team, signups) && Preferring(p, signups)
    ensures !MovesStale(p, team + {profile}, signups, profile)
  {
    var larger := team + {profile};
    forall s | s in signups ensures SoundRow(p, larger, s) {
      assert SoundRow(p, team, s);
    }
    forall k, m | 0 <= k < |signups| && signups[k].profile == profile && m in ConvertMovers(p, larger, signups, k)
      ensures !StaleRequest(p, m)
    {
      MoversAreActive(p, larger, signups, k, Vacating.Conversion(signups[k]), m);
    }
  }
}
