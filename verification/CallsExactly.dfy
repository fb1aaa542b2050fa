/** Exactly when calls succeed, in terms of instants, of signups elsewhere and of buckets; and that
    nobody is ever at two places at once. */
module CallsExactly {
  import opened Sorting
  import opened Registration
  import opened Choices
  import opened Placements
  import opened EventSignup
  import opened RunSteps
  import opened ConventionRuns
  import opened AnyHistories
  import opened Promotions
  import opened PolicyChange
  import opened Replacement

  // ------------------------------------------------------------------------- the signup limit

  /** An active signup of the profile that the limit counts: a counted one, or one that waits unless
      it asks for a bucket that does not count. */
  ghost predicate UsesLimit(p: Policy, s: Signup, profile: Profile) {
    s.profile == profile && !s.state.Withdrawn? &&
    (s.counted || (s.state.Waitlisted? && forall b :: b in p.buckets && s.requested == Some(b.key) ==> !b.notCounted))
  }

  /** The rows of such signups in a run. */
  ghost function LimitRows(p: Policy, signups: seq<Signup>, profile: Profile): set<nat> {
    set i | 0 <= i < |signups| && UsesLimit(p, signups[i], profile)
  }

  lemma LoadsMeans(p: Policy, s: Signup, profile: Profile)
    requires p.Valid()
    ensures UsesLimit(p, s, profile) <==> s.profile == profile && Loads(p, s)
  {
    forall b | b in p.buckets && s.requested == Some(b.key) ensures p.BucketWithKey(s.requested) == Some(b) {
      LookupFinds(p, b);
    }
  }

  lemma {:induction false} LoadIsNumber(p: Policy, signups: seq<Signup>, profile: Profile)
    requires p.Valid()
    ensures Load(p, signups, profile) == |LimitRows(p, signups, profile)|
  {
    if signups != [] {
      var n := |signups| - 1;
      var before := LimitRows(p, signups[..n], profile);
      LoadIsNumber(p, signups[..n], profile);
      LoadsMeans(p, signups[n], profile);
      assert LimitRows(p, signups, profile) == before + if UsesLimit(p, signups[n], profile) then {n} else {};
    }
  }

  ghost function Pairs(o: nat, rows: set<nat>): set<(nat, nat)> {
    set i: nat | i in rows :: (o, i)
  }

  lemma PairsNumber(o: nat, rows: set<nat>)
    ensures |Pairs(o, rows)| == |rows|
    decreases |rows|
  {
    if i :| i in rows {
      PairsNumber(o, rows - {i});
      assert Pairs(o, rows) == Pairs(o, rows - {i}) + {(o, i)};
    } else {
      assert Pairs(o, rows) == {};
    }
  }

  /** The signups of the profile the limit counts, in the first `n` runs but for run `r`, as pairs of run
      and row. */
  ghost function Elsewhere(c: Convention, r: nat, profile: Profile, n: nat): set<(nat, nat)>
    requires c.WellFormed() && n <= |c.runs|
  {
    set o: nat, i: nat | o < n && o != r && i in LimitRows(c.EventOf(o).policy, c.runs[o].signups, profile) :: (o, i)
  }

  lemma ElsewhereGrows(c: Convention, r: nat, profile: Profile, o: nat)
    requires c.WellFormed() && o < |c.runs|
    ensures var rows := LimitRows(c.EventOf(o).policy, c.runs[o].signups, profile);
            |Elsewhere(c, r, profile, o + 1)| == |Elsewhere(c, r, profile, o)| + if o == r then 0 else |rows|
  {
    var rows := LimitRows(c.EventOf(o).policy, c.runs[o].signups, profile);
    var before, more := Elsewhere(c, r, profile, o), if o == r then {} else Pairs(o, rows);
    PairsNumber(o, rows);
    assert before !! more;
    assert Elsewhere(c, r, profile, o + 1) == before + more;
  }

  lemma {:induction false} LoadElsewhereIsNumber(c: Convention, r: nat, profile: Profile, n: nat)
    requires c.WellFormed() && n <= |c.runs|
    ensures LoadElsewhere(c, r, profile, n) == |Elsewhere(c, r, profile, n)|
  {
    if n == 0 {
      assert Elsewhere(c, r, profile, 0) == {};
    } else {
      LoadElsewhereIsNumber(c, r, profile, n - 1);
      LoadIsNumber(c.EventOf(n - 1).policy, c.runs[n - 1].signups, profile);
      ElsewhereGrows(c, r, profile, n - 1);
    }
  }

  /** The signup would count towards the limit: it would wait, or sit in a bucket that counts. */
  ghost predicate WouldCount(c: Convention, q: Request)
    requires c.WellFormed() && q.run < |c.runs|
  {
    q.profile !in c.EventOf(q.run).team &&
    forall b :: GetsAtRun(c.EventOf(q.run).policy, q.requested, c.runs[q.run].signups, b) ==> !b.notCounted
  }

  lemma CheckedMeans(c: Convention, q: Request)
    requires c.WellFormed() && q.run < |c.runs|
    ensures CountChecked(c, q.run, q.profile, q.requested) <==> WouldCount(c, q)
  {
    var p, team, signups := c.EventOf(q.run).policy, c.EventOf(q.run).team, c.runs[q.run].signups;
    if q.profile !in team {
      ActualIsGot(p, team, signups, q.profile, q.requested);
      var actual := ActualBucket(p, team, signups, q.profile, q.requested);
      forall b | GetsAtRun(p, q.requested, signups, b) ensures actual.Some? && (b.notCounted ==> b == actual.value) {
        if q.requested.Some? {
          GetsOne(p, q.requested, FreeAtRun(p, signups), CanBumpAtRun(p, signups), b, actual.value);
        }
      }
    }
  }

  // ---------------------------------------------------------------------------- the schedule

  /** The profile has an active signup in another run that is on at the same time and forbids
      concurrent play, and is not on the team of both events. */
  ghost predicate Busy(c: Convention, r: nat, profile: Profile, o: nat)
    requires c.WellFormed() && r < |c.runs| && o < |c.runs|
  {
    o != r && !c.EventOf(o).canPlayConcurrently && AtOnce(c.runs[r], c.runs[o]) &&
    (exists s :: s in c.runs[o].signups && s.profile == profile && !s.state.Withdrawn?) &&
    !(profile in c.EventOf(r).team && profile in c.EventOf(o).team)
  }

  lemma ConflictMeans(c: Convention, r: nat, profile: Profile)
    requires c.WellFormed() && r < |c.runs| && forall o :: 0 <= o < |c.runs| ==> c.runs[o].start <= c.runs[o].finish
    ensures Conflicting(c, r, profile) <==> exists o :: 0 <= o < |c.runs| && Busy(c, r, profile, o)
  {
    forall o | 0 <= o < |c.runs|
      ensures Busy(c, r, profile, o) <==>
              o != r && SignedUp(c.runs[o].signups, profile) && !c.EventOf(o).canPlayConcurrently &&
              Overlap(c.runs[r], c.runs[o]) && !(OnTeam(c, r, profile) && OnTeam(c, o, profile))
    {
      AtOnceOverlap(c.runs[r], c.runs[o]);
    }
  }

  ghost predicate Allowed(c: Convention, q: Request)
    requires c.WellFormed() && q.run < |c.runs|
  {
    q.admissible &&
    (forall s :: s in c.runs[q.run].signups && s.profile == q.profile ==> s.state.Withdrawn?) &&
    (c.EventOf(q.run).canPlayConcurrently || forall o :: 0 <= o < |c.runs| ==> !Busy(c, q.run, q.profile, o)) &&
    (WouldCount(c, q) ==>
       q.limit != NotYet && (q.limit.AtMost? ==> |Elsewhere(c, q.run, q.profile, |c.runs|)| < q.limit.n))
  }

  /**
   * A signup is refused before it is placed exactly when a check outside the allocator refuses it,
   * the profile is signed up for the run already, the event and another run at the same time that the
   * profile is signed up for both forbid concurrent play, or it would count towards the limit, which
   * does not allow any yet or does not allow one more.
   */
  lemma MaySignUpExactly(c: Convention, q: Request)
    requires c.WellFormed() && q.run < |c.runs| && forall o :: 0 <= o < |c.runs| ==> c.runs[o].start <= c.runs[o].finish
    ensures MaySignUp(c, q) <==> Allowed(c, q)
  {
    CheckedMeans(c, q);
    ConflictMeans(c, q.run, q.profile);
    LoadElsewhereIsNumber(c, q.run, q.profile, |c.runs|);
  }

  /** After any history nobody is at two places at once: a profile with active signups in two runs that
      are both on at some instant, of events that both forbid concurrent play, is on both teams. */
  lemma NobodyAtTwoPlaces(c: Convention, history: seq<Step>, d: Convention, r: nat, o: nat, t: int, s: Signup, x: Signup)
    requires Fresh(c) && Reaches(c, history, d) && r < |d.runs| && o < |d.runs| && r != o
    requires s in d.runs[r].signups && x in d.runs[o].signups && s.profile == x.profile
    requires !s.state.Withdrawn? && !x.state.Withdrawn?
    requires d.runs[r].start <= t < d.runs[r].finish && d.runs[o].start <= t < d.runs[o].finish
    ensures d.WellFormed()
    ensures d.EventOf(r).canPlayConcurrently || d.EventOf(o).canPlayConcurrently ||
            (s.profile in d.EventOf(r).team && s.profile in d.EventOf(o).team)
  {
    EveryHistoryIsSafe(c, history, d);
    assert BothOn(d.runs[r], d.runs[o], t) && ClashFree(d, r, o, s.profile);
  }

  // ---------------------------------------------------------------------- when calls succeed

  /** A team member states no preference; anybody else states one, for a bucket of the policy that is not
      the anything bucket, or states none where the policy lets them. */
  ghost predicate Understood(p: Policy, team: set<Profile>, profile: Profile, requested: Option<Key>) {
    if profile in team then requested.None?
    else if requested.None? then !p.preventNoPreference
    else exists b :: b in p.buckets && b.key == requested.value && !b.anything
  }

  /** What the request gets is full and does not count. */
  ghost predicate GetsFullUncounted(p: Policy, requested: Option<Key>, signups: seq<Signup>) {
    requested.Some? && exists b :: GetsAtRun(p, requested, signups, b) && b.notCounted && b.Full(signups)
  }

  /** In a good convention a sign-up succeeds exactly when it is allowed, its request is understood, and
      it does not get a bucket that is full and does not count. */
  lemma SignUpSucceedsExactly(c: Convention, q: Request)
    requires Good(c) && q.run < |c.runs| && forall o :: 0 <= o < |c.runs| ==> c.runs[o].start <= c.runs[o].finish
    ensures var p, team, signups := c.EventOf(q.run).policy, c.EventOf(q.run).team, c.runs[q.run].signups;
            TrySignUp(c, q).Some? <==>
            Allowed(c, q) && Understood(p, team, q.profile, q.requested) &&
            (q.profile in team || !GetsFullUncounted(p, q.requested, signups))
  {
    var p, team, signups := c.EventOf(q.run).policy, c.EventOf(q.run).team, c.runs[q.run].signups;
    assert GoodRun(p, team, signups);
    MaySignUpExactly(c, q);
    RefusesExactly(p, team, signups, q.profile, q.requested, q.createdAt);
    if Understood(p, team, q.profile, q.requested) {
      PlaceRaisesOutside(p, team, signups, q.profile, q.requested, q.createdAt);
    }
  }

  /** In a safe convention a withdrawal of a signup succeeds exactly when the checks outside the allocator
      let it and it moves nobody whose request names a bucket the policy does not have. */
  lemma CancelSucceedsExactly(c: Convention, w: Cancellation)
    requires Safe(c)
    ensures TryCancel(c, w).Some? <==>
            w.admissible && w.run < |c.runs| && w.signup < |c.runs[w.run].signups| &&
            forall m :: m in WithdrawMovers(c.EventOf(w.run).policy, c.EventOf(w.run).team, c.runs[w.run].signups, w.signup) &&
                        m.requested.Some? ==>
              exists b :: b in c.EventOf(w.run).policy.buckets && b.key == m.requested.value
  {
    if w.run < |c.runs| && w.signup < |c.runs[w.run].signups| {
      var p, team, signups := c.EventOf(w.run).policy, c.EventOf(w.run).team, c.runs[w.run].signups;
      assert SafeRun(p, team, signups);
      WithdrawRaises(p, team, signups, w.signup);
      forall m: Signup | m.requested.Some?
        ensures StaleRequest(p, m) <==> !exists b :: b in p.buckets && b.key == m.requested.value
      {
        assert p.BucketWithKey(m.requested).Some? ==> p.BucketWithKey(m.requested).value in p.buckets;
      }
    }
  }

  /** A policy change succeeds exactly when the event exists, the policy is valid, and in every run of the
      event there is something for every confirmed signup at its turn. */
  lemma ChangeSucceedsExactly(c: Convention, e: nat, policy: Policy)
    requires c.WellFormed()
    ensures TryChange(c, e, policy).Some? <==>
            e < |c.events| && policy.Valid() &&
            forall r :: 0 <= r < |c.runs| && c.runs[r].event == e ==> SomethingForAll(policy, c.runs[r].signups)
  {
    if policy.Valid() {
      forall r | 0 <= r < |c.runs|
        ensures Stranded(policy, c.runs[r].signups) == [] <==> SomethingForAll(policy, c.runs[r].signups)
      {
        ChangeFitsExactly(policy, c.runs[r].signups);
      }
    }
  }
}
