/** While policies are fixed nobody sits in a limited bucket they did not ask for while the one they
    asked for has a free slot. */
module Settling {
  import opened Sorting
  import opened Registration
  import opened BucketFinder
  import opened Allocation
  import opened VacancyFill
  import opened VacancyChain
  import opened VacancyInvariants
  import opened Vacating
  import opened EventSignup
  import opened Choices
  import opened Placements
  import opened RunSteps
  import opened ConventionRuns
  import opened FixedPolicies

  /** The signup asked for bucket `c`, which counts, and sits in another one, limited and counting. */
  ghost predicate Elsewhere(p: Policy, s: Signup, c: Bucket) {
    s.state.Confirmed? && c in p.buckets && !c.notCounted && s.requested == Some(c.key) && s.bucketKey != s.requested &&
    exists b :: b in p.buckets && b.slotsLimited && !b.notCounted && s.bucketKey == Some(b.key)
  }

  ghost predicate Settled(p: Policy, signups: seq<Signup>) {
    forall s, c :: s in signups && Elsewhere(p, s, c) ==> FullOfCounted(c, signups)
  }

  /** While a chain has a vacancy open at `key`: the bucket asked for is full, counting the open slot as
      taken, and the signup is still to be moved. */
  ghost predicate Settling(p: Policy, signups: seq<Signup>, candidates: seq<Signup>, key: Option<Key>) {
    forall s, c :: s in signups && Elsewhere(p, s, c) ==>
      s in candidates && c.slotsLimited && CountBack(c, signups, key) >= c.totalSlots
  }

  /** When nobody can take the vacancy, nobody asked for it who sits elsewhere. */
  lemma NoTakerIsSettled(p: Policy, signups: seq<Signup>, candidates: seq<Signup>, v: Bucket)
    requires p.Valid() && v in p.buckets && Settling(p, signups, candidates, Some(v.key))
    requires Takers(p, candidates, v) == []
    ensures Settled(p, signups)
  {
    forall s, c | s in signups && Elsewhere(p, s, c) ensures FullOfCounted(c, signups) {
      LookupFinds(p, v);
      LookupFinds(p, c);
      var b :| b in p.buckets && b.slotsLimited && !b.notCounted && s.bucketKey == Some(b.key);
      LookupFinds(p, b);
      assert c == v ==> s in Takers(p, candidates, v);
    }
  }

  /** A promotion fills the vacancy. Who is promoted elsewhere than asked was shut out of what it asked for. */
  lemma PromotionIsSettled(p: Policy, team: set<Profile>, signups: seq<Signup>, candidates: seq<Signup>, v: Bucket, w: Signup)
    requires p.Valid() && v in p.buckets && VacancyOpen(p, team, signups, candidates, Some(v.key))
    requires Settling(p, signups, candidates, Some(v.key)) && w in candidates && w.state.Waitlisted?
    ensures Settled(p, signups[w.id := Seat(w, v)])
  {
    var after := signups[w.id := Seat(w, v)];
    LookupFinds(p, v);
    CountsAfterSeat(p, signups, w, v);
    assert w in signups;
    forall s, c | s in after && Elsewhere(p, s, c) ensures FullOfCounted(c, after) {
      if s == Seat(w, v) {
        PrioritizedRequested(p, c.key, c);
      } else {
        assert s in signups;
      }
    }
  }

  /** A confirmed signup that is moved has what it asked for, or asked for nothing. */
  lemma MovedIsSettled(p: Policy, team: set<Profile>, s: Signup, v: Bucket)
    requires p.Valid() && v in p.buckets && v.CountedLimited() && CanTake(p, s, v) && s.state.Confirmed?
    requires ShapedRow(p, team, s) && s.profile !in team && KnownRequest(p, s) && SeatedAsAsked(p, s)
    ensures forall c :: !Elsewhere(p, Seat(s, v), c)
    ensures KnownRequest(p, Seat(s, v)) && SeatedAsAsked(p, Seat(s, v))
  {
    LookupFinds(p, v);
    if !s.NoPreference() && v.anything {
      AnythingUnique(p, v);
      AnythingUnique(p, p.BucketWithKey(s.bucketKey).value);
    }
  }

  lemma MoveSettles(p: Policy, team: set<Profile>, signups: seq<Signup>, candidates: seq<Signup>, key: Option<Key>)
    requires p.Valid() && VacancyOpen(p, team, signups, candidates, key)
    requires Settling(p, signups, candidates, key) && Preferring(p, signups)
    requires var takers := Takers(p, candidates, p.BucketWithKey(key).value);
             takers != [] && takers[0].state.Confirmed?
    ensures var v := p.BucketWithKey(key).value;
            var s := Takers(p, candidates, v)[0];
            s.id < |signups| &&
            var after := signups[s.id := Seat(s, v)];
            Settling(p, after, Without(candidates, s.id), s.bucketKey) && Preferring(p, after)
  {
    var v := p.BucketWithKey(key).value;
    FirstLink(p, signups, candidates, key);
    var s := Takers(p, candidates, v)[0];
    var after := signups[s.id := Seat(s, v)];
    assert s in signups && signups[s.id] == s;
    BackAfterSeat(p, signups, s, v);
    MovedIsSettled(p, team, s, v);
    forall x | x in after ensures x == Seat(s, v) || (x in signups && x.id != s.id) {
      var j :| 0 <= j < |after| && after[j] == x;
    }
  }

  /** From an open vacancy, a chain that completes leaves everybody settled. */
  lemma {:induction false} FillSettles(p: Policy, team: set<Profile>, signups: seq<Signup>,
                                       candidates: seq<Signup>, key: Option<Key>)
    requires p.Valid() && VacancyOpen(p, team, signups, candidates, key)
    requires Settling(p, signups, candidates, key) && Preferring(p, signups)
    requires Fill(p, signups, candidates, key).Done?
    ensures Settled(p, Fill(p, signups, candidates, key).signups)
    decreases |candidates|
  {
    var v := p.BucketWithKey(key).value;
    var takers := Takers(p, candidates, v);
    if takers == [] {
      NoTakerIsSettled(p, signups, candidates, v);
    } else {
      FirstLink(p, signups, candidates, key);
      var s := takers[0];
      if s.state.Confirmed? {
        MoveSettles(p, team, signups, candidates, key);
        VacancyHandedOn(p, team, signups, candidates, key);
        FillSettles(p, team, signups[s.id := Seat(s, v)], Without(candidates, s.id), s.bucketKey);
      } else {
        PromotionIsSettled(p, team, signups, candidates, v, s);
      }
    }
  }

  // ------------------------------------------------------------------------- calls on one run

  /** Giving up a slot that is not filled again leaves full what was asked for and full. */
  lemma QuietlySettled(p: Policy, oldTeam: set<Profile>, team: set<Profile>, signups: seq<Signup>, i: nat, x: Signup)
    requires p.Valid() && Vacated(p, oldTeam, team, signups, i, x) && Settled(p, signups)
    requires signups[i].counted ==>
               forall b :: b in p.buckets && b.slotsLimited && signups[i].ConfirmedIn(b.key) ==> b.Full(signups[i := x])
    ensures Settled(p, signups[i := x])
  {
    var after := signups[i := x];
    forall s, c | s in after && Elsewhere(p, s, c) ensures FullOfCounted(c, after) {
      assert s in signups;
      StaysFull(p, oldTeam, team, signups, i, x, c);
    }
  }

  /** Giving up a counted slot opens a vacancy in which everybody is settling. */
  lemma VacatedIsSettling(p: Policy, oldTeam: set<Profile>, team: set<Profile>, signups: seq<Signup>,
                          i: nat, x: Signup, v: Bucket)
    requires p.Valid() && Vacated(p, oldTeam, team, signups, i, x) && Settled(p, signups)
    requires v in p.buckets && signups[i].ConfirmedIn(v.key)
    ensures var after := signups[i := x];
            Settling(p, after, Unmoved(AllOrdered(after, team), {}), Some(v.key))
  {
    var after := signups[i := x];
    OrderedIsLocated(after, team, {});
    BackWhenVacated(p, oldTeam, team, signups, i, x, v);
    forall s, c | s in after && Elsewhere(p, s, c)
      ensures s in Unmoved(AllOrdered(after, team), {}) && c.slotsLimited && CountBack(c, after, Some(v.key)) >= c.totalSlots
    {
      assert s in signups && ShapedRow(p, team, s);
      assert FullOfCounted(c, signups);
    }
  }

  lemma VacatePreferring(p: Policy, signups: seq<Signup>, i: nat, x: Signup)
    requires Preferring(p, signups) && i < |signups| && x == signups[i].(state := x.state, bucketKey := None, counted := false)
    ensures Preferring(p, signups[i := x])
  {
    assert signups[i] in signups;
    forall s | s in signups[i := x] ensures KnownRequest(p, s) && SeatedAsAsked(p, s) {
      assert s == x || s in signups;
    }
  }

  lemma VacateSettles(p: Policy, oldTeam: set<Profile>, team: set<Profile>, signups: seq<Signup>, i: nat, x: Signup)
    requires p.Valid() && Vacated(p, oldTeam, team, signups, i, x) && Stable(p, signups)
    requires Settled(p, signups) && Preferring(p, signups)
    requires x == signups[i].(state := x.state, bucketKey := None, counted := false)
    requires signups[i].counted && signups[i].state.Confirmed?
    requires FillVacancy(p, signups[i := x], team, {}, signups[i].bucketKey).Done?
    ensures Settled(p, FillVacancy(p, signups[i := x], team, {}, signups[i].bucketKey).signups)
  {
    var s, vacated := signups[i], signups[i := x];
    assert s in signups;
    var v := p.BucketWithKey(s.bucketKey).value;
    if v.slotsLimited {
      OrderedIsLocated(vacated, team, {});
      OpensVacancy(p, oldTeam, team, signups, i, x, v);
      VacatedIsSettling(p, oldTeam, team, signups, i, x, v);
      VacatePreferring(p, signups, i, x);
      FillSettles(p, team, vacated, Unmoved(AllOrdered(vacated, team), {}), s.bucketKey);
    } else {
      forall b | b in p.buckets && b.slotsLimited ensures !s.ConfirmedIn(b.key) {
        LookupFinds(p, b);
      }
      QuietlySettled(p, oldTeam, team, signups, i, x);
    }
  }

  lemma WithdrawSettles(p: Policy, team: set<Profile>, signups: seq<Signup>, i: nat)
    requires p.Valid() && Shaped(p, team, signups) && Stable(p, signups) && i < |signups|
    requires Settled(p, signups) && Preferring(p, signups) && Withdraw(p, team, signups, i).Done?
    ensures Settled(p, Withdraw(p, team, signups, i).signups)
  {
    var s, x := signups[i], Withdrawal(signups[i]);
    var vacated := signups[i := x];
    forall j | 0 <= j < |vacated| ensures vacated[j].id == j && ShapedRow(p, team, vacated[j]) {
      assert signups[j] in signups;
    }
    assert s in signups;
    if s.counted && s.state.Confirmed? && !p.BucketWithKey(s.bucketKey).value.Full(vacated) {
      VacateSettles(p, team, team, signups, i, x);
    } else {
      forall b | b in p.buckets && s.ConfirmedIn(b.key) ensures p.BucketWithKey(s.bucketKey) == Some(b) {
        LookupFinds(p, b);
      }
      QuietlySettled(p, team, team, signups, i, x);
    }
  }

  lemma JoinSettles(p: Policy, team: set<Profile>, signups: seq<Signup>, profile: Profile)
    requires p.Valid() && GoodRun(p, team, signups) && Settled(p, signups) && Preferring(p, signups)
    requires ConvertFrom(p, team + {profile}, signups, profile, 0).Done?
    ensures Settled(p, ConvertFrom(p, team + {profile}, signups, profile, 0).signups)
  {
    var larger := team + {profile};
    var found, i := ConvertCases(p, larger, signups, profile, 0);
    if found {
      var s, x := signups[i], Conversion(signups[i]);
      var vacated := signups[i := x];
      forall j | 0 <= j < |vacated| ensures vacated[j].id == j && ShapedRow(p, larger, vacated[j]) {
        assert signups[j] in signups;
      }
      if s.counted && s.state.Confirmed? {
        VacateSettles(p, team, larger, signups, i, x);
      } else {
        QuietlySettled(p, team, larger, signups, i, x);
      }
    }
  }

  /** Whoever signs up and is put elsewhere than asked finds the bucket full; full buckets stay full. */
  lemma PlaceSettles(p: Policy, team: set<Profile>, signups: seq<Signup>, profile: Profile,
                     requested: Option<Key>, createdAt: int)
    requires p.Valid() && Shaped(p, team, signups) && Settled(p, signups)
    requires Place(p, team, signups, profile, requested, createdAt).Placed?
    ensures Settled(p, Place(p, team, signups, profile, requested, createdAt).signups)
  {
    var after := Place(p, team, signups, profile, requested, createdAt).signups;
    var base, bumps, i, d := PlaceCases(p, team, signups, profile, requested, createdAt);
    forall s, c | s in after && Elsewhere(p, s, c) ensures FullOfCounted(c, signups) {
      var j :| 0 <= j < |after| && after[j] == s;
      if j < |signups| {
        assert base[j] == signups[j] && signups[j] in signups;
      } else {
        WasFull(p, team, signups, profile, requested, c);
      }
    }
    forall c | c in p.buckets && FullOfCounted(c, signups) ensures FullOfCounted(c, after) {
      PlaceFillsUp(p, team, signups, profile, requested, createdAt, c);
    }
  }

  lemma WasFull(p: Policy, team: set<Profile>, signups: seq<Signup>, profile: Profile, requested: Option<Key>, c: Bucket)
    requires p.Valid() && profile !in team && c in p.buckets && requested == Some(c.key)
    requires var actual := ActualBucket(p, team, signups, profile, requested);
             actual.Some? && actual.value.key != c.key
    ensures FullOfCounted(c, signups)
  {
    ActualIsGot(p, team, signups, profile, requested);
    assert c in FreeAtRun(p, signups) ==> SomeGiven(p, requested, FreeAtRun(p, signups));
  }

  // ---------------------------------------------------------------------------- histories

  ghost predicate AllSettled(c: Convention)
    requires c.WellFormed()
  {
    forall r :: 0 <= r < |c.runs| ==> Settled(c.EventOf(r).policy, c.runs[r].signups)
  }

  lemma CancelSettles(c: Convention, w: Cancellation)
    requires Good(c) && AllPreferring(c) && AllSettled(c) && TryCancel(c, w).Some?
    ensures AllSettled(TryCancel(c, w).value)
  {
    assert GoodRun(c.EventOf(w.run).policy, c.EventOf(w.run).team, c.runs[w.run].signups);
    WithdrawSettles(c.EventOf(w.run).policy, c.EventOf(w.run).team, c.runs[w.run].signups, w.signup);
  }

  lemma SignUpSettles(c: Convention, q: Request)
    requires Good(c) && AllSettled(c) && TrySignUp(c, q).Some? && TrySignUp(c, q).value.WellFormed()
    ensures AllSettled(TrySignUp(c, q).value)
  {
    assert GoodRun(c.EventOf(q.run).policy, c.EventOf(q.run).team, c.runs[q.run].signups);
    PlaceSettles(c.EventOf(q.run).policy, c.EventOf(q.run).team, c.runs[q.run].signups, q.profile, q.requested, q.createdAt);
  }

  lemma TeamSettles(c: Convention, e: nat, profile: Profile)
    requires Good(c) && AllPreferring(c) && AllSettled(c) && TryJoin(c, e, profile).Some?
    requires TryJoin(c, e, profile).value.WellFormed()
    ensures AllSettled(TryJoin(c, e, profile).value)
  {
    var d := TryJoin(c, e, profile).value;
    forall r | 0 <= r < |d.runs| ensures Settled(d.EventOf(r).policy, d.runs[r].signups) {
      assert GoodRun(c.EventOf(r).policy, c.EventOf(r).team, c.runs[r].signups);
      assert Joined(c, e, profile, r).Done?;
      if c.runs[r].event == e {
        JoinSettles(c.events[e].policy, c.events[e].team, c.runs[r].signups, profile);
      }
    }
  }

  lemma PerformSettles(c: Convention, s: Step)
    requires Good(c) && AllPreferring(c) && AllSettled(c) && KeepsPolicies(s)
    ensures Good(Perform(c, s)) && AllPreferring(Perform(c, s)) && AllSettled(Perform(c, s))
  {
    PerformPrefers(c, s);
    if Try(c, s).Some? {
      match s {
        case SignUp(q) => SignUpSettles(c, q);
        case CancelSignup(w) => CancelSettles(c, w);
        case AcceptSignupRequest(replaced, q) =>
          if replaced.Some? {
            CancelPrefers(c, replaced.value);
            CancelSettles(c, replaced.value);
            SignUpSettles(TryCancel(c, replaced.value).value, q);
          } else {
            SignUpSettles(c, q);
          }
        case JoinTeam(e, profile) => TeamSettles(c, e, profile);
      }
    }
  }

  lemma {:induction false} SettledHistory(c: Convention, history: seq<Step>, d: Convention)
    requires Good(c) && AllPreferring(c) && AllSettled(c) && Reaches(c, history, d)
    requires forall s :: s in history ==> KeepsPolicies(s)
    ensures Good(d) && AllSettled(d)
    decreases |history|
  {
    if history != [] {
      PerformSettles(c, history[0]);
      SettledHistory(Perform(c, history[0]), history[1..], d);
    }
  }

  /**
   * While policies are fixed, whatever calls are made: nobody sits in a limited bucket that counts,
   * such as the anything bucket, while another that counts, which they asked for, has a free slot.
   */
  lemma EveryHistorySettles(c: Convention, history: seq<Step>, d: Convention, r: nat, s: Signup, asked: Bucket, sits: Bucket)
    requires Fresh(c) && Reaches(c, history, d) && forall step :: step in history ==> KeepsPolicies(step)
    requires r < |d.runs| && s in d.runs[r].signups && s.state.Confirmed?
    requires d.runs[r].event < |d.events|
    requires asked in d.EventOf(r).policy.buckets && s.requested == Some(asked.key) && !asked.notCounted
    requires sits in d.EventOf(r).policy.buckets && s.bucketKey == Some(sits.key) && sits.slotsLimited && !sits.notCounted
    ensures sits.key != asked.key ==> asked.slotsLimited && Count(d.runs[r].signups, InBucket(asked.key)) >= asked.totalSlots
  {
    FreshIsGood(c);
    forall r | 0 <= r < |c.runs|
      ensures Preferring(c.EventOf(r).policy, c.runs[r].signups) && Settled(c.EventOf(r).policy, c.runs[r].signups)
    {
      assert c.runs[r].signups == [];
    }
    SettledHistory(c, history, d);
    var p, signups := d.EventOf(r).policy, d.runs[r].signups;
    assert GoodRun(p, d.EventOf(r).team, signups) && Settled(p, signups);
    if sits.key != asked.key {
      assert Elsewhere(p, s, asked);
      ShapedCounts(p, d.EventOf(r).team, signups, asked);
    }
  }
}
