/** A history of calls that takes a profile past the maximum number of signups. */
module LoadBoundaries {
  import opened Sorting
  import opened Registration
  import opened BucketFinder
  import opened Allocation
  import opened VacancyFill
  import opened EventSignup
  import opened Vacating
  import opened RunSteps
  import opened ConventionRuns
  import opened SignupLimit
  import opened Boundaries

  /**
   * Two events with a run each. The first has a talk without slots, which does not count, and an
   * anything bucket of one slot; the second has a hall of one slot. Profile `a` takes the slot of the
   * anything bucket, `b` waits for the talk and goes to the hall, and `a` withdraws.
   */
  datatype Plot = Plot(talk: Key, flex: Key, hall: Key, a: Profile, b: Profile) {
    ghost predicate Valid() { talk != flex && a != b }

    function Talk(): Bucket { LimitedBucket(talk, 0, false, true) }

    function Flex(): Bucket { LimitedBucket(flex, 1, true, false) }

    function Hall(): Bucket { LimitedBucket(hall, 1, false, false) }

    function Talks(): Policy { Policy([Talk(), Flex()], false) }

    function Halls(): Policy { Policy([Hall()], false) }

    function Taken(): Signup { Signup(0, a, Confirmed, Some(flex), None, true, 0) }

    function Waiting(): Signup { Signup(1, b, Waitlisted, None, Some(talk), false, 1) }

    function InHall(): Signup { Signup(0, b, Confirmed, Some(hall), Some(hall), true, 2) }

    function With(first: seq<Signup>, second: seq<Signup>): Convention {
      Convention([Event(Talks(), {}, true), Event(Halls(), {}, true)], [Run(0, 0, 1, first), Run(1, 1, 2, second)])
    }

    function Asks(run: nat, profile: Profile, requested: Option<Key>, createdAt: int): Step {
      SignUp(Request(run, profile, requested, createdAt, AtMost(1), true))
    }

    function History(): seq<Step> {
      [Asks(0, a, None, 0), Asks(0, b, Some(talk), 1), Asks(1, b, Some(hall), 2), CancelSignup(Cancellation(0, 0, true))]
    }
  }

  lemma PlotPolicies(x: Plot)
    requires x.Valid()
    ensures x.Talks().Valid() && x.Halls().Valid()
    ensures x.Talks().BucketWithKey(Some(x.talk)) == Some(x.Talk())
    ensures x.Talks().BucketWithKey(Some(x.flex)) == Some(x.Flex())
    ensures x.Halls().BucketWithKey(Some(x.hall)) == Some(x.Hall())
    ensures x.Flex() in x.Talks().buckets && x.Talk() in x.Talks().buckets && x.Hall() in x.Halls().buckets
    ensures Prioritized(x.Talks(), Some(x.talk)) == [x.Talk()]
    ensures Prioritized(x.Halls(), Some(x.hall)) == [x.Hall()]
  {
    LookupFinds(x.Talks(), x.Talk());
    LookupFinds(x.Talks(), x.Flex());
    LookupFinds(x.Halls(), x.Hall());
    FilterEmpty(x.Halls().buckets, IsAnything);
  }

  lemma LoadOfOne(p: Policy, s: Signup, profile: Profile)
    ensures Load(p, [s], profile) == if s.profile == profile && Loads(p, s) then 1 else 0
  {
    assert [s][..0] == [];
    assert Load(p, [], profile) == 0;
  }

  lemma LoadOfTwo(p: Policy, s: Signup, t: Signup, profile: Profile)
    ensures Load(p, [s, t], profile) ==
            (if s.profile == profile && Loads(p, s) then 1 else 0) + (if t.profile == profile && Loads(p, t) then 1 else 0)
  {
    assert [s, t][..1] == [s];
    LoadOfOne(p, s, profile);
  }

  lemma ElsewhereOfTwo(c: Convention, profile: Profile)
    requires c.WellFormed() && |c.runs| == 2
    ensures LoadElsewhere(c, 0, profile, 2) == Load(c.EventOf(1).policy, c.runs[1].signups, profile)
    ensures LoadElsewhere(c, 1, profile, 2) == Load(c.EventOf(0).policy, c.runs[0].signups, profile)
    ensures TotalLoad(c, profile, 2) ==
            Load(c.EventOf(0).policy, c.runs[0].signups, profile) + Load(c.EventOf(1).policy, c.runs[1].signups, profile)
  {
    assert LoadElsewhere(c, 0, profile, 1) == LoadElsewhere(c, 0, profile, 0);
    assert LoadElsewhere(c, 1, profile, 1) ==
           LoadElsewhere(c, 1, profile, 0) + Load(c.EventOf(0).policy, c.runs[0].signups, profile);
    assert TotalLoad(c, profile, 1) == TotalLoad(c, profile, 0) + Load(c.EventOf(0).policy, c.runs[0].signups, profile);
  }

  /** A signup call that passes its checks and is placed. */
  lemma SignsUp(c: Convention, q: Request, after: seq<Signup>)
    requires c.WellFormed() && q.run < |c.runs| && q.admissible && c.EventOf(q.run).canPlayConcurrently
    requires LimitAllows(q.limit, LoadElsewhere(c, q.run, q.profile, |c.runs|) + 1)
    requires !SignedUp(c.runs[q.run].signups, q.profile) && Placing(c, q) == Placed(after)
    ensures Perform(c, SignUp(q)) == c.WithSignups(q.run, after)
  {}

  lemma FirstTakesFlex(x: Plot)
    requires x.Valid()
    ensures Place(x.Talks(), {}, [], x.a, None, 0) == Placed([x.Taken()])
  {
    PlotPolicies(x);
    AnythingComesFirst(x.Talks(), [], x.Flex(), x.Talk());
    assert CountedConfirmed([]) == [];
    assert [] + [x.Taken()] == [x.Taken()];
  }

  lemma SecondWaits(x: Plot)
    requires x.Valid()
    ensures Place(x.Talks(), {}, [x.Taken()], x.b, Some(x.talk), 1) == Placed([x.Taken(), x.Waiting()])
  {
    PlotPolicies(x);
    var others := CountedConfirmed([x.Taken()]);
    FindBucketNone(x.Talks(), Some(x.talk), others);
    assert forall s :: s in others ==> s == x.Taken();
    assert NoRoom(x.Talks(), Some(x.talk), others);
    assert [x.Taken()] + [x.Waiting()] == [x.Taken(), x.Waiting()];
  }

  lemma SecondGetsHall(x: Plot)
    requires x.Valid()
    ensures Place(x.Halls(), {}, [], x.b, Some(x.hall), 2) == Placed([x.InHall()])
  {
    PlotPolicies(x);
    assert CountedConfirmed([]) == [];
    assert WithCapacity([x.Hall()], [])[0] == x.Hall();
    assert [] + [x.InHall()] == [x.InHall()];
  }

  /** The withdrawal opens the anything bucket, and the only one waiting takes it. */
  lemma WaiterTakesFlex(x: Plot)
    requires x.Valid()
    ensures var left := [Withdrawal(x.Taken()), x.Waiting()];
            Numbered(left) && !x.Flex().Full(left) &&
            FillVacancy(x.Talks(), left, {}, {}, Some(x.flex)) ==
            Done([left[0], Seat(x.Waiting(), x.Flex())], [Move(1, Waitlisted, None, x.flex)])
  {
    PlotPolicies(x);
    var p, left := x.Talks(), [Withdrawal(x.Taken()), x.Waiting()];
    CountZero(left, InBucket(x.flex));
    OrderedIsLocated(left, {}, {});
    var candidates := Unmoved(AllOrdered(left, {}), {});
    assert x.Waiting() in left && x.Waiting() in candidates;
    var takers := Takers(p, candidates, x.Flex());
    assert x.Waiting() in takers && takers[0] in takers;
    assert takers[0] == x.Waiting();
    assert left[1 := Seat(x.Waiting(), x.Flex())] == [left[0], Seat(x.Waiting(), x.Flex())];
  }

  lemma FirstLeaves(x: Plot)
    requires x.Valid()
    ensures Withdraw(x.Talks(), {}, [x.Taken(), x.Waiting()], 0) ==
            Done([Withdrawal(x.Taken()), Seat(x.Waiting(), x.Flex())], [Move(1, Waitlisted, None, x.flex)])
  {
    PlotPolicies(x);
    WaiterTakesFlex(x);
    assert [x.Taken(), x.Waiting()][0 := Withdrawal(x.Taken())] == [Withdrawal(x.Taken()), x.Waiting()];
  }

  lemma FirstStep(x: Plot)
    requires x.Valid()
    ensures var c := x.With([], []);
            c.WellFormed() && Perform(c, x.Asks(0, x.a, None, 0)) == x.With([x.Taken()], [])
  {
    var c := x.With([], []);
    PlotPolicies(x);
    FirstTakesFlex(x);
    ElsewhereOfTwo(c, x.a);
    SignsUp(c, x.Asks(0, x.a, None, 0).request, [x.Taken()]);
    assert c.WithSignups(0, [x.Taken()]).runs == x.With([x.Taken()], []).runs;
  }

  lemma SecondStep(x: Plot)
    requires x.Valid()
    ensures var c := x.With([x.Taken()], []);
            c.WellFormed() && Perform(c, x.Asks(0, x.b, Some(x.talk), 1)) == x.With([x.Taken(), x.Waiting()], [])
  {
    var c := x.With([x.Taken()], []);
    PlotPolicies(x);
    SecondWaits(x);
    ElsewhereOfTwo(c, x.b);
    SignsUp(c, x.Asks(0, x.b, Some(x.talk), 1).request, [x.Taken(), x.Waiting()]);
    assert c.WithSignups(0, [x.Taken(), x.Waiting()]).runs == x.With([x.Taken(), x.Waiting()], []).runs;
  }

  lemma ThirdStep(x: Plot)
    requires x.Valid()
    ensures var c := x.With([x.Taken(), x.Waiting()], []);
            c.WellFormed() &&
            Perform(c, x.Asks(1, x.b, Some(x.hall), 2)) == x.With([x.Taken(), x.Waiting()], [x.InHall()])
  {
    var c := x.With([x.Taken(), x.Waiting()], []);
    PlotPolicies(x);
    SecondGetsHall(x);
    ElsewhereOfTwo(c, x.b);
    LoadOfTwo(x.Talks(), x.Taken(), x.Waiting(), x.b);
    SignsUp(c, x.Asks(1, x.b, Some(x.hall), 2).request, [x.InHall()]);
    assert c.WithSignups(1, [x.InHall()]).runs == x.With([x.Taken(), x.Waiting()], [x.InHall()]).runs;
  }

  lemma FourthStep(x: Plot)
    requires x.Valid()
    ensures var c := x.With([x.Taken(), x.Waiting()], [x.InHall()]);
            c.WellFormed() &&
            Perform(c, CancelSignup(Cancellation(0, 0, true))) ==
            x.With([Withdrawal(x.Taken()), Seat(x.Waiting(), x.Flex())], [x.InHall()])
  {
    var c := x.With([x.Taken(), x.Waiting()], [x.InHall()]);
    var after := [Withdrawal(x.Taken()), Seat(x.Waiting(), x.Flex())];
    PlotPolicies(x);
    FirstLeaves(x);
    assert c.WithSignups(0, after).runs == x.With(after, [x.InHall()]).runs;
  }

  lemma ReachesNext(c: Convention, s: Step, rest: seq<Step>, d: Convention)
    requires c.WellFormed() && Reaches(Perform(c, s), rest, d)
    ensures Reaches(c, [s] + rest, d)
  {
    assert ([s] + rest)[1..] == rest;
  }

  lemma ReachesFourth(c: Convention, c1: Convention, c2: Convention, c3: Convention, d: Convention,
                      s: Step, s1: Step, s2: Step, s3: Step)
    requires c.WellFormed() && Perform(c, s) == c1 && c1.WellFormed() && Perform(c1, s1) == c2
    requires c2.WellFormed() && Perform(c2, s2) == c3 && c3.WellFormed() && Perform(c3, s3) == d
    ensures Reaches(c, [s, s1, s2, s3], d)
  {
    assert [s3] + [] == [s3] && [s2] + [s3] == [s2, s3];
    assert [s1] + [s2, s3] == [s1, s2, s3] && [s] + [s1, s2, s3] == [s, s1, s2, s3];
    ReachesNext(c3, s3, [], d);
    ReachesNext(c2, s2, [s3], d);
    ReachesNext(c1, s1, [s2, s3], d);
    ReachesNext(c, s, [s1, s2, s3], d);
  }

  lemma LoadOfPlot(x: Plot, d: Convention)
    requires x.Valid() && d == x.With([Withdrawal(x.Taken()), Seat(x.Waiting(), x.Flex())], [x.InHall()])
    ensures d.WellFormed() && TotalLoad(d, x.b, |d.runs|) == 2
  {
    PlotPolicies(x);
    ElsewhereOfTwo(d, x.b);
    LoadOfTwo(x.Talks(), Withdrawal(x.Taken()), Seat(x.Waiting(), x.Flex()), x.b);
    LoadOfOne(x.Halls(), x.InHall(), x.b);
  }

  lemma PlotReaches(x: Plot, d: Convention)
    requires x.Valid() && d == x.With([Withdrawal(x.Taken()), Seat(x.Waiting(), x.Flex())], [x.InHall()])
    ensures Fresh(x.With([], [])) && Reaches(x.With([], []), x.History(), d)
  {
    FirstStep(x);
    SecondStep(x);
    ThirdStep(x);
    FourthStep(x);
    ReachesFourth(x.With([], []), x.With([x.Taken()], []), x.With([x.Taken(), x.Waiting()], []),
                  x.With([x.Taken(), x.Waiting()], [x.InHall()]), d,
                  x.History()[0], x.History()[1], x.History()[2], x.History()[3]);
  }

  /** Every signup is made under a maximum of one, and in the end a profile has a load of two. */
  lemma LimitIsPassed(x: Plot) returns (d: Convention)
    requires x.Valid()
    ensures Fresh(x.With([], [])) && Reaches(x.With([], []), x.History(), d)
    ensures forall s :: s in x.History() ==> Capped(s, 1)
    ensures d.WellFormed() && TotalLoad(d, x.b, |d.runs|) == 2
  {
    d := x.With([Withdrawal(x.Taken()), Seat(x.Waiting(), x.Flex())], [x.InHall()]);
    PlotReaches(x, d);
    LoadOfPlot(x, d);
  }
}
