/** A whole convention: events, their runs, and any sequence of service calls on them. */
module ConventionRuns {
  import opened Sorting
  import opened Registration
  import opened Allocation
  import opened EventSignup
  import opened Vacating
  import opened PolicyChange
  import opened PolicyChangeResults
  import opened PolicyChangeExactly
  import opened RunSteps
  import VacancyFill

  datatype Event = Event(policy: Policy, team: set<Profile>, canPlayConcurrently: bool)

  /** A run occupies the instants from `start` up to but not including `finish`. */
  datatype Run = Run(event: nat, start: int, finish: int, signups: seq<Signup>)

  datatype Convention = Convention(events: seq<Event>, runs: seq<Run>) {
    ghost predicate WellFormed() {
      (forall r :: 0 <= r < |runs| ==> runs[r].event < |events| && Numbered(runs[r].signups)) &&
      (forall e :: 0 <= e < |events| ==> events[e].policy.Valid())
    }

    function EventOf(r: nat): Event
      requires r < |runs| && runs[r].event < |events|
    {
      events[runs[r].event]
    }

    ghost function WithSignups(r: nat, signups: seq<Signup>): Convention
      requires r < |runs|
    {
      this.(runs := runs[r := runs[r].(signups := signups)])
    }
  }

  /** The convention's maximum number of signups at the moment of the call. */
  datatype Limit = NotNow | NotYet | Unlimited | AtMost(n: int)

  /** What a signup call is given. `admissible` gathers the checks outside the allocator: tickets,
      the signup mode of the convention, and the registration freeze. */
  datatype Request = Request(
    run: nat, profile: Profile, requested: Option<Key>, createdAt: int, limit: Limit, admissible: bool)

  datatype Cancellation = Cancellation(run: nat, signup: nat, admissible: bool)

  /** One service call. */
  datatype Step =
    | SignUp(request: Request)
    | CancelSignup(cancellation: Cancellation)
    | AcceptSignupRequest(replaced: Option<Cancellation>, request: Request)
    | JoinTeam(event: nat, profile: Profile)
    | ChangeRegistrationPolicy(event: nat, policy: Policy)

  predicate Overlap(a: Run, b: Run) { a.start < b.finish && b.start < a.finish }

  /** An instant at which both runs are on. */
  ghost predicate BothOn(a: Run, b: Run, t: int) { a.start <= t < a.finish && b.start <= t < b.finish }

  /** A run of no length lies in the middle of the other. */
  predicate Amid(a: Run, b: Run) { b.start < a.start == a.finish < b.finish }

  ghost predicate AtOnce(a: Run, b: Run) { (exists t :: BothOn(a, b, t)) || Amid(a, b) || Amid(b, a) }

  lemma AtOnceOverlap(a: Run, b: Run)
    ensures AtOnce(a, b) ==> Overlap(a, b)
    ensures a.start <= a.finish && b.start <= b.finish && Overlap(a, b) ==> AtOnce(a, b)
  {
    var t := if a.start < b.start then b.start else a.start;
    assert a.start <= a.finish && b.start <= b.finish && Overlap(a, b) && !Amid(a, b) && !Amid(b, a) ==> BothOn(a, b, t);
  }

  predicate OnTeam(c: Convention, r: nat, profile: Profile)
    requires r < |c.runs| && c.runs[r].event < |c.events|
  {
    profile in c.EventOf(r).team
  }

  /** `conflicting_signups.any?` */
  ghost predicate Conflicting(c: Convention, r: nat, profile: Profile)
    requires c.WellFormed() && r < |c.runs|
  {
    exists o :: 0 <= o < |c.runs| && o != r && SignedUp(c.runs[o].signups, profile) &&
                !c.EventOf(o).canPlayConcurrently && Overlap(c.runs[r], c.runs[o]) &&
                !(OnTeam(c, r, profile) && OnTeam(c, o, profile))
  }

  /** `user_signup_count`: the profile's load in the first `n` runs without run `r`. */
  ghost function LoadElsewhere(c: Convention, r: nat, profile: Profile, n: nat): nat
    requires c.WellFormed() && n <= |c.runs|
  {
    if n == 0 then 0
    else
      LoadElsewhere(c, r, profile, n - 1) +
      (if n - 1 == r then 0 else Load(c.EventOf(n - 1).policy, c.runs[n - 1].signups, profile))
  }

  predicate LimitAllows(limit: Limit, signups: int) {
    match limit
    case NotNow => true
    case NotYet => false
    case Unlimited => true
    case AtMost(n) => signups <= n
  }

  /** `signup_count_check_required?` */
  ghost predicate CountChecked(c: Convention, r: nat, profile: Profile, requested: Option<Key>)
    requires c.WellFormed() && r < |c.runs|
  {
    var actual := ActualBucket(c.EventOf(r).policy, c.EventOf(r).team, c.runs[r].signups, profile, requested);
    !OnTeam(c, r, profile) && !(actual.Some? && !actual.value.Counted())
  }

  /** The validations of the signup service that look beyond the run. */
  ghost predicate AllowedElsewhere(c: Convention, q: Request)
    requires c.WellFormed() && q.run < |c.runs|
  {
    q.admissible &&
    (CountChecked(c, q.run, q.profile, q.requested) ==>
       LimitAllows(q.limit, LoadElsewhere(c, q.run, q.profile, |c.runs|) + 1)) &&
    (c.EventOf(q.run).canPlayConcurrently || !Conflicting(c, q.run, q.profile))
  }

  /** The validations of the signup service. */
  ghost predicate MaySignUp(c: Convention, q: Request)
    requires c.WellFormed() && q.run < |c.runs|
  {
    AllowedElsewhere(c, q) && !SignedUp(c.runs[q.run].signups, q.profile)
  }

  ghost function Placing(c: Convention, q: Request): Placement
    requires c.WellFormed() && q.run < |c.runs|
  {
    Place(c.EventOf(q.run).policy, c.EventOf(q.run).team, c.runs[q.run].signups, q.profile, q.requested, q.createdAt)
  }

  /** `None` when the call is rejected or raises. */
  ghost function TrySignUp(c: Convention, q: Request): Option<Convention>
    requires c.WellFormed()
  {
    if q.run >= |c.runs| || !MaySignUp(c, q) || !Placing(c, q).Placed? then None
    else Some(c.WithSignups(q.run, Placing(c, q).signups))
  }

  ghost function Withdrawing(c: Convention, w: Cancellation): VacancyFill.Outcome
    requires c.WellFormed() && w.run < |c.runs| && w.signup < |c.runs[w.run].signups|
  {
    Withdraw(c.EventOf(w.run).policy, c.EventOf(w.run).team, c.runs[w.run].signups, w.signup)
  }

  ghost function TryCancel(c: Convention, w: Cancellation): (r: Option<Convention>)
    requires c.WellFormed()
    ensures r.Some? ==> r.value.WellFormed()
  {
    if !w.admissible || w.run >= |c.runs| || w.signup >= |c.runs[w.run].signups| then None
    else if Withdrawing(c, w).Raised? then None
    else
      EvolvedNumbers(c.runs[w.run].signups, Withdrawing(c, w).signups);
      Some(c.WithSignups(w.run, Withdrawing(c, w).signups))
  }

  ghost function Joined(c: Convention, e: nat, profile: Profile, r: nat): VacancyFill.Outcome
    requires c.WellFormed() && e < |c.events| && r < |c.runs|
  {
    if c.runs[r].event != e then VacancyFill.Done(c.runs[r].signups, [])
    else ConvertedRun(c.events[e].policy, c.events[e].team + {profile}, c.runs[r].signups, profile)
  }

  ghost function TryJoin(c: Convention, e: nat, profile: Profile): Option<Convention>
    requires c.WellFormed()
  {
    if e >= |c.events| || profile in c.events[e].team then None
    else if exists r :: 0 <= r < |c.runs| && Joined(c, e, profile, r).Raised? then None
    else
      Some(Convention(
             c.events[e := c.events[e].(team := c.events[e].team + {profile})],
             seq(|c.runs|, r requires 0 <= r < |c.runs| && Joined(c, e, profile, r).Done? =>
               c.runs[r].(signups := Joined(c, e, profile, r).signups))))
  }

  ghost function TryChange(c: Convention, e: nat, policy: Policy): Option<Convention>
    requires c.WellFormed()
  {
    if e >= |c.events| || !policy.Valid() then None
    else if exists r :: 0 <= r < |c.runs| && c.runs[r].event == e && Stranded(policy, c.runs[r].signups) != [] then None
    else
      Some(Convention(
             c.events[e := c.events[e].(policy := policy)],
             seq(|c.runs|, r requires 0 <= r < |c.runs| =>
               if c.runs[r].event == e then c.runs[r].(signups := ChangedRun(policy, c.runs[r].signups))
               else c.runs[r])))
  }

  ghost function Try(c: Convention, s: Step): Option<Convention>
    requires c.WellFormed()
  {
    match s
    case SignUp(q) => TrySignUp(c, q)
    case CancelSignup(w) => TryCancel(c, w)
    case AcceptSignupRequest(replaced, q) =>
      if replaced.None? then TrySignUp(c, q)
      else
        var withdrawn := TryCancel(c, replaced.value);
        if withdrawn.None? then None else TrySignUp(withdrawn.value, q)
    case JoinTeam(e, profile) => TryJoin(c, e, profile)
    case ChangeRegistrationPolicy(e, policy) => TryChange(c, e, policy)
  }

  /** A call that is rejected or raises changes nothing. */
  ghost function Perform(c: Convention, s: Step): Convention
    requires c.WellFormed()
  {
    if Try(c, s).Some? then Try(c, s).value else c
  }

  /** Unless it is on both teams, the profile has no active signups in two runs that are on at once and
      both forbid concurrent play. */
  ghost predicate ClashFree(c: Convention, r: nat, o: nat, profile: Profile)
    requires c.WellFormed() && r < |c.runs| && o < |c.runs|
  {
    SignedUp(c.runs[r].signups, profile) && SignedUp(c.runs[o].signups, profile) &&
    AtOnce(c.runs[r], c.runs[o]) &&
    !c.EventOf(r).canPlayConcurrently && !c.EventOf(o).canPlayConcurrently ==>
      OnTeam(c, r, profile) && OnTeam(c, o, profile)
  }

  ghost predicate NoClash(c: Convention)
    requires c.WellFormed()
  {
    forall r, o, profile :: 0 <= r < |c.runs| && 0 <= o < |c.runs| && r != o ==> ClashFree(c, r, o, profile)
  }

  ghost predicate Good(c: Convention) {
    c.WellFormed() && NoClash(c) &&
    forall r :: 0 <= r < |c.runs| ==>
      GoodRun(c.EventOf(r).policy, c.EventOf(r).team, c.runs[r].signups)
  }

  /** Later states of a convention: the same runs, larger teams, signups that only evolved. */
  ghost predicate Later(c: Convention, d: Convention) {
    |d.events| == |c.events| && |d.runs| == |c.runs| &&
    (forall e :: 0 <= e < |c.events| ==>
       d.events[e].canPlayConcurrently == c.events[e].canPlayConcurrently && c.events[e].team <= d.events[e].team) &&
    (forall r :: 0 <= r < |c.runs| ==>
       d.runs[r] == c.runs[r].(signups := d.runs[r].signups) &&
       VacancyFill.Evolves(c.runs[r].signups, d.runs[r].signups))
  }

  lemma EvolvedNumbers(before: seq<Signup>, after: seq<Signup>)
    requires Numbered(before) && VacancyFill.Evolves(before, after) && |before| == |after|
    ensures Numbered(after)
  {}

  // ------------------------------------------------------------------ single steps stay good

  /** A later state whose runs are good and whose active signups were active before is good. */
  lemma LaterIsGood(c: Convention, d: Convention)
    requires Good(c) && d.WellFormed() && Later(c, d)
    requires forall r :: 0 <= r < |d.runs| ==> |d.runs[r].signups| == |c.runs[r].signups|
    requires forall r :: 0 <= r < |d.runs| ==> GoodRun(d.EventOf(r).policy, d.EventOf(r).team, d.runs[r].signups)
    ensures Good(d)
  {
    LaterNoClash(c, d);
  }

  lemma LaterNoClash(c: Convention, d: Convention)
    requires c.WellFormed() && d.WellFormed() && NoClash(c) && Later(c, d)
    requires forall r :: 0 <= r < |d.runs| ==> |d.runs[r].signups| == |c.runs[r].signups|
    ensures NoClash(d)
  {
    forall r, o, profile | 0 <= r < |d.runs| && 0 <= o < |d.runs| && r != o ensures ClashFree(d, r, o, profile) {
      LaterClash(c, d, r, o, profile);
    }
  }

  lemma LaterClash(c: Convention, d: Convention, r: nat, o: nat, profile: Profile)
    requires c.WellFormed() && d.WellFormed() && NoClash(c) && Later(c, d)
    requires r < |d.runs| && o < |d.runs| && r != o
    requires |d.runs[r].signups| == |c.runs[r].signups| && |d.runs[o].signups| == |c.runs[o].signups|
    ensures ClashFree(d, r, o, profile)
  {
    assert ClashFree(c, r, o, profile);
    SameTimes(c.runs[r], c.runs[o], d.runs[r], d.runs[o]);
    if SignedUp(d.runs[r].signups, profile) && SignedUp(d.runs[o].signups, profile) {
      EvolvedSignedUp(c.runs[r].signups, d.runs[r].signups, profile);
      EvolvedSignedUp(c.runs[o].signups, d.runs[o].signups, profile);
    }
  }

  lemma SameTimes(a: Run, b: Run, x: Run, y: Run)
    requires x.start == a.start && x.finish == a.finish && y.start == b.start && y.finish == b.finish
    ensures AtOnce(x, y) ==> AtOnce(a, b)
  {
    if t :| BothOn(x, y, t) {
      assert BothOn(a, b, t);
    }
  }

  lemma EvolvedSignedUp(before: seq<Signup>, after: seq<Signup>, profile: Profile)
    requires VacancyFill.Evolves(before, after) && |before| == |after| && SignedUp(after, profile)
    ensures SignedUp(before, profile)
  {
    var s :| s in after && !s.state.Withdrawn? && s.profile == profile;
    var i :| 0 <= i < |after| && after[i] == s;
    assert before[i] in before;
  }

  lemma CancelIsGood(c: Convention, w: Cancellation)
    requires Good(c) && TryCancel(c, w).Some?
    ensures Good(TryCancel(c, w).value)
  {
    var d := TryCancel(c, w).value;
    CancelIsLater(c, w);
    forall r | 0 <= r < |d.runs| ensures GoodRun(d.EventOf(r).policy, d.EventOf(r).team, d.runs[r].signups) {
      CancelledRun(c, w, r);
    }
    LaterIsGood(c, d);
  }

  lemma CancelIsLater(c: Convention, w: Cancellation)
    requires c.WellFormed() && TryCancel(c, w).Some?
    ensures var d := TryCancel(c, w).value;
            Later(c, d) && forall r :: 0 <= r < |d.runs| ==> |d.runs[r].signups| == |c.runs[r].signups|
  {}

  lemma CancelledRun(c: Convention, w: Cancellation, r: nat)
    requires Good(c) && TryCancel(c, w).Some? && r < |c.runs|
    ensures var d := TryCancel(c, w).value;
            GoodRun(d.EventOf(r).policy, d.EventOf(r).team, d.runs[r].signups)
  {
    assert GoodRun(c.EventOf(r).policy, c.EventOf(r).team, c.runs[r].signups);
    if r == w.run {
      WithdrawIsGood(c.EventOf(r).policy, c.EventOf(r).team, c.runs[r].signups, w.signup);
    }
  }

  lemma JoinIsGood(c: Convention, e: nat, profile: Profile)
    requires Good(c) && TryJoin(c, e, profile).Some?
    ensures Good(TryJoin(c, e, profile).value)
  {
    var d := TryJoin(c, e, profile).value;
    forall r | 0 <= r < |d.runs|
      ensures d.runs[r].event < |d.events| && Numbered(d.runs[r].signups)
      ensures GoodRun(d.EventOf(r).policy, d.EventOf(r).team, d.runs[r].signups)
    {
      assert GoodRun(c.EventOf(r).policy, c.EventOf(r).team, c.runs[r].signups);
      assert Joined(c, e, profile, r).Done?;
      if c.runs[r].event == e {
        ConvertIsGood(c.events[e].policy, c.events[e].team, c.runs[r].signups, profile);
      }
    }
    LaterIsGood(c, d);
  }

  /** The change is harmless in every run of the event. */
  ghost predicate HarmlessChange(c: Convention, e: nat, policy: Policy)
    requires policy.Valid()
  {
    forall r :: 0 <= r < |c.runs| && c.runs[r].event == e ==> Harmless(policy, c.runs[r].signups)
  }

  lemma ChangedRunOf(c: Convention, e: nat, policy: Policy, r: nat)
    requires Good(c) && TryChange(c, e, policy).Some? && r < |c.runs|
    ensures var d := TryChange(c, e, policy).value;
            d.runs[r].event < |d.events| && Numbered(d.runs[r].signups) &&
            VacancyFill.Evolves(c.runs[r].signups, d.runs[r].signups) &&
            |d.runs[r].signups| == |c.runs[r].signups| &&
            (GoodRun(d.EventOf(r).policy, d.EventOf(r).team, d.runs[r].signups) <==>
               (c.runs[r].event == e ==> Harmless(policy, c.runs[r].signups)))
  {
    assert GoodRun(c.EventOf(r).policy, c.EventOf(r).team, c.runs[r].signups);
    if c.runs[r].event == e {
      ChangeIsGoodExactly(c.events[e].policy, policy, c.events[e].team, c.runs[r].signups);
    }
  }

  lemma ChangeStepIsGoodExactly(c: Convention, e: nat, policy: Policy)
    requires Good(c) && TryChange(c, e, policy).Some?
    ensures Good(TryChange(c, e, policy).value) <==> HarmlessChange(c, e, policy)
  {
    var d := TryChange(c, e, policy).value;
    forall r | 0 <= r < |d.runs|
      ensures d.runs[r].event < |d.events| && Numbered(d.runs[r].signups)
      ensures VacancyFill.Evolves(c.runs[r].signups, d.runs[r].signups) && |d.runs[r].signups| == |c.runs[r].signups|
      ensures GoodRun(d.EventOf(r).policy, d.EventOf(r).team, d.runs[r].signups) <==>
              (c.runs[r].event == e ==> Harmless(policy, c.runs[r].signups))
    {
      ChangedRunOf(c, e, policy, r);
    }
    if HarmlessChange(c, e, policy) {
      LaterIsGood(c, d);
    }
  }

  lemma SignUpRuns(c: Convention, q: Request)
    requires Good(c) && TrySignUp(c, q).Some?
    ensures var d := TrySignUp(c, q).value;
            d.WellFormed() && Later(c, d) &&
            forall r :: 0 <= r < |d.runs| ==>
              GoodRun(d.EventOf(r).policy, d.EventOf(r).team, d.runs[r].signups) &&
              (r != q.run ==> d.runs[r] == c.runs[r])
  {
    var d := TrySignUp(c, q).value;
    PlaceIsGood(c.EventOf(q.run).policy, c.EventOf(q.run).team, c.runs[q.run].signups, q.profile, q.requested, q.createdAt);
    forall r | 0 <= r < |d.runs|
      ensures GoodRun(d.EventOf(r).policy, d.EventOf(r).team, d.runs[r].signups)
    {
      assert GoodRun(c.EventOf(r).policy, c.EventOf(r).team, c.runs[r].signups);
    }
  }

  /** After signing up, whoever is signed up somewhere was before, or is the new signup. */
  lemma SignUpAdds(c: Convention, q: Request, r: nat, profile: Profile)
    requires c.WellFormed() && TrySignUp(c, q).Some? && r < |c.runs|
    requires SignedUp(TrySignUp(c, q).value.runs[r].signups, profile)
    ensures SignedUp(c.runs[r].signups, profile) || (r == q.run && profile == q.profile)
  {
    var after := TrySignUp(c, q).value.runs[r].signups;
    if r == q.run {
      PlaceEvolves(c.EventOf(r).policy, c.EventOf(r).team, c.runs[r].signups, q.profile, q.requested, q.createdAt);
      var s :| s in after && !s.state.Withdrawn? && s.profile == profile;
      var i :| 0 <= i < |after| && after[i] == s;
      if i < |after| - 1 {
        assert c.runs[r].signups[i] in c.runs[r].signups;
      }
    }
  }

  lemma SignUpIsGood(c: Convention, q: Request)
    requires Good(c) && TrySignUp(c, q).Some?
    ensures Good(TrySignUp(c, q).value)
  {
    SignUpRuns(c, q);
    assert GoodRun(c.EventOf(q.run).policy, c.EventOf(q.run).team, c.runs[q.run].signups);
    SignUpNoClash(c, q);
  }

  lemma SignUpNoClash(c: Convention, q: Request)
    requires c.WellFormed() && NoClash(c) && TrySignUp(c, q).Some?
    requires TrySignUp(c, q).value.WellFormed()
    ensures NoClash(TrySignUp(c, q).value)
  {
    var d := TrySignUp(c, q).value;
    forall r, o, profile | 0 <= r < |d.runs| && 0 <= o < |d.runs| && r != o ensures ClashFree(d, r, o, profile) {
      SignUpClash(c, q, r, o, profile);
    }
  }

  lemma SignUpClash(c: Convention, q: Request, r: nat, o: nat, profile: Profile)
    requires c.WellFormed() && NoClash(c) && TrySignUp(c, q).Some? && r < |c.runs| && o < |c.runs| && r != o
    requires TrySignUp(c, q).value.WellFormed()
    ensures ClashFree(TrySignUp(c, q).value, r, o, profile)
  {
    var d := TrySignUp(c, q).value;
    assert ClashFree(c, r, o, profile);
    if SignedUp(d.runs[r].signups, profile) && SignedUp(d.runs[o].signups, profile) {
      SignUpAdds(c, q, r, profile);
      SignUpAdds(c, q, o, profile);
      AtOnceOverlap(c.runs[r], c.runs[o]);
      AtOnceOverlap(c.runs[o], c.runs[r]);
      if AtOnce(c.runs[r], c.runs[o]) && !c.EventOf(r).canPlayConcurrently && !c.EventOf(o).canPlayConcurrently {
        if r == q.run && profile == q.profile {
          NoConflictMeansTeams(c, r, o, profile);
        } else if o == q.run && profile == q.profile {
          NoConflictMeansTeams(c, o, r, profile);
        }
      }
    }
  }

  lemma NoConflictMeansTeams(c: Convention, r: nat, o: nat, profile: Profile)
    requires c.WellFormed() && r < |c.runs| && o < |c.runs| && o != r
    requires !Conflicting(c, r, profile) && SignedUp(c.runs[o].signups, profile)
    requires !c.EventOf(o).canPlayConcurrently && Overlap(c.runs[r], c.runs[o])
    ensures OnTeam(c, r, profile) && OnTeam(c, o, profile)
  {
  }

  /** Only a policy change can do harm; one that fails does none. */
  ghost predicate HarmlessStep(c: Convention, s: Step)
    requires c.WellFormed()
  {
    s.ChangeRegistrationPolicy? && TryChange(c, s.event, s.policy).Some? ==> HarmlessChange(c, s.event, s.policy)
  }

  /** A service call keeps the convention good exactly when it is harmless. */
  lemma PerformIsGood(c: Convention, s: Step)
    requires Good(c)
    ensures Good(Perform(c, s)) <==> HarmlessStep(c, s)
  {
    if Try(c, s).Some? {
      match s {
        case SignUp(q) => SignUpIsGood(c, q);
        case CancelSignup(w) => CancelIsGood(c, w);
        case AcceptSignupRequest(replaced, q) =>
          if replaced.Some? {
            CancelIsGood(c, replaced.value);
            SignUpIsGood(TryCancel(c, replaced.value).value, q);
          } else {
            SignUpIsGood(c, q);
          }
        case JoinTeam(e, profile) => JoinIsGood(c, e, profile);
        case ChangeRegistrationPolicy(e, policy) => ChangeStepIsGoodExactly(c, e, policy);
      }
    }
  }

  // ------------------------------------------------------------------------ whole histories

  /** `d` is reached from `c` by the calls of `history`, in order. */
  ghost predicate Reaches(c: Convention, history: seq<Step>, d: Convention)
    decreases |history|
  {
    if history == [] then d == c
    else c.WellFormed() && Reaches(Perform(c, history[0]), history[1..], d)
  }

  ghost predicate Fresh(c: Convention) {
    c.WellFormed() && forall r :: 0 <= r < |c.runs| ==> c.runs[r].signups == []
  }

  /** The convention is good at the start and after every call. */
  ghost predicate GoodThroughout(c: Convention, history: seq<Step>)
    decreases |history|
  {
    Good(c) && (history != [] ==> GoodThroughout(Perform(c, history[0]), history[1..]))
  }

  ghost predicate HarmlessThroughout(c: Convention, history: seq<Step>)
    decreases |history|
  {
    history != [] ==>
      c.WellFormed() && HarmlessStep(c, history[0]) && HarmlessThroughout(Perform(c, history[0]), history[1..])
  }

  /** From a good convention, everything stays good exactly when every call is harmless. */
  lemma {:induction false} GoodExactlyWhenHarmless(c: Convention, history: seq<Step>)
    requires Good(c)
    ensures GoodThroughout(c, history) <==> HarmlessThroughout(c, history)
    decreases |history|
  {
    if history != [] {
      PerformIsGood(c, history[0]);
      if Good(Perform(c, history[0])) {
        GoodExactlyWhenHarmless(Perform(c, history[0]), history[1..]);
      }
    }
  }

  lemma {:induction false} GoodInTheEnd(c: Convention, history: seq<Step>, d: Convention)
    requires GoodThroughout(c, history) && Reaches(c, history, d)
    ensures Good(d)
    decreases |history|
  {
    if history != [] {
      GoodInTheEnd(Perform(c, history[0]), history[1..], d);
    }
  }

  lemma FreshIsGood(c: Convention)
    requires Fresh(c)
    ensures Good(c)
  {
    forall r, profile | 0 <= r < |c.runs| ensures !SignedUp(c.runs[r].signups, profile) {
    }
    forall r | 0 <= r < |c.runs| ensures GoodRun(c.EventOf(r).policy, c.EventOf(r).team, c.runs[r].signups) {
      assert c.runs[r].signups == [];
    }
  }

  /**
   * Whatever calls are made, from a convention without signups and as long as every policy change is
   * harmless: in every run no limited bucket is over-full, signups have their shape, nobody waits who
   * could be placed and no profile is signed up twice; and no profile has clashing signups unless it
   * is on the team of both events. All this holds after every call exactly when every call is
   * harmless.
   */
  lemma EveryHistoryIsGood(c: Convention, history: seq<Step>, d: Convention)
    requires Fresh(c) && Reaches(c, history, d)
    ensures GoodThroughout(c, history) <==> HarmlessThroughout(c, history)
    ensures HarmlessThroughout(c, history) ==>
              d.WellFormed() && NoClash(d) &&
              forall r :: 0 <= r < |d.runs| ==>
                var p, team, signups := d.EventOf(r).policy, d.EventOf(r).team, d.runs[r].signups;
                WithinCapacity(p, signups) && Shaped(p, team, signups) && Stable(p, signups) &&
                OncePerProfile(signups)
  {
    FreshIsGood(c);
    GoodExactlyWhenHarmless(c, history);
    if HarmlessThroughout(c, history) {
      GoodInTheEnd(c, history, d);
    }
  }

  /** Policy changes are to policies that hide no slots. */
  ghost predicate HidesNothing(s: Step) {
    s.ChangeRegistrationPolicy? ==> s.policy.HidesNoSlots()
  }

  /** Such changes are harmless, whatever the run. */
  lemma HidingNothingIsHarmlessStep(c: Convention, s: Step)
    requires c.WellFormed() && HidesNothing(s)
    ensures HarmlessStep(c, s)
  {
    if s.ChangeRegistrationPolicy? && TryChange(c, s.event, s.policy).Some? {
      forall r | 0 <= r < |c.runs| && c.runs[r].event == s.event ensures Harmless(s.policy, c.runs[r].signups) {
        HidingNothingIsHarmless(s.policy, c.runs[r].signups);
      }
    }
  }

  lemma {:induction false} HidingNothingHistory(c: Convention, history: seq<Step>)
    requires Good(c) && forall s :: s in history ==> HidesNothing(s)
    ensures HarmlessThroughout(c, history)
    decreases |history|
  {
    if history != [] {
      HidingNothingIsHarmlessStep(c, history[0]);
      PerformIsGood(c, history[0]);
      HidingNothingHistory(Perform(c, history[0]), history[1..]);
    }
  }

  /** In every state reached without harm re-applying an event's policy succeeds and changes nothing. */
  lemma ReapplyingIsIdle(c: Convention, history: seq<Step>, d: Convention, e: nat)
    requires Fresh(c) && Reaches(c, history, d) && HarmlessThroughout(c, history) && e < |d.events|
    ensures d.WellFormed() && TryChange(d, e, d.events[e].policy) == Some(d)
  {
    EveryHistoryIsGood(c, history, d);
    var policy := d.events[e].policy;
    forall r | 0 <= r < |d.runs| && d.runs[r].event == e
      ensures Stranded(policy, d.runs[r].signups) == [] && ChangedRun(policy, d.runs[r].signups) == d.runs[r].signups
    {
      ReapplyingChangesNothing(policy, d.EventOf(r).team, d.runs[r].signups);
    }
    var changed := TryChange(d, e, policy).value;
    assert changed.runs == d.runs;
    assert changed.events == d.events;
  }

  /** ... and raising only the slots of its buckets always succeeds. */
  lemma RaisingSucceeds(c: Convention, history: seq<Step>, d: Convention, e: nat, raised: Policy)
    requires Fresh(c) && Reaches(c, history, d) && HarmlessThroughout(c, history)
    requires e < |d.events| && RaisesSlots(d.events[e].policy, raised)
    ensures d.WellFormed() && TryChange(d, e, raised).Some?
  {
    EveryHistoryIsGood(c, history, d);
    RaisedValid(d.events[e].policy, raised);
    forall r | 0 <= r < |d.runs| && d.runs[r].event == e ensures Stranded(raised, d.runs[r].signups) == [] {
      RaisingStrandsNobody(d.events[e].policy, raised, d.EventOf(r).team, d.runs[r].signups);
    }
  }
}
