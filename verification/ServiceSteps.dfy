/** The services on records perform the steps of a convention: called on the records of a convention,
    each succeeds exactly when its step does, and leaves the records as the step says. */
module ServiceSteps {
  import opened Sorting
  import opened Registration
  import opened EventSignup
  import opened PolicyChange
  import opened RunSteps
  import opened ConventionRuns
  import opened Records
  import opened SlotServices
  import opened SignupRequests
  import PolicyChangeService
  import VacancyFill
  import Vacating

  /** `SignupService.Call`: the run changes as its contract says, and no other does. */
  lemma SignupServiceIsSignUp(c: Convention, q: Request)
    requires c.WellFormed() && q.run < |c.runs|
    ensures var before := c.runs[q.run].signups;
            var placed := Place(c.EventOf(q.run).policy, c.EventOf(q.run).team, before, q.profile, q.requested, q.createdAt);
            TrySignUp(c, q) ==
            if AllowedElsewhere(c, q) && !SignedUp(before, q.profile) && placed.Placed? then
              Some(c.WithSignups(q.run, placed.signups))
            else None
  {}

  /** `WithdrawService.Call` */
  lemma WithdrawServiceIsCancel(c: Convention, w: Cancellation)
    requires c.WellFormed() && w.run < |c.runs| && w.signup < |c.runs[w.run].signups|
    ensures var withdrawn := Vacating.Withdraw(c.EventOf(w.run).policy, c.EventOf(w.run).team,
                                               c.runs[w.run].signups, w.signup);
            TryCancel(c, w) ==
            if w.admissible && withdrawn.Done? then Some(c.WithSignups(w.run, withdrawn.signups)) else None
  {}

  /** `Accept`: the withdrawal, then the signup in the run as the withdrawal left it. */
  lemma AcceptIsBoth(c: Convention, w: Cancellation, q: Request)
    requires c.WellFormed() && q.run < |c.runs| && w.run < |c.runs| && w.signup < |c.runs[w.run].signups| && w.admissible
    ensures var withdrawn := AfterWithdrawal(c.EventOf(w.run).policy, c.EventOf(w.run).team,
                                             c.runs[w.run].signups, Some(w.signup));
            withdrawn.Raised? ==> Try(c, AcceptSignupRequest(Some(w), q)).None?
    ensures var withdrawn := AfterWithdrawal(c.EventOf(w.run).policy, c.EventOf(w.run).team,
                                             c.runs[w.run].signups, Some(w.signup));
            withdrawn.Done? ==>
              var between := c.WithSignups(w.run, withdrawn.signups);
              var before := if q.run == w.run then withdrawn.signups else c.runs[q.run].signups;
              var placed := Place(c.EventOf(q.run).policy, c.EventOf(q.run).team, before, q.profile, q.requested, q.createdAt);
              between.WellFormed() &&
              Try(c, AcceptSignupRequest(Some(w), q)) ==
              if AllowedElsewhere(between, q) && !SignedUp(before, q.profile) && placed.Placed? then
                Some(between.WithSignups(q.run, placed.signups))
              else None
  {
    WithdrawServiceIsCancel(c, w);
    if TryCancel(c, w).Some? {
      SignupServiceIsSignUp(TryCancel(c, w).value, q);
    }
  }

  /** The runs of an event, each once, as an event record holds them. */
  ghost predicate RunsOfEvent(c: Convention, e: nat, ids: seq<nat>) {
    (forall k :: 0 <= k < |ids| ==> ids[k] < |c.runs| && c.runs[ids[k]].event == e) &&
    (forall j, k :: 0 <= j < k < |ids| ==> ids[j] != ids[k]) &&
    forall r: nat :: r < |c.runs| && c.runs[r].event == e ==> r in ids
  }

  ghost function TablesOf(c: Convention, ids: seq<nat>): (tables: seq<seq<Signup>>)
    requires forall k :: 0 <= k < |ids| ==> ids[k] < |c.runs|
    ensures |tables| == |ids| && forall k :: 0 <= k < |ids| ==> tables[k] == c.runs[ids[k]].signups
  {
    seq(|ids|, k requires 0 <= k < |ids| => c.runs[ids[k]].signups)
  }

  /** Only the signups of the event's runs differ. */
  ghost predicate SameOutside(c: Convention, d: Convention, e: nat) {
    |d.runs| == |c.runs| &&
    forall r :: 0 <= r < |c.runs| ==>
      d.runs[r] == c.runs[r].(signups := d.runs[r].signups) && (c.runs[r].event != e ==> d.runs[r] == c.runs[r])
  }

  /** `CreateTeamMemberService.Call` */
  lemma CreateTeamMemberIsJoin(c: Convention, e: nat, profile: Profile, ids: seq<nat>)
    requires c.WellFormed() && e < |c.events| && RunsOfEvent(c, e, ids)
    ensures var event := c.events[e];
            var after := ConvertedRuns(event.policy, event.team + {profile}, TablesOf(c, ids), profile);
            (TryJoin(c, e, profile).Some? <==> profile !in event.team && after.Some?) &&
            (TryJoin(c, e, profile).Some? ==>
               var d := TryJoin(c, e, profile).value;
               d.events == c.events[e := event.(team := event.team + {profile})] &&
               SameOutside(c, d, e) && TablesOf(d, ids) == after.value)
  {
    var event := c.events[e];
    var larger, tables := event.team + {profile}, TablesOf(c, ids);
    forall k | 0 <= k < |ids|
      ensures Joined(c, e, profile, ids[k]) == ConvertedRun(event.policy, larger, tables[k], profile)
    {
    }
    if r :| 0 <= r < |c.runs| && Joined(c, e, profile, r).Raised? {
      var k :| 0 <= k < |ids| && ids[k] == r;
      assert ConvertedRun(event.policy, larger, tables[k], profile).Raised?;
    }
    if k :| 0 <= k < |tables| && ConvertedRun(event.policy, larger, tables[k], profile).Raised? {
      assert Joined(c, e, profile, ids[k]).Raised?;
    }
  }

  lemma StrandedAlike(c: Convention, e: nat, policy: Policy, ids: seq<nat>)
    requires c.WellFormed() && policy.Valid() && RunsOfEvent(c, e, ids)
    ensures ChangePolicy(policy, TablesOf(c, ids)).Some? <==>
            forall r :: 0 <= r < |c.runs| && c.runs[r].event == e ==> Stranded(policy, c.runs[r].signups) == []
  {
    var tables := TablesOf(c, ids);
    if r :| 0 <= r < |c.runs| && c.runs[r].event == e && Stranded(policy, c.runs[r].signups) != [] {
      var k :| 0 <= k < |ids| && ids[k] == r;
      assert Stranded(policy, tables[k]) != [];
    }
    if k :| 0 <= k < |tables| && Stranded(policy, tables[k]) != [] {
      assert Stranded(policy, c.runs[ids[k]].signups) != [];
    }
  }

  /** `ChangeService.Call` */
  lemma ChangeServiceIsChange(c: Convention, e: nat, policy: Policy, ids: seq<nat>)
    requires c.WellFormed() && e < |c.events| && policy.Valid() && RunsOfEvent(c, e, ids)
    ensures var after := ChangePolicy(policy, TablesOf(c, ids));
            (TryChange(c, e, policy).Some? <==> after.Some?) &&
            (TryChange(c, e, policy).Some? ==>
               var d := TryChange(c, e, policy).value;
               d.events == c.events[e := c.events[e].(policy := policy)] &&
               SameOutside(c, d, e) && TablesOf(d, ids) == after.value)
  {
    StrandedAlike(c, e, policy, ids);
    if TryChange(c, e, policy).Some? {
      var d, after := TryChange(c, e, policy).value, ChangedRuns(policy, TablesOf(c, ids));
      forall k | 0 <= k < |ids| ensures d.runs[ids[k]].signups == after[k] {
      }
    }
  }

  // ------------------------------------------------------------------------- services on records

  method SignUpOnRecords(ghost c: Convention, q: Request, run: RunRecord, policy: Policy, team: set<Profile>, allowed: bool)
    returns (created: SignupRecord?)
    requires c.WellFormed() && q.run < |c.runs| && run.Valid() && run.Table() == c.runs[q.run].signups
    requires policy == c.EventOf(q.run).policy && team == c.EventOf(q.run).team && allowed == AllowedElsewhere(c, q)
    modifies run, run.signups
    ensures created != null <==> TrySignUp(c, q).Some?
    ensures created != null ==> run.Valid() && TrySignUp(c, q) == Some(c.WithSignups(q.run, run.Table()))
  {
    SignupServiceIsSignUp(c, q);
    ghost var table := run.Table();
    var service := new SignupService(run, policy, team, q.profile, q.requested);
    assert run.Table() == table;
    created := service.Call(q.createdAt, allowed);
  }

  method WithdrawOnRecords(ghost c: Convention, w: Cancellation, run: RunRecord, signup: SignupRecord,
                           policy: Policy, team: set<Profile>) returns (ok: bool)
    requires c.WellFormed() && w.run < |c.runs| && run.Valid() && run.Table() == c.runs[w.run].signups
    requires policy == c.EventOf(w.run).policy && team == c.EventOf(w.run).team
    requires run.Has(signup) && signup.id == w.signup && w.admissible
    modifies run.signups
    ensures ok <==> TryCancel(c, w).Some?
    ensures ok ==> run.Valid() && TryCancel(c, w) == Some(c.WithSignups(w.run, run.Table()))
  {
    WithdrawServiceIsCancel(c, w);
    ghost var table := run.Table();
    var service := new WithdrawService(run, signup, policy, team);
    assert run.Table() == table;
    ok := service.Call();
  }

  /** The record of a request, and the step it asks for. */
  ghost predicate Requests(c: Convention, request: SignupRequestRecord, w: Cancellation, q: Request)
    reads request, request.target.run, request.target.run.signups, request.replacedVenue.run, request.replacedVenue.run.signups
    requires c.WellFormed() && request.Valid() && request.replaced != null
  {
    var target, venue := request.target, request.replacedVenue;
    q.run < |c.runs| && w.run < |c.runs| && w.admissible && w.signup == request.replaced.id &&
    target.run.Table() == c.runs[q.run].signups && venue.run.Table() == c.runs[w.run].signups &&
    (q.run == w.run <==> target.run == venue.run) &&
    target.policy == c.EventOf(q.run).policy && target.team == c.EventOf(q.run).team &&
    venue.policy == c.EventOf(w.run).policy && venue.team == c.EventOf(w.run).team &&
    request.profile == q.profile && request.requested == q.requested
  }

  /** `allowed` tells whether the signup may be made once the withdrawal is done. */
  method AcceptOnRecords(ghost c: Convention, request: SignupRequestRecord, w: Cancellation, q: Request, allowed: bool)
    returns (ok: bool)
    requires c.WellFormed() && request.Valid() && request.replaced != null && Requests(c, request, w, q)
    requires TryCancel(c, w).Some? ==> allowed == AllowedElsewhere(TryCancel(c, w).value, q)
    modifies request, request.target.run, request.target.run.signups, request.replacedVenue.run.signups
    ensures ok <==> Try(c, AcceptSignupRequest(Some(w), q)).Some?
    ensures ok ==>
              request.Valid() &&
              Try(c, AcceptSignupRequest(Some(w), q)) ==
              Some(if q.run == w.run then c.WithSignups(q.run, request.target.run.Table())
                   else c.WithSignups(w.run, request.replacedVenue.run.Table()).WithSignups(q.run, request.target.run.Table()))
  {
    AcceptIsBoth(c, w, q);
    WithdrawServiceIsCancel(c, w);
    ghost var withdrawn := AfterWithdrawal(request.replacedVenue.policy, request.replacedVenue.team,
                                           request.replacedVenue.run.Table(), Some(request.replaced.id));
    ok := Accept(request, q.createdAt, allowed);
    if ok && q.run == w.run {
      WithTwice(c, q.run, withdrawn.signups, request.target.run.Table());
    }
  }

  /** A request that replaces no signup. */
  method AcceptNewOnRecords(ghost c: Convention, request: SignupRequestRecord, q: Request, allowed: bool)
    returns (ok: bool)
    requires c.WellFormed() && request.Valid() && request.replaced == null && q.run < |c.runs|
    requires request.target.run.Table() == c.runs[q.run].signups && request.target.policy == c.EventOf(q.run).policy
    requires request.target.team == c.EventOf(q.run).team && request.profile == q.profile && request.requested == q.requested
    requires allowed == AllowedElsewhere(c, q)
    modifies request, request.target.run, request.target.run.signups, request.replacedVenue.run.signups
    ensures ok <==> Try(c, AcceptSignupRequest(None, q)).Some?
    ensures ok ==> request.Valid() &&
                   Try(c, AcceptSignupRequest(None, q)) == Some(c.WithSignups(q.run, request.target.run.Table()))
  {
    SignupServiceIsSignUp(c, q);
    ok := Accept(request, q.createdAt, allowed);
  }

  lemma WithTwice(c: Convention, r: nat, first: seq<Signup>, second: seq<Signup>)
    requires r < |c.runs|
    ensures c.WithSignups(r, first).WithSignups(r, second) == c.WithSignups(r, second)
  {
    assert c.WithSignups(r, first).WithSignups(r, second).runs == c.WithSignups(r, second).runs;
  }

  /** The record holds the event: its policy, its team and its runs. */
  ghost predicate HoldsEvent(c: Convention, e: nat, ids: seq<nat>, event: EventRecord)
    reads event, event.runs, event.Records()
    requires c.WellFormed()
  {
    e < |c.events| && RunsOfEvent(c, e, ids) && event.Valid() && event.Tables() == TablesOf(c, ids) &&
    event.policy == c.events[e].policy && event.team == c.events[e].team
  }

  method JoinOnRecords(ghost c: Convention, ghost e: nat, ghost ids: seq<nat>, event: EventRecord, profile: Profile)
    returns (ok: bool)
    requires c.WellFormed() && HoldsEvent(c, e, ids, event)
    modifies event`team, event.Records()
    ensures ok <==> TryJoin(c, e, profile).Some?
    ensures ok ==>
              var d := TryJoin(c, e, profile).value;
              SameOutside(c, d, e) && event.Valid() && event.Tables() == TablesOf(d, ids) && event.team == d.events[e].team
  {
    CreateTeamMemberIsJoin(c, e, profile, ids);
    ghost var tables := event.Tables();
    var service := new CreateTeamMemberService(event, profile);
    assert event.Tables() == tables;
    ok := service.Call();
  }

  method ChangeOnRecords(ghost c: Convention, ghost e: nat, ghost ids: seq<nat>, event: EventRecord, policy: Policy)
    returns (ok: bool)
    requires c.WellFormed() && HoldsEvent(c, e, ids, event) && policy.Valid()
    modifies event`policy, event.Records()
    ensures ok <==> TryChange(c, e, policy).Some?
    ensures ok ==>
              var d := TryChange(c, e, policy).value;
              SameOutside(c, d, e) && event.Valid() && event.Tables() == TablesOf(d, ids) && event.policy == d.events[e].policy
  {
    ChangeServiceIsChange(c, e, policy, ids);
    ghost var tables := event.Tables();
    var service := new PolicyChangeService.ChangeService(event, policy);
    assert event.Tables() == tables;
    ok := service.Call();
  }
}
